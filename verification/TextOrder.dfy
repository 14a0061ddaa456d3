/** The order of texts that comparing strings gives, in JavaScript and in Python. */
module TextOrder {
  /** The first difference decides; a proper prefix comes first. */
  predicate TextBefore(a: string, b: string) {
    if b == [] then false
    else if a == [] then true
    else if a[0] != b[0] then a[0] < b[0]
    else TextBefore(a[1..], b[1..])
  }

  lemma {:induction false} TextTotal(a: string, b: string)
    ensures a == b || TextBefore(a, b) || TextBefore(b, a)
    ensures !(TextBefore(a, b) && TextBefore(b, a)) && !TextBefore(a, a)
  {
    if a != [] {
      TextTotal(a[1..], a[1..]);
      if b != [] {
        TextTotal(a[1..], b[1..]);
        assert a == [a[0]] + a[1..] && b == [b[0]] + b[1..];
      }
    }
  }

  lemma {:induction false} TextTransitive(a: string, b: string, c: string)
    requires TextBefore(a, b) && TextBefore(b, c)
    ensures TextBefore(a, c)
  {
    if a != [] && b != [] && c != [] && a[0] == b[0] && b[0] == c[0] {
      TextTransitive(a[1..], b[1..], c[1..]);
    }
  }

  /** The first `k` characters are the same, and there `a` ends or has the smaller one. */
  predicate DiffersAt(a: string, b: string, k: nat) {
    k <= |a| && k < |b| && a[..k] == b[..k] && (k == |a| || a[k] < b[k])
  }

  lemma BeforeIff(a: string, b: string)
    ensures TextBefore(a, b) <==> exists k: nat :: DiffersAt(a, b, k)
  {
    if TextBefore(a, b) {
      var k := FirstDifference(a, b);
    }
    if k: nat :| DiffersAt(a, b, k) {
      DifferenceDecides(a, b, k);
    }
  }

  lemma {:induction false} FirstDifference(a: string, b: string) returns (k: nat)
    requires TextBefore(a, b)
    ensures DiffersAt(a, b, k)
  {
    k := 0;
    if a != [] && a[0] == b[0] {
      k := FirstDifference(a[1..], b[1..]);
      assert a[..k + 1] == [a[0]] + a[1..][..k] && b[..k + 1] == [b[0]] + b[1..][..k];
      k := k + 1;
    }
  }

  lemma {:induction false} DifferenceDecides(a: string, b: string, k: nat)
    requires DiffersAt(a, b, k)
    ensures TextBefore(a, b)
  {
    if k > 0 {
      assert a[..k][0] == b[..k][0];
      assert a[1..][..k - 1] == a[..k][1..] && b[1..][..k - 1] == b[..k][1..];
      DifferenceDecides(a[1..], b[1..], k - 1);
    }
  }
}
