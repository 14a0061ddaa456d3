/**
 Loading the capability catalog (scripts/generate_harness_capability_catalog.py): the declared
 seams must cover exactly the definitions found in the source tree, every seam must check out,
 no two may carry the same capability contract, and the entries come out sorted by it.
 */
module Catalog {
  import opened Options
  import opened TextOrder
  import Discovery

  datatype Consumer = Consumer(reference: string, requirements: seq<string>)
  datatype Seam = Seam(definition: string, providers: seq<string>, consumers: seq<Consumer>, mounts: seq<string>)
  datatype Definition = Definition(capability: string, version: int)
  datatype Entry = Entry(seam: Seam, definition: Definition)

  datatype Failure = Coverage(missing: set<string>, stale: set<string>) | WrongType(reference: string) | Duplicate(definition: Definition) | Unsound(seam: Seam) | Undeclared
  datatype Result = Loaded(entries: seq<Entry>) | Failed(failure: Failure)

  /** What importing a symbol yields: nothing, or a value that may be a definition, the requirement
      of a capability, or callable. */
  datatype Value = Missing | Value(definition: Option<Definition>, requirement: Option<string>, callable: bool)

  /** The source tree: what a reference imports, and the syntax of a module. */
  datatype Tree = Tree(value: string -> Value, syntax: string -> Option<Discovery.Node>)

  function Resolved(tree: Tree, reference: string): Option<Definition> {
    if tree.value(reference).Missing? then None else tree.value(reference).definition
  }

  predicate IsCallable(tree: Tree, reference: string) {
    tree.value(reference).Value? && tree.value(reference).callable
  }

  function Declared(seams: seq<Seam>): (refs: set<string>)
    ensures forall s :: s in seams ==> s.definition in refs
    ensures forall r :: r in refs ==> exists s :: s in seams && s.definition == r
  {
    set s | s in seams :: s.definition
  }

  // ------------------------------------------------------------------ the order

  predicate Before(a: Definition, b: Definition) {
    TextBefore(a.capability, b.capability) || (a.capability == b.capability && a.version < b.version)
  }

  lemma Total(a: Definition, b: Definition)
    ensures a == b || Before(a, b) || Before(b, a)
    ensures !(Before(a, b) && Before(b, a)) && !Before(a, a)
  {
    TextTotal(a.capability, b.capability);
    TextTotal(a.capability, a.capability);
  }

  lemma Transitive(a: Definition, b: Definition, c: Definition)
    requires Before(a, b) && Before(b, c)
    ensures Before(a, c)
  {
    if TextBefore(a.capability, b.capability) && TextBefore(b.capability, c.capability) {
      TextTransitive(a.capability, b.capability, c.capability);
    }
  }

  predicate Sorted(es: seq<Entry>) {
    forall i, j :: 0 <= i < j < |es| ==> !Before(es[j].definition, es[i].definition)
  }

  predicate StrictlySorted(es: seq<Entry>) {
    forall i, j :: 0 <= i < j < |es| ==> Before(es[i].definition, es[j].definition)
  }

  /** The sort: each entry goes behind those not after it, so equal keys would keep their order. */
  function Insert(es: seq<Entry>, e: Entry): (r: seq<Entry>)
    ensures multiset(r) == multiset(es) + multiset{e}
  {
    if es == [] || !Before(e.definition, es[|es| - 1].definition) then es + [e]
    else
      assert es == es[..|es| - 1] + [es[|es| - 1]];
      Insert(es[..|es| - 1], e) + [es[|es| - 1]]
  }

  function Sort(es: seq<Entry>): (r: seq<Entry>)
    ensures multiset(r) == multiset(es)
  {
    if es == [] then []
    else
      assert es == es[..|es| - 1] + [es[|es| - 1]];
      Insert(Sort(es[..|es| - 1]), es[|es| - 1])
  }

  lemma {:induction false} InsertSorted(es: seq<Entry>, e: Entry)
    requires Sorted(es)
    ensures Sorted(Insert(es, e))
  {
    hide Sorted;
    if es == [] || !Before(e.definition, es[|es| - 1].definition) {
      AppendSorted(es, e);
    } else {
      var front, last := es[..|es| - 1], es[|es| - 1];
      FrontSorted(es);
      InsertSorted(front, e);
      LastStays(es, Insert(front, e), e);
    }
  }

  lemma FrontSorted(es: seq<Entry>)
    requires Sorted(es) && es != []
    ensures Sorted(es[..|es| - 1])
  {
    hide Before;
  }

  lemma AppendSorted(es: seq<Entry>, e: Entry)
    requires Sorted(es) && (es == [] || !Before(e.definition, es[|es| - 1].definition))
    ensures Sorted(es + [e])
  {
    hide Before;
    forall i | 0 <= i < |es| ensures !Before(e.definition, es[i].definition) {
      if i < |es| - 1 && Before(e.definition, es[i].definition) {
        NotAfter(e.definition, es[i].definition, es[|es| - 1].definition);
      }
    }
  }

  /** The last entry stays last when one that comes before it is put among the others. */
  lemma LastStays(es: seq<Entry>, inserted: seq<Entry>, e: Entry)
    requires Sorted(es) && es != [] && Sorted(inserted) && Before(e.definition, es[|es| - 1].definition)
    requires multiset(inserted) == multiset(es[..|es| - 1]) + multiset{e}
    ensures Sorted(inserted + [es[|es| - 1]])
  {
    hide Before;
    var last := es[|es| - 1];
    forall i | 0 <= i < |inserted| ensures !Before(last.definition, inserted[i].definition) {
      assert inserted[i] in multiset(inserted);
      Total(e.definition, last.definition);
      if inserted[i] != e {
        assert inserted[i] in es[..|es| - 1];
      }
    }
  }

  lemma NotAfter(a: Definition, b: Definition, c: Definition)
    requires Before(a, b) && !Before(c, b)
    ensures Before(a, c)
  {
    Total(b, c);
    if b != c {
      Transitive(a, b, c);
    }
  }

  lemma {:induction false} SortSorts(es: seq<Entry>)
    ensures Sorted(Sort(es))
  {
    if es != [] {
      SortSorts(es[..|es| - 1]);
      InsertSorted(Sort(es[..|es| - 1]), es[|es| - 1]);
    }
  }

  /** A list is settled by its contents once it is strictly sorted. */
  lemma {:induction false} SortedOnce(a: seq<Entry>, b: seq<Entry>)
    requires StrictlySorted(a) && StrictlySorted(b) && multiset(a) == multiset(b)
    ensures a == b
  {
    hide StrictlySorted;
    SameSize(a, b);
    if a != [] {
      LastAgrees(a, b);
      var n := |a| - 1;
      Front(a);
      Front(b);
      SortedOnce(a[..n], b[..n]);
    }
  }

  lemma SameSize(a: seq<Entry>, b: seq<Entry>)
    requires multiset(a) == multiset(b)
    ensures |a| == |b|
  {
    assert |multiset(a)| == |a| && |multiset(b)| == |b|;
  }

  lemma Front(es: seq<Entry>)
    requires StrictlySorted(es) && es != []
    ensures var n := |es| - 1;
            && es == es[..n] + [es[n]] && StrictlySorted(es[..n]) && multiset(es[..n]) == multiset(es) - multiset{es[n]}
  {
    assert es == es[..|es| - 1] + [es[|es| - 1]];
  }

  lemma LastAgrees(a: seq<Entry>, b: seq<Entry>)
    requires StrictlySorted(a) && StrictlySorted(b) && multiset(a) == multiset(b)
    requires |a| == |b| > 0
    ensures a[|a| - 1] == b[|b| - 1]
  {
    hide Before;
    var x, y := a[|a| - 1], b[|b| - 1];
    assert x in multiset(a) && y in multiset(b);
    assert x in multiset(b) && y in multiset(a);
    var i :| 0 <= i < |b| && b[i] == x;
    var j :| 0 <= j < |a| && a[j] == y;
    Total(x.definition, y.definition);
  }

  // ------------------------------------------------------------- what a seam needs

  /** The text before the first colon and the text after it, if there is one and neither is empty. */
  function Parts(reference: string): Option<(string, string)> {
    var at := Colon(reference);
    if at == 0 || at + 1 >= |reference| then None else Some((reference[..at], reference[at + 1..]))
  }

  function Colon(text: string): (at: nat)
    ensures at <= |text| && (at < |text| ==> text[at] == ':')
    ensures forall i :: 0 <= i < at ==> text[i] != ':'
  {
    if text == [] || text[0] == ':' then 0 else Colon(text[1..]) + 1
  }

  function Syntax(tree: Tree, reference: string): Option<Discovery.Node> {
    if Parts(reference).None? then None else tree.syntax(Parts(reference).value.0)
  }

  /** `_validate_providers`: there is one, and each is callable and in a module that constructs a
      bundle provider with the definition's symbol. */
  predicate ProvidersHold(tree: Tree, s: Seam) {
    && s.providers != [] && Parts(s.definition).Some?
    && forall i :: 0 <= i < |s.providers| ==>
                     && IsCallable(tree, s.providers[i]) && Syntax(tree, s.providers[i]).Some?
                     && Discovery.CallsWith(Syntax(tree, s.providers[i]).value, "CapabilityBundleProvider", Parts(s.definition).value.1)
  }

  predicate RequirementHolds(tree: Tree, consumer: string, reference: string, d: Definition)
    requires Syntax(tree, consumer).Some?
  {
    && tree.value(reference).Value? && tree.value(reference).requirement == Some(d.capability)
    && Parts(reference).Some? && Discovery.Mentions(Syntax(tree, consumer).value, Parts(reference).value.1)
  }

  /** `_validate_consumers`: there is one, and each is callable and has requirements, all of them of
      this capability and mentioned in the consumer's module. */
  predicate ConsumersHold(tree: Tree, s: Seam, d: Definition) {
    && s.consumers != []
    && forall i :: 0 <= i < |s.consumers| ==>
                     && IsCallable(tree, s.consumers[i].reference) && s.consumers[i].requirements != []
                     && Syntax(tree, s.consumers[i].reference).Some?
                     && forall k :: 0 <= k < |s.consumers[i].requirements| ==>
                                      RequirementHolds(tree, s.consumers[i].reference, s.consumers[i].requirements[k], d)
  }

  /** `_validate_production_mounts`. */
  predicate MountsHold(tree: Tree, s: Seam) {
    forall i :: 0 <= i < |s.mounts| ==> IsCallable(tree, s.mounts[i])
  }

  predicate Sound(tree: Tree, s: Seam, d: Definition) {
    ProvidersHold(tree, s) && ConsumersHold(tree, s, d) && MountsHold(tree, s)
  }

  /** A reference splits at its first colon, with something on either side. */
  lemma PartsIff(reference: string, m: string, symbol: string)
    ensures Parts(reference) == Some((m, symbol)) <==>
            reference == m + ":" + symbol && m != "" && symbol != "" && ':' !in m
  {
    var at := Colon(reference);
    if reference == m + ":" + symbol && ':' !in m {
      assert reference[|m|] == ':';
      assert forall i :: 0 <= i < |m| ==> reference[i] == m[i];
      assert at == |m| && reference[..at] == m && reference[at + 1..] == symbol;
    }
    if Parts(reference) == Some((m, symbol)) {
      assert reference == reference[..at] + ":" + reference[at + 1..];
      assert forall i :: 0 <= i < |m| ==> m[i] == reference[i];
    }
  }

  /** What a seam needs, all of it, in terms of what its references import and what is in their modules. */
  lemma SoundIff(tree: Tree, s: Seam, d: Definition)
    ensures Sound(tree, s, d) <==>
            && |s.providers| > 0 && |s.consumers| > 0 && Parts(s.definition).Some?
            && (forall p :: p in s.providers ==>
                  && tree.value(p) != Missing && tree.value(p).callable
                  && Parts(p).Some? && tree.syntax(Parts(p).value.0).Some?
                  && Discovery.CallsWith(tree.syntax(Parts(p).value.0).value, "CapabilityBundleProvider", Parts(s.definition).value.1))
            && (forall c :: c in s.consumers ==>
                  && tree.value(c.reference) != Missing && tree.value(c.reference).callable && |c.requirements| > 0
                  && Parts(c.reference).Some? && tree.syntax(Parts(c.reference).value.0).Some?
                  && forall r :: r in c.requirements ==>
                       && tree.value(r) != Missing && tree.value(r).requirement == Some(d.capability)
                       && Parts(r).Some? && Discovery.Mentions(tree.syntax(Parts(c.reference).value.0).value, Parts(r).value.1))
            && (forall m :: m in s.mounts ==> tree.value(m) != Missing && tree.value(m).callable)
  {
    hide Parts, Discovery.CallsWith, Discovery.Mentions;
  }

  // -------------------------------------------------------------------- loading

  /** A seam with the definition it names; the placeholder never shows in a loaded catalog. */
  function EntryOf(tree: Tree, s: Seam): Entry {
    Entry(s, if Resolved(tree, s.definition).Some? then Resolved(tree, s.definition).value else Definition("", 0))
  }

  predicate Checks(tree: Tree, s: Seam) {
    Resolved(tree, s.definition).Some? && Sound(tree, s, Resolved(tree, s.definition).value)
  }

  function Entries(tree: Tree, seams: seq<Seam>): (es: seq<Entry>)
    ensures |es| == |seams| && forall i :: 0 <= i < |seams| ==> es[i] == EntryOf(tree, seams[i])
  {
    seq(|seams|, i requires 0 <= i < |seams| => EntryOf(tree, seams[i]))
  }

  predicate Apart(tree: Tree, seams: seq<Seam>) {
    forall i, j :: 0 <= i < j < |seams| ==> Resolved(tree, seams[i].definition) != Resolved(tree, seams[j].definition)
  }

  /** What the catalog asks of the declared seams. */
  predicate Loadable(tree: Tree, discovered: set<string>, seams: seq<Seam>) {
    && Declared(seams) == discovered
    && (forall s :: s in seams ==> Checks(tree, s))
    && Apart(tree, seams)
  }

  /** One entry a seam, in strict order of the contracts. */
  predicate Catalogs(tree: Tree, seams: seq<Seam>, es: seq<Entry>) {
    StrictlySorted(es) && multiset(es) == multiset(Entries(tree, seams))
  }

  /** `load_catalog_entries` once the definitions are found. */
  method LoadCatalogEntries(tree: Tree, discovered: set<string>, seams: seq<Seam>) returns (r: Result)
    ensures r.Loaded? <==> Loadable(tree, discovered, seams)
    ensures r.Loaded? ==> Catalogs(tree, seams, r.entries)
    ensures r.Failed? && r.failure.Coverage? <==> Declared(seams) != discovered
    ensures r.Failed? ==> !r.failure.Undeclared?
    ensures r.Failed? && r.failure.Coverage? ==>
              r.failure == Coverage(discovered - Declared(seams), Declared(seams) - discovered)
  {
    hide TextBefore, Before, Sort, Gathered, Apart, Sorted, StrictlySorted;
    var declared := Declared(seams);
    if discovered != declared {
      return Failed(Coverage(discovered - declared, declared - discovered));
    }
    var loaded: seq<Entry> := [];
    var versions: set<Definition> := {};
    NoneGathered(tree);
    for i := 0 to |seams|
      invariant Gathered(tree, seams[..i], loaded, versions)
    {
      var seam := seams[i];
      var definition := Resolved(tree, seam.definition);
      if definition.None? {
        Refused(tree, seams, i);
        return Failed(WrongType(seam.definition));
      }
      if definition.value in versions {
        Repeated(tree, seams, i, loaded, versions);
        return Failed(Duplicate(definition.value));
      }
      if !Sound(tree, seam, definition.value) {
        Refused(tree, seams, i);
        return Failed(Unsound(seam));
      }
      GatheredOne(tree, seams, i, loaded, versions);
      versions := versions + {definition.value};
      loaded := loaded + [Entry(seam, definition.value)];
    }
    assert seams[..|seams|] == seams;
    AllGathered(tree, seams, loaded, versions);
    SortSorts(loaded);
    SortedStrictly(tree, seams, Sort(loaded));
    r := Loaded(Sort(loaded));
  }

  /** `load_catalog_entries`: it succeeds exactly when every definition constructed in the source is
      the whole value of a module-level assignment and the seams meet what is asked of them. */
  method LoadCatalog(tree: Tree, files: seq<Discovery.File>, seams: seq<Seam>) returns (r: Result)
    ensures r.Loaded? <==>
            (forall f :: f in files ==> Discovery.AllAssigned(f)) && Loadable(tree, Discovery.AllRefs(files), seams)
    ensures r.Loaded? ==> Catalogs(tree, seams, r.entries)
    ensures r.Failed? && r.failure.Undeclared? <==> exists f :: f in files && !Discovery.AllAssigned(f)
  {
    hide Discovery.AllAssigned, Discovery.AllRefs, Loadable, Catalogs;
    var discovered := Discovery.DiscoverDefinitionRefs(files);
    if discovered.None? {
      return Failed(Undeclared);
    }
    r := LoadCatalogEntries(tree, discovered.value, seams);
  }

  /** The loop so far: an entry for each seam seen, and their contracts, all different. */
  ghost predicate Gathered(tree: Tree, seen: seq<Seam>, loaded: seq<Entry>, versions: set<Definition>) {
    && (forall s :: s in seen ==> Checks(tree, s))
    && loaded == Entries(tree, seen)
    && (forall v :: v in versions <==> exists k :: 0 <= k < |loaded| && loaded[k].definition == v)
    && Apart(tree, seen)
  }

  lemma NoneGathered(tree: Tree)
    ensures Gathered(tree, [], [], {})
  {
  }

  lemma AllGathered(tree: Tree, seams: seq<Seam>, loaded: seq<Entry>, versions: set<Definition>)
    requires Gathered(tree, seams, loaded, versions)
    ensures loaded == Entries(tree, seams) && Apart(tree, seams) && forall s :: s in seams ==> Checks(tree, s)
  {
  }

  lemma GatheredOne(tree: Tree, seams: seq<Seam>, i: nat, loaded: seq<Entry>, versions: set<Definition>)
    requires i < |seams| && Gathered(tree, seams[..i], loaded, versions) && Checks(tree, seams[i])
    requires Resolved(tree, seams[i].definition).value !in versions
    ensures Gathered(tree, seams[..i + 1], loaded + [EntryOf(tree, seams[i])],
                     versions + {Resolved(tree, seams[i].definition).value})
  {
    var next := loaded + [EntryOf(tree, seams[i])];
    assert next == Entries(tree, seams[..i + 1]);
    assert seams[..i + 1] == seams[..i] + [seams[i]];
    assert next[i].definition == Resolved(tree, seams[i].definition).value;
    forall k | 0 <= k < i ensures Resolved(tree, seams[k].definition) != Resolved(tree, seams[i].definition) {
      assert Checks(tree, seams[..i][k]);
      assert loaded[k].definition in versions;
    }
    forall v ensures v in versions + {next[i].definition} <==> exists k :: 0 <= k < |next| && next[k].definition == v {
      if k :| 0 <= k < |loaded| && loaded[k].definition == v {
        assert next[k].definition == v;
      }
    }
  }

  lemma Refused(tree: Tree, seams: seq<Seam>, i: nat)
    requires i < |seams| && !Checks(tree, seams[i])
    ensures exists s :: s in seams && !Checks(tree, s)
  {
    assert seams[i] in seams;
  }

  lemma Repeated(tree: Tree, seams: seq<Seam>, i: nat, loaded: seq<Entry>, versions: set<Definition>)
    requires i < |seams| && Gathered(tree, seams[..i], loaded, versions)
    requires Resolved(tree, seams[i].definition).Some? && Resolved(tree, seams[i].definition).value in versions
    ensures !Apart(tree, seams)
  {
    var k :| 0 <= k < |loaded| && loaded[k].definition == Resolved(tree, seams[i].definition).value;
    assert Checks(tree, seams[..i][k]);
    assert Resolved(tree, seams[k].definition) == Resolved(tree, seams[i].definition);
  }

  /** Distinct contracts make the sorted order strict. */
  lemma SortedStrictly(tree: Tree, seams: seq<Seam>, es: seq<Entry>)
    requires forall s :: s in seams ==> Checks(tree, s)
    requires Apart(tree, seams)
    requires Sorted(es) && multiset(es) == multiset(Entries(tree, seams))
    ensures StrictlySorted(es)
  {
    hide Before;
    forall i, j | 0 <= i < j < |es|
      ensures Before(es[i].definition, es[j].definition)
    {
      Total(es[i].definition, es[j].definition);
      if es[i].definition == es[j].definition {
        SamePlace(tree, seams, es, i, j);
      }
    }
  }

  /** Two places of a permutation of the entries never hold the same contract. */
  lemma SamePlace(tree: Tree, seams: seq<Seam>, es: seq<Entry>, i: nat, j: nat)
    requires forall s :: s in seams ==> Checks(tree, s)
    requires Apart(tree, seams)
    requires multiset(es) == multiset(Entries(tree, seams))
    requires i < j < |es|
    ensures es[i].definition != es[j].definition
  {
    var all := Entries(tree, seams);
    assert es[i] in multiset(es) && es[j] in multiset(es);
    assert es[i] in multiset(all) && es[j] in multiset(all);
    if es[i] == es[j] {
      Twice(es, i, j);
      NeverTwice(tree, seams, es[i]);
    } else {
      var x :| 0 <= x < |all| && all[x] == es[i];
      var y :| 0 <= y < |all| && all[y] == es[j];
      assert x != y;
      assert Checks(tree, seams[x]) && Checks(tree, seams[y]);
    }
  }

  lemma Twice(es: seq<Entry>, i: nat, j: nat)
    requires i < j < |es| && es[i] == es[j]
    ensures multiset(es)[es[i]] >= 2
  {
    assert es == es[..i] + [es[i]] + es[i + 1..j] + [es[j]] + es[j + 1..];
  }

  lemma {:induction false} NeverTwice(tree: Tree, seams: seq<Seam>, e: Entry)
    requires forall s :: s in seams ==> Checks(tree, s)
    requires Apart(tree, seams)
    ensures multiset(Entries(tree, seams))[e] <= 1
  {
    if seams != [] {
      var n := |seams| - 1;
      var front := seams[..n];
      NeverTwice(tree, front, e);
      assert Entries(tree, seams) == Entries(tree, front) + [EntryOf(tree, seams[n])];
      if e == EntryOf(tree, seams[n]) {
        assert Checks(tree, seams[n]);
        forall k | 0 <= k < n ensures Entries(tree, front)[k] != e {
          assert Checks(tree, seams[k]);
        }
      }
    }
  }

  /** Of two entries of a catalog the earlier has the smaller version of one capability, or the
      capability whose name is smaller at the first difference. */
  lemma InOrder(es: seq<Entry>, i: nat, j: nat)
    requires StrictlySorted(es) && i < j < |es|
    ensures var a, b := es[i].definition, es[j].definition;
            if a.capability == b.capability then a.version < b.version
            else exists k: nat :: DiffersAt(a.capability, b.capability, k)
  {
    hide TextBefore;
    BeforeIff(es[i].definition.capability, es[j].definition.capability);
    TextTotal(es[i].definition.capability, es[j].definition.capability);
  }

  /** Coverage: the entries and the discovered definitions correspond one to one. */
  lemma EveryDefinitionOnce(tree: Tree, discovered: set<string>, seams: seq<Seam>, es: seq<Entry>)
    requires Loadable(tree, discovered, seams)
    requires multiset(es) == multiset(Entries(tree, seams))
    ensures forall i :: 0 <= i < |es| ==> es[i].seam.definition in discovered
    ensures forall r :: r in discovered ==> exists i :: 0 <= i < |es| && es[i].seam.definition == r
    ensures forall i, j :: 0 <= i < j < |es| ==> es[i].seam.definition != es[j].seam.definition
  {
    var all := Entries(tree, seams);
    forall i | 0 <= i < |es|
      ensures es[i].seam.definition in discovered && Resolved(tree, es[i].seam.definition) == Some(es[i].definition)
    {
      assert es[i] in multiset(es);
      assert es[i] in multiset(all);
    }
    forall r | r in discovered ensures exists i :: 0 <= i < |es| && es[i].seam.definition == r {
      var s :| s in seams && s.definition == r;
      var k :| 0 <= k < |seams| && seams[k] == s;
      assert all[k] in multiset(all);
      assert all[k] in multiset(es);
    }
    forall i, j | 0 <= i < j < |es| ensures es[i].seam.definition != es[j].seam.definition {
      SamePlace(tree, seams, es, i, j);
    }
  }

  /** The order in which the seams are declared does not matter: the load succeeds or fails alike,
      and when it succeeds the entries are the same list. */
  lemma OrderIndependent(tree: Tree, discovered: set<string>, a: seq<Seam>, b: seq<Seam>)
    requires multiset(a) == multiset(b)
    ensures Loadable(tree, discovered, a) <==> Loadable(tree, discovered, b)
    ensures forall x, y :: Catalogs(tree, a, x) && Catalogs(tree, b, y) ==> x == y
  {
    if Loadable(tree, discovered, a) {
      LoadableEither(tree, discovered, a, b);
    }
    if Loadable(tree, discovered, b) {
      LoadableEither(tree, discovered, b, a);
    }
    EntriesMultiset(tree, a, b);
    forall x, y | Catalogs(tree, a, x) && Catalogs(tree, b, y) ensures x == y {
      SortedOnce(x, y);
    }
  }

  lemma SameMembers(a: seq<Seam>, b: seq<Seam>)
    requires multiset(a) == multiset(b)
    ensures forall s :: s in a <==> s in b
  {
    forall s ensures s in a <==> s in b {
      assert s in multiset(a) <==> s in multiset(b);
    }
  }

  lemma LoadableEither(tree: Tree, discovered: set<string>, a: seq<Seam>, b: seq<Seam>)
    requires multiset(a) == multiset(b) && Loadable(tree, discovered, a)
    ensures Loadable(tree, discovered, b)
  {
    SameMembers(a, b);
    assert Declared(a) == Declared(b);
    forall i, j | 0 <= i < j < |b| ensures Resolved(tree, b[i].definition) != Resolved(tree, b[j].definition) {
      EntriesMultiset(tree, a, b);
      SamePlace(tree, a, Entries(tree, b), i, j);
    }
  }

  /** Permuted seams give permuted entries. */
  lemma {:induction false} EntriesMultiset(tree: Tree, a: seq<Seam>, b: seq<Seam>)
    requires multiset(a) == multiset(b)
    ensures multiset(Entries(tree, a)) == multiset(Entries(tree, b))
  {
    assert |multiset(a)| == |a| && |multiset(b)| == |b|;
    if a != [] {
      SameMembers(a, b);
      assert a[0] in b;
      var k :| 0 <= k < |b| && b[k] == a[0];
      TakenOut(tree, a, 0);
      TakenOut(tree, b, k);
      assert multiset(Without(a, 0)) == multiset(a) - multiset{a[0]};
      assert multiset(Without(b, k)) == multiset(b) - multiset{a[0]};
      EntriesMultiset(tree, Without(a, 0), Without(b, k));
    }
  }

  function Without(seams: seq<Seam>, k: nat): seq<Seam>
    requires k < |seams|
  {
    seams[..k] + seams[k + 1..]
  }

  lemma TakenOut(tree: Tree, seams: seq<Seam>, k: nat)
    requires k < |seams|
    ensures |Without(seams, k)| == |seams| - 1
    ensures multiset(seams) == multiset(Without(seams, k)) + multiset{seams[k]}
    ensures multiset(Entries(tree, seams)) == multiset(Entries(tree, Without(seams, k))) + multiset{EntryOf(tree, seams[k])}
  {
    var es := Entries(tree, seams);
    assert seams == seams[..k] + [seams[k]] + seams[k + 1..];
    assert Entries(tree, Without(seams, k)) == es[..k] + es[k + 1..];
    assert es == es[..k] + [es[k]] + es[k + 1..];
  }
}
