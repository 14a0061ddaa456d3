/**
 The one-shot resynchronization request of gui/src/App.tsx. The effect runs after a
 render whose client or connection differs from the render before it.
 */
module ResyncLatch {
  import opened ClientState

  /** What a render shows the effect: which client, whether that client can be asked, and the connection. */
  datatype Render = Render(client: nat, canRequest: bool, connection: Connection)

  /** `resyncRequestedRef`, and the renders after which a request was made. */
  datatype Latch = Latch(requested: bool, requests: seq<nat>)

  function AfterRender(latch: Latch, renders: seq<Render>): Latch
    requires renders != []
  {
    var n := |renders| - 1;
    var now := renders[n];
    if n > 0 && now.client == renders[n - 1].client && now.connection == renders[n - 1].connection then latch
    else if !now.connection.ResyncRequired? then latch.(requested := false)
    else if !now.canRequest || latch.requested then latch
    else Latch(true, latch.requests + [n])
  }

  function RunEffect(renders: seq<Render>): Latch {
    if renders == [] then Latch(false, []) else AfterRender(RunEffect(renders[..|renders| - 1]), renders)
  }

  /** The effect itself: the ref it latches, and the requests it has made so far. */
  class ResyncEffect {
    var requested: bool
    var requests: seq<nat>

    function State(): Latch
      reads this
    {
      Latch(requested, requests)
    }

    constructor ()
      ensures State() == RunEffect([])
    {
      requested, requests := false, [];
    }

    /** Render number `|renders| - 1` has been committed. */
    method Rendered(renders: seq<Render>)
      requires renders != [] && State() == RunEffect(renders[..|renders| - 1])
      modifies this
      ensures State() == RunEffect(renders)
    {
      var n := |renders| - 1;
      if n > 0 && renders[n].client == renders[n - 1].client && renders[n].connection == renders[n - 1].connection {
        return;
      }
      if !renders[n].connection.ResyncRequired? {
        requested := false;
        return;
      }
      if !renders[n].canRequest || requested {
        return;
      }
      requested := true;
      requests := requests + [n];
    }
  }

  /** The renders up to and including `i` that need resynchronization without a break, one of
      which showed a client that can be asked. */
  predicate Askable(renders: seq<Render>, i: nat)
    requires i < |renders|
  {
    renders[i].connection.ResyncRequired? && (renders[i].canRequest || (i > 0 && Askable(renders, i - 1)))
  }

  /** Render `i` is the first of its unbroken stretch at which anybody can be asked. */
  predicate FirstChance(renders: seq<Render>, i: nat)
    requires i < |renders|
  {
    Askable(renders, i) && !(i > 0 && Askable(renders, i - 1))
  }

  /** A client can be asked or cannot; it does not change its mind. */
  ghost predicate Consistent(renders: seq<Render>) {
    forall i, j :: 0 <= i < |renders| && 0 <= j < |renders| && renders[i].client == renders[j].client
                   ==> renders[i].canRequest == renders[j].canRequest
  }

  lemma {:induction false} AskablePrefix(renders: seq<Render>, n: nat, i: nat)
    requires i < n <= |renders|
    ensures Askable(renders[..n], i) == Askable(renders, i)
  {
    if i > 0 {
      AskablePrefix(renders, n, i - 1);
    }
  }

  /** For every sequence of renders and clients: a request is made at exactly the first chance
      of each stretch. */
  lemma {:induction false} RequestsAtFirstChance(renders: seq<Render>)
    requires Consistent(renders)
    ensures forall i: nat :: i in RunEffect(renders).requests <==> i < |renders| && FirstChance(renders, i)
    ensures renders != [] ==> RunEffect(renders).requested == Askable(renders, |renders| - 1)
  {
    if renders != [] {
      var n := |renders| - 1;
      var shorter := renders[..n];
      RequestsAtFirstChance(shorter);
      forall i: nat | i < n
        ensures Askable(shorter, i) == Askable(renders, i)
      {
        AskablePrefix(renders, n, i);
      }
    }
  }

  lemma {:induction false} AskableCarries(renders: seq<Render>, i: nat, j: nat)
    requires i <= j < |renders| && Askable(renders, i)
    requires forall k :: i < k <= j ==> renders[k].connection.ResyncRequired?
    ensures Askable(renders, j)
  {
    if i < j {
      AskableCarries(renders, i, j - 1);
    }
  }

  /** Two requests are always separated by a render that no longer needed one. */
  lemma OneRequestPerStretch(renders: seq<Render>, i: nat, j: nat)
    requires Consistent(renders)
    requires i in RunEffect(renders).requests && j in RunEffect(renders).requests && i < j
    ensures j < |renders| && exists k :: i < k < j && !renders[k].connection.ResyncRequired?
  {
    hide RunEffect, Consistent, FirstChance;
    RequestsAtFirstChance(renders);
    assert FirstChance(renders, i) && FirstChance(renders, j);
    ChancesApart(renders, i, j);
  }

  lemma ChancesApart(renders: seq<Render>, i: nat, j: nat)
    requires i < j < |renders| && FirstChance(renders, i) && FirstChance(renders, j)
    ensures exists k :: i < k < j && !renders[k].connection.ResyncRequired?
  {
    hide Askable;
    if forall k :: i < k < j ==> renders[k].connection.ResyncRequired? {
      AskableCarries(renders, i, j - 1);
    }
  }
}
