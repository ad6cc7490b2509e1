/** Runs without node references: exactly when the nets are the chains of connect calls. */
module ConnectChains {
  import opened Prelude
  import opened Chains
  import opened Placements
  import opened Builder
  import opened BuilderHistory
  import opened NameChains

  /** The pairs of pins that the accepted connect calls have named. */
  ghost function Connects(calls: seq<Call>): (links: set<(Endpoint, Endpoint)>) {
    if calls == [] then {} else
    var before := calls[..|calls| - 1];
    Connects(before) + PairOf(Run(before).0, calls[|calls| - 1])
  }

  function PairOf(s: Net, call: Call): (pair: set<(Endpoint, Endpoint)>) {
    match JoiningOf(s, call)
    case Pins(a, b) => {(a, b)}
    case _ => {}
  }

  predicate NoNodesNamed(calls: seq<Call>) {
    forall k :: 0 <= k < |calls| ==> !calls[k].AddToNode? && !calls[k].MergeNodes?
  }

  ghost function PinPlaces(owner: Owner): Endpoint -> Option<nat> {
    e => if e in owner then Some(owner[e]) else None
  }

  /** Two pins in use are on one net exactly when a chain of connected pairs joins them. */
  ghost predicate NetsArePairs(owner: Owner, pairs: set<(Endpoint, Endpoint)>) {
    forall x, y :: x in owner && y in owner ==> (owner[x] == owner[y] <==> Joined(pairs, x, y))
  }

  ghost predicate PairsAfter(calls: seq<Call>) {
    NetsArePairs(Run(calls).0.owner, Connects(calls))
  }

  /** Every pin in use that a chain of connected pairs reaches from a or b is on the node of a or of b. */
  ghost predicate SafeConnect(owner: Owner, pairs: set<(Endpoint, Endpoint)>, a: Endpoint, b: Endpoint) {
    forall e :: e in owner && (Joined(pairs, a, e) || Joined(pairs, b, e)) ==>
      OnNode(owner, a, owner[e]) || OnNode(owner, b, owner[e])
  }

  ghost predicate SafeConnectAt(calls: seq<Call>, k: nat)
    requires k < |calls|
  {
    var j := JoiningOf(Run(calls[..k]).0, calls[k]);
    j.Pins? ==> SafeConnect(Run(calls[..k]).0.owner, Connects(calls[..k]), j.a, j.b)
  }

  lemma SafeIsHarmless(owner: Owner, pairs: set<(Endpoint, Endpoint)>, a: Endpoint, b: Endpoint)
    ensures SafeConnect(owner, pairs, a, b) <==> Harmless(pairs, PinPlaces(owner), a, b)
    ensures NetsArePairs(owner, pairs) <==> Faithful(pairs, PinPlaces(owner))
  {
    var place := PinPlaces(owner);
    forall e | e in owner
      ensures Gathered(place, a, b, e) <==> OnNode(owner, a, owner[e]) || OnNode(owner, b, owner[e])
    {
    }
    forall e ensures place(e).Some? <==> e in owner {
    }
  }

  lemma PairedPins(owner: Owner, owner': Owner, count: nat, n: nat, a: Endpoint, b: Endpoint)
    requires Below(owner, count) && Paired(owner, owner', n, a, b)
    requires n == if a in owner then owner[a] else if b in owner then owner[b] else count
    ensures Gathers(PinPlaces(owner), PinPlaces(owner'), a, b, n)
  {
  }

  lemma PairsExact(s: Net, pairs: set<(Endpoint, Endpoint)>, a: Endpoint, b: Endpoint)
    requires Valid(s) && NetsArePairs(s.owner, pairs)
    ensures NetsArePairs(Connected(s, a, b).owner, pairs + {(a, b)}) <==> SafeConnect(s.owner, pairs, a, b)
  {
    var owner, owner', n, more := s.owner, Connected(s, a, b).owner, ConnectNode(s, a, b), pairs + {(a, b)};
    ConnectPairs(s, a, b);
    PairedPins(owner, owner', |s.nodes|, n, a, b);
    SafeIsHarmless(owner, pairs, a, b);
    SafeIsHarmless(owner', more, a, b);
    if SafeConnect(owner, pairs, a, b) { HarmlessKeeps(pairs, PinPlaces(owner), PinPlaces(owner'), a, b, n); }
    if NetsArePairs(owner', more) {
      FaithfulNeedsHarmless(pairs, more, PinPlaces(owner), PinPlaces(owner'), a, b, n);
    }
  }

  lemma OneMorePair(calls: seq<Call>, k: nat)
    requires k < |calls|
    ensures Connects(calls[..k + 1]) == Connects(calls[..k]) + PairOf(Run(calls[..k]).0, calls[k])
  {
    assert calls[..k + 1][..k] == calls[..k];
  }

  lemma StepPairs(s: Net, pairs: set<(Endpoint, Endpoint)>, call: Call)
    requires Valid(s) && !call.AddToNode? && !call.MergeNodes? && NetsArePairs(s.owner, pairs)
    ensures var j := JoiningOf(s, call);
      NetsArePairs(Step(s, call).0.owner, pairs + PairOf(s, call)) <==>
      (j.Pins? ==> SafeConnect(s.owner, pairs, j.a, j.b))
  {
    match JoiningOf(s, call)
    case Pins(a, b) => PairsExact(s, pairs, a, b);
    case Nothing =>
      QuietCall(s, call);
      assert pairs + PairOf(s, call) == pairs;
  }

  lemma PrefixPairs(calls: seq<Call>, k: nat)
    requires k < |calls| && NoNodesNamed(calls) && PairsAfter(calls[..k])
    ensures PairsAfter(calls[..k + 1]) <==> SafeConnectAt(calls, k)
  {
    StepPairs(Run(calls[..k]).0, Connects(calls[..k]), calls[k]);
    OneMore(calls, k);
    OneMorePair(calls, k);
  }

  lemma {:induction false} SafePairsUpTo(calls: seq<Call>, k: nat)
    requires k <= |calls| && NoNodesNamed(calls) && forall j :: 0 <= j < k ==> SafeConnectAt(calls, j)
    ensures PairsAfter(calls[..k])
  {
    if k == 0 {
      assert calls[..0] == [];
    } else {
      SafePairsUpTo(calls, k - 1);
      PrefixPairs(calls, k - 1);
    }
  }

  ghost predicate AllConnectsSafe(calls: seq<Call>) {
    forall k :: 0 <= k < |calls| ==> SafeConnectAt(calls, k)
  }

  /** Without node references: the same for chains of connect calls alone. */
  lemma ConnectsExactly(calls: seq<Call>)
    requires NoNodesNamed(calls)
    ensures (forall k :: 0 <= k <= |calls| ==> PairsAfter(calls[..k])) <==> AllConnectsSafe(calls)
  {
    if forall k :: 0 <= k <= |calls| ==> PairsAfter(calls[..k]) {
      forall k | 0 <= k < |calls| ensures SafeConnectAt(calls, k) {
        assert PairsAfter(calls[..k]) && PairsAfter(calls[..k + 1]);
        PrefixPairs(calls, k);
      }
    }
    if AllConnectsSafe(calls) {
      forall k | 0 <= k <= |calls| ensures PairsAfter(calls[..k]) {
        SafePairsUpTo(calls, k);
      }
    }
  }
}
