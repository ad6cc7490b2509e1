/** Builder runs that name only what is current: a guard on the calls under which the nets are their chains. */
module CurrentNames {
  import opened Prelude
  import opened Parts
  import opened Chains
  import opened Placements
  import opened Builder
  import opened BuilderHistory
  import opened NameChains
  import opened ConnectChains

  // ----- A guard on the names alone -----

  /** The call names no pin that was in use when its element was deleted, and no node that has been merged away. */
  predicate NamesCurrent(s: Net, h: History, call: Call) {
    match call
    case ConnectRefs(a, b) => a !in h.pinLife && b !in h.pinLife
    case AddToNode(node, _, _) => CurrentNode(s, h, node)
    case MergeNodes(dst, src) => CurrentNode(s, h, dst) && CurrentNode(s, h, src)
    case _ => true
  }

  predicate CurrentNode(s: Net, h: History, node: Ref) {
    var n := ResolveNode(s, node);
    n.Some? ==> n.value !in h.nodeLife
  }

  ghost predicate AllCurrent(calls: seq<Call>) {
    forall k :: 0 <= k < |calls| ==> CurrentAt(calls, k)
  }

  ghost predicate CurrentAt(calls: seq<Call>, k: nat)
    requires k < |calls|
  {
    NamesCurrent(Run(calls[..k]).0, Run(calls[..k]).1, calls[k])
  }

  ghost predicate Gone(elements: seq<Option<Element>>, pinLife: map<Endpoint, nat>) {
    forall e :: e in pinLife ==> 0 <= e.0 < |elements| && elements[e.0].None?
  }

  /** The name in its first life. */
  function FirstLife(v: Name): (x: Vertex) {
    match v
    case PinName(e) => PinV(e, 0)
    case NodeName(n) => NodeV(n, 0)
  }

  /** Every link is one between first lives. */
  ghost predicate FirstLinks(links: set<(Name, Name)>, lived: set<(Vertex, Vertex)>) {
    forall x, y :: (x, y) in links ==> (FirstLife(x), FirstLife(y)) in lived
  }

  /** Pins in use and the nodes they are on are in their first lives. */
  ghost predicate InFirstLives(s: Net, h: History) {
    && OwnersFirst(s.owner, h.pinLife, h.nodeLife)
    && (forall n :: n in h.nodeLife ==> n < |s.nodes|)
    && Gone(s.elements, h.pinLife)
  }

  ghost predicate OwnersFirst(owner: Owner, pinLife: map<Endpoint, nat>, nodeLife: map<nat, nat>) {
    forall e :: e in owner ==> e !in pinLife && owner[e] !in nodeLife
  }

  lemma PairedFirst(owner: Owner, owner': Owner, pinLife: map<Endpoint, nat>, nodeLife: map<nat, nat>,
                    nodeLife': map<nat, nat>, n: nat, a: Endpoint, b: Endpoint)
    requires OwnersFirst(owner, pinLife, nodeLife) && a !in pinLife && b !in pinLife && n !in nodeLife
    requires Paired(owner, owner', n, a, b)
    requires nodeLife'.Keys <= nodeLife.Keys + (if b in owner && owner[b] != n then {owner[b]} else {})
    ensures OwnersFirst(owner', pinLife, nodeLife')
  {
  }

  lemma ConnectFirstLives(s: Net, h: History, a: Endpoint, b: Endpoint)
    requires Dual(s.nodes, s.owner) && InFirstLives(s, h) && a !in h.pinLife && b !in h.pinLife
    ensures InFirstLives(Connected(s, a, b), ConnectHistory(s, h, a, b)) && ConnectNode(s, a, b) !in h.nodeLife
  {
    var h', n := ConnectHistory(s, h, a, b), ConnectNode(s, a, b);
    ConnectPairs(s, a, b);
    ConnectedElements(s, a, b);
    PairedFirst(s.owner, Connected(s, a, b).owner, h.pinLife, h.nodeLife, h'.nodeLife, n, a, b);
  }

  lemma ConnectedElements(s: Net, a: Endpoint, b: Endpoint)
    requires Dual(s.nodes, s.owner)
    ensures Connected(s, a, b).elements == s.elements
  {
  }

  lemma ConnectFirstLinks(s: Net, h: History, links: set<(Name, Name)>, a: Endpoint, b: Endpoint)
    requires FirstLinks(links, h.links) && a !in h.pinLife && b !in h.pinLife && ConnectNode(s, a, b) !in h.nodeLife
    ensures FirstLinks(links + PairLinks(ConnectNode(s, a, b), a, b), ConnectHistory(s, h, a, b).links)
  {
  }

  lemma AddFirstLives(s: Net, h: History, links: set<(Name, Name)>, n: nat, p: Endpoint)
    requires Dual(s.nodes, s.owner) && InFirstLives(s, h) && FirstLinks(links, h.links)
    requires n < |s.nodes| && n !in h.nodeLife && p !in h.pinLife
    ensures var h1 := Linking(h, NodeNow(h, n), PinNow(h, p));
      var h' := if p in s.owner then Merging(h1, n, s.owner[p]) else h1;
      InFirstLives(AddedToNode(s, n, p), h') && FirstLinks(links + {(NodeName(n), PinName(p))}, h'.links)
  {
    AddPuts(s, n, p);
    AddedElements(s, n, p);
  }

  lemma AddedElements(s: Net, n: nat, p: Endpoint)
    requires Dual(s.nodes, s.owner) && n < |s.nodes|
    ensures AddedToNode(s, n, p).elements == s.elements
  {
  }

  lemma MergeFirstLives(s: Net, h: History, links: set<(Name, Name)>, n: nat, m: nat)
    requires InFirstLives(s, h) && FirstLinks(links, h.links)
    requires n < |s.nodes| && m < |s.nodes| && n !in h.nodeLife && m !in h.nodeLife
    ensures var h' := Merging(Linking(h, NodeNow(h, n), NodeNow(h, m)), n, m);
      InFirstLives(Absorb(s, n, m), h') && FirstLinks(links + {(NodeName(n), NodeName(m))}, h'.links)
  {
    AbsorbMoves(s, n, m);
  }

  lemma DropFirstLives(s: Net, h: History, i: nat)
    requires InFirstLives(s, h) && i < |s.elements|
    ensures InFirstLives(Drop(s, i), h.(pinLife := Buried(h.pinLife, Doomed(s, i))))
  {
    assert Buried(h.pinLife, Doomed(s, i)).Keys == h.pinLife.Keys + Doomed(s, i);
  }

  lemma QuietFirstLives(s: Net, h: History, call: Call)
    requires Valid(s) && InFirstLives(s, h) && JoiningOf(s, call).Nothing?
    ensures InFirstLives(Step(s, call).0, Recorded(s, h, call)) && Recorded(s, h, call).links == h.links
  {
    var i := if call.DeleteModel? then ResolveElement(s, call.element) else None;
    if i.Some? {
      DropFirstLives(s, h, i.value);
    } else {
      StillStep(s, h, call);
      QuietCall(s, call);
    }
  }

  lemma StillStep(s: Net, h: History, call: Call)
    requires Valid(s) && JoiningOf(s, call).Nothing? && (call.DeleteModel? ==> ResolveElement(s, call.element).None?)
    ensures var s' := Step(s, call).0; s'.owner == s.owner && s.elements <= s'.elements && Recorded(s, h, call) == h
  {
  }

  ghost predicate FirstLivesAfter(calls: seq<Call>) {
    InFirstLives(Run(calls).0, Run(calls).1) && FirstLinks(CallLinks(calls), Run(calls).1.links)
  }

  lemma StepFirstLives(s: Net, h: History, links: set<(Name, Name)>, call: Call)
    requires Valid(s) && InFirstLives(s, h) && FirstLinks(links, h.links) && NamesCurrent(s, h, call)
    ensures InFirstLives(Step(s, call).0, Recorded(s, h, call))
    ensures FirstLinks(links + LinksOf(s, call), Recorded(s, h, call).links)
  {
    match JoiningOf(s, call)
    case Nothing => QuietFirstLives(s, h, call);
    case Pins(a, b) =>
      ConnectFirstLives(s, h, a, b);
      ConnectFirstLinks(s, h, links, a, b);
    case PinToNode(n, p) => AddFirstLives(s, h, links, n, p);
    case Nodes(n, m) => MergeFirstLives(s, h, links, n, m);
  }

  lemma NextFirstLives(calls: seq<Call>, k: nat)
    requires k < |calls| && AllCurrent(calls) && FirstLivesAfter(calls[..k])
    ensures FirstLivesAfter(calls[..k + 1])
  {
    assert CurrentAt(calls, k);
    StepFirstLives(Run(calls[..k]).0, Run(calls[..k]).1, CallLinks(calls[..k]), calls[k]);
    OneMore(calls, k);
  }

  lemma NoCallsFirstLives(calls: seq<Call>)
    requires calls == []
    ensures FirstLivesAfter(calls)
  {
  }

  lemma {:induction false} FirstLivesRun(calls: seq<Call>, k: nat)
    requires k <= |calls| && AllCurrent(calls)
    ensures FirstLivesAfter(calls[..k])
  {
    if k == 0 {
      NoCallsFirstLives(calls[..0]);
    } else {
      FirstLivesRun(calls, k - 1);
      NextFirstLives(calls, k - 1);
    }
  }

  /** Whatever shares a node is joined by the calls, names taken as they stand: after every run. */
  lemma SameNetChained(calls: seq<Call>, a: Endpoint, b: Endpoint)
    requires a in Run(calls).0.owner
    ensures b in Run(calls).0.owner && Run(calls).0.owner[a] == Run(calls).0.owner[b] ==>
      Joined(CallLinks(calls), PinName(a), PinName(b))
    ensures Joined(CallLinks(calls), PinName(a), NodeName(Run(calls).0.owner[a]))
  {
    assert calls[..|calls|] == calls;
    TidyRun(calls, |calls|);
    var owner := Run(calls).0.owner;
    assert OnNode(owner, a, owner[a]);
    assert Places(owner)(PinName(a)) == Places(owner)(NodeName(owner[a])) == Some(owner[a]);
    if b in owner { assert Places(owner)(PinName(b)) == Some(owner[b]); }
  }

  lemma ChainedLives(calls: seq<Call>, x: Name, y: Name)
    requires AllCurrent(calls) && Joined(CallLinks(calls), x, y)
    ensures Joined(Run(calls).1.links, FirstLife(x), FirstLife(y)) && InFirstLives(Run(calls).0, Run(calls).1)
  {
    assert calls[..|calls|] == calls;
    FirstLivesRun(calls, |calls|);
    var links, lived := CallLinks(calls), Run(calls).1.links;
    forall u, v | (u, v) in links ensures Joined(lived, FirstLife(u), FirstLife(v)) {
      JoinedLink(lived, FirstLife(u), FirstLife(v));
    }
    JoinedMaps(links, lived, v => FirstLife(v), x, y);
  }

  /**
   * In a run that names no pin deleted while in use and no node merged away, pins are on one net exactly when a chain
   * of calls joins them, even through pins deleted since, and on a node's list exactly when a chain joins them to it.
   */
  lemma NetsAreNameChains(calls: seq<Call>, a: Endpoint, b: Endpoint, n: nat)
    requires AllCurrent(calls) && a in Run(calls).0.owner
    ensures b in Run(calls).0.owner ==>
      (Run(calls).0.owner[a] == Run(calls).0.owner[b] <==> Joined(CallLinks(calls), PinName(a), PinName(b)))
    ensures n < |Run(calls).0.nodes| && n !in Run(calls).1.nodeLife ==>
      (a in Run(calls).0.nodes[n] <==> Joined(CallLinks(calls), PinName(a), NodeName(n)))
  {
    var s, links := Run(calls).0, CallLinks(calls);
    SameNetChained(calls, a, b);
    if b in s.owner && Joined(links, PinName(a), PinName(b)) {
      ChainedLives(calls, PinName(a), PinName(b));
      NetsAreWhatCallsJoined(calls, a, b, s.owner[a]);
    }
    if n < |s.nodes| && n !in Run(calls).1.nodeLife && Joined(links, PinName(a), NodeName(n)) {
      ChainedLives(calls, PinName(a), NodeName(n));
      NetsAreWhatCallsJoined(calls, a, a, n);
    }
  }

  lemma CurrentPrefix(calls: seq<Call>, k: nat)
    requires AllCurrent(calls) && k <= |calls|
    ensures AllCurrent(calls[..k])
  {
    forall j | 0 <= j < k ensures CurrentAt(calls[..k], j) {
      assert calls[..k][..j] == calls[..j] && CurrentAt(calls, j);
    }
  }

  lemma CurrentChains(calls: seq<Call>, k: nat)
    requires AllCurrent(calls) && k <= |calls|
    ensures ChainsAfter(calls[..k])
  {
    CurrentPrefix(calls, k);
    var owner := Run(calls[..k]).0.owner;
    forall x, y | x in owner && y in owner
      ensures owner[x] == owner[y] <==> Joined(CallLinks(calls[..k]), PinName(x), PinName(y))
    {
      NetsAreNameChains(calls[..k], x, y, 0);
    }
  }

  /** So every call of such a run is safe. */
  lemma CurrentIsSafe(calls: seq<Call>)
    requires AllCurrent(calls)
    ensures AllSafe(calls)
  {
    forall k | 0 <= k <= |calls| ensures ChainsAfter(calls[..k]) {
      CurrentChains(calls, k);
    }
    ChainsExactly(calls);
  }

  // ----- Runs of connect alone -----

  /** Every pair of connected pins is a link between their names. */
  ghost predicate Listed(pairs: set<(Endpoint, Endpoint)>, links: set<(Name, Name)>) {
    forall x, y :: (x, y) in pairs ==> (PinName(x), PinName(y)) in links
  }

  lemma NextListed(calls: seq<Call>, k: nat)
    requires k < |calls| && Listed(Connects(calls[..k]), CallLinks(calls[..k]))
    ensures Listed(Connects(calls[..k + 1]), CallLinks(calls[..k + 1]))
  {
    StepListed(Run(calls[..k]).0, CallLinks(calls[..k]), Connects(calls[..k]), calls[k]);
    OneMore(calls, k);
    OneMorePair(calls, k);
  }

  lemma StepListed(s: Net, links: set<(Name, Name)>, pairs: set<(Endpoint, Endpoint)>, call: Call)
    requires Listed(pairs, links)
    ensures Listed(pairs + PairOf(s, call), links + LinksOf(s, call))
  {
  }

  lemma {:induction false} RunListed(calls: seq<Call>, k: nat)
    requires k <= |calls|
    ensures Listed(Connects(calls[..k]), CallLinks(calls[..k]))
  {
    if k == 0 {
      assert Connects(calls[..0]) == {};
    } else {
      RunListed(calls, k - 1);
      NextListed(calls, k - 1);
    }
  }

  ghost predicate SoundPairsAfter(calls: seq<Call>) {
    Sound(Connects(calls), PinPlaces(Run(calls).0.owner))
  }

  lemma StepSoundPairs(s: Net, pairs: set<(Endpoint, Endpoint)>, call: Call)
    requires Valid(s) && !call.AddToNode? && !call.MergeNodes? && Sound(pairs, PinPlaces(s.owner))
    ensures Sound(pairs + PairOf(s, call), PinPlaces(Step(s, call).0.owner))
  {
    match JoiningOf(s, call)
    case Pins(a, b) =>
      var owner', n := Connected(s, a, b).owner, ConnectNode(s, a, b);
      ConnectPairs(s, a, b);
      PairedPins(s.owner, owner', |s.nodes|, n, a, b);
      SoundKeeps(pairs, PinPlaces(s.owner), PinPlaces(owner'), a, b, n);
    case Nothing =>
      QuietCall(s, call);
      assert pairs + PairOf(s, call) == pairs;
  }

  lemma NextSoundPairs(calls: seq<Call>, k: nat)
    requires k < |calls| && NoNodesNamed(calls) && SoundPairsAfter(calls[..k])
    ensures SoundPairsAfter(calls[..k + 1])
  {
    StepSoundPairs(Run(calls[..k]).0, Connects(calls[..k]), calls[k]);
    OneMore(calls, k);
    OneMorePair(calls, k);
  }

  lemma {:induction false} SoundPairsRun(calls: seq<Call>, k: nat)
    requires k <= |calls| && NoNodesNamed(calls)
    ensures SoundPairsAfter(calls[..k])
  {
    if k == 0 {
      assert calls[..0] == [];
      assert forall e :: PinPlaces(EMPTY.owner)(e).None?;
    } else {
      SoundPairsRun(calls, k - 1);
      NextSoundPairs(calls, k - 1);
    }
  }

  lemma PairsChained(calls: seq<Call>, k: nat, x: Endpoint, y: Endpoint)
    requires k <= |calls| && Joined(Connects(calls[..k]), x, y)
    ensures Joined(CallLinks(calls[..k]), PinName(x), PinName(y))
  {
    var pairs, links := Connects(calls[..k]), CallLinks(calls[..k]);
    RunListed(calls, k);
    forall u, v | (u, v) in pairs ensures Joined(links, PinName(u), PinName(v)) {
      JoinedLink(links, PinName(u), PinName(v));
    }
    JoinedMaps(pairs, links, e => PinName(e), x, y);
  }

  lemma CurrentPairs(calls: seq<Call>, k: nat)
    requires AllCurrent(calls) && NoNodesNamed(calls) && k <= |calls|
    ensures PairsAfter(calls[..k])
  {
    var owner, pairs := Run(calls[..k]).0.owner, Connects(calls[..k]);
    CurrentChains(calls, k);
    SoundPairsRun(calls, k);
    forall x, y | x in owner && y in owner ensures owner[x] == owner[y] <==> Joined(pairs, x, y) {
      assert PinPlaces(owner)(x) == Some(owner[x]) && PinPlaces(owner)(y) == Some(owner[y]);
      if Joined(pairs, x, y) { PairsChained(calls, k, x, y); }
    }
  }

  /** Pin references that name no pin deleted while in use make every connect safe. */
  lemma CurrentConnectsSafe(calls: seq<Call>)
    requires AllCurrent(calls) && NoNodesNamed(calls)
    ensures AllConnectsSafe(calls)
  {
    forall k | 0 <= k <= |calls| ensures PairsAfter(calls[..k]) {
      CurrentPairs(calls, k);
    }
    ConnectsExactly(calls);
  }

  /**
   * In a run without node references whose connects are safe, two pins in use are on one net exactly when a chain of
   * connect calls joins them, even through pins deleted since.
   */
  lemma NetsAreConnectChains(calls: seq<Call>, a: Endpoint, b: Endpoint)
    requires NoNodesNamed(calls) && AllConnectsSafe(calls) && a in Run(calls).0.owner && b in Run(calls).0.owner
    ensures Run(calls).0.owner[a] == Run(calls).0.owner[b] <==> Joined(Connects(calls), a, b)
  {
    assert calls[..|calls|] == calls;
    SafePairsUpTo(calls, |calls|);
  }
}
