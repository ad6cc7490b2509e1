/** Builder runs in plain names: exactly when the nets are the chains of the user's calls. */
module NameChains {
  import opened Prelude
  import opened Chains
  import opened Placements
  import opened Builder
  import opened BuilderHistory

  /** What a call names, without regard to lives. */
  datatype Name = PinName(endpoint: Endpoint) | NodeName(node: nat)

  /** What an accepted call joins. */
  datatype Joining =
    | Nothing
    | Pins(a: Endpoint, b: Endpoint)
    | PinToNode(node: nat, pin: Endpoint)
    | Nodes(dst: nat, src: nat)

  function JoiningOf(s: Net, call: Call): (j: Joining)
    ensures j.PinToNode? ==> j.node < |s.nodes|
    ensures j.Nodes? ==> j.dst < |s.nodes| && j.src < |s.nodes|
  {
    match call
    case AddToNode(node, element, pin) =>
      var n, i := ResolveNode(s, node), ResolveElement(s, element);
      if n.None? || i.None? then Nothing else PinToNode(n.value, (i.value, pin))
    case Connect(elementA, pinA, elementB, pinB) =>
      var i, j := ResolveElement(s, elementA), ResolveElement(s, elementB);
      if i.None? || j.None? then Nothing else Pins((i.value, pinA), (j.value, pinB))
    case ConnectRefs(a, b) => Pins(a, b)
    case MergeNodes(dst, src) =>
      var n, m := ResolveNode(s, dst), ResolveNode(s, src);
      if n.None? || m.None? then Nothing else Nodes(n.value, m.value)
    case _ => Nothing
  }

  /** connect links the two pins, and the first pin to the node it returns. */
  function PairLinks(n: nat, a: Endpoint, b: Endpoint): (links: set<(Name, Name)>) {
    {(PinName(a), PinName(b))} + {(PinName(a), NodeName(n))}
  }

  /** The links an accepted call makes. */
  function LinksOf(s: Net, call: Call): (links: set<(Name, Name)>) {
    match JoiningOf(s, call)
    case Nothing => {}
    case Pins(a, b) => PairLinks(ConnectNode(s, a, b), a, b)
    case PinToNode(n, e) => {(NodeName(n), PinName(e))}
    case Nodes(n, m) => {(NodeName(n), NodeName(m))}
  }

  ghost function CallLinks(calls: seq<Call>): (links: set<(Name, Name)>) {
    if calls == [] then {} else
    var before := calls[..|calls| - 1];
    CallLinks(before) + LinksOf(Run(before).0, calls[|calls| - 1])
  }

  // ----- The property and its condition -----

  type Owner = map<Endpoint, nat>

  /** Two pins in use are on one net exactly when a chain joins their names. */
  ghost predicate NetsAreChains(owner: Owner, links: set<(Name, Name)>) {
    forall x, y :: x in owner && y in owner ==> (owner[x] == owner[y] <==> Joined(links, PinName(x), PinName(y)))
  }

  ghost predicate ChainsAfter(calls: seq<Call>) {
    NetsAreChains(Run(calls).0.owner, CallLinks(calls))
  }

  /** Pin e is in use, and a chain leads to it from u or v. */
  ghost predicate Reached(owner: Owner, links: set<(Name, Name)>, u: Name, v: Name, e: Endpoint) {
    e in owner && (Joined(links, u, PinName(e)) || Joined(links, v, PinName(e)))
  }

  /** Pin a is in use, on node n. */
  predicate OnNode(owner: Owner, a: Endpoint, n: nat) {
    a in owner && owner[a] == n
  }

  /**
   * The condition, in the state before the call: the pins in use that chains of earlier calls reach from the two names
   * all end up on one node. For connect that is the node of one of the two pins, for add_to_node the named node or that
   * of the pin; merge_nodes can also find them on one other node, when it merges two empty nodes.
   */
  ghost predicate Safe(s: Net, links: set<(Name, Name)>, call: Call) {
    match JoiningOf(s, call)
    case Nothing => true
    case Pins(a, b) => SafePins(s.owner, links, a, b)
    case PinToNode(n, p) => SafePut(s.owner, links, n, p)
    case Nodes(n, m) => SafeMerge(s.owner, links, n, m)
  }

  ghost predicate SafePins(owner: Owner, links: set<(Name, Name)>, a: Endpoint, b: Endpoint) {
    forall e :: Reached(owner, links, PinName(a), PinName(b), e) ==>
      OnNode(owner, a, owner[e]) || OnNode(owner, b, owner[e])
  }

  ghost predicate SafePut(owner: Owner, links: set<(Name, Name)>, n: nat, p: Endpoint) {
    forall e :: Reached(owner, links, NodeName(n), PinName(p), e) ==> owner[e] == n || OnNode(owner, p, owner[e])
  }

  ghost predicate SafeMerge(owner: Owner, links: set<(Name, Name)>, n: nat, m: nat) {
    forall e, f ::
      Reached(owner, links, NodeName(n), NodeName(m), e) && Reached(owner, links, NodeName(n), NodeName(m), f) ==>
      owner[e] == owner[f] || (OneOf(owner[e], n, m) && OneOf(owner[f], n, m))
  }

  predicate OneOf(k: nat, n: nat, m: nat) {
    k == n || k == m
  }

  // ----- Places -----

  /** The node a name is on: a pin in use is on its owner, a node with a pin on it is itself. */
  ghost function PlaceIn(owner: Owner, v: Name): (n: Option<nat>) {
    match v
    case PinName(e) => if e in owner then Some(owner[e]) else None
    case NodeName(n) => if Occupied(owner, n) then Some(n) else None
  }

  ghost predicate Occupied(owner: Owner, n: nat) {
    exists e :: OnNode(owner, e, n)
  }

  ghost function Places(owner: Owner): Name -> Option<nat> {
    v => PlaceIn(owner, v)
  }

  /** A pin on the node of a name that has a place: the name itself if it is a pin. */
  lemma PinFor(owner: Owner, links: set<(Name, Name)>, v: Name) returns (e: Endpoint)
    requires Sound(links, Places(owner)) && Places(owner)(v).Some?
    ensures e in owner && Places(owner)(v) == Some(owner[e]) && Joined(links, v, PinName(e))
  {
    match v
    case PinName(p) =>
      e := p;
      JoinedRefl(links, v);
    case NodeName(n) =>
      e :| OnNode(owner, e, n);
      assert Places(owner)(v) == Places(owner)(PinName(e));
  }

  /** With sound links the property of pins extends to the nodes that carry them. */
  lemma FaithfulIsChains(owner: Owner, links: set<(Name, Name)>)
    requires Sound(links, Places(owner))
    ensures Faithful(links, Places(owner)) <==> NetsAreChains(owner, links)
  {
    var place := Places(owner);
    if Faithful(links, place) {
      forall x, y | x in owner && y in owner ensures owner[x] == owner[y] <==> Joined(links, PinName(x), PinName(y)) {
        assert place(PinName(x)) == Some(owner[x]) && place(PinName(y)) == Some(owner[y]);
      }
    }
    if NetsAreChains(owner, links) {
      forall u, v | place(u).Some? && place(v).Some? ensures place(u) == place(v) <==> Joined(links, u, v) {
        if Joined(links, u, v) { ChainsPlace(owner, links, u, v); }
      }
    }
  }

  lemma ChainsPlace(owner: Owner, links: set<(Name, Name)>, u: Name, v: Name)
    requires Sound(links, Places(owner)) && NetsAreChains(owner, links) && Joined(links, u, v)
    requires Places(owner)(u).Some? && Places(owner)(v).Some?
    ensures Places(owner)(u) == Places(owner)(v)
  {
    var x := PinFor(owner, links, u);
    var y := PinFor(owner, links, v);
    JoinedSym(links, u, PinName(x));
    JoinedTrans(links, PinName(x), u, v);
    JoinedTrans(links, PinName(x), v, PinName(y));
  }

  /** A join is harmless once it is so for the pins in use. */
  lemma HarmlessByPins(owner: Owner, links: set<(Name, Name)>, u: Name, v: Name)
    requires Sound(links, Places(owner))
    ensures Harmless(links, Places(owner), u, v) <==>
            forall e :: Reached(owner, links, u, v, e) ==> Gathered(Places(owner), u, v, PinName(e))
  {
    var place := Places(owner);
    if forall e :: Reached(owner, links, u, v, e) ==> Gathered(place, u, v, PinName(e)) {
      forall x | place(x).Some? && (Joined(links, u, x) || Joined(links, v, x)) ensures Gathered(place, u, v, x) {
        var e := PinFor(owner, links, x);
        if Joined(links, u, x) { JoinedTrans(links, u, x, PinName(e)); }
        if Joined(links, v, x) { JoinedTrans(links, v, x, PinName(e)); }
        assert Reached(owner, links, u, v, e);
      }
    }
    if Harmless(links, place, u, v) {
      forall e | Reached(owner, links, u, v, e) ensures Gathered(place, u, v, PinName(e)) {
        assert place(PinName(e)).Some?;
      }
    }
  }

  // ----- What each joining does to the owners -----

  /** Pin e goes to node n, and with it everything on its old node. */
  ghost predicate PutOn(owner: Owner, owner': Owner, n: nat, e: Endpoint) {
    && owner'.Keys == owner.Keys + {e} && owner'[e] == n
    && forall f :: f in owner ==> owner'[f] == if e in owner && owner[f] == owner[e] then n else owner[f]
  }

  ghost predicate MovedTo(owner: Owner, owner': Owner, dst: nat, src: nat) {
    && owner'.Keys == owner.Keys
    && forall f :: f in owner ==> owner'[f] == if owner[f] == src then dst else owner[f]
  }

  lemma AbsorbMoves(s: Net, dst: nat, src: nat)
    requires dst < |s.nodes| && src < |s.nodes|
    ensures |Absorb(s, dst, src).nodes| == |s.nodes| && MovedTo(s.owner, Absorb(s, dst, src).owner, dst, src)
  {
  }

  lemma AddPuts(s: Net, n: nat, e: Endpoint)
    requires Dual(s.nodes, s.owner) && n < |s.nodes|
    ensures |AddedToNode(s, n, e).nodes| == |s.nodes| && PutOn(s.owner, AddedToNode(s, n, e).owner, n, e)
  {
    if e in s.owner { AbsorbMoves(s, n, s.owner[e]); }
  }

  /** Pins a and b come together on node n, and with them everything on their old nodes. */
  ghost predicate Paired(owner: Owner, owner': Owner, n: nat, a: Endpoint, b: Endpoint) {
    && owner'.Keys == owner.Keys + {a, b} && owner'[a] == n && owner'[b] == n
    && forall f :: f in owner ==>
         owner'[f] ==
           if (a in owner && owner[f] == owner[a]) || (b in owner && owner[f] == owner[b]) then n else owner[f]
  }

  lemma ConnectPairsNew(s: Net, a: Endpoint, b: Endpoint)
    requires Dual(s.nodes, s.owner) && a !in s.owner && b !in s.owner
    ensures var s' := Connected(s, a, b); |s'.nodes| == |s.nodes| + 1 && Paired(s.owner, s'.owner, |s.nodes|, a, b)
  {
  }

  lemma ConnectPairsOne(s: Net, a: Endpoint, b: Endpoint)
    requires Dual(s.nodes, s.owner) && (a in s.owner <==> b !in s.owner)
    ensures var s' := Connected(s, a, b);
      |s'.nodes| == |s.nodes| && Paired(s.owner, s'.owner, ConnectNode(s, a, b), a, b)
  {
  }

  lemma ConnectPairs(s: Net, a: Endpoint, b: Endpoint)
    requires Dual(s.nodes, s.owner)
    ensures var n, s' := ConnectNode(s, a, b), Connected(s, a, b);
      && |s'.nodes| == (if a in s.owner || b in s.owner then |s.nodes| else n + 1)
      && Paired(s.owner, s'.owner, n, a, b)
  {
    if a in s.owner && b in s.owner {
      AbsorbMoves(s, s.owner[a], s.owner[b]);
      assert Connected(s, a, b) == Absorb(s, s.owner[a], s.owner[b]);
    } else if a in s.owner || b in s.owner {
      ConnectPairsOne(s, a, b);
    } else {
      ConnectPairsNew(s, a, b);
    }
  }

  // ----- What it does to the places -----

  /** The places, without the name of node number `count`. */
  ghost function PlacesBelow(owner: Owner, count: nat): Name -> Option<nat> {
    v => if v == NodeName(count) then None else PlaceIn(owner, v)
  }

  ghost predicate Below(owner: Owner, count: nat) {
    forall e :: e in owner ==> owner[e] < count
  }

  lemma PairGathers(owner: Owner, owner': Owner, count: nat, n: nat, a: Endpoint, b: Endpoint)
    requires Below(owner, count) && Paired(owner, owner', n, a, b)
    requires n == if a in owner then owner[a] else if b in owner then owner[b] else count
    ensures Gathers(Places(owner), PlacesBelow(owner', count), PinName(a), PinName(b), n)
    ensures Anchored(Places(owner), Places(owner'), PinName(a), PinName(b), n)
  {
    forall k: nat | Occupied(owner', k) && k != n
      ensures Occupied(owner, k) && !OnNode(owner, a, k) && !OnNode(owner, b, k)
    {
      var e :| OnNode(owner', e, k);
      assert OnNode(owner, e, k);
    }
    forall k: nat | Occupied(owner, k) && !OnNode(owner, a, k) && !OnNode(owner, b, k)
      ensures Occupied(owner', k) && k != n
    {
      var e :| OnNode(owner, e, k);
      assert OnNode(owner', e, k);
    }
    forall e | e in owner ensures Occupied(owner, owner[e]) {
      assert OnNode(owner, e, owner[e]);
    }
  }

  lemma PutGathers(owner: Owner, owner': Owner, n: nat, p: Endpoint)
    requires PutOn(owner, owner', n, p)
    ensures Gathers(Places(owner), Places(owner'), NodeName(n), PinName(p), n)
  {
    forall k: nat | Occupied(owner', k) && k != n ensures Occupied(owner, k) && !OnNode(owner, p, k) {
      var e :| OnNode(owner', e, k);
      assert OnNode(owner, e, k);
    }
    forall k: nat | Occupied(owner, k) && !OnNode(owner, p, k) ensures Occupied(owner', k) {
      var e :| OnNode(owner, e, k);
      assert OnNode(owner', e, k);
    }
    forall e | e in owner ensures Occupied(owner, owner[e]) {
      assert OnNode(owner, e, owner[e]);
    }
    assert OnNode(owner', p, n);
  }

  lemma MoveGathers(owner: Owner, owner': Owner, n: nat, m: nat)
    requires MovedTo(owner, owner', n, m) && (Occupied(owner, n) || Occupied(owner, m))
    ensures Gathers(Places(owner), Places(owner'), NodeName(n), NodeName(m), n)
  {
    forall k: nat | Occupied(owner', k) && k != n ensures Occupied(owner, k) && k != m {
      var e :| OnNode(owner', e, k);
      assert OnNode(owner, e, k);
    }
    forall k: nat | Occupied(owner, k) ensures Occupied(owner', if k == m then n else k) {
      var e :| OnNode(owner, e, k);
      assert OnNode(owner', e, if k == m then n else k);
    }
    forall e | e in owner ensures Occupied(owner, owner[e]) {
      assert OnNode(owner, e, owner[e]);
    }
  }

  // ----- Exactness, joining by joining -----

  predicate Born(count: nat, v: Name) {
    v.NodeName? ==> v.node < count
  }

  /** No link names a node yet to be made. */
  ghost predicate AllBorn(links: set<(Name, Name)>, count: nat) {
    forall x, y :: (x, y) in links ==> Born(count, x) && Born(count, y)
  }

  /** connect: what it needs of the owners before and after. */
  ghost predicate Pairing(owner: Owner, owner': Owner, links: set<(Name, Name)>, count: nat, n: nat,
                          a: Endpoint, b: Endpoint)
  {
    && Below(owner, count) && AllBorn(links, count) && Paired(owner, owner', n, a, b)
    && n == if a in owner then owner[a] else if b in owner then owner[b] else count
  }

  lemma PairSound(owner: Owner, owner': Owner, links: set<(Name, Name)>, count: nat, n: nat, a: Endpoint, b: Endpoint)
    requires Pairing(owner, owner', links, count, n, a, b) && Sound(links, Places(owner))
    ensures Sound(links + PairLinks(n, a, b), Places(owner'))
  {
    var more := links + {(PinName(a), PinName(b))};
    PairGathers(owner, owner', count, n, a, b);
    SoundKeeps(links, Places(owner), PlacesBelow(owner', count), PinName(a), PinName(b), n);
    PairLeaf(owner, owner', links, count, n, a, b);
    LeafSound(more, PlacesBelow(owner', count), Places(owner'), PinName(a), NodeName(n), n);
    assert links + PairLinks(n, a, b) == more + {(PinName(a), NodeName(n))};
  }

  /** The node that connect returns is one of the two pins' or has never been named. */
  lemma PairLeaf(owner: Owner, owner': Owner, links: set<(Name, Name)>, count: nat, n: nat, a: Endpoint, b: Endpoint)
    requires Pairing(owner, owner', links, count, n, a, b)
    ensures var place, place' := PlacesBelow(owner', count), Places(owner');
      && place(PinName(a)) == Some(n) && place'(NodeName(n)) == Some(n)
      && (place(NodeName(n)) == Some(n) || place(NodeName(n)).None?)
      && (place(NodeName(n)).None? ==> forall z :: !Linked(links + {(PinName(a), PinName(b))}, NodeName(n), z))
      && forall z :: z != NodeName(n) ==> place'(z) == place(z)
  {
    assert OnNode(owner', a, n);
    if n != count {
      forall e | e in owner' ensures !OnNode(owner', e, count) {
      }
    }
  }

  lemma PairExact(owner: Owner, owner': Owner, links: set<(Name, Name)>, count: nat, n: nat, a: Endpoint, b: Endpoint)
    requires Pairing(owner, owner', links, count, n, a, b)
    requires Sound(links, Places(owner)) && NetsAreChains(owner, links)
    ensures NetsAreChains(owner', links + PairLinks(n, a, b)) <==> SafePins(owner, links, a, b)
  {
    var more, all := links + {(PinName(a), PinName(b))}, links + PairLinks(n, a, b);
    FaithfulIsChains(owner, links);
    HarmlessByPins(owner, links, PinName(a), PinName(b));
    PairGathers(owner, owner', count, n, a, b);
    PairSound(owner, owner', links, count, n, a, b);
    FaithfulIsChains(owner', all);
    if SafePins(owner, links, a, b) {
      HarmlessKeeps(links, Places(owner), PlacesBelow(owner', count), PinName(a), PinName(b), n);
      PairLeaf(owner, owner', links, count, n, a, b);
      LeafKeeps(more, PlacesBelow(owner', count), Places(owner'), PinName(a), NodeName(n), n);
      assert all == more + {(PinName(a), NodeName(n))};
    }
    if NetsAreChains(owner', all) {
      FaithfulNeedsHarmless(links, all, Places(owner), Places(owner'), PinName(a), PinName(b), n);
      forall e | Reached(owner, links, PinName(a), PinName(b), e)
        ensures OnNode(owner, a, owner[e]) || OnNode(owner, b, owner[e])
      {
        assert Gathered(Places(owner), PinName(a), PinName(b), PinName(e));
      }
    }
  }

  lemma PutSound(owner: Owner, owner': Owner, links: set<(Name, Name)>, n: nat, p: Endpoint)
    requires PutOn(owner, owner', n, p) && Sound(links, Places(owner))
    ensures Sound(links + {(NodeName(n), PinName(p))}, Places(owner'))
  {
    PutGathers(owner, owner', n, p);
    SoundKeeps(links, Places(owner), Places(owner'), NodeName(n), PinName(p), n);
  }

  lemma PutExact(owner: Owner, owner': Owner, links: set<(Name, Name)>, n: nat, p: Endpoint)
    requires PutOn(owner, owner', n, p) && Sound(links, Places(owner)) && NetsAreChains(owner, links)
    ensures NetsAreChains(owner', links + {(NodeName(n), PinName(p))}) <==> SafePut(owner, links, n, p)
  {
    var more := links + {(NodeName(n), PinName(p))};
    FaithfulIsChains(owner, links);
    HarmlessByPins(owner, links, NodeName(n), PinName(p));
    PutGathers(owner, owner', n, p);
    PutSound(owner, owner', links, n, p);
    FaithfulIsChains(owner', more);
    if SafePut(owner, links, n, p) {
      forall e | Reached(owner, links, NodeName(n), PinName(p), e)
        ensures Gathered(Places(owner), NodeName(n), PinName(p), PinName(e))
      {
        assert OnNode(owner, e, owner[e]);
      }
      HarmlessKeeps(links, Places(owner), Places(owner'), NodeName(n), PinName(p), n);
    }
    if NetsAreChains(owner', more) {
      FaithfulNeedsHarmless(links, more, Places(owner), Places(owner'), NodeName(n), PinName(p), n);
      forall e | Reached(owner, links, NodeName(n), PinName(p), e) ensures owner[e] == n || OnNode(owner, p, owner[e]) {
        assert Gathered(Places(owner), NodeName(n), PinName(p), PinName(e));
      }
    }
  }

  lemma EmptyMerge(owner: Owner, owner': Owner, n: nat, m: nat)
    requires MovedTo(owner, owner', n, m) && !Occupied(owner, n) && !Occupied(owner, m)
    ensures owner' == owner && forall e :: e in owner ==> !OneOf(owner[e], n, m)
  {
    forall e | e in owner ensures !OneOf(owner[e], n, m) {
      assert OnNode(owner, e, owner[e]);
    }
  }

  lemma MoveSound(owner: Owner, owner': Owner, links: set<(Name, Name)>, n: nat, m: nat)
    requires MovedTo(owner, owner', n, m) && Sound(links, Places(owner))
    ensures Sound(links + {(NodeName(n), NodeName(m))}, Places(owner'))
  {
    var more := links + {(NodeName(n), NodeName(m))};
    if Occupied(owner, n) || Occupied(owner, m) {
      MoveGathers(owner, owner', n, m);
      SoundKeeps(links, Places(owner), Places(owner'), NodeName(n), NodeName(m), n);
    } else {
      EmptyMerge(owner, owner', n, m);
      forall x, y | Places(owner)(x).Some? && Places(owner)(x) == Places(owner)(y) ensures Joined(more, x, y) {
        JoinedMono(links, more, x, y);
      }
    }
  }

  /** Merging two empty nodes moves nothing: it is a link between whatever chains reach from them. */
  lemma EmptyMergeExact(owner: Owner, links: set<(Name, Name)>, n: nat, m: nat)
    requires NetsAreChains(owner, links) && forall e :: e in owner ==> !OneOf(owner[e], n, m)
    ensures NetsAreChains(owner, links + {(NodeName(n), NodeName(m))}) <==> SafeMerge(owner, links, n, m)
  {
    var more := links + {(NodeName(n), NodeName(m))};
    if SafeMerge(owner, links, n, m) {
      forall x, y | x in owner && y in owner ensures owner[x] == owner[y] <==> Joined(more, PinName(x), PinName(y)) {
        if owner[x] == owner[y] { JoinedMono(links, more, PinName(x), PinName(y)); }
        if Joined(more, PinName(x), PinName(y)) { BridgedPins(owner, links, n, m, x, y); }
      }
    }
    if NetsAreChains(owner, more) {
      forall e, f |
        Reached(owner, links, NodeName(n), NodeName(m), e) && Reached(owner, links, NodeName(n), NodeName(m), f)
        ensures owner[e] == owner[f]
      {
        ReachedJoined(owner, links, n, m, e, f);
      }
    }
  }

  lemma BridgedPins(owner: Owner, links: set<(Name, Name)>, n: nat, m: nat, x: Endpoint, y: Endpoint)
    requires NetsAreChains(owner, links) && SafeMerge(owner, links, n, m)
    requires x in owner && y in owner && !OneOf(owner[x], n, m)
    requires Joined(links + {(NodeName(n), NodeName(m))}, PinName(x), PinName(y))
    ensures owner[x] == owner[y]
  {
    JoinedBridged(links, NodeName(n), NodeName(m), PinName(x), PinName(y));
    if !Joined(links, PinName(x), PinName(y)) {
      var u := if Joined(links, PinName(x), NodeName(n)) then NodeName(n) else NodeName(m);
      JoinedSym(links, PinName(x), u);
      assert Reached(owner, links, NodeName(n), NodeName(m), x) && Reached(owner, links, NodeName(n), NodeName(m), y);
    }
  }

  lemma ReachedJoined(owner: Owner, links: set<(Name, Name)>, n: nat, m: nat, e: Endpoint, f: Endpoint)
    requires Reached(owner, links, NodeName(n), NodeName(m), e) && Reached(owner, links, NodeName(n), NodeName(m), f)
    ensures Joined(links + {(NodeName(n), NodeName(m))}, PinName(e), PinName(f))
  {
    var more := links + {(NodeName(n), NodeName(m))};
    var u := if Joined(links, NodeName(n), PinName(e)) then NodeName(n) else NodeName(m);
    var v := if Joined(links, NodeName(n), PinName(f)) then NodeName(n) else NodeName(m);
    JoinedMono(links, more, u, PinName(e));
    JoinedMono(links, more, v, PinName(f));
    JoinedSym(more, u, PinName(e));
    JoinedRefl(more, u);
    if u != v { JoinedLink(more, u, v); }
    JoinedTrans(more, PinName(e), u, v);
    JoinedTrans(more, PinName(e), v, PinName(f));
  }

  lemma MoveExact(owner: Owner, owner': Owner, links: set<(Name, Name)>, n: nat, m: nat)
    requires MovedTo(owner, owner', n, m) && Sound(links, Places(owner)) && NetsAreChains(owner, links)
    ensures NetsAreChains(owner', links + {(NodeName(n), NodeName(m))}) <==> SafeMerge(owner, links, n, m)
  {
    if Occupied(owner, n) || Occupied(owner, m) {
      UsedMergeExact(owner, owner', links, n, m);
    } else {
      EmptyMerge(owner, owner', n, m);
      EmptyMergeExact(owner, links, n, m);
    }
  }

  lemma UsedMergeExact(owner: Owner, owner': Owner, links: set<(Name, Name)>, n: nat, m: nat)
    requires MovedTo(owner, owner', n, m) && Sound(links, Places(owner)) && NetsAreChains(owner, links)
    requires Occupied(owner, n) || Occupied(owner, m)
    ensures NetsAreChains(owner', links + {(NodeName(n), NodeName(m))}) <==> SafeMerge(owner, links, n, m)
  {
    var more := links + {(NodeName(n), NodeName(m))};
    FaithfulIsChains(owner, links);
    HarmlessByPins(owner, links, NodeName(n), NodeName(m));
    MoveGathers(owner, owner', n, m);
    MoveSound(owner, owner', links, n, m);
    FaithfulIsChains(owner', more);
    SafeMergeUsed(owner, links, n, m);
    if SafeMerge(owner, links, n, m) {
      HarmlessKeeps(links, Places(owner), Places(owner'), NodeName(n), NodeName(m), n);
    }
    if NetsAreChains(owner', more) {
      FaithfulNeedsHarmless(links, more, Places(owner), Places(owner'), NodeName(n), NodeName(m), n);
    }
  }

  /** With a pin on one of the two nodes, being on one node means being on one of the two. */
  lemma SafeMergeUsed(owner: Owner, links: set<(Name, Name)>, n: nat, m: nat)
    requires Sound(links, Places(owner)) && (Occupied(owner, n) || Occupied(owner, m))
    ensures SafeMerge(owner, links, n, m) <==> forall e :: Reached(owner, links, NodeName(n), NodeName(m), e) ==>
      Gathered(Places(owner), NodeName(n), NodeName(m), PinName(e))
  {
    var u := if Occupied(owner, n) then NodeName(n) else NodeName(m);
    var y := PinFor(owner, links, u);
    assert Reached(owner, links, NodeName(n), NodeName(m), y) && OneOf(owner[y], n, m);
    forall e | Reached(owner, links, NodeName(n), NodeName(m), e)
      ensures Gathered(Places(owner), NodeName(n), NodeName(m), PinName(e)) <==> OneOf(owner[e], n, m)
    {
      assert OnNode(owner, e, owner[e]);
    }
  }

  // ----- Every call -----

  /** Links name only what there is, and whatever shares a node is joined by them. */
  ghost predicate Tidy(s: Net, links: set<(Name, Name)>) {
    Dual(s.nodes, s.owner) && AllBorn(links, |s.nodes|) && Sound(links, Places(s.owner))
  }

  lemma ConnectPairing(s: Net, links: set<(Name, Name)>, a: Endpoint, b: Endpoint)
    requires Tidy(s, links)
    ensures Pairing(s.owner, Connected(s, a, b).owner, links, |s.nodes|, ConnectNode(s, a, b), a, b)
    ensures AllBorn(links + PairLinks(ConnectNode(s, a, b), a, b), |Connected(s, a, b).nodes|)
  {
    ConnectPairs(s, a, b);
    AllBornPair(links, |s.nodes|, |Connected(s, a, b).nodes|, ConnectNode(s, a, b), a, b);
  }

  lemma AllBornPair(links: set<(Name, Name)>, count: nat, count': nat, n: nat, a: Endpoint, b: Endpoint)
    requires AllBorn(links, count) && count <= count' && n < count'
    ensures AllBorn(links + PairLinks(n, a, b), count')
  {
  }

  /** Only deletion takes pins out of use, and a new node has none. */
  ghost predicate Quiet(s: Net, s': Net) {
    && (forall e :: e in s'.owner ==> e in s.owner && s'.owner[e] == s.owner[e])
    && (|s'.nodes| == |s.nodes| || |s'.nodes| == |s.nodes| + 1)
  }

  lemma QuietCall(s: Net, call: Call)
    requires Valid(s) && JoiningOf(s, call).Nothing?
    ensures Quiet(s, Step(s, call).0)
  {
    if call.DeleteModel? {
      var i := ResolveElement(s, call.element);
      if i.Some? { assert Quiet(s, Drop(s, i.value)); }
    } else {
      assert Step(s, call).0.owner == s.owner;
    }
  }

  lemma QuietSound(s: Net, s': Net, links: set<(Name, Name)>)
    requires Quiet(s, s') && Sound(links, Places(s.owner))
    ensures Sound(links, Places(s'.owner))
  {
    forall n: nat | Occupied(s'.owner, n) ensures Occupied(s.owner, n) {
      var e :| OnNode(s'.owner, e, n);
      assert OnNode(s.owner, e, n);
    }
  }

  lemma ConnectTidy(s: Net, links: set<(Name, Name)>, a: Endpoint, b: Endpoint)
    requires Tidy(s, links)
    ensures Tidy(Connected(s, a, b), links + PairLinks(ConnectNode(s, a, b), a, b))
  {
    ConnectedDual(s, a, b);
    ConnectPairing(s, links, a, b);
    PairSound(s.owner, Connected(s, a, b).owner, links, |s.nodes|, ConnectNode(s, a, b), a, b);
  }

  lemma AddTidy(s: Net, links: set<(Name, Name)>, n: nat, p: Endpoint)
    requires Tidy(s, links) && n < |s.nodes|
    ensures Tidy(AddedToNode(s, n, p), links + {(NodeName(n), PinName(p))})
  {
    AddedToNodeDual(s, n, p);
    AddPuts(s, n, p);
    PutSound(s.owner, AddedToNode(s, n, p).owner, links, n, p);
  }

  lemma MergeTidy(s: Net, links: set<(Name, Name)>, n: nat, m: nat)
    requires Tidy(s, links) && n < |s.nodes| && m < |s.nodes|
    ensures Tidy(Absorb(s, n, m), links + {(NodeName(n), NodeName(m))})
  {
    AbsorbDual(s, n, m);
    AbsorbMoves(s, n, m);
    MoveSound(s.owner, Absorb(s, n, m).owner, links, n, m);
  }

  lemma QuietTidy(s: Net, links: set<(Name, Name)>, call: Call)
    requires Valid(s) && Tidy(s, links) && JoiningOf(s, call).Nothing?
    ensures Tidy(Step(s, call).0, links)
  {
    StepValid(s, call);
    QuietCall(s, call);
    QuietSound(s, Step(s, call).0, links);
  }

  lemma StepTidy(s: Net, links: set<(Name, Name)>, call: Call)
    requires Valid(s) && Tidy(s, links)
    ensures Tidy(Step(s, call).0, links + LinksOf(s, call))
  {
    match JoiningOf(s, call)
    case Nothing =>
      QuietTidy(s, links, call);
      assert links + {} == links;
    case Pins(a, b) => ConnectTidy(s, links, a, b);
    case PinToNode(n, p) => AddTidy(s, links, n, p);
    case Nodes(n, m) => MergeTidy(s, links, n, m);
  }

  /** connect, on elements or on pin references, keeps the property exactly when it is safe. */
  lemma ConnectExact(s: Net, links: set<(Name, Name)>, a: Endpoint, b: Endpoint)
    requires Tidy(s, links) && NetsAreChains(s.owner, links)
    ensures NetsAreChains(Connected(s, a, b).owner, links + PairLinks(ConnectNode(s, a, b), a, b)) <==>
            SafePins(s.owner, links, a, b)
  {
    ConnectPairing(s, links, a, b);
    PairExact(s.owner, Connected(s, a, b).owner, links, |s.nodes|, ConnectNode(s, a, b), a, b);
  }

  /** add_to_node keeps the property exactly when it is safe. */
  lemma AddExact(s: Net, links: set<(Name, Name)>, n: nat, p: Endpoint)
    requires Tidy(s, links) && n < |s.nodes| && NetsAreChains(s.owner, links)
    ensures NetsAreChains(AddedToNode(s, n, p).owner, links + {(NodeName(n), PinName(p))}) <==>
            SafePut(s.owner, links, n, p)
  {
    AddPuts(s, n, p);
    PutExact(s.owner, AddedToNode(s, n, p).owner, links, n, p);
  }

  /** merge_nodes keeps the property exactly when it is safe. */
  lemma MergeExact(s: Net, links: set<(Name, Name)>, n: nat, m: nat)
    requires Tidy(s, links) && n < |s.nodes| && m < |s.nodes| && NetsAreChains(s.owner, links)
    ensures NetsAreChains(Absorb(s, n, m).owner, links + {(NodeName(n), NodeName(m))}) <==>
            SafeMerge(s.owner, links, n, m)
  {
    AbsorbMoves(s, n, m);
    MoveExact(s.owner, Absorb(s, n, m).owner, links, n, m);
  }

  lemma StepExact(s: Net, links: set<(Name, Name)>, call: Call)
    requires Valid(s) && Tidy(s, links) && NetsAreChains(s.owner, links)
    ensures NetsAreChains(Step(s, call).0.owner, links + LinksOf(s, call)) <==> Safe(s, links, call)
  {
    match JoiningOf(s, call)
    case Nothing =>
      QuietCall(s, call);
      assert links + {} == links;
    case Pins(a, b) => ConnectExact(s, links, a, b);
    case PinToNode(n, p) => AddExact(s, links, n, p);
    case Nodes(n, m) => MergeExact(s, links, n, m);
  }

  // ----- Whole runs -----

  ghost predicate SafeAt(calls: seq<Call>, k: nat)
    requires k < |calls|
  {
    Safe(Run(calls[..k]).0, CallLinks(calls[..k]), calls[k])
  }

  ghost predicate AllSafe(calls: seq<Call>) {
    forall k :: 0 <= k < |calls| ==> SafeAt(calls, k)
  }

  lemma OneMore(calls: seq<Call>, k: nat)
    requires k < |calls|
    ensures var (s, h) := Run(calls[..k]);
      && Run(calls[..k + 1]) == (Step(s, calls[k]).0, Recorded(s, h, calls[k]))
      && CallLinks(calls[..k + 1]) == CallLinks(calls[..k]) + LinksOf(s, calls[k])
  {
    assert calls[..k + 1][..k] == calls[..k];
  }

  ghost predicate TidyAfter(calls: seq<Call>) {
    Tidy(Run(calls).0, CallLinks(calls))
  }

  lemma NextTidy(calls: seq<Call>, k: nat)
    requires k < |calls| && TidyAfter(calls[..k])
    ensures TidyAfter(calls[..k + 1])
  {
    StepTidy(Run(calls[..k]).0, CallLinks(calls[..k]), calls[k]);
    OneMore(calls, k);
  }

  lemma {:induction false} TidyRun(calls: seq<Call>, k: nat)
    requires k <= |calls|
    ensures TidyAfter(calls[..k])
  {
    if k == 0 {
      assert calls[..0] == [];
      assert forall v :: Places(EMPTY.owner)(v).None?;
    } else {
      TidyRun(calls, k - 1);
      NextTidy(calls, k - 1);
    }
  }

  lemma PrefixExact(calls: seq<Call>, k: nat)
    requires k < |calls| && ChainsAfter(calls[..k])
    ensures ChainsAfter(calls[..k + 1]) <==> SafeAt(calls, k)
  {
    TidyRun(calls, k);
    OneMore(calls, k);
    StepExact(Run(calls[..k]).0, CallLinks(calls[..k]), calls[k]);
  }

  lemma {:induction false} SafeUpTo(calls: seq<Call>, k: nat)
    requires k <= |calls| && forall j :: 0 <= j < k ==> SafeAt(calls, j)
    ensures ChainsAfter(calls[..k])
  {
    if k == 0 {
      assert calls[..0] == [];
    } else {
      SafeUpTo(calls, k - 1);
      PrefixExact(calls, k - 1);
    }
  }

  /**
   * Two pins in use are on one net exactly when a chain of calls joins them, all along the run, exactly when every call
   * is safe in the state it is made in; the first call that is not leaves two pins apart that a chain joins.
   */
  lemma ChainsExactly(calls: seq<Call>)
    ensures (forall k :: 0 <= k <= |calls| ==> ChainsAfter(calls[..k])) <==> AllSafe(calls)
  {
    if forall k :: 0 <= k <= |calls| ==> ChainsAfter(calls[..k]) {
      forall k | 0 <= k < |calls| ensures SafeAt(calls, k) {
        assert ChainsAfter(calls[..k]) && ChainsAfter(calls[..k + 1]);
        PrefixExact(calls, k);
      }
    }
    if AllSafe(calls) {
      forall k | 0 <= k <= |calls| ensures ChainsAfter(calls[..k]) {
        SafeUpTo(calls, k);
      }
    }
  }
}
