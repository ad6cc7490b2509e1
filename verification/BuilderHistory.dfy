/** Whole builder runs: the nets are exactly what the calls made so far have joined. */
module BuilderHistory {
  import opened Prelude
  import opened Chains
  import opened Builder

  /**
   * What a call can name: a pin or a node. The generation tells apart the lives of one name: deleting an element
   * ends the life of its pins, and merging a node away ends the life of its index.
   */
  datatype Vertex = PinV(endpoint: Endpoint, life: nat) | NodeV(node: nat, life: nat)

  /** Everything joined so far, and the current life of each name. */
  datatype History = History(links: set<(Vertex, Vertex)>, pinLife: map<Endpoint, nat>, nodeLife: map<nat, nat>)

  const NO_HISTORY := History({}, map[], map[])

  function Life<K>(m: map<K, nat>, k: K): (n: nat) {
    if k in m then m[k] else 0
  }

  function PinAt(life: map<Endpoint, nat>, e: Endpoint): (v: Vertex) {
    PinV(e, Life(life, e))
  }

  function NodeAt(life: map<nat, nat>, n: nat): (v: Vertex) {
    NodeV(n, Life(life, n))
  }

  function PinNow(h: History, e: Endpoint): (v: Vertex) {
    PinAt(h.pinLife, e)
  }

  function NodeNow(h: History, n: nat): (v: Vertex) {
    NodeAt(h.nodeLife, n)
  }

  function Linking(h: History, a: Vertex, b: Vertex): (h': History) {
    h.(links := h.links + {(a, b)})
  }

  /** Node src has been merged into another: its index starts a new, empty life. */
  function Merging(h: History, dst: nat, src: nat): (h': History) {
    if dst == src then h else h.(nodeLife := h.nodeLife[src := Life(h.nodeLife, src) + 1])
  }

  /** connect joins the two pins, and the pins to the node it returns. */
  function ConnectHistory(s: Net, h: History, a: Endpoint, b: Endpoint): (h': History) {
    var n := ConnectNode(s, a, b);
    var h1 := Linking(Linking(h, PinNow(h, a), PinNow(h, b)), PinNow(h, a), NodeNow(h, n));
    if a in s.owner && b in s.owner then Merging(h1, n, s.owner[b]) else h1
  }

  /** What a call adds to the history; a raising call adds nothing. */
  ghost function Recorded(s: Net, h: History, call: Call): (h': History)
    requires Valid(s)
  {
    match call
    case AddElement(_, _, _, _, _) => h
    case CreateNode(_) => h
    case AddToNode(node, element, pin) =>
      var n, i := ResolveNode(s, node), ResolveElement(s, element);
      if n.None? || i.None? then h else
      var e := (i.value, pin);
      var h1 := Linking(h, NodeNow(h, n.value), PinNow(h, e));
      if e in s.owner then Merging(h1, n.value, s.owner[e]) else h1
    case Connect(elementA, pinA, elementB, pinB) =>
      var i, j := ResolveElement(s, elementA), ResolveElement(s, elementB);
      if i.None? || j.None? then h else ConnectHistory(s, h, (i.value, pinA), (j.value, pinB))
    case ConnectRefs(a, b) => ConnectHistory(s, h, a, b)
    case MergeNodes(dst, src) =>
      var n, m := ResolveNode(s, dst), ResolveNode(s, src);
      if n.None? || m.None? then h
      else Merging(Linking(h, NodeNow(h, n.value), NodeNow(h, m.value)), n.value, m.value)
    case DeleteModel(element) =>
      var i := ResolveElement(s, element);
      if i.None? then h else
      h.(pinLife := Buried(h.pinLife, Doomed(s, i.value)))
  }

  ghost function Run(calls: seq<Call>): (r: (Net, History))
    ensures Valid(r.0)
  {
    if calls == [] then (EMPTY, NO_HISTORY) else
    var (s, h) := Run(calls[..|calls| - 1]);
    var call := calls[|calls| - 1];
    StepValid(s, call);
    (Step(s, call).0, Recorded(s, h, call))
  }

  // ----- The invariant -----

  /** The net of a vertex: a node number, or the vertex itself if nothing has ever named it. */
  datatype Place = On(node: nat) | Nowhere(vertex: Vertex)

  function PlaceAt(on: map<Vertex, nat>, v: Vertex): (p: Place) {
    if v in on then On(on[v]) else Nowhere(v)
  }

  ghost function PlaceOf(on: map<Vertex, nat>): Vertex -> Place {
    v => PlaceAt(on, v)
  }

  /** `on` places every vertex ever named, dead ones included, on the node its net now lives on. */
  ghost predicate Placed(owner: map<Endpoint, nat>, count: nat, pinLife: map<Endpoint, nat>, nodeLife: map<nat, nat>,
                         on: map<Vertex, nat>)
  {
    && (forall e :: e in owner ==> PinAt(pinLife, e) in on && on[PinAt(pinLife, e)] == owner[e])
    && (forall n :: 0 <= n < count ==> NodeAt(nodeLife, n) in on && on[NodeAt(nodeLife, n)] == n)
    && (forall v :: v in on ==> on[v] < count && Known(owner, count, pinLife, nodeLife, v))
    && (forall n :: n in nodeLife ==> n < count)
  }

  /** A placed vertex has been born, and a pin on no node has seen its life end. */
  ghost predicate Known(owner: map<Endpoint, nat>, count: nat, pinLife: map<Endpoint, nat>, nodeLife: map<nat, nat>,
                        v: Vertex)
  {
    match v
    case PinV(e, life) => if e in owner then life <= Life(pinLife, e) else life < Life(pinLife, e)
    case NodeV(n, life) => n < count && life <= Life(nodeLife, n)
  }

  ghost predicate Inv(s: Net, h: History, on: map<Vertex, nat>) {
    && Dual(s.nodes, s.owner)
    && Placed(s.owner, |s.nodes|, h.pinLife, h.nodeLife, on)
    && Classifies(h.links, PlaceOf(on))
  }

  lemma PlacedNewNode(owner: map<Endpoint, nat>, count: nat, pinLife: map<Endpoint, nat>, nodeLife: map<nat, nat>,
                      on: map<Vertex, nat>)
    requires Placed(owner, count, pinLife, nodeLife, on)
    ensures NodeAt(nodeLife, count) !in on
    ensures Placed(owner, count + 1, pinLife, nodeLife, on[NodeAt(nodeLife, count) := count])
  {
  }

  lemma PlacedPut(owner: map<Endpoint, nat>, count: nat, pinLife: map<Endpoint, nat>, nodeLife: map<nat, nat>,
                  on: map<Vertex, nat>, n: nat, e: Endpoint)
    requires Placed(owner, count, pinLife, nodeLife, on) && e !in owner && n < count
    ensures PinAt(pinLife, e) !in on
    ensures Placed(owner[e := n], count, pinLife, nodeLife, on[PinAt(pinLife, e) := n])
  {
  }

  function Buried(pinLife: map<Endpoint, nat>, gone: set<Endpoint>): (pinLife': map<Endpoint, nat>) {
    pinLife + map e | e in gone :: Life(pinLife, e) + 1
  }

  lemma PlacedDrop(owner: map<Endpoint, nat>, count: nat, pinLife: map<Endpoint, nat>, nodeLife: map<nat, nat>,
                   on: map<Vertex, nat>, gone: set<Endpoint>)
    requires Placed(owner, count, pinLife, nodeLife, on)
    ensures Placed(owner - gone, count, Buried(pinLife, gone), nodeLife, on)
  {
    forall e | e in owner - gone ensures PinAt(Buried(pinLife, gone), e) == PinAt(pinLife, e) {
    }
  }

  lemma InvNewNode(s: Net, h: History, on: map<Vertex, nat>)
    requires Inv(s, h, on)
    ensures Inv(NewNode(s), h, on[NodeNow(h, |s.nodes|) := |s.nodes|])
  {
    NewNodeDual(s);
    var on' := on[NodeNow(h, |s.nodes|) := |s.nodes|];
    PlacedNewNode(s.owner, |s.nodes|, h.pinLife, h.nodeLife, on);
    assert forall x, y :: PlaceOf(on')(x) == PlaceOf(on')(y) <==> PlaceOf(on)(x) == PlaceOf(on)(y);
  }

  /** A link between two vertices of one net changes nothing. */
  lemma InvLink(s: Net, h: History, on: map<Vertex, nat>, a: Vertex, b: Vertex)
    requires Inv(s, h, on) && PlaceOf(on)(a) == PlaceOf(on)(b)
    ensures Inv(s, Linking(h, a, b), on)
  {
    AddLink(h.links, a, b, PlaceOf(on), PlaceOf(on));
  }

  /** A new pin linked to some vertex of node n's net. */
  lemma InvPut(s: Net, h: History, on: map<Vertex, nat>, n: nat, e: Endpoint, a: Vertex, b: Vertex)
    requires Inv(s, h, on) && n < |s.nodes| && e !in s.owner
    requires (a == PinNow(h, e) && b in on && on[b] == n) || (b == PinNow(h, e) && a in on && on[a] == n)
    ensures Inv(Put(s, n, e), Linking(h, a, b), on[PinNow(h, e) := n])
  {
    PutDual(s, n, e);
    var on' := on[PinNow(h, e) := n];
    PlacedPut(s.owner, |s.nodes|, h.pinLife, h.nodeLife, on, n, e);
    AddLink(h.links, a, b, PlaceOf(on), PlaceOf(on'));
  }

  function Moved(on: map<Vertex, nat>, nodeLife: map<nat, nat>, dst: nat, src: nat): (on': map<Vertex, nat>) {
    if dst == src then on else
      (map v | v in on :: if on[v] == src then dst else on[v])[NodeV(src, Life(nodeLife, src) + 1) := src]
  }

  lemma MovedPlaced(owner: map<Endpoint, nat>, owner': map<Endpoint, nat>, count: nat, pinLife: map<Endpoint, nat>,
                    nodeLife: map<nat, nat>, on: map<Vertex, nat>, dst: nat, src: nat)
    requires Placed(owner, count, pinLife, nodeLife, on)
    requires dst < count && src < count && dst != src
    requires owner' == map e | e in owner :: if owner[e] == src then dst else owner[e]
    ensures NodeV(src, Life(nodeLife, src) + 1) !in on
    ensures Placed(owner', count, pinLife, nodeLife[src := Life(nodeLife, src) + 1], Moved(on, nodeLife, dst, src))
  {
    var nodeLife' := nodeLife[src := Life(nodeLife, src) + 1];
    var on' := Moved(on, nodeLife, dst, src);
    forall n | 0 <= n < count ensures NodeAt(nodeLife', n) in on' && on'[NodeAt(nodeLife', n)] == n {
      assert NodeAt(nodeLife, n) in on && on[NodeAt(nodeLife, n)] == n;
    }
  }

  lemma MovedMerges(on: map<Vertex, nat>, nodeLife: map<nat, nat>, dst: nat, src: nat, a: Vertex, b: Vertex,
                    x: Vertex, y: Vertex)
    requires dst != src && a in on && b in on && on[a] == dst && on[b] == src
    requires NodeV(src, Life(nodeLife, src) + 1) !in on
    ensures PlaceOf(Moved(on, nodeLife, dst, src))(x) == PlaceOf(Moved(on, nodeLife, dst, src))(y) <==>
            Merged(PlaceOf(on), a, b, x, y)
  {
  }

  /** Merging node src into dst, recorded as a link between any two vertices of their nets. */
  lemma InvAbsorb(s: Net, h: History, on: map<Vertex, nat>, dst: nat, src: nat, a: Vertex, b: Vertex)
    requires Inv(s, h, on) && dst < |s.nodes| && src < |s.nodes|
    requires a in on && b in on && on[a] == dst && on[b] == src
    ensures Inv(Absorb(s, dst, src), Merging(Linking(h, a, b), dst, src), Moved(on, h.nodeLife, dst, src))
  {
    AbsorbDual(s, dst, src);
    if dst == src {
      InvLink(s, h, on, a, b);
    } else {
      var on' := Moved(on, h.nodeLife, dst, src);
      MovedPlaced(s.owner, Absorb(s, dst, src).owner, |s.nodes|, h.pinLife, h.nodeLife, on, dst, src);
      forall x, y ensures PlaceOf(on')(x) == PlaceOf(on')(y) <==> Merged(PlaceOf(on), a, b, x, y) {
        MovedMerges(on, h.nodeLife, dst, src, a, b, x, y);
      }
      AddLink(h.links, a, b, PlaceOf(on), PlaceOf(on'));
    }
  }

  lemma InvDrop(s: Net, h: History, on: map<Vertex, nat>, i: nat)
    requires Inv(s, h, on) && i < |s.elements|
    ensures Inv(Drop(s, i), h.(pinLife := Buried(h.pinLife, Doomed(s, i))), on)
  {
    DropDual(s, i);
    PlacedDrop(s.owner, |s.nodes|, h.pinLife, h.nodeLife, on, Doomed(s, i));
  }

  // ----- Calls -----

  function OnAfterConnect(s: Net, h: History, on: map<Vertex, nat>, a: Endpoint, b: Endpoint): (on': map<Vertex, nat>) {
    var n := ConnectNode(s, a, b);
    if a in s.owner && b in s.owner then Moved(on, h.nodeLife, n, s.owner[b])
    else if a in s.owner then on[PinNow(h, b) := n]
    else if b in s.owner then on[PinNow(h, a) := n]
    else on[NodeNow(h, n) := n][PinNow(h, a) := n][PinNow(h, b) := n]
  }

  /** A first pin on a node made for it. */
  lemma InvFirstPin(s: Net, h: History, on: map<Vertex, nat>, a: Endpoint)
    requires Inv(s, h, on) && a !in s.owner
    ensures var n := |s.nodes|;
      Inv(Put(NewNode(s), n, a), Linking(h, PinNow(h, a), NodeNow(h, n)), on[NodeNow(h, n) := n][PinNow(h, a) := n])
  {
    var n := |s.nodes|;
    InvNewNode(s, h, on);
    InvPut(NewNode(s), h, on[NodeNow(h, n) := n], n, a, PinNow(h, a), NodeNow(h, n));
  }

  lemma InvConnectNew(s: Net, h: History, on: map<Vertex, nat>, a: Endpoint, b: Endpoint)
    requires Inv(s, h, on) && a !in s.owner && b !in s.owner
    ensures Inv(Connected(s, a, b), ConnectHistory(s, h, a, b), OnAfterConnect(s, h, on, a, b))
  {
    var n := |s.nodes|;
    var pa, pb, v := PinNow(h, a), PinNow(h, b), NodeNow(h, n);
    InvFirstPin(s, h, on, a);
    InvSecondPin(Put(NewNode(s), n, a), Linking(h, pa, v), on[v := n][pa := n], n, a, b);
    assert Linking(Linking(h, pa, v), pa, pb) == ConnectHistory(s, h, a, b) by {
      assert h.links + {(pa, v)} + {(pa, pb)} == h.links + {(pa, pb)} + {(pa, v)};
    }
  }

  /** Another pin for the node of pin a, which may be a itself. */
  lemma InvSecondPin(s: Net, h: History, on: map<Vertex, nat>, n: nat, a: Endpoint, b: Endpoint)
    requires Inv(s, h, on) && n < |s.nodes|
    requires a in s.owner && s.owner[a] == n && (b !in s.owner || b == a)
    ensures Inv(Put(s, n, b), Linking(h, PinNow(h, a), PinNow(h, b)), on[PinNow(h, b) := n])
  {
    if b == a {
      InvLink(s, h, on, PinNow(h, a), PinNow(h, b));
      assert on[PinNow(h, b) := n] == on;
    } else {
      InvPut(s, h, on, n, b, PinNow(h, a), PinNow(h, b));
    }
  }

  lemma ConnectMergeShape(s: Net, h: History, a: Endpoint, b: Endpoint)
    requires Dual(s.nodes, s.owner) && a in s.owner && b in s.owner
    ensures var n, m := s.owner[a], s.owner[b];
      && Connected(s, a, b) == Absorb(s, n, m)
      && ConnectHistory(s, h, a, b) ==
         Linking(Merging(Linking(h, PinNow(h, a), PinNow(h, b)), n, m), PinNow(h, a), NodeNow(h, n))
  {
  }

  lemma InvConnectMerge(s: Net, h: History, on: map<Vertex, nat>, a: Endpoint, b: Endpoint)
    requires Inv(s, h, on) && a in s.owner && b in s.owner
    ensures Inv(Connected(s, a, b), ConnectHistory(s, h, a, b), OnAfterConnect(s, h, on, a, b))
  {
    var n, m := s.owner[a], s.owner[b];
    var on' := Moved(on, h.nodeLife, n, m);
    InvAbsorb(s, h, on, n, m, PinNow(h, a), PinNow(h, b));
    assert PlaceOf(on')(PinNow(h, a)) == PlaceOf(on')(NodeNow(h, n)) == On(n);
    InvLink(Absorb(s, n, m), Merging(Linking(h, PinNow(h, a), PinNow(h, b)), n, m), on', PinNow(h, a), NodeNow(h, n));
    ConnectMergeShape(s, h, a, b);
  }

  lemma InvConnectOne(s: Net, h: History, on: map<Vertex, nat>, a: Endpoint, b: Endpoint)
    requires Inv(s, h, on) && (a in s.owner <==> b !in s.owner)
    ensures Inv(Connected(s, a, b), ConnectHistory(s, h, a, b), OnAfterConnect(s, h, on, a, b))
  {
    var n, e := ConnectNode(s, a, b), if a in s.owner then b else a;
    InvPut(s, h, on, n, e, PinNow(h, a), PinNow(h, b));
    InvLink(Put(s, n, e), Linking(h, PinNow(h, a), PinNow(h, b)), on[PinNow(h, e) := n], PinNow(h, a), NodeNow(h, n));
  }

  lemma InvConnect(s: Net, h: History, on: map<Vertex, nat>, a: Endpoint, b: Endpoint)
    requires Inv(s, h, on)
    ensures Inv(Connected(s, a, b), ConnectHistory(s, h, a, b), OnAfterConnect(s, h, on, a, b))
  {
    if a in s.owner && b in s.owner {
      InvConnectMerge(s, h, on, a, b);
    } else if a in s.owner || b in s.owner {
      InvConnectOne(s, h, on, a, b);
    } else {
      InvConnectNew(s, h, on, a, b);
    }
  }

  lemma InvAddToNode(s: Net, h: History, on: map<Vertex, nat>, n: nat, e: Endpoint) returns (on': map<Vertex, nat>)
    requires Inv(s, h, on) && n < |s.nodes|
    ensures var h1 := Linking(h, NodeNow(h, n), PinNow(h, e));
      Inv(AddedToNode(s, n, e), if e in s.owner then Merging(h1, n, s.owner[e]) else h1, on')
  {
    if e in s.owner {
      on' := Moved(on, h.nodeLife, n, s.owner[e]);
      InvAbsorb(s, h, on, n, s.owner[e], NodeNow(h, n), PinNow(h, e));
    } else {
      on' := on[PinNow(h, e) := n];
      InvPut(s, h, on, n, e, NodeNow(h, n), PinNow(h, e));
    }
  }

  lemma InvJoiningCall(s: Net, h: History, on: map<Vertex, nat>, call: Call) returns (on': map<Vertex, nat>)
    requires Valid(s) && Inv(s, h, on) && (call.Connect? || call.ConnectRefs? || call.AddToNode?)
    ensures Inv(Step(s, call).0, Recorded(s, h, call), on')
  {
    on' := on;
    match call
    case AddToNode(node, element, pin) =>
      var n, i := ResolveNode(s, node), ResolveElement(s, element);
      if n.Some? && i.Some? { on' := InvAddToNode(s, h, on, n.value, (i.value, pin)); }
    case Connect(elementA, pinA, elementB, pinB) =>
      var i, j := ResolveElement(s, elementA), ResolveElement(s, elementB);
      if i.Some? && j.Some? {
        InvConnect(s, h, on, (i.value, pinA), (j.value, pinB));
        on' := OnAfterConnect(s, h, on, (i.value, pinA), (j.value, pinB));
      }
    case ConnectRefs(a, b) =>
      InvConnect(s, h, on, a, b);
      on' := OnAfterConnect(s, h, on, a, b);
  }

  lemma InvMergeCall(s: Net, h: History, on: map<Vertex, nat>, call: Call) returns (on': map<Vertex, nat>)
    requires Valid(s) && Inv(s, h, on) && call.MergeNodes?
    ensures Inv(Step(s, call).0, Recorded(s, h, call), on')
  {
    on' := on;
    var n, m := ResolveNode(s, call.dst), ResolveNode(s, call.src);
    if n.Some? && m.Some? {
      InvAbsorb(s, h, on, n.value, m.value, NodeNow(h, n.value), NodeNow(h, m.value));
      on' := Moved(on, h.nodeLife, n.value, m.value);
    }
  }

  lemma InvStep(s: Net, h: History, on: map<Vertex, nat>, call: Call) returns (on': map<Vertex, nat>)
    requires Valid(s) && Inv(s, h, on)
    ensures Inv(Step(s, call).0, Recorded(s, h, call), on')
  {
    on' := on;
    match call
    case AddElement(_, _, _, _, _) =>
    case CreateNode(_) =>
      InvNewNode(s, h, on);
      on' := on[NodeNow(h, |s.nodes|) := |s.nodes|];
    case MergeNodes(_, _) =>
      on' := InvMergeCall(s, h, on, call);
    case DeleteModel(element) =>
      var i := ResolveElement(s, element);
      if i.Some? { InvDrop(s, h, on, i.value); }
    case _ =>
      on' := InvJoiningCall(s, h, on, call);
  }

  lemma {:induction false} InvRun(calls: seq<Call>) returns (on: map<Vertex, nat>)
    ensures Inv(Run(calls).0, Run(calls).1, on)
  {
    if calls == [] {
      on := map[];
      NoLinks(PlaceOf(on));
    } else {
      on := InvRun(calls[..|calls| - 1]);
      var (s, h) := Run(calls[..|calls| - 1]);
      on := InvStep(s, h, on, calls[|calls| - 1]);
    }
  }

  /**
   * After any sequence of public calls, two endpoints are on one net exactly when the calls so far have joined them,
   * and an endpoint is on a node's list exactly when the calls have joined it to that node.
   */
  lemma NetsAreWhatCallsJoined(calls: seq<Call>, a: Endpoint, b: Endpoint, n: nat)
    requires a in Run(calls).0.owner && n < |Run(calls).0.nodes|
    ensures var (s, h) := Run(calls);
      && (b in s.owner ==> (s.owner[a] == s.owner[b] <==> Joined(h.links, PinNow(h, a), PinNow(h, b))))
      && (a in s.nodes[n] <==> Joined(h.links, PinNow(h, a), NodeNow(h, n)))
  {
    var on := InvRun(calls);
    var (s, h) := Run(calls);
    assert PlaceOf(on)(PinNow(h, a)) == On(s.owner[a]) && PlaceOf(on)(NodeNow(h, n)) == On(n);
    if b in s.owner { assert PlaceOf(on)(PinNow(h, b)) == On(s.owner[b]); }
  }
}
