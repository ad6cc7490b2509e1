/** NetlistBuilder: pins on named nets, kept in per-node lists and in an endpoint index that must agree. */
module Builder {
  import opened Prelude
  import opened Parts

  type Endpoint = (int, int)

  /** The builder's state as a value. Deleted elements leave None behind, so indices never move. */
  datatype Net = Net(
    elements: seq<Option<Element>>,
    elementNames: map<string, nat>,
    nodes: seq<seq<Endpoint>>,
    nodeNames: map<string, nat>,
    owner: map<Endpoint, nat>)

  datatype Ref = ByIndex(index: int) | ByName(name: string)

  datatype ElementArg = Given(element: Element) | FromCode(code: int)

  datatype Outcome = Ok(index: int) | ValueError | KeyError

  /** The public mutators. ConnectRefs is connect() on two pin references, which skips the liveness check. */
  datatype Call =
    | AddElement(arg: ElementArg, properties: seq<real>, source: Option<string>, top: Option<string>,
                 name: Option<string>)
    | CreateNode(name: Option<string>)
    | AddToNode(node: Ref, element: Ref, pin: int)
    | Connect(elementA: Ref, pinA: int, elementB: Ref, pinB: int)
    | ConnectRefs(a: Endpoint, b: Endpoint)
    | MergeNodes(dst: Ref, src: Ref)
    | DeleteModel(element: Ref)

  const EMPTY := Net([], map[], [], map[], map[])

  // ----- The dual index -----

  ghost predicate NoRepeats<T>(s: seq<T>) {
    forall i, j :: 0 <= i < j < |s| ==> s[i] != s[j]
  }

  /** An endpoint is owned by node n iff it is in list n; lists do not repeat (so they are disjoint too). */
  ghost predicate Dual(nodes: seq<seq<Endpoint>>, owner: map<Endpoint, nat>) {
    && (forall e :: e in owner ==> owner[e] < |nodes| && e in nodes[owner[e]])
    && (forall n, e :: 0 <= n < |nodes| && e in nodes[n] ==> e in owner && owner[e] == n)
    && (forall n :: 0 <= n < |nodes| ==> NoRepeats(nodes[n]))
  }

  ghost predicate Valid(s: Net) {
    && Dual(s.nodes, s.owner)
    && (forall k :: k in s.elementNames ==> s.elementNames[k] < |s.elements|)
    && (forall k :: k in s.nodeNames ==> s.nodeNames[k] < |s.nodes|)
  }

  predicate Live(s: Net, i: int) {
    0 <= i < |s.elements| && s.elements[i].Some?
  }

  function ResolveElement(s: Net, r: Ref): (i: Option<nat>)
    ensures i.Some? ==> Live(s, i.value)
  {
    var index := match r case ByIndex(k) => k case ByName(n) => if n in s.elementNames then s.elementNames[n] else -1;
    if Live(s, index) then Some(index) else None
  }

  function ResolveNode(s: Net, r: Ref): (i: Option<nat>)
    ensures i.Some? ==> i.value < |s.nodes|
  {
    var index := match r case ByIndex(k) => k case ByName(n) => if n in s.nodeNames then s.nodeNames[n] else -1;
    if 0 <= index < |s.nodes| then Some(index) else None
  }

  // ----- What each operation does to the state -----

  function NewNode(s: Net): (s': Net) {
    s.(nodes := s.nodes + [[]])
  }

  /** Everything on node src moves to node dst. */
  function Absorb(s: Net, dst: nat, src: nat): (s': Net)
    requires dst < |s.nodes| && src < |s.nodes|
  {
    if dst == src then s else
      s.(nodes := s.nodes[dst := s.nodes[dst] + s.nodes[src]][src := []],
         owner := map e | e in s.owner :: if s.owner[e] == src then dst else s.owner[e])
  }

  /** Endpoint e joins node n unless it is on a node already. */
  function Put(s: Net, n: nat, e: Endpoint): (s': Net)
    requires n < |s.nodes|
  {
    if e in s.owner then s else s.(nodes := s.nodes[n := s.nodes[n] + [e]], owner := s.owner[e := n])
  }

  function Without(list: seq<Endpoint>, gone: set<Endpoint>): (r: seq<Endpoint>) {
    if list == [] then [] else
      (if list[0] in gone then [] else [list[0]]) + Without(list[1..], gone)
  }

  function AllWithout(nodes: seq<seq<Endpoint>>, gone: set<Endpoint>): (r: seq<seq<Endpoint>>)
    ensures |r| == |nodes|
  {
    seq(|nodes|, n requires 0 <= n < |nodes| => Without(nodes[n], gone))
  }

  ghost function Doomed(s: Net, i: int): (gone: set<Endpoint>) {
    set e | e in s.owner && e.0 == i
  }

  /** Element i and all its endpoints go; the node lists keep their order. */
  ghost function Drop(s: Net, i: nat): (s': Net)
    requires i < |s.elements|
  {
    s.(elements := s.elements[i := None],
       nodes := AllWithout(s.nodes, Doomed(s, i)),
       owner := s.owner - Doomed(s, i))
  }

  function ConnectNode(s: Net, a: Endpoint, b: Endpoint): (n: nat) {
    if a in s.owner then s.owner[a] else if b in s.owner then s.owner[b] else |s.nodes|
  }

  function Connected(s: Net, a: Endpoint, b: Endpoint): (s': Net)
    requires forall e :: e in s.owner ==> s.owner[e] < |s.nodes|
  {
    var n := ConnectNode(s, a, b);
    var s1 := if a !in s.owner && b !in s.owner then NewNode(s)
              else if a in s.owner && b in s.owner then Absorb(s, n, s.owner[b]) else s;
    Put(Put(s1, n, a), n, b)
  }

  function AddedToNode(s: Net, n: nat, e: Endpoint): (s': Net)
    requires n < |s.nodes| && forall e :: e in s.owner ==> s.owner[e] < |s.nodes|
  {
    Put(if e in s.owner then Absorb(s, n, s.owner[e]) else s, n, e)
  }

  type Reply = (Net, Outcome)

  function AddElementReply(s: Net, arg: ElementArg, properties: seq<real>, source: Option<string>, top: Option<string>,
                           name: Option<string>): (r: Reply)
  {
    if arg.Given? && (properties != [] || source.Some? || top.Some?) then (s, ValueError) else
    var element := match arg case Given(e) => e case FromCode(c) => Element(c, properties, source, top);
    var s1 := s.(elements := s.elements + [Some(element)]);
    if name.None? then (s1, Ok(|s.elements|))
    else if name.value in s.elementNames then (s1, ValueError)
    else (s1.(elementNames := s.elementNames[name.value := |s.elements|]), Ok(|s.elements|))
  }

  function CreateNodeReply(s: Net, name: Option<string>): (r: Reply) {
    if name.None? then (NewNode(s), Ok(|s.nodes|))
    else if name.value in s.nodeNames then (NewNode(s), ValueError)
    else (NewNode(s).(nodeNames := s.nodeNames[name.value := |s.nodes|]), Ok(|s.nodes|))
  }

  function AddToNodeReply(s: Net, node: Ref, element: Ref, pin: int): (r: Reply)
    requires forall e :: e in s.owner ==> s.owner[e] < |s.nodes|
  {
    var n, i := ResolveNode(s, node), ResolveElement(s, element);
    if n.None? || i.None? then (s, KeyError) else (AddedToNode(s, n.value, (i.value, pin)), Ok(n.value))
  }

  function ConnectRefsReply(s: Net, a: Endpoint, b: Endpoint): (r: Reply)
    requires forall e :: e in s.owner ==> s.owner[e] < |s.nodes|
  {
    (Connected(s, a, b), Ok(ConnectNode(s, a, b)))
  }

  function ConnectReply(s: Net, elementA: Ref, pinA: int, elementB: Ref, pinB: int): (r: Reply)
    requires forall e :: e in s.owner ==> s.owner[e] < |s.nodes|
  {
    var i, j := ResolveElement(s, elementA), ResolveElement(s, elementB);
    if i.None? || j.None? then (s, KeyError) else ConnectRefsReply(s, (i.value, pinA), (j.value, pinB))
  }

  function MergeNodesReply(s: Net, dst: Ref, src: Ref): (r: Reply) {
    var n, m := ResolveNode(s, dst), ResolveNode(s, src);
    if n.None? || m.None? then (s, KeyError) else (Absorb(s, n.value, m.value), Ok(n.value))
  }

  ghost function DeleteModelReply(s: Net, element: Ref): (r: Reply) {
    var i := ResolveElement(s, element);
    if i.None? then (s, KeyError) else (Drop(s, i.value), Ok(i.value))
  }

  /** One public call, including what a raising call leaves behind. */
  ghost function Step(s: Net, call: Call): (r: Reply)
    requires Valid(s)
  {
    match call
    case AddElement(arg, properties, source, top, name) => AddElementReply(s, arg, properties, source, top, name)
    case CreateNode(name) => CreateNodeReply(s, name)
    case AddToNode(node, element, pin) => AddToNodeReply(s, node, element, pin)
    case Connect(elementA, pinA, elementB, pinB) => ConnectReply(s, elementA, pinA, elementB, pinB)
    case ConnectRefs(a, b) => ConnectRefsReply(s, a, b)
    case MergeNodes(dst, src) => MergeNodesReply(s, dst, src)
    case DeleteModel(element) => DeleteModelReply(s, element)
  }

  // ----- Every call keeps the dual index -----

  lemma NewNodeDual(s: Net)
    requires Dual(s.nodes, s.owner)
    ensures Dual(NewNode(s).nodes, s.owner)
  {
  }

  lemma AppendNoRepeats<T>(a: seq<T>, b: seq<T>)
    requires NoRepeats(a) && NoRepeats(b) && forall x :: x in a ==> x !in b
    ensures NoRepeats(a + b)
  {
    forall i, j | 0 <= i < j < |a + b| ensures (a + b)[i] != (a + b)[j] {
      if i < |a| <= j { assert a[i] in a && b[j - |a|] in b; }
    }
  }

  lemma AbsorbDual(s: Net, dst: nat, src: nat)
    requires Dual(s.nodes, s.owner) && dst < |s.nodes| && src < |s.nodes|
    ensures Dual(Absorb(s, dst, src).nodes, Absorb(s, dst, src).owner)
  {
    if dst != src {
      var nodes := Absorb(s, dst, src).nodes;
      forall e | e in s.nodes[dst] ensures e !in s.nodes[src] {
        assert s.owner[e] == dst;
      }
      AppendNoRepeats(s.nodes[dst], s.nodes[src]);
      forall n, e | 0 <= n < |nodes|
        ensures e in nodes[n] <==>
          if n == dst then e in s.nodes[dst] || e in s.nodes[src] else n != src && e in s.nodes[n]
      {
      }
    }
  }

  lemma PutDual(s: Net, n: nat, e: Endpoint)
    requires Dual(s.nodes, s.owner) && n < |s.nodes|
    ensures Dual(Put(s, n, e).nodes, Put(s, n, e).owner)
  {
    if e !in s.owner {
      var nodes := Put(s, n, e).nodes;
      assert NoRepeats(nodes[n]);
      forall m, f | 0 <= m < |nodes| ensures f in nodes[m] <==> f in s.nodes[m] || (m == n && f == e) {
      }
    }
  }

  lemma {:induction false} WithoutKeeps(list: seq<Endpoint>, gone: set<Endpoint>)
    requires NoRepeats(list)
    ensures NoRepeats(Without(list, gone))
    ensures forall e :: e in Without(list, gone) <==> e in list && e !in gone
  {
    if list != [] { WithoutKeeps(list[1..], gone); }
  }

  lemma DropDual(s: Net, i: nat)
    requires Dual(s.nodes, s.owner) && i < |s.elements|
    ensures Dual(Drop(s, i).nodes, Drop(s, i).owner)
  {
    var nodes, owner := Drop(s, i).nodes, Drop(s, i).owner;
    forall n | 0 <= n < |s.nodes|
      ensures NoRepeats(nodes[n])
      ensures forall e :: e in nodes[n] <==> e in s.nodes[n] && e !in Doomed(s, i)
    {
      WithoutKeeps(s.nodes[n], Doomed(s, i));
    }
    forall e | e in owner ensures owner[e] < |nodes| && e in nodes[owner[e]] {
      assert e in s.owner && e in s.nodes[s.owner[e]];
    }
  }

  lemma ConnectedDual(s: Net, a: Endpoint, b: Endpoint)
    requires Dual(s.nodes, s.owner)
    ensures Dual(Connected(s, a, b).nodes, Connected(s, a, b).owner) && |s.nodes| <= |Connected(s, a, b).nodes|
  {
    var n := ConnectNode(s, a, b);
    var s1 := if a !in s.owner && b !in s.owner then NewNode(s)
              else if a in s.owner && b in s.owner then Absorb(s, n, s.owner[b]) else s;
    NewNodeDual(s);
    if a in s.owner && b in s.owner { AbsorbDual(s, n, s.owner[b]); }
    PutDual(s1, n, a);
    PutDual(Put(s1, n, a), n, b);
  }

  lemma AddedToNodeDual(s: Net, n: nat, e: Endpoint)
    requires Dual(s.nodes, s.owner) && n < |s.nodes|
    ensures Dual(AddedToNode(s, n, e).nodes, AddedToNode(s, n, e).owner)
    ensures |s.nodes| <= |AddedToNode(s, n, e).nodes|
  {
    if e in s.owner { AbsorbDual(s, n, s.owner[e]); }
    PutDual(if e in s.owner then Absorb(s, n, s.owner[e]) else s, n, e);
  }

  lemma ConnectRefsValid(s: Net, a: Endpoint, b: Endpoint)
    requires Valid(s)
    ensures Valid(ConnectRefsReply(s, a, b).0)
  {
    ConnectedDual(s, a, b);
  }

  lemma AddToNodeValid(s: Net, node: Ref, element: Ref, pin: int)
    requires Valid(s)
    ensures Valid(AddToNodeReply(s, node, element, pin).0)
  {
    var n, i := ResolveNode(s, node), ResolveElement(s, element);
    if n.Some? && i.Some? { AddedToNodeDual(s, n.value, (i.value, pin)); }
  }

  lemma MergeNodesValid(s: Net, dst: Ref, src: Ref)
    requires Valid(s)
    ensures Valid(MergeNodesReply(s, dst, src).0)
  {
    var n, m := ResolveNode(s, dst), ResolveNode(s, src);
    if n.Some? && m.Some? { AbsorbDual(s, n.value, m.value); }
  }

  lemma DeleteModelValid(s: Net, element: Ref)
    requires Valid(s)
    ensures Valid(DeleteModelReply(s, element).0)
  {
    var i := ResolveElement(s, element);
    if i.Some? { DropDual(s, i.value); }
  }

  lemma CreateNodeValid(s: Net, name: Option<string>)
    requires Valid(s)
    ensures Valid(CreateNodeReply(s, name).0)
  {
    NewNodeDual(s);
  }

  /** Every public call, raising or not, keeps the two indices in agreement. */
  lemma StepValid(s: Net, call: Call)
    requires Valid(s)
    ensures Valid(Step(s, call).0)
  {
    match call
    case AddElement(_, _, _, _, _) =>
    case CreateNode(name) => CreateNodeValid(s, name);
    case AddToNode(node, element, pin) => AddToNodeValid(s, node, element, pin);
    case Connect(elementA, pinA, elementB, pinB) =>
      var i, j := ResolveElement(s, elementA), ResolveElement(s, elementB);
      if i.Some? && j.Some? { ConnectRefsValid(s, (i.value, pinA), (j.value, pinB)); }
    case ConnectRefs(a, b) => ConnectRefsValid(s, a, b);
    case MergeNodes(dst, src) => MergeNodesValid(s, dst, src);
    case DeleteModel(element) => DeleteModelValid(s, element);
  }
}
