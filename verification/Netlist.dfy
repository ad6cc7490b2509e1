/** build_netlist_from_wires: from an element table and a flat wire table to engine nodes. */
module Netlist {
  import opened Prelude
  import opened Parts
  import opened Chains
  import opened UnionFind

  /** What a wire end touches. Every code-0 element is the one ground point. */
  datatype Point = Ground | Pin(ele: int, pin: int)

  datatype Node = GroundNode | Fresh(id: nat)

  /** The class of a point: the root of its tree, or the point itself when it has no number. */
  datatype Class = Tree(root: int) | Alone(point: Point)

  /** The engine's netlist, as far as wiring sees it: nodes made so far, and the node of each attached pin. */
  class Board {
    var nodeCount: nat
    var pinNode: map<(int, int), Node>

    constructor ()
      ensures nodeCount == 0 && pinNode == map[]
    {
      nodeCount, pinNode := 0, map[];
    }

    method CreateNode() returns (node: Node)
      modifies this`nodeCount
      ensures node == Fresh(old(nodeCount)) && nodeCount == old(nodeCount) + 1
    {
      node := Fresh(nodeCount);
      nodeCount := nodeCount + 1;
    }

    method AddToNode(comp: int, pin: int, node: Node)
      modifies this`pinNode
      ensures pinNode == old(pinNode)[(comp, pin) := node]
    {
      pinNode := pinNode[(comp, pin) := node];
    }
  }

  // ----- Specification -----

  predicate IsComponent(code: int) {
    code != 0
  }

  /** Components are numbered by their order among the non-ground elements. */
  function CompIndex(elements: seq<int>, e: nat): (c: nat)
    requires e <= |elements|
    ensures c <= e
  {
    CountBefore(elements, IsComponent, e)
  }

  /** Pins of element e: none for ground, none when the engine has no model for the component. */
  function PinCount(elements: seq<int>, models: seq<Option<nat>>, e: nat): (n: nat)
    requires e < |elements|
  {
    var c := CompIndex(elements, e);
    if elements[e] != 0 && c < |models| && models[c].Some? then models[c].value else 0
  }

  function PinCounts(elements: seq<int>, models: seq<Option<nat>>): (counts: seq<nat>)
    ensures |counts| == |elements|
  {
    seq(|elements|, e requires 0 <= e < |elements| => PinCount(elements, models, e))
  }

  function Base(counts: seq<nat>, e: nat): (b: nat)
    requires e <= |counts|
  {
    if e == 0 then 0 else Base(counts, e - 1) + counts[e - 1]
  }

  predicate IsPin(counts: seq<nat>, e: int, p: int) {
    0 <= e < |counts| && 0 <= p < counts[e]
  }

  predicate IsPoint(counts: seq<nat>, p: Point) {
    p.Pin? ==> IsPin(counts, p.ele, p.pin)
  }

  /** The slot of a point in the parent array; ground takes the extra slot at the end. */
  function Slot(counts: seq<nat>, p: Point): (s: nat)
    requires IsPoint(counts, p)
  {
    match p
    case Ground => Base(counts, |counts|)
    case Pin(e, i) => Base(counts, e) + i
  }

  /** The point a wire end names, or None when the wire must be skipped. */
  function EndOf(elements: seq<int>, counts: seq<nat>, ele: int, pin: int): (p: Option<Point>)
    requires |counts| == |elements|
    ensures p.Some? ==> IsPoint(counts, p.value)
  {
    if ele < 0 || ele >= |elements| then None
    else if elements[ele] == 0 then Some(Ground)
    else if pin < 0 || pin >= counts[ele] then None
    else Some(Pin(ele, pin))
  }

  function FirstEnd(elements: seq<int>, counts: seq<nat>, wires: seq<int>, i: nat): (p: Option<Point>)
    requires |counts| == |elements| && 4 * i + 3 < |wires|
    ensures p.Some? ==> IsPoint(counts, p.value)
  {
    EndOf(elements, counts, wires[4 * i], wires[4 * i + 1])
  }

  function SecondEnd(elements: seq<int>, counts: seq<nat>, wires: seq<int>, i: nat): (p: Option<Point>)
    requires |counts| == |elements| && 4 * i + 3 < |wires|
    ensures p.Some? ==> IsPoint(counts, p.value)
  {
    EndOf(elements, counts, wires[4 * i + 2], wires[4 * i + 3])
  }

  predicate Accepted(elements: seq<int>, counts: seq<nat>, wires: seq<int>, i: nat)
    requires |counts| == |elements| && 4 * i + 3 < |wires|
  {
    FirstEnd(elements, counts, wires, i).Some? && SecondEnd(elements, counts, wires, i).Some?
  }

  /** The links laid by the accepted wires among the first k. */
  ghost function Links(elements: seq<int>, counts: seq<nat>, wires: seq<int>, k: nat): (links: set<(Point, Point)>)
    requires |counts| == |elements| && 4 * k <= |wires|
    ensures forall a, b :: (a, b) in links ==> IsPoint(counts, a) && IsPoint(counts, b)
  {
    set i | 0 <= i < k && Accepted(elements, counts, wires, i) ::
      (FirstEnd(elements, counts, wires, i).value, SecondEnd(elements, counts, wires, i).value)
  }

  ghost predicate Used(links: set<(Point, Point)>, p: Point) {
    exists q :: Linked(links, p, q)
  }

  ghost function ClassOf(counts: seq<nat>, root: seq<int>): Point -> Class
    requires |root| == Base(counts, |counts|) + 1
  {
    p => if IsPoint(counts, p) && Slot(counts, p) < |root| then Tree(root[Slot(counts, p)]) else Alone(p)
  }

  // ----- Pin numbering -----

  lemma {:induction false} BaseMono(counts: seq<nat>, e: nat, f: nat)
    requires e <= f <= |counts|
    ensures Base(counts, e) <= Base(counts, f)
    ensures e < f ==> Base(counts, e) + counts[e] <= Base(counts, f)
    decreases f
  {
    if e < f { BaseMono(counts, e, f - 1); }
  }

  /** Distinct points have distinct slots, and only ground has the last one. */
  lemma SlotInjective(counts: seq<nat>, p: Point, q: Point)
    requires IsPoint(counts, p) && IsPoint(counts, q)
    ensures Slot(counts, p) <= Base(counts, |counts|)
    ensures Slot(counts, p) == Base(counts, |counts|) <==> p == Ground
    ensures Slot(counts, p) == Slot(counts, q) ==> p == q
  {
    if p.Pin? { BaseMono(counts, p.ele, |counts|); }
    if q.Pin? { BaseMono(counts, q.ele, |counts|); }
    if p.Pin? && q.Pin? {
      if p.ele < q.ele { BaseMono(counts, p.ele, q.ele); }
      if q.ele < p.ele { BaseMono(counts, q.ele, p.ele); }
    }
  }

  /** Every slot but the last belongs to some pin. */
  lemma {:induction false} SlotSurjective(counts: seq<nat>, e: nat, s: nat) returns (p: Point)
    requires e <= |counts| && s < Base(counts, e)
    ensures IsPoint(counts, p) && p.Pin? && Slot(counts, p) == s
    decreases e
  {
    if s < Base(counts, e - 1) {
      p := SlotSurjective(counts, e - 1, s);
    } else {
      p := Pin(e - 1, s - Base(counts, e - 1));
    }
  }

  method ScanPins(elements: seq<int>, models: seq<Option<nat>>) returns (counts: seq<nat>, offset: seq<nat>)
    requires CompIndex(elements, |elements|) <= |models|
    ensures counts == PinCounts(elements, models)
    ensures |offset| == |elements| + 1
    ensures forall e :: 0 <= e <= |elements| ==> offset[e] == Base(counts, e)
  {
    counts := CountPins(elements, models);
    offset := SumPins(counts);
  }

  method CountPins(elements: seq<int>, models: seq<Option<nat>>) returns (counts: seq<nat>)
    requires CompIndex(elements, |elements|) <= |models|
    ensures counts == PinCounts(elements, models)
  {
    var n := |elements|;
    var pinCount := new nat[n](_ => 0);
    var comp := 0;
    for e := 0 to n
      invariant comp == CompIndex(elements, e)
      invariant pinCount[..e] == PinCounts(elements, models)[..e]
    {
      if elements[e] == 0 {
        pinCount[e] := 0;
      } else {
        CountMono(elements, IsComponent, e, n);
        pinCount[e] := match models[comp] case None => 0 case Some(size) => size;
        comp := comp + 1;
      }
      assert pinCount[..e + 1] == pinCount[..e] + [PinCount(elements, models, e)];
    }
    counts := pinCount[..];
  }

  method SumPins(counts: seq<nat>) returns (offset: seq<nat>)
    ensures |offset| == |counts| + 1
    ensures forall e :: 0 <= e <= |counts| ==> offset[e] == Base(counts, e)
  {
    var baseOffset := new nat[|counts| + 1](_ => 0);
    for e := 0 to |counts|
      invariant forall j :: 0 <= j <= e ==> baseOffset[j] == Base(counts, j)
    {
      baseOffset[e + 1] := baseOffset[e] + counts[e];
    }
    offset := baseOffset[..];
  }

  // ----- The wire loop -----

  /** A slot is marked exactly when its point is an end of a link. */
  ghost predicate Marks(counts: seq<nat>, links: set<(Point, Point)>, visited: seq<bool>) {
    forall p :: IsPoint(counts, p) && Slot(counts, p) < |visited| ==> (visited[Slot(counts, p)] <==> Used(links, p))
  }

  /** What the union-find arrays mean after the given links. */
  ghost predicate Tracks(counts: seq<nat>, links: set<(Point, Point)>, parent: seq<int>, visited: seq<bool>,
                         root: seq<int>, depth: seq<nat>)
  {
    var total := Base(counts, |counts|);
    && |parent| == total + 1
    && Forest(parent, root, depth) && Touched(parent, root, visited)
    && root[total] == total
    && Classifies(links, ClassOf(counts, root))
    && Marks(counts, links, visited)
  }

  lemma StartTracks(counts: seq<nat>, parent: seq<int>, visited: seq<bool>)
    requires |parent| == |visited| == Base(counts, |counts|) + 1
    requires forall i :: 0 <= i < |parent| ==> parent[i] == i && !visited[i]
    ensures Tracks(counts, {}, parent, visited, parent, seq(|parent|, _ => 0))
  {
    var tag := ClassOf(counts, parent);
    forall p, q | tag(p) == tag(q) ensures p == q {
      if IsPoint(counts, p) { SlotInjective(counts, p, p); }
      if IsPoint(counts, q) { SlotInjective(counts, q, q); }
      if IsPoint(counts, p) && IsPoint(counts, q) { SlotInjective(counts, p, q); }
    }
    NoLinks(tag);
  }

  /** Uniting the slots of two points adds exactly the link between them. */
  lemma UniteLinks(counts: seq<nat>, links: set<(Point, Point)>, p: Point, q: Point, root: seq<int>, root': seq<int>)
    requires IsPoint(counts, p) && IsPoint(counts, q)
    requires |root| == |root'| == Base(counts, |counts|) + 1
    requires Classifies(links, ClassOf(counts, root))
    requires United(root, root', Slot(counts, p), Slot(counts, q))
    ensures Classifies(links + {(p, q)}, ClassOf(counts, root'))
  {
    forall x, y ensures ClassOf(counts, root')(x) == ClassOf(counts, root')(y) <==>
                        Merged(ClassOf(counts, root), p, q, x, y)
    {
      UniteClasses(counts, p, q, root, root', x, y);
    }
    AddLink(links, p, q, ClassOf(counts, root), ClassOf(counts, root'));
  }

  lemma UniteMarks(counts: seq<nat>, links: set<(Point, Point)>, p: Point, q: Point, visited: seq<bool>)
    requires IsPoint(counts, p) && IsPoint(counts, q)
    requires |visited| == Base(counts, |counts|) + 1
    requires Slot(counts, p) < |visited| && Slot(counts, q) < |visited|
    requires Marks(counts, links, visited)
    ensures Marks(counts, links + {(p, q)}, visited[Slot(counts, p) := true][Slot(counts, q) := true])
  {
    forall x | IsPoint(counts, x) && Slot(counts, x) < |visited|
      ensures visited[Slot(counts, p) := true][Slot(counts, q) := true][Slot(counts, x)] <==>
              Used(links + {(p, q)}, x)
    {
      SlotInjective(counts, x, p);
      SlotInjective(counts, x, q);
      UsedAdd(links, p, q, x);
    }
  }

  lemma UniteClasses(counts: seq<nat>, p: Point, q: Point, root: seq<int>, root': seq<int>, x: Point, y: Point)
    requires IsPoint(counts, p) && IsPoint(counts, q)
    requires |root| == |root'| == Base(counts, |counts|) + 1
    requires United(root, root', Slot(counts, p), Slot(counts, q))
    ensures ClassOf(counts, root')(x) == ClassOf(counts, root')(y) <==> Merged(ClassOf(counts, root), p, q, x, y)
  {
    if IsPoint(counts, x) { SlotInjective(counts, x, x); }
    if IsPoint(counts, y) { SlotInjective(counts, y, y); }
  }

  lemma UsedAdd(links: set<(Point, Point)>, p: Point, q: Point, x: Point)
    ensures Used(links + {(p, q)}, x) <==> Used(links, x) || x == p || x == q
  {
    if Used(links, x) {
      var y :| Linked(links, x, y);
      assert Linked(links + {(p, q)}, x, y);
    }
    assert Linked(links + {(p, q)}, p, q) && Linked(links + {(p, q)}, q, p);
    if Used(links + {(p, q)}, x) {
      var y :| Linked(links + {(p, q)}, x, y);
      assert Linked(links, x, y) || x == p || x == q;
    }
  }

  lemma LinksStep(elements: seq<int>, counts: seq<nat>, wires: seq<int>, i: nat)
    requires |counts| == |elements| && 4 * i + 3 < |wires|
    ensures Accepted(elements, counts, wires, i) ==>
      Links(elements, counts, wires, i + 1) == Links(elements, counts, wires, i) +
        {(FirstEnd(elements, counts, wires, i).value, SecondEnd(elements, counts, wires, i).value)}
    ensures !Accepted(elements, counts, wires, i) ==>
      Links(elements, counts, wires, i + 1) == Links(elements, counts, wires, i)
  {
  }

  /** One accepted wire between the slots of p and q. */
  method JoinPoints(node1: int, node2: int, ground: int, parent: array<int>, visited: array<bool>,
                    ghost counts: seq<nat>, ghost links: set<(Point, Point)>, ghost p: Point, ghost q: Point,
                    ghost root: seq<int>, ghost depth: seq<nat>)
    returns (ghost root': seq<int>, ghost depth': seq<nat>)
    requires Tracks(counts, links, parent[..], visited[..], root, depth)
    requires IsPoint(counts, p) && node1 == Slot(counts, p)
    requires IsPoint(counts, q) && node2 == Slot(counts, q)
    requires ground == Base(counts, |counts|)
    modifies parent, visited
    ensures Tracks(counts, links + {(p, q)}, parent[..], visited[..], root', depth')
  {
    SlotInjective(counts, p, q);
    SlotInjective(counts, q, p);
    ghost var visited0 := visited[..];
    root', depth' := Unite(node1, node2, ground, parent, visited, root, depth);
    UniteLinks(counts, links, p, q, root, root');
    UniteMarks(counts, links, p, q, visited0);
  }

  /** The union-find pass over all wires. */
  method JoinWires(elements: seq<int>, counts: seq<nat>, offset: seq<nat>, wires: seq<int>, wireCount: nat,
                   parent: array<int>, visited: array<bool>)
    returns (ghost root: seq<int>, ghost depth: seq<nat>)
    requires |counts| == |elements| && |offset| == |counts| + 1 && 4 * wireCount <= |wires|
    requires forall e :: 0 <= e <= |counts| ==> offset[e] == Base(counts, e)
    requires parent.Length == visited.Length == offset[|counts|] + 1
    requires forall i :: 0 <= i < parent.Length ==> parent[i] == i && !visited[i]
    modifies parent, visited
    ensures Tracks(counts, Links(elements, counts, wires, wireCount), parent[..], visited[..], root, depth)
  {
    var n := |elements|;
    var ground := offset[n];
    root, depth := parent[..], seq(parent.Length, _ => 0);
    StartTracks(counts, parent[..], visited[..]);
    assert Links(elements, counts, wires, 0) == {};
    for i := 0 to wireCount
      invariant Tracks(counts, Links(elements, counts, wires, i), parent[..], visited[..], root, depth)
    {
      LinksStep(elements, counts, wires, i);
      var ele1, pin1, ele2, pin2 := wires[4 * i], wires[4 * i + 1], wires[4 * i + 2], wires[4 * i + 3];
      if ele1 < 0 || ele2 < 0 || ele1 >= n || ele2 >= n { continue; }
      var node1, node2 := ground, ground;
      if elements[ele1] != 0 {
        if pin1 < 0 || pin1 >= counts[ele1] { continue; }
        node1 := offset[ele1] + pin1;
      }
      if elements[ele2] != 0 {
        if pin2 < 0 || pin2 >= counts[ele2] { continue; }
        node2 := offset[ele2] + pin2;
      }
      ghost var p, q := FirstEnd(elements, counts, wires, i).value, SecondEnd(elements, counts, wires, i).value;
      root, depth := JoinPoints(node1, node2, ground, parent, visited, counts,
                                Links(elements, counts, wires, i), p, q, root, depth);
    }
  }

  // ----- Nodes and attachment -----

  /** One node per marked root below slot k, numbered lo..hi without gaps or repeats. */
  ghost predicate NodeTable(table: map<int, Node>, root: seq<int>, visited: seq<bool>, k: nat, lo: nat, hi: nat) {
    && k <= |root| == |visited| && lo <= hi
    && (forall i :: i in table <==> 0 <= i < k && root[i] == i && visited[i])
    && (forall i :: i in table ==> table[i].Fresh? && lo <= table[i].id < hi)
    && (forall i, j :: i in table && j in table && table[i] == table[j] ==> i == j)
    && (forall id :: lo <= id < hi ==> Names(table, id))
  }

  ghost predicate Names(table: map<int, Node>, id: nat) {
    exists i :: i in table && table[i] == Fresh(id)
  }

  method CreateNodes(board: Board, total: nat, parent: array<int>, visited: array<bool>,
                     ghost root: seq<int>, ghost depth: seq<nat>)
    returns (table: map<int, Node>)
    requires parent.Length == visited.Length == total + 1
    requires Forest(parent[..], root, depth) && Touched(parent[..], root, visited[..])
    modifies board`nodeCount, parent, visited
    ensures Forest(parent[..], root, depth) && Touched(parent[..], root, visited[..])
    ensures visited[..] == old(visited[..])
    ensures NodeTable(table, root, visited[..], total, old(board.nodeCount), board.nodeCount)
  {
    table := map[];
    ghost var marks, lo := visited[..], board.nodeCount;
    for i := 0 to total
      invariant Forest(parent[..], root, depth) && Touched(parent[..], root, visited[..])
      invariant visited[..] == marks
      invariant NodeTable(table, root, marks, i, lo, board.nodeCount)
    {
      if parent[i] == i && visited[i] {
        var r := Find(i, parent, visited, root, depth);
        assert visited[..] == marks[i := true] == marks;
        if r == total {
          assert false;
        } else {
          NodeTableStep(table, root, marks, i, lo, board.nodeCount);
          var node := board.CreateNode();
          table := table[i := node];
        }
      } else {
        NodeTableSkip(table, root, marks, i, lo, board.nodeCount);
      }
    }
  }

  lemma NodeTableSkip(table: map<int, Node>, root: seq<int>, visited: seq<bool>, i: nat, lo: nat, hi: nat)
    requires NodeTable(table, root, visited, i, lo, hi)
    requires i < |root| && !(root[i] == i && visited[i])
    ensures NodeTable(table, root, visited, i + 1, lo, hi)
  {
  }

  lemma NodeTableStep(table: map<int, Node>, root: seq<int>, visited: seq<bool>, i: nat, lo: nat, hi: nat)
    requires NodeTable(table, root, visited, i, lo, hi)
    requires i < |root| && root[i] == i && visited[i]
    ensures NodeTable(table[i := Fresh(hi)], root, visited, i + 1, lo, hi + 1)
  {
    var table' := table[i := Fresh(hi)];
    forall id | lo <= id < hi + 1 ensures Names(table', id) {
      if id == hi {
        assert i in table' && table'[i] == Fresh(id);
      } else {
        assert Names(table, id);
        var j :| j in table && table[j] == Fresh(id);
        assert j in table' && table'[j] == Fresh(id);
      }
    }
  }

  function Lookup<K, V>(m: map<K, V>, k: K): (v: Option<V>) {
    if k in m then Some(m[k]) else None
  }

  /** The engine names pin p of element e by the element's component number. */
  function PinKey(elements: seq<int>, e: nat, p: int): (k: (int, int))
    requires e < |elements|
  {
    (CompIndex(elements, e), p)
  }

  predicate IsComponentPin(elements: seq<int>, counts: seq<nat>, k: (int, int))
    requires |counts| == |elements|
  {
    exists e :: 0 <= e < |elements| && IsPin(counts, e, k.1) && PinKey(elements, e, k.1) == k
  }

  lemma PinKeyInjective(elements: seq<int>, models: seq<Option<nat>>, e: nat, p: int, f: nat, q: int)
    requires IsPin(PinCounts(elements, models), e, p) && IsPin(PinCounts(elements, models), f, q)
    requires PinKey(elements, e, p) == PinKey(elements, f, q)
    ensures e == f && p == q
  {
    if e < f { CountMono(elements, IsComponent, e, f); }
    if f < e { CountMono(elements, IsComponent, f, e); }
  }

  /** The marked pins below slot s have been attached to the node of their root; nothing else has changed. */
  ghost predicate AttachedBelow(elements: seq<int>, counts: seq<nat>, root: seq<int>, visited: seq<bool>,
                                table: map<int, Node>, before: map<(int, int), Node>, after: map<(int, int), Node>,
                                s: nat)
    requires |counts| == |elements| && s <= |root| == |visited|
  {
    && (forall f, q :: IsPin(counts, f, q) ==>
          PinIs(elements, counts, root, visited, table, before, after, f, q, Slot(counts, Pin(f, q)) < s))
    && (forall k :: !IsComponentPin(elements, counts, k) ==> Lookup(after, k) == Lookup(before, k))
  }

  ghost predicate PinIs(elements: seq<int>, counts: seq<nat>, root: seq<int>, visited: seq<bool>,
                        table: map<int, Node>, before: map<(int, int), Node>, after: map<(int, int), Node>,
                        f: int, q: int, done: bool)
    requires |counts| == |elements| && IsPin(counts, f, q) && |root| == |visited|
  {
    var s := Slot(counts, Pin(f, q));
    var now := Lookup(after, PinKey(elements, f, q));
    if done && s < |root| && visited[s]
    then root[s] in table && now == Some(table[root[s]])
    else now == Lookup(before, PinKey(elements, f, q))
  }

  lemma AttachStep(elements: seq<int>, models: seq<Option<nat>>, counts: seq<nat>, root: seq<int>, visited: seq<bool>,
                   table: map<int, Node>, before: map<(int, int), Node>, after: map<(int, int), Node>, e: nat, p: nat)
    requires counts == PinCounts(elements, models) && IsPin(counts, e, p)
    requires Slot(counts, Pin(e, p)) < |root| == |visited|
    requires AttachedBelow(elements, counts, root, visited, table, before, after, Slot(counts, Pin(e, p)))
    ensures var s := Slot(counts, Pin(e, p));
      if visited[s] then
        root[s] in table ==> AttachedBelow(elements, counts, root, visited, table, before,
                                           after[PinKey(elements, e, p) := table[root[s]]], s + 1)
      else AttachedBelow(elements, counts, root, visited, table, before, after, s + 1)
  {
    var s := Slot(counts, Pin(e, p));
    var after' := if visited[s] && root[s] in table then after[PinKey(elements, e, p) := table[root[s]]] else after;
    if visited[s] ==> root[s] in table {
      forall f, q | IsPin(counts, f, q)
        ensures PinIs(elements, counts, root, visited, table, before, after', f, q, Slot(counts, Pin(f, q)) < s + 1)
      {
        SlotInjective(counts, Pin(e, p), Pin(f, q));
        if PinKey(elements, e, p) == PinKey(elements, f, q) { PinKeyInjective(elements, models, e, p, f, q); }
      }
      assert IsComponentPin(elements, counts, PinKey(elements, e, p));
    }
  }

  /** The arrays still hold the forest with the given roots and marks. */
  ghost predicate Holds(parent: seq<int>, visited: seq<bool>, root: seq<int>, depth: seq<nat>, marks: seq<bool>) {
    Forest(parent, root, depth) && Touched(parent, root, visited) && visited == marks
  }

  method AttachElement(board: Board, elements: seq<int>, counts: seq<nat>, slot0: nat, comp: nat, e: nat,
                       table: map<int, Node>, parent: array<int>, visited: array<bool>,
                       ghost models: seq<Option<nat>>, ghost root: seq<int>, ghost depth: seq<nat>,
                       ghost marks: seq<bool>, ghost before: map<(int, int), Node>)
    requires counts == PinCounts(elements, models)
    requires e < |elements| && comp == CompIndex(elements, e) && slot0 == Base(counts, e)
    requires slot0 + counts[e] <= parent.Length == visited.Length
    requires Holds(parent[..], visited[..], root, depth, marks)
    requires forall i :: 0 <= i < |root| && root[i] == i && marks[i] ==> i in table
    requires AttachedBelow(elements, counts, root, marks, table, before, board.pinNode, slot0)
    modifies board`pinNode, parent, visited
    ensures Holds(parent[..], visited[..], root, depth, marks)
    ensures AttachedBelow(elements, counts, root, marks, table, before, board.pinNode, slot0 + counts[e])
  {
    for p := 0 to counts[e]
      invariant Holds(parent[..], visited[..], root, depth, marks)
      invariant AttachedBelow(elements, counts, root, marks, table, before, board.pinNode, slot0 + p)
    {
      var slot := slot0 + p;
      AttachStep(elements, models, counts, root, marks, table, before, board.pinNode, e, p);
      if visited[slot] {
        RootMarked(parent[..], root, depth, marks, slot);
        var r := Find(slot, parent, visited, root, depth);
        assert visited[..] == marks[slot := true] == marks;
        board.AddToNode(comp, p, table[r]);
      }
    }
  }

  method AttachPins(board: Board, elements: seq<int>, models: seq<Option<nat>>, counts: seq<nat>, offset: seq<nat>,
                    table: map<int, Node>, parent: array<int>, visited: array<bool>,
                    ghost root: seq<int>, ghost depth: seq<nat>)
    requires CompIndex(elements, |elements|) <= |models| && counts == PinCounts(elements, models)
    requires |offset| == |counts| + 1 && forall e :: 0 <= e <= |counts| ==> offset[e] == Base(counts, e)
    requires parent.Length == visited.Length == offset[|counts|] + 1
    requires Forest(parent[..], root, depth) && Touched(parent[..], root, visited[..])
    requires forall i :: 0 <= i < |root| && root[i] == i && visited[i] ==> i in table
    modifies board`pinNode, parent, visited
    ensures AttachedBelow(elements, counts, root, old(visited[..]), table, old(board.pinNode), board.pinNode,
                          offset[|counts|])
  {
    ghost var before, marks := board.pinNode, visited[..];
    var comp := 0;
    for e := 0 to |elements|
      invariant comp == CompIndex(elements, e)
      invariant Holds(parent[..], visited[..], root, depth, marks)
      invariant offset[e] <= |root|
      invariant AttachedBelow(elements, counts, root, marks, table, before, board.pinNode, offset[e])
    {
      BaseMono(counts, e + 1, |counts|);
      CountMono(elements, IsComponent, e, |elements|);
      assert counts[e] == PinCount(elements, models, e) && offset[e + 1] == offset[e] + counts[e];
      if elements[e] == 0 {
        assert offset[e + 1] == offset[e];
        continue;
      }
      if models[comp].Some? {
        AttachElement(board, elements, counts, offset[e], comp, e, table, parent, visited,
                      models, root, depth, marks, before);
      } else {
        assert offset[e + 1] == offset[e];
      }
      comp := comp + 1;
    }
  }

  lemma TableReady(made: map<int, Node>, root: seq<int>, visited: seq<bool>, lo: nat, hi: nat)
    requires |root| > 0 && NodeTable(made, root, visited, |root| - 1, lo, hi)
    ensures forall i :: 0 <= i < |root| && root[i] == i && visited[i] ==> i in made[|root| - 1 := GroundNode]
  {
  }

  /** Makes the nodes, adds the ground node to the table and attaches every marked pin. */
  method Populate(board: Board, elements: seq<int>, models: seq<Option<nat>>, counts: seq<nat>, offset: seq<nat>,
                  parent: array<int>, visited: array<bool>, ghost root: seq<int>, ghost depth: seq<nat>)
    returns (ghost made: map<int, Node>)
    requires CompIndex(elements, |elements|) <= |models| && counts == PinCounts(elements, models)
    requires |offset| == |counts| + 1 && forall e :: 0 <= e <= |counts| ==> offset[e] == Base(counts, e)
    requires parent.Length == visited.Length == offset[|counts|] + 1
    requires Forest(parent[..], root, depth) && Touched(parent[..], root, visited[..])
    modifies board, parent, visited
    ensures NodeTable(made, root, old(visited[..]), |root| - 1, old(board.nodeCount), board.nodeCount)
    ensures AttachedBelow(elements, counts, root, old(visited[..]), made[|root| - 1 := GroundNode],
                          old(board.pinNode), board.pinNode, offset[|counts|])
  {
    var total := offset[|elements|];
    ghost var marks, before := visited[..], board.pinNode;
    var table := CreateNodes(board, total, parent, visited, root, depth);
    made := table;
    ghost var lo, hi := old(board.nodeCount), board.nodeCount;
    assert |root| - 1 == total && visited[..] == marks;
    TableReady(made, root, marks, lo, hi);
    table := table[total := GroundNode];
    assert table == made[|root| - 1 := GroundNode];
    AttachPins(board, elements, models, counts, offset, table, parent, visited, root, depth);
    assert AttachedBelow(elements, counts, root, marks, table, before, board.pinNode, offset[|counts|]);
  }

  // ----- The whole pass -----

  /**
   * What wiring must achieve: the pins touched by an accepted wire, and only those, are attached; two of them share
   * a node exactly when a chain of wires joins them; the ground node goes exactly to those joined to ground; and the
   * nodes lo..hi made for the rest are all in use.
   */
  ghost predicate Wired(elements: seq<int>, counts: seq<nat>, links: set<(Point, Point)>,
                        before: map<(int, int), Node>, after: map<(int, int), Node>, lo: nat, hi: nat)
    requires |counts| == |elements|
  {
    && (forall e, p :: IsPin(counts, e, p) ==>
          if Used(links, Pin(e, p)) then PinKey(elements, e, p) in after
          else Lookup(after, PinKey(elements, e, p)) == Lookup(before, PinKey(elements, e, p)))
    && (forall k :: !IsComponentPin(elements, counts, k) ==> Lookup(after, k) == Lookup(before, k))
    && (forall e, p, f, q :: IsPin(counts, e, p) && IsPin(counts, f, q) &&
                             Used(links, Pin(e, p)) && Used(links, Pin(f, q)) ==>
          (after[PinKey(elements, e, p)] == after[PinKey(elements, f, q)] <==> Joined(links, Pin(e, p), Pin(f, q))))
    && (forall e, p :: IsPin(counts, e, p) && Used(links, Pin(e, p)) ==>
          var node := after[PinKey(elements, e, p)];
          && (node == GroundNode <==> Joined(links, Pin(e, p), Ground))
          && (node.Fresh? ==> lo <= node.id < hi))
    && (forall id :: lo <= id < hi ==> InUse(elements, counts, links, after, id))
  }

  ghost predicate InUse(elements: seq<int>, counts: seq<nat>, links: set<(Point, Point)>,
                        after: map<(int, int), Node>, id: nat)
    requires |counts| == |elements|
  {
    exists e, p ::
      IsPin(counts, e, p) && Used(links, Pin(e, p)) && Lookup(after, PinKey(elements, e, p)) == Some(Fresh(id))
  }

  /** A marked pin's node: the table entry of its root. */
  lemma AttachedNode(elements: seq<int>, counts: seq<nat>, links: set<(Point, Point)>,
                     parent: seq<int>, visited: seq<bool>, root: seq<int>, depth: seq<nat>, table: map<int, Node>,
                     before: map<(int, int), Node>, after: map<(int, int), Node>, e: int, p: int)
    requires |counts| == |elements| && IsPin(counts, e, p)
    requires Tracks(counts, links, parent, visited, root, depth)
    requires AttachedBelow(elements, counts, root, visited, table, before, after, Base(counts, |counts|))
    ensures Slot(counts, Pin(e, p)) < |root| - 1
    ensures var s := Slot(counts, Pin(e, p));
      && (visited[s] <==> Used(links, Pin(e, p)))
      && (visited[s] ==> root[s] in table && Lookup(after, PinKey(elements, e, p)) == Some(table[root[s]]))
      && (!visited[s] ==> Lookup(after, PinKey(elements, e, p)) == Lookup(before, PinKey(elements, e, p)))
  {
    SlotInjective(counts, Pin(e, p), Pin(e, p));
    assert PinIs(elements, counts, root, visited, table, before, after, e, p, true);
  }

  lemma AttachedIsWired(elements: seq<int>, counts: seq<nat>, links: set<(Point, Point)>,
                        parent: seq<int>, visited: seq<bool>, root: seq<int>, depth: seq<nat>, table: map<int, Node>,
                        before: map<(int, int), Node>, after: map<(int, int), Node>, lo: nat, hi: nat)
    requires |counts| == |elements|
    requires Tracks(counts, links, parent, visited, root, depth)
    requires NodeTable(table, root, visited, |root| - 1, lo, hi)
    requires AttachedBelow(elements, counts, root, visited, table[|root| - 1 := GroundNode], before, after,
                           Base(counts, |counts|))
    ensures Wired(elements, counts, links, before, after, lo, hi)
  {
    var total := |root| - 1;
    var full := table[total := GroundNode];
    var tag := ClassOf(counts, root);
    forall e, p | IsPin(counts, e, p)
      ensures if Used(links, Pin(e, p)) then PinKey(elements, e, p) in after
              else Lookup(after, PinKey(elements, e, p)) == Lookup(before, PinKey(elements, e, p))
      ensures Used(links, Pin(e, p)) ==>
              (after[PinKey(elements, e, p)] == GroundNode <==> Joined(links, Pin(e, p), Ground))
    {
      AttachedNode(elements, counts, links, parent, visited, root, depth, full, before, after, e, p);
      assert tag(Pin(e, p)) == Tree(root[Slot(counts, Pin(e, p))]) && tag(Ground) == Tree(total);
    }
    forall e, p, f, q | IsPin(counts, e, p) && IsPin(counts, f, q) && Used(links, Pin(e, p)) && Used(links, Pin(f, q))
      ensures after[PinKey(elements, e, p)] == after[PinKey(elements, f, q)] <==> Joined(links, Pin(e, p), Pin(f, q))
    {
      AttachedNode(elements, counts, links, parent, visited, root, depth, full, before, after, e, p);
      AttachedNode(elements, counts, links, parent, visited, root, depth, full, before, after, f, q);
      assert tag(Pin(e, p)) == Tree(root[Slot(counts, Pin(e, p))]);
      assert tag(Pin(f, q)) == Tree(root[Slot(counts, Pin(f, q))]);
    }
    forall e, p | IsPin(counts, e, p) && Used(links, Pin(e, p)) && after[PinKey(elements, e, p)].Fresh?
      ensures lo <= after[PinKey(elements, e, p)].id < hi
    {
      AttachedNode(elements, counts, links, parent, visited, root, depth, full, before, after, e, p);
    }
    forall id | lo <= id < hi ensures InUse(elements, counts, links, after, id) {
      assert Names(table, id);
      var i :| i in table && table[i] == Fresh(id);
      var x := SlotSurjective(counts, |counts|, i);
      AttachedNode(elements, counts, links, parent, visited, root, depth, full, before, after, x.ele, x.pin);
      assert IsPin(counts, x.ele, x.pin) && Used(links, Pin(x.ele, x.pin));
    }
  }

  lemma NothingWired(elements: seq<int>, models: seq<Option<nat>>, wires: seq<int>, n: nat,
                     before: map<(int, int), Node>, lo: nat)
    requires 4 * n <= |wires| && (|elements| == 0 || n == 0)
    ensures var counts := PinCounts(elements, models);
      Wired(elements, counts, Links(elements, counts, wires, n), before, before, lo, lo)
  {
    assert Links(elements, PinCounts(elements, models), wires, n) == {};
  }

  /** build_netlist_from_wires. */
  method BuildFromWires(board: Board, elements: seq<int>, models: seq<Option<nat>>, wires: seq<int>, wireCount: nat)
    requires CompIndex(elements, |elements|) <= |models| && 4 * wireCount <= |wires|
    modifies board
    ensures var counts := PinCounts(elements, models);
      Wired(elements, counts, Links(elements, counts, wires, wireCount),
            old(board.pinNode), board.pinNode, old(board.nodeCount), board.nodeCount)
  {
    if |elements| == 0 || wireCount == 0 {
      NothingWired(elements, models, wires, wireCount, board.pinNode, board.nodeCount);
      return;
    }
    var counts, offset := ScanPins(elements, models);
    var total := offset[|elements|];
    var parent := new int[total + 1](i => i);
    var visited := new bool[total + 1](_ => false);
    ghost var root, depth := JoinWires(elements, counts, offset, wires, wireCount, parent, visited);
    ghost var parent0, marks := parent[..], visited[..];
    ghost var table := Populate(board, elements, models, counts, offset, parent, visited, root, depth);
    AttachedIsWired(elements, counts, Links(elements, counts, wires, wireCount), parent0, marks, root, depth, table,
                    old(board.pinNode), board.pinNode, old(board.nodeCount), board.nodeCount);
  }

  predicate SameRow(wires: seq<int>, i: nat, wires': seq<int>, j: nat)
    requires 4 * i + 3 < |wires| && 4 * j + 3 < |wires'|
  {
    || wires[4 * i..4 * i + 4] == wires'[4 * j..4 * j + 4]
    || wires[4 * i..4 * i + 4] == wires'[4 * j + 2..4 * j + 4] + wires'[4 * j..4 * j + 2]
  }

  /** Every wire of the first table occurs in the second, in either direction. */
  predicate Covered(wires: seq<int>, n: nat, wires': seq<int>, n': nat)
    requires 4 * n <= |wires| && 4 * n' <= |wires'|
  {
    forall i :: 0 <= i < n ==> HasRow(wires, i, wires', n')
  }

  predicate HasRow(wires: seq<int>, i: nat, wires': seq<int>, n': nat)
    requires 4 * i + 3 < |wires| && 4 * n' <= |wires'|
  {
    exists j :: 0 <= j < n' && SameRow(wires, i, wires', j)
  }

  lemma CoveredLinks(elements: seq<int>, counts: seq<nat>, wires: seq<int>, n: nat, wires': seq<int>, n': nat,
                     a: Point, b: Point)
    requires |counts| == |elements| && 4 * n <= |wires| && 4 * n' <= |wires'| && Covered(wires, n, wires', n')
    ensures Linked(Links(elements, counts, wires, n), a, b) ==> Linked(Links(elements, counts, wires', n'), a, b)
  {
    if Linked(Links(elements, counts, wires, n), a, b) {
      var (x, y) := if (a, b) in Links(elements, counts, wires, n) then (a, b) else (b, a);
      var i :| 0 <= i < n && Accepted(elements, counts, wires, i) &&
        (FirstEnd(elements, counts, wires, i).value, SecondEnd(elements, counts, wires, i).value) == (x, y);
      assert HasRow(wires, i, wires', n');
      var j :| 0 <= j < n' && SameRow(wires, i, wires', j);
      var row, row' := wires[4 * i..4 * i + 4], wires'[4 * j..4 * j + 4];
      assert row[0] == wires[4 * i] && row[1] == wires[4 * i + 1];
      assert row[2] == wires[4 * i + 2] && row[3] == wires[4 * i + 3];
      assert row'[0] == wires'[4 * j] && row'[1] == wires'[4 * j + 1];
      assert row'[2] == wires'[4 * j + 2] && row'[3] == wires'[4 * j + 3];
      assert Accepted(elements, counts, wires', j);
    }
  }

  // ----- Two runs over the same wires -----

  /** The same pins are attached, to ground and to one another alike: the maps differ in node numbers only. */
  ghost predicate Alike(after: map<(int, int), Node>, after': map<(int, int), Node>) {
    && after.Keys == after'.Keys
    && (forall k :: k in after ==> (after[k] == GroundNode <==> after'[k] == GroundNode))
    && (forall k, l :: k in after && l in after ==> (after[k] == after[l] <==> after'[k] == after'[l]))
  }

  /** Exactly the nodes below hi are in use. */
  ghost predicate Numbered(after: map<(int, int), Node>, hi: nat) {
    && (forall k :: k in after && after[k].Fresh? ==> after[k].id < hi)
    && (forall id :: 0 <= id < hi ==> HasNode(after, id))
  }

  ghost predicate HasNode(after: map<(int, int), Node>, id: nat) {
    exists k :: k in after && after[k] == Fresh(id)
  }

  lemma WiredPin(elements: seq<int>, counts: seq<nat>, links: set<(Point, Point)>, after: map<(int, int), Node>,
                 hi: nat, k: (int, int)) returns (e: nat)
    requires |counts| == |elements| && Wired(elements, counts, links, map[], after, 0, hi) && k in after
    ensures IsPin(counts, e, k.1) && PinKey(elements, e, k.1) == k && Used(links, Pin(e, k.1))
  {
    assert Lookup(after, k) == Some(after[k]);
    e :| 0 <= e < |elements| && IsPin(counts, e, k.1) && PinKey(elements, e, k.1) == k;
  }

  lemma WiredNumbered(elements: seq<int>, counts: seq<nat>, links: set<(Point, Point)>, after: map<(int, int), Node>,
                      hi: nat)
    requires |counts| == |elements| && Wired(elements, counts, links, map[], after, 0, hi)
    ensures Numbered(after, hi)
  {
    forall k | k in after && after[k].Fresh? ensures after[k].id < hi {
      var e := WiredPin(elements, counts, links, after, hi, k);
    }
    forall id | 0 <= id < hi ensures HasNode(after, id) {
      assert InUse(elements, counts, links, after, id);
    }
  }

  ghost predicate SameLinks(links: set<(Point, Point)>, links': set<(Point, Point)>) {
    forall x, y :: Linked(links, x, y) <==> Linked(links', x, y)
  }

  lemma UsedSame(links: set<(Point, Point)>, links': set<(Point, Point)>, x: Point)
    requires SameLinks(links, links') && Used(links, x)
    ensures Used(links', x)
  {
    var y :| Linked(links, x, y);
    assert Linked(links', x, y);
  }

  lemma AlikeAt(elements: seq<int>, counts: seq<nat>, links: set<(Point, Point)>, links': set<(Point, Point)>,
                after: map<(int, int), Node>, hi: nat, after': map<(int, int), Node>, hi': nat,
                k: (int, int), l: (int, int))
    requires |counts| == |elements| && SameLinks(links, links') && k in after && l in after
    requires Wired(elements, counts, links, map[], after, 0, hi)
    requires Wired(elements, counts, links', map[], after', 0, hi')
    ensures k in after' && l in after'
    ensures after[k] == GroundNode <==> after'[k] == GroundNode
    ensures after[k] == after[l] <==> after'[k] == after'[l]
  {
    var e := WiredPin(elements, counts, links, after, hi, k);
    var f := WiredPin(elements, counts, links, after, hi, l);
    UsedSame(links, links', Pin(e, k.1));
    UsedSame(links, links', Pin(f, l.1));
    JoinedSameLinks(links, links', Pin(e, k.1), Pin(f, l.1));
    JoinedSameLinks(links, links', Pin(e, k.1), Ground);
  }

  lemma WiredAlike(elements: seq<int>, counts: seq<nat>, links: set<(Point, Point)>, links': set<(Point, Point)>,
                   after: map<(int, int), Node>, hi: nat, after': map<(int, int), Node>, hi': nat)
    requires |counts| == |elements| && SameLinks(links, links')
    requires Wired(elements, counts, links, map[], after, 0, hi)
    requires Wired(elements, counts, links', map[], after', 0, hi')
    ensures Alike(after, after')
  {
    forall k, l | k in after && l in after
      ensures k in after' && (after[k] == GroundNode <==> after'[k] == GroundNode)
      ensures l in after' && (after[k] == after[l] <==> after'[k] == after'[l])
    {
      AlikeAt(elements, counts, links, links', after, hi, after', hi', k, l);
    }
    forall k | k in after' ensures k in after {
      AlikeAt(elements, counts, links', links, after', hi', after, hi, k, k);
    }
    assert forall k :: k in after ==> k in after';
  }

  /** The nodes of after' that stand for the nodes of after below n: as many, since alike maps tell apart alike. */
  lemma {:induction false} Renamed(after: map<(int, int), Node>, hi: nat, after': map<(int, int), Node>, hi': nat,
                                   n: nat) returns (ids: set<nat>)
    requires Alike(after, after') && Numbered(after, hi) && Numbered(after', hi') && n <= hi
    ensures |ids| == n && forall j :: j in ids ==> j < hi' && StandsFor(after, after', n, j)
  {
    ids := {};
    if n > 0 {
      ids := Renamed(after, hi, after', hi', n - 1);
      assert HasNode(after, n - 1);
      var k :| k in after && after[k] == Fresh(n - 1);
      var j := after'[k].id;
      ids := ids + {j};
    }
  }

  ghost predicate StandsFor(after: map<(int, int), Node>, after': map<(int, int), Node>, n: nat, j: nat) {
    exists l :: l in after && l in after' && after[l].Fresh? && after[l].id < n && after'[l] == Fresh(j)
  }

  lemma {:induction false} FewBelow(ids: set<nat>, n: nat)
    requires forall j :: j in ids ==> j < n
    ensures |ids| <= n
  {
    if n == 0 {
      assert ids == {};
    } else {
      FewBelow(ids - {n - 1}, n - 1);
      assert ids <= ids - {n - 1} + {n - 1};
    }
  }

  lemma AlikeCount(after: map<(int, int), Node>, hi: nat, after': map<(int, int), Node>, hi': nat)
    requires Alike(after, after') && Numbered(after, hi) && Numbered(after', hi')
    ensures hi <= hi'
  {
    var ids := Renamed(after, hi, after', hi', hi);
    FewBelow(ids, hi');
  }

  /** Reordering, flipping or repeating wires changes nothing but the nodes' numbers, not even how many there are. */
  lemma WireOrderIrrelevant(elements: seq<int>, models: seq<Option<nat>>, wires: seq<int>, n: nat,
                            wires': seq<int>, n': nat, after: map<(int, int), Node>, hi: nat,
                            after': map<(int, int), Node>, hi': nat)
    requires 4 * n <= |wires| && 4 * n' <= |wires'|
    requires Covered(wires, n, wires', n') && Covered(wires', n', wires, n)
    requires var counts := PinCounts(elements, models);
      && Wired(elements, counts, Links(elements, counts, wires, n), map[], after, 0, hi)
      && Wired(elements, counts, Links(elements, counts, wires', n'), map[], after', 0, hi')
    ensures Alike(after, after') && hi == hi'
  {
    var counts := PinCounts(elements, models);
    var links, links' := Links(elements, counts, wires, n), Links(elements, counts, wires', n');
    forall a, b ensures Linked(links, a, b) <==> Linked(links', a, b) {
      CoveredLinks(elements, counts, wires, n, wires', n', a, b);
      CoveredLinks(elements, counts, wires', n', wires, n, a, b);
    }
    WiredAlike(elements, counts, links, links', after, hi, after', hi');
    WiredNumbered(elements, counts, links, after, hi);
    WiredNumbered(elements, counts, links', after', hi');
    AlikeCount(after, hi, after', hi');
    AlikeCount(after', hi', after, hi);
  }
}
