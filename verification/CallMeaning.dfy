/** What the builder's calls mean to their caller: what is stored, what is returned, and what stays. */
module CallMeaning {
  import opened Prelude
  import opened Parts
  import opened Builder
  import opened BuilderHistory
  import opened NameChains
  import opened Assembly

  /** The states of a run: trace[k] is the builder before call k, and the last one the builder after all of them. */
  ghost predicate IsTrace(calls: seq<Call>, trace: seq<Net>) {
    && |trace| == |calls| + 1 && trace[0] == EMPTY
    && (forall k :: 0 <= k < |calls| ==> Leads(calls, trace, k))
  }

  ghost predicate Leads(calls: seq<Call>, trace: seq<Net>, k: nat)
    requires k < |calls| && k + 1 < |trace|
  {
    Valid(trace[k]) && trace[k + 1] == Step(trace[k], calls[k]).0
  }

  lemma {:induction false} TraceOf(calls: seq<Call>) returns (trace: seq<Net>)
    ensures IsTrace(calls, trace) && trace[|calls|] == Run(calls).0
  {
    if calls == [] {
      trace := [EMPTY];
    } else {
      var n := |calls| - 1;
      var before := TraceOf(calls[..n]);
      trace := OneMoreState(calls[..n], before, calls[n], Run(calls).0);
      assert calls[..n] + [calls[n]] == calls;
    }
  }

  lemma OneMoreState(calls: seq<Call>, trace: seq<Net>, call: Call, s: Net) returns (trace': seq<Net>)
    requires IsTrace(calls, trace) && Valid(trace[|calls|]) && s == Step(trace[|calls|], call).0
    ensures IsTrace(calls + [call], trace') && trace'[|calls| + 1] == s
  {
    trace' := trace + [s];
    forall k | 0 <= k < |calls + [call]| ensures Leads(calls + [call], trace', k) {
      if k < |calls| { assert Leads(calls, trace, k); }
    }
  }

  /** What call k of a run returned. */
  ghost function OutcomeAt(calls: seq<Call>, trace: seq<Net>, k: nat): (r: Outcome)
    requires IsTrace(calls, trace) && k < |calls|
  {
    assert Leads(calls, trace, k);
    Step(trace[k], calls[k]).1
  }

  // ----- References -----

  /** A reference to an element: an index, or a name the builder knows. */
  predicate RefersTo(names: map<string, nat>, r: Ref, i: int) {
    match r
    case ByIndex(k) => k == i
    case ByName(n) => n in names && names[n] == i
  }

  lemma ElementRef(s: Net, r: Ref, i: nat)
    ensures ResolveElement(s, r) == Some(i) <==>
      RefersTo(s.elementNames, r, i) && i < |s.elements| && s.elements[i].Some?
  {
  }

  lemma NodeRef(s: Net, r: Ref, n: nat)
    ensures ResolveNode(s, r) == Some(n) <==> RefersTo(s.nodeNames, r, n) && n < |s.nodes|
  {
  }

  // ----- add_element -----

  /** Element e is what the call asks for. */
  predicate AsksFor(call: Call, e: Element)
    requires call.AddElement?
  {
    match call.arg
    case Given(g) => e == g
    case FromCode(c) => e.code == c && e.properties == call.properties && e.source == call.source && e.top == call.top
  }

  /** A ready-made element leaves no room for further properties or text. */
  predicate Overfull(call: Call)
    requires call.AddElement?
  {
    call.arg.Given? && !(call.properties == [] && call.source.None? && call.top.None?)
  }

  /**
   * add_element: an overfull call raises and changes nothing; any other appends what it asks for, and then raises if
   * the name is taken. It returns the new index otherwise, under the name if one is given.
   */
  lemma AddElementMeans(s: Net, call: Call)
    requires Valid(s) && call.AddElement?
    ensures var (s', r) := Step(s, call); var n := |s.elements|;
      if Overfull(call) then s' == s && r == ValueError
      else
        && |s'.elements| == n + 1 && s'.elements[..n] == s.elements
        && s'.elements[n].Some? && AsksFor(call, s'.elements[n].value)
        && r == (if call.name.Some? && call.name.value in s.elementNames then ValueError else Ok(n))
        && (forall m, i :: RefersTo(s'.elementNames, ByName(m), i) <==>
              RefersTo(s.elementNames, ByName(m), i) || (r == Ok(n) && call.name == Some(m) && i == n))
        && s'.nodes == s.nodes && s'.nodeNames == s.nodeNames && s'.owner == s.owner
  {
  }

  /** create_node appends an empty node, and then raises if the name is taken; it returns the new index otherwise. */
  lemma CreateNodeMeans(s: Net, call: Call)
    requires Valid(s) && call.CreateNode?
    ensures var (s', r) := Step(s, call); var n := |s.nodes|;
      && |s'.nodes| == n + 1 && s'.nodes[..n] == s.nodes && s'.nodes[n] == []
      && r == (if call.name.Some? && call.name.value in s.nodeNames then ValueError else Ok(n))
      && (forall m, i :: RefersTo(s'.nodeNames, ByName(m), i) <==>
            RefersTo(s.nodeNames, ByName(m), i) || (r == Ok(n) && call.name == Some(m) && i == n))
      && s'.elements == s.elements && s'.elementNames == s.elementNames && s'.owner == s.owner
  {
  }

  // ----- The joining calls -----

  /** Both pins end up on the returned node: that of the first if it is in use, else of the second, else a new one. */
  ghost predicate JoinsPins(s: Net, s': Net, r: Outcome, a: Endpoint, b: Endpoint) {
    var n := if a in s.owner then s.owner[a] else if b in s.owner then s.owner[b] else |s.nodes|;
    r == Ok(n) && Paired(s.owner, s'.owner, n, a, b) && s'.elements == s.elements
  }

  lemma ConnectRefsMeans(s: Net, a: Endpoint, b: Endpoint)
    requires Valid(s)
    ensures JoinsPins(s, Step(s, ConnectRefs(a, b)).0, Step(s, ConnectRefs(a, b)).1, a, b)
  {
    ConnectPairs(s, a, b);
    ConnectKeeps(s, a, b);
  }

  predicate SameParts(s: Net, s': Net) {
    s'.elements == s.elements && s'.elementNames == s.elementNames && s'.nodeNames == s.nodeNames
  }

  lemma PutKeeps(s: Net, n: nat, e: Endpoint)
    requires n < |s.nodes|
    ensures SameParts(s, Put(s, n, e)) && |Put(s, n, e).nodes| == |s.nodes|
  {
  }

  lemma ConnectKeeps(s: Net, a: Endpoint, b: Endpoint)
    requires Valid(s)
    ensures SameParts(s, Connected(s, a, b))
  {
    var n := ConnectNode(s, a, b);
    var s1 := if a !in s.owner && b !in s.owner then NewNode(s)
              else if a in s.owner && b in s.owner then Absorb(s, n, s.owner[b]) else s;
    PutKeeps(s1, n, a);
    PutKeeps(Put(s1, n, a), n, b);
  }

  /** connect by element joins the named pin of the first element to the named pin of the second. */
  lemma ConnectMeans(s: Net, call: Call, i: nat, j: nat)
    requires Valid(s) && call.Connect?
    ensures ResolveElement(s, call.elementA) == Some(i) && ResolveElement(s, call.elementB) == Some(j) ==>
      JoinsPins(s, Step(s, call).0, Step(s, call).1, (i, call.pinA), (j, call.pinB))
    ensures ResolveElement(s, call.elementA).None? || ResolveElement(s, call.elementB).None? ==>
      Step(s, call) == (s, KeyError)
  {
    var a, b := (i, call.pinA), (j, call.pinB);
    if ResolveElement(s, call.elementA) == Some(i) && ResolveElement(s, call.elementB) == Some(j) {
      assert Step(s, call) == Step(s, ConnectRefs(a, b));
      ConnectRefsMeans(s, a, b);
    }
  }

  /** add_to_node: the pin, with everything on its node, goes to the named node, whose index is returned. */
  lemma AddToNodeMeans(s: Net, call: Call, n: nat, i: nat)
    requires Valid(s) && call.AddToNode?
    ensures ResolveNode(s, call.node) == Some(n) && ResolveElement(s, call.element) == Some(i) ==>
      Step(s, call).1 == Ok(n) && PutOn(s.owner, Step(s, call).0.owner, n, (i, call.pin))
    ensures ResolveNode(s, call.node).None? || ResolveElement(s, call.element).None? ==> Step(s, call) == (s, KeyError)
  {
    if ResolveNode(s, call.node) == Some(n) { AddPuts(s, n, (i, call.pin)); }
  }

  /** merge_nodes: everything on the second node goes to the first, whose index is returned. */
  lemma MergeNodesMeans(s: Net, call: Call, n: nat, m: nat)
    requires Valid(s) && call.MergeNodes?
    ensures ResolveNode(s, call.dst) == Some(n) && ResolveNode(s, call.src) == Some(m) ==>
      Step(s, call).1 == Ok(n) && MovedTo(s.owner, Step(s, call).0.owner, n, m)
    ensures ResolveNode(s, call.dst).None? || ResolveNode(s, call.src).None? ==> Step(s, call) == (s, KeyError)
  {
    if ResolveNode(s, call.dst) == Some(n) && ResolveNode(s, call.src) == Some(m) { AbsorbMoves(s, n, m); }
  }

  /** delete_model: the element goes, and exactly its pins go out of use. */
  lemma DeleteModelMeans(s: Net, call: Call, i: nat)
    requires Valid(s) && call.DeleteModel?
    ensures ResolveElement(s, call.element) == Some(i) ==>
      var (s', r) := Step(s, call);
      && r == Ok(i) && |s'.elements| == |s.elements| && s'.elements[i].None?
      && (forall j :: 0 <= j < |s.elements| && j != i ==> s'.elements[j] == s.elements[j])
      && (forall e :: e in s'.owner <==> e in s.owner && e.0 != i)
      && (forall e :: e in s'.owner ==> s'.owner[e] == s.owner[e])
    ensures ResolveElement(s, call.element).None? ==> Step(s, call) == (s, KeyError)
  {
  }

  // ----- What stays -----

  /** Later calls leave a slot alone unless they delete it, and never take a name back. */
  ghost predicate Extends(s: Net, s': Net, call: Call, r: Outcome) {
    && |s.elements| <= |s'.elements| && |s.nodes| <= |s'.nodes|
    && (forall i :: 0 <= i < |s.elements| ==>
          s'.elements[i] == if call.DeleteModel? && r == Ok(i) then None else s.elements[i])
    && (forall m :: m in s.elementNames ==> m in s'.elementNames && s'.elementNames[m] == s.elementNames[m])
    && (forall m :: m in s.nodeNames ==> m in s'.nodeNames && s'.nodeNames[m] == s.nodeNames[m])
  }

  ghost predicate OnlyJoins(s: Net, s': Net) {
    SameParts(s, s') && |s.nodes| <= |s'.nodes|
  }

  lemma ConnectOnlyJoins(s: Net, a: Endpoint, b: Endpoint)
    requires Valid(s)
    ensures OnlyJoins(s, Connected(s, a, b))
  {
    ConnectKeeps(s, a, b);
    ConnectedDual(s, a, b);
  }

  lemma AddOnlyJoins(s: Net, n: nat, p: Endpoint)
    requires Valid(s) && n < |s.nodes|
    ensures OnlyJoins(s, AddedToNode(s, n, p))
  {
  }

  lemma JoiningExtends(s: Net, call: Call)
    requires Valid(s) && !JoiningOf(s, call).Nothing?
    ensures OnlyJoins(s, Step(s, call).0)
  {
    match JoiningOf(s, call)
    case Pins(a, b) => ConnectOnlyJoins(s, a, b);
    case PinToNode(n, p) => AddOnlyJoins(s, n, p);
    case Nodes(n, m) =>
  }

  lemma StepExtends(s: Net, call: Call)
    requires Valid(s)
    ensures Extends(s, Step(s, call).0, call, Step(s, call).1)
  {
    if !JoiningOf(s, call).Nothing? { JoiningExtends(s, call); }
  }

  lemma TraceExtends(calls: seq<Call>, trace: seq<Net>, n: nat)
    requires IsTrace(calls, trace) && n < |calls|
    ensures Extends(trace[n], trace[n + 1], calls[n], OutcomeAt(calls, trace, n))
  {
    assert Leads(calls, trace, n);
    StepExtends(trace[n], calls[n]);
  }

  /** A call after the k-th and before the n-th has deleted element i. */
  ghost predicate DeletedBetween(calls: seq<Call>, trace: seq<Net>, k: nat, n: nat, i: nat)
    requires IsTrace(calls, trace) && n <= |calls|
  {
    exists j :: k < j < n && calls[j].DeleteModel? && OutcomeAt(calls, trace, j) == Ok(i)
  }

  lemma DeletedMore(calls: seq<Call>, trace: seq<Net>, k: nat, n: nat, i: nat)
    requires IsTrace(calls, trace) && k < n < |calls|
    ensures DeletedBetween(calls, trace, k, n + 1, i) <==>
      DeletedBetween(calls, trace, k, n, i) || (calls[n].DeleteModel? && OutcomeAt(calls, trace, n) == Ok(i))
  {
  }

  lemma {:induction false} HoldsUpTo(calls: seq<Call>, trace: seq<Net>, k: nat, n: nat, i: nat, e: Element)
    requires IsTrace(calls, trace) && k < n <= |calls|
    requires i < |trace[k + 1].elements| && trace[k + 1].elements[i] == Some(e)
    ensures i < |trace[n].elements|
    ensures trace[n].elements[i] == if DeletedBetween(calls, trace, k, n, i) then None else Some(e)
    decreases n
  {
    if n > k + 1 {
      HoldsUpTo(calls, trace, k, n - 1, i, e);
      TraceExtends(calls, trace, n - 1);
      DeletedMore(calls, trace, k, n - 1, i);
    }
  }

  lemma {:induction false} NamedUpTo(calls: seq<Call>, trace: seq<Net>, k: nat, n: nat, m: string, i: nat)
    requires IsTrace(calls, trace) && k <= n <= |calls| && RefersTo(trace[k].elementNames, ByName(m), i)
    ensures RefersTo(trace[n].elementNames, ByName(m), i)
    decreases n
  {
    if n > k {
      NamedUpTo(calls, trace, k, n - 1, m, i);
      TraceExtends(calls, trace, n - 1);
    }
  }

  lemma {:induction false} NodeNamedUpTo(calls: seq<Call>, trace: seq<Net>, k: nat, n: nat, m: string, i: nat)
    requires IsTrace(calls, trace) && k <= n <= |calls|
    requires RefersTo(trace[k].nodeNames, ByName(m), i) && i < |trace[k].nodes|
    ensures RefersTo(trace[n].nodeNames, ByName(m), i) && i < |trace[n].nodes|
    decreases n
  {
    if n > k {
      NodeNamedUpTo(calls, trace, k, n - 1, m, i);
      TraceExtends(calls, trace, n - 1);
    }
  }

  /**
   * A successful add_element in a run: it returned the number of elements so far. In every later state that slot holds
   * the element it asked for, until a call deletes it, and its name means that slot as long as it is live.
   */
  lemma AddedElement(calls: seq<Call>, trace: seq<Net>, k: nat, n: nat, i: int) returns (e: Element)
    requires IsTrace(calls, trace) && k < n <= |calls| && calls[k].AddElement? && OutcomeAt(calls, trace, k) == Ok(i)
    ensures i == |trace[k].elements| < |trace[n].elements| && AsksFor(calls[k], e)
    ensures trace[n].elements[i] == if DeletedBetween(calls, trace, k, n, i) then None else Some(e)
    ensures calls[k].name.Some? ==>
      ResolveElement(trace[n], ByName(calls[k].name.value)) ==
        if DeletedBetween(calls, trace, k, n, i) then None else Some(i)
  {
    assert Leads(calls, trace, k);
    AddElementMeans(trace[k], calls[k]);
    e := trace[k + 1].elements[i].value;
    HoldsUpTo(calls, trace, k, n, i, e);
    if calls[k].name.Some? {
      assert RefersTo(trace[k + 1].elementNames, ByName(calls[k].name.value), i);
      NamedUpTo(calls, trace, k + 1, n, calls[k].name.value, i);
    }
  }

  /** So build outputs it, as it was asked for, at its new index. */
  lemma BuiltElement(calls: seq<Call>, trace: seq<Net>, k: nat, n: nat, i: nat)
    requires IsTrace(calls, trace) && k < n <= |calls| && calls[k].AddElement? && OutcomeAt(calls, trace, k) == Ok(i)
    requires !DeletedBetween(calls, trace, k, n, i)
    ensures var elements := trace[n].elements;
      && i < |elements| && NewIndex(elements, i) < |Kept(elements)|
      && AsksFor(calls[k], Kept(elements)[NewIndex(elements, i)])
  {
    var e := AddedElement(calls, trace, k, n, i);
    var elements := trace[n].elements;
    assert elements[..|elements|] == elements;
    KeptAt(elements, i, |elements|);
  }

  /** A successful create_node in a run: it returned the number of nodes so far, and its name always means that node. */
  lemma CreatedNode(calls: seq<Call>, trace: seq<Net>, k: nat, n: nat, i: int)
    requires IsTrace(calls, trace) && k < n <= |calls| && calls[k].CreateNode? && OutcomeAt(calls, trace, k) == Ok(i)
    ensures i == |trace[k].nodes|
    ensures calls[k].name.Some? ==> ResolveNode(trace[n], ByName(calls[k].name.value)) == Some(i)
  {
    assert Leads(calls, trace, k);
    CreateNodeMeans(trace[k], calls[k]);
    if calls[k].name.Some? {
      assert RefersTo(trace[k + 1].nodeNames, ByName(calls[k].name.value), i);
      NodeNamedUpTo(calls, trace, k + 1, n, calls[k].name.value, i);
    }
  }

  // ----- The order of a node's list -----

  /** a comes before b. */
  ghost predicate Before(list: seq<Endpoint>, a: Endpoint, b: Endpoint) {
    exists i, j :: 0 <= i < j < |list| && list[i] == a && list[j] == b
  }

  lemma BeforeAppend(x: seq<Endpoint>, y: seq<Endpoint>, a: Endpoint, b: Endpoint)
    ensures Before(x + y, a, b) <==> Before(x, a, b) || Before(y, a, b) || (a in x && b in y)
  {
    var list := x + y;
    if i, j :| 0 <= i < j < |list| && list[i] == a && list[j] == b {
      if i < |x| <= j { assert a == x[i] && b == y[j - |x|]; }
      if |x| <= i { assert y[i - |x|] == a && y[j - |x|] == b; }
    }
    if i, j :| 0 <= i < j < |x| && x[i] == a && x[j] == b {
      assert list[i] == a && list[j] == b;
    }
    if i, j :| 0 <= i < j < |y| && y[i] == a && y[j] == b {
      assert list[|x| + i] == a && list[|x| + j] == b;
    }
    if a in x && b in y {
      var i :| 0 <= i < |x| && x[i] == a;
      var j :| 0 <= j < |y| && y[j] == b;
      assert list[i] == a && list[|x| + j] == b;
    }
  }

  /** Lists of other nodes are left as they are. */
  lemma OtherLists(s: Net, n: nat, m: nat, e: Endpoint, k: nat)
    requires n < |s.nodes| && m < |s.nodes| && k < |s.nodes|
    ensures k != n && k != m ==> Absorb(s, n, m).nodes[k] == s.nodes[k]
    ensures k != n ==> Put(s, n, e).nodes[k] == s.nodes[k]
    ensures n != m ==> Absorb(s, n, m).nodes[m] == []
  {
  }

  /** After a merge the pins of the first node come first, and otherwise the order is the old one. */
  lemma MergedOrder(s: Net, dst: nat, src: nat, a: Endpoint, b: Endpoint)
    requires Valid(s) && dst < |s.nodes| && src < |s.nodes| && dst != src
    requires a in s.nodes[dst] + s.nodes[src] && b in s.nodes[dst] + s.nodes[src]
    ensures Before(Absorb(s, dst, src).nodes[dst], a, b) <==>
      || (s.owner[a] == dst && s.owner[b] == src)
      || (s.owner[a] == s.owner[b] && Before(s.nodes[s.owner[a]], a, b))
  {
    BeforeAppend(s.nodes[dst], s.nodes[src], a, b);
    forall n | n == dst || n == src ensures Before(s.nodes[n], a, b) ==> s.owner[a] == s.owner[b] == n {
    }
  }

  /** A new pin comes last. */
  lemma PutOrder(s: Net, n: nat, e: Endpoint, a: Endpoint, b: Endpoint)
    requires Valid(s) && n < |s.nodes| && e !in s.owner
    ensures Before(Put(s, n, e).nodes[n], a, b) <==> Before(s.nodes[n], a, b) || (a in s.nodes[n] && b == e)
  {
    BeforeAppend(s.nodes[n], [e], a, b);
  }

  lemma {:induction false} WithoutOrder(list: seq<Endpoint>, gone: set<Endpoint>, a: Endpoint, b: Endpoint)
    requires NoRepeats(list) && a !in gone && b !in gone
    ensures Before(Without(list, gone), a, b) <==> Before(list, a, b)
  {
    if list != [] {
      var head, rest := [list[0]], list[1..];
      WithoutOrder(rest, gone, a, b);
      WithoutKeeps(rest, gone);
      assert list == head + rest;
      BeforeAppend(head, rest, a, b);
      BeforeAppend(head, Without(rest, gone), a, b);
      assert Without(list, gone) == if list[0] in gone then Without(rest, gone) else head + Without(rest, gone);
      assert !Before(head, a, b);
    }
  }

  /** Deletion keeps the order of what remains. */
  lemma DroppedOrder(s: Net, i: nat, n: nat, a: Endpoint, b: Endpoint)
    requires Valid(s) && i < |s.elements| && n < |s.nodes|
    requires a in Drop(s, i).owner && b in Drop(s, i).owner
    ensures Before(Drop(s, i).nodes[n], a, b) <==> Before(s.nodes[n], a, b)
  {
    WithoutOrder(s.nodes[n], Doomed(s, i), a, b);
  }
}
