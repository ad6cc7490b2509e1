/** References kept too long: why the guard of CurrentNames cannot be dropped. */
module KeptReferences {
  import opened Prelude
  import opened Parts
  import opened Chains
  import opened Builder
  import opened BuilderHistory
  import opened NameChains
  import opened CurrentNames

  lemma Next(calls: seq<Call>, call: Call, calls': seq<Call>)
    requires calls' == calls + [call]
    ensures Run(calls').0 == Step(Run(calls).0, call).0
    ensures CallLinks(calls') == CallLinks(calls) + LinksOf(Run(calls).0, call)
  {
    assert calls'[..|calls'| - 1] == calls;
  }

  lemma NextConnect(calls: seq<Call>, a: Endpoint, b: Endpoint, calls': seq<Call>)
    requires calls' == calls + [ConnectRefs(a, b)]
    ensures Run(calls').0 == Connected(Run(calls).0, a, b)
    ensures CallLinks(calls) + {(PinName(a), PinName(b))} <= CallLinks(calls')
  {
    Next(calls, ConnectRefs(a, b), calls');
  }

  lemma StepDelete(s: Net, i: nat)
    requires Valid(s) && Live(s, i)
    ensures var call := DeleteModel(ByIndex(i)); Step(s, call).0 == Drop(s, i) && JoiningOf(s, call) == Nothing
  {
  }

  lemma NextDelete(calls: seq<Call>, i: nat, calls': seq<Call>)
    requires calls' == calls + [DeleteModel(ByIndex(i))] && Live(Run(calls).0, i)
    ensures Run(calls').0 == Drop(Run(calls).0, i) && CallLinks(calls') == CallLinks(calls)
  {
    StepDelete(Run(calls).0, i);
    Next(calls, DeleteModel(ByIndex(i)), calls');
  }

  lemma StepMerge(s: Net, n: nat, m: nat)
    requires Valid(s) && n < |s.nodes| && m < |s.nodes|
    ensures var call := MergeNodes(ByIndex(n), ByIndex(m));
      Step(s, call).0 == Absorb(s, n, m) && JoiningOf(s, call) == Nodes(n, m)
  {
  }

  lemma NextMerge(calls: seq<Call>, n: nat, m: nat, calls': seq<Call>)
    requires calls' == calls + [MergeNodes(ByIndex(n), ByIndex(m))]
    requires n < |Run(calls).0.nodes| && m < |Run(calls).0.nodes|
    ensures Run(calls').0 == Absorb(Run(calls).0, n, m)
    ensures CallLinks(calls) + {(NodeName(n), NodeName(m))} <= CallLinks(calls')
  {
    StepMerge(Run(calls).0, n, m);
    Next(calls, MergeNodes(ByIndex(n), ByIndex(m)), calls');
  }

  function PutPin(n: nat, e: Endpoint): (call: Call) {
    AddToNode(ByIndex(n), ByIndex(e.0), e.1)
  }

  lemma StepPut(s: Net, n: nat, e: Endpoint)
    requires Valid(s) && n < |s.nodes| && Live(s, e.0)
    ensures Step(s, PutPin(n, e)).0 == AddedToNode(s, n, e) && JoiningOf(s, PutPin(n, e)) == PinToNode(n, e)
  {
  }

  lemma NextPut(calls: seq<Call>, n: nat, e: Endpoint, calls': seq<Call>)
    requires calls' == calls + [PutPin(n, e)] && n < |Run(calls).0.nodes| && Live(Run(calls).0, e.0)
    ensures Run(calls').0 == AddedToNode(Run(calls).0, n, e)
    ensures CallLinks(calls) + {(NodeName(n), PinName(e))} <= CallLinks(calls')
  {
    StepPut(Run(calls).0, n, e);
    Next(calls, PutPin(n, e), calls');
  }

  /** Put together, taken off by the deletion of x's element, and put together again with another pin. */
  lemma Reconnected(s: Net, a: Endpoint, x: Endpoint, b: Endpoint)
    requires Valid(s) && Live(s, x.0) && x !in s.owner && a.0 != x.0 && b.0 != x.0 && a != b
    requires !(a in s.owner && b in s.owner && s.owner[a] == s.owner[b])
    ensures var s1 := Connected(s, a, x); Dual(s1.nodes, s1.owner) && Live(s1, x.0)
    ensures var s2 := Drop(Connected(s, a, x), x.0); Dual(s2.nodes, s2.owner)
    ensures var s3 := Connected(Drop(Connected(s, a, x), x.0), x, b);
      a in s3.owner && b in s3.owner && s3.owner[a] != s3.owner[b]
  {
    var s1 := Connected(s, a, x);
    ConnectedDual(s, a, x);
    ConnectPairs(s, a, x);
    ConnectedElements(s, a, x);
    DropDual(s1, x.0);
    assert a in s1.owner && s1.owner[a] == ConnectNode(s, a, x);
    var s2 := Drop(s1, x.0);
    assert a in s2.owner && x !in s2.owner && s2.owner[a] == s1.owner[a];
    assert b in s2.owner ==> s2.owner[b] != s2.owner[a];
    ConnectPairs(s2, x, b);
  }

  /**
   * A pin reference kept across the deletion of its element names a new pin. After any run, connecting a to x, deleting
   * x's element and connecting the kept reference x to b leaves a and b on different nets, though calls join them.
   */
  lemma KeptPinReferenceIsNew(calls: seq<Call>, calls1: seq<Call>, calls2: seq<Call>, calls3: seq<Call>,
                              a: Endpoint, x: Endpoint, b: Endpoint)
    requires var s := Run(calls).0;
      Live(s, x.0) && x !in s.owner && !(a in s.owner && b in s.owner && s.owner[a] == s.owner[b])
    requires a.0 != x.0 && b.0 != x.0 && a != b
    requires calls1 == calls + [ConnectRefs(a, x)]
    requires calls2 == calls1 + [DeleteModel(ByIndex(x.0))]
    requires calls3 == calls2 + [ConnectRefs(x, b)]
    ensures var s, links := Run(calls3).0, CallLinks(calls3);
      a in s.owner && b in s.owner && s.owner[a] != s.owner[b] && Joined(links, PinName(a), PinName(b))
  {
    Reconnected(Run(calls).0, a, x, b);
    NextConnect(calls, a, x, calls1);
    NextDelete(calls1, x.0, calls2);
    NextConnect(calls2, x, b, calls3);
    var links := CallLinks(calls3);
    assert (PinName(a), PinName(x)) in links && (PinName(x), PinName(b)) in links;
    JoinedLink(links, PinName(a), PinName(x));
    JoinedLink(links, PinName(x), PinName(b));
    JoinedTrans(links, PinName(a), PinName(x), PinName(b));
  }

  lemma Refilled(s: Net, dst: nat, src: nat, e: Endpoint, f: Endpoint)
    requires Valid(s) && dst < |s.nodes| && src < |s.nodes| && dst != src && e !in s.owner && f !in s.owner && e != f
    ensures var s1 := Absorb(s, dst, src); Dual(s1.nodes, s1.owner) && |s1.nodes| == |s.nodes|
    ensures var s2 := AddedToNode(Absorb(s, dst, src), dst, e); Dual(s2.nodes, s2.owner) && |s2.nodes| == |s.nodes|
    ensures var s3 := AddedToNode(AddedToNode(Absorb(s, dst, src), dst, e), src, f);
      e in s3.owner && f in s3.owner && s3.owner[e] == dst && s3.owner[f] == src
  {
    var s1 := Absorb(s, dst, src);
    AbsorbDual(s, dst, src);
    AbsorbMoves(s, dst, src);
    AddedToNodeDual(s1, dst, e);
    AddPuts(s1, dst, e);
    AddPuts(AddedToNode(s1, dst, e), src, f);
  }

  /**
   * A node index kept across its merge names a new, empty net. After any run, merging src into dst and putting an
   * unused pin on each leaves the two pins on different nets, though calls join them.
   */
  lemma KeptNodeReferenceIsNew(calls: seq<Call>, calls1: seq<Call>, calls2: seq<Call>, calls3: seq<Call>,
                               dst: nat, src: nat, e: Endpoint, f: Endpoint)
    requires var s := Run(calls).0;
      dst < |s.nodes| && src < |s.nodes| && Live(s, e.0) && Live(s, f.0) && e !in s.owner && f !in s.owner
    requires dst != src && e != f
    requires calls1 == calls + [MergeNodes(ByIndex(dst), ByIndex(src))]
    requires calls2 == calls1 + [PutPin(dst, e)]
    requires calls3 == calls2 + [PutPin(src, f)]
    ensures var s, links := Run(calls3).0, CallLinks(calls3);
      e in s.owner && f in s.owner && s.owner[e] != s.owner[f] && Joined(links, PinName(e), PinName(f))
  {
    Refilled(Run(calls).0, dst, src, e, f);
    NextMerge(calls, dst, src, calls1);
    NextPut(calls1, dst, e, calls2);
    NextPut(calls2, src, f, calls3);
    var links := CallLinks(calls3);
    assert (NodeName(dst), NodeName(src)) in links && (NodeName(dst), PinName(e)) in links;
    JoinedLink(links, PinName(e), NodeName(dst));
    JoinedLink(links, NodeName(dst), NodeName(src));
    JoinedLink(links, NodeName(src), PinName(f));
    JoinedTrans(links, PinName(e), NodeName(dst), NodeName(src));
    JoinedTrans(links, PinName(e), NodeName(src), PinName(f));
  }

  const RESISTOR := Element(1, [], None, None)

  const ADD := AddElement(Given(RESISTOR), [], None, None, None)

  /** n calls of add_element. */
  function AddCalls(n: nat): (calls: seq<Call>) {
    if n == 0 then [] else AddCalls(n - 1) + [ADD]
  }

  lemma NextAdd(calls: seq<Call>, calls': seq<Call>)
    requires calls' == calls + [ADD]
    ensures var s, s' := Run(calls).0, Run(calls').0;
      s'.elements == s.elements + [Some(RESISTOR)] && s'.nodes == s.nodes && s'.owner == s.owner
  {
    Next(calls, ADD, calls');
  }

  lemma NextNode(calls: seq<Call>, calls': seq<Call>)
    requires calls' == calls + [CreateNode(None)]
    ensures Run(calls').0 == NewNode(Run(calls).0)
  {
    Next(calls, CreateNode(None), calls');
  }

  /** n resistors and nothing else. */
  ghost predicate OnlyResistors(s: Net, n: nat) {
    && |s.elements| == n && (forall i :: 0 <= i < n ==> s.elements[i] == Some(RESISTOR))
    && s.nodes == [] && s.owner == map[]
  }

  lemma OneMoreResistor(calls: seq<Call>, n: nat)
    requires OnlyResistors(Run(calls).0, n)
    ensures OnlyResistors(Run(calls + [ADD]).0, n + 1)
  {
    NextAdd(calls, calls + [ADD]);
  }

  lemma {:induction false} AddRun(n: nat)
    ensures OnlyResistors(Run(AddCalls(n)).0, n)
  {
    if n > 0 {
      AddRun(n - 1);
      OneMoreResistor(AddCalls(n - 1), n - 1);
    }
  }

  /** Three elements are enough to see it. */
  lemma KeptPinHappens(n: nat) returns (calls: seq<Call>)
    requires n >= 3
    ensures calls == AddCalls(n) + [ConnectRefs((0, 0), (1, 0))] + [DeleteModel(ByIndex(1))] +
                     [ConnectRefs((1, 0), (2, 0))]
    ensures var s, links := Run(calls).0, CallLinks(calls);
      && (0, 0) in s.owner && (2, 0) in s.owner && s.owner[(0, 0)] != s.owner[(2, 0)]
      && Joined(links, PinName((0, 0)), PinName((2, 0)))
  {
    var calls0 := AddCalls(n);
    AddRun(n);
    var calls1 := calls0 + [ConnectRefs((0, 0), (1, 0))];
    var calls2 := calls1 + [DeleteModel(ByIndex(1))];
    calls := calls2 + [ConnectRefs((1, 0), (2, 0))];
    KeptPinReferenceIsNew(calls0, calls1, calls2, calls, (0, 0), (1, 0), (2, 0));
  }

  lemma KeptNodeHappens(n: nat) returns (calls: seq<Call>)
    requires n >= 2
    ensures calls == AddCalls(n) + [CreateNode(None)] + [CreateNode(None)] + [MergeNodes(ByIndex(0), ByIndex(1))] +
                     [PutPin(0, (0, 0))] + [PutPin(1, (1, 0))]
    ensures var s, links := Run(calls).0, CallLinks(calls);
      && (0, 0) in s.owner && (1, 0) in s.owner && s.owner[(0, 0)] != s.owner[(1, 0)]
      && Joined(links, PinName((0, 0)), PinName((1, 0)))
  {
    var one := AddCalls(n) + [CreateNode(None)];
    var two := one + [CreateNode(None)];
    AddRun(n);
    NextNode(AddCalls(n), one);
    NextNode(one, two);
    var calls1 := two + [MergeNodes(ByIndex(0), ByIndex(1))];
    var calls2 := calls1 + [PutPin(0, (0, 0))];
    calls := calls2 + [PutPin(1, (1, 0))];
    KeptNodeReferenceIsNew(two, calls1, calls2, calls, 0, 1, (0, 0), (1, 0));
  }
}
