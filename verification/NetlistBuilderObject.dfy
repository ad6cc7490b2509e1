/** The mutable builder: every method is tied to the state function that specifies it. */
module NetlistBuilderObject {
  import opened Prelude
  import opened Parts
  import opened Builder

  class NetlistBuilder {
    var elements: seq<Option<Element>>
    var elementNames: map<string, nat>
    var nodes: seq<seq<Endpoint>>
    var nodeNames: map<string, nat>
    var owner: map<Endpoint, nat>

    function State(): (s: Net)
      reads this
    {
      Net(elements, elementNames, nodes, nodeNames, owner)
    }

    constructor ()
      ensures State() == EMPTY && Valid(State())
    {
      elements, elementNames, nodes, nodeNames, owner := [], map[], [], map[], map[];
    }

    method AddElement(arg: ElementArg, properties: seq<real>, source: Option<string>, top: Option<string>,
                      name: Option<string>) returns (r: Outcome)
      requires Valid(State())
      modifies this`elements, this`elementNames
      ensures Valid(State())
      ensures (State(), r) == Step(old(State()), Call.AddElement(arg, properties, source, top, name))
    {
      StepValid(State(), Call.AddElement(arg, properties, source, top, name));
      var element;
      if arg.Given? {
        if properties != [] || source.Some? || top.Some? { return ValueError; }
        element := arg.element;
      } else {
        element := Element(arg.code, properties, source, top);
      }
      var index := |elements|;
      elements := elements + [Some(element)];
      if name.Some? {
        if name.value in elementNames { return ValueError; }
        elementNames := elementNames[name.value := index];
      }
      return Ok(index);
    }

    method CreateNode(name: Option<string>) returns (r: Outcome)
      requires Valid(State())
      modifies this`nodes, this`nodeNames
      ensures Valid(State())
      ensures (State(), r) == Step(old(State()), Call.CreateNode(name))
    {
      StepValid(State(), Call.CreateNode(name));
      var index := |nodes|;
      nodes := nodes + [[]];
      if name.Some? {
        if name.value in nodeNames { return ValueError; }
        nodeNames := nodeNames[name.value := index];
      }
      return Ok(index);
    }

    method MergeNodeIndices(dst: nat, src: nat) returns (n: nat)
      requires Valid(State()) && dst < |nodes| && src < |nodes|
      modifies this`nodes, this`owner
      ensures n == dst && State() == Absorb(old(State()), dst, src)
    {
      if dst == src { return dst; }
      ghost var s := State();
      var moved := nodes[src];
      assert s.nodes[dst] + moved[..0] == s.nodes[dst];
      for i := 0 to |moved|
        invariant nodes == s.nodes[dst := s.nodes[dst] + moved[..i]]
        invariant owner.Keys == s.owner.Keys
        invariant forall e :: e in s.owner ==> owner[e] == if e in moved[..i] then dst else s.owner[e]
      {
        var e := moved[i];
        MovedIsNew(s, dst, src, i);
        if e !in nodes[dst] {
          nodes := nodes[dst := nodes[dst] + [e]];
        }
        owner := owner[e := dst];
        assert moved[..i + 1] == moved[..i] + [e];
        assert s.nodes[dst] + moved[..i + 1] == s.nodes[dst] + moved[..i] + [e];
      }
      assert moved[..|moved|] == moved;
      nodes := nodes[src := []];
      assert owner == Absorb(s, dst, src).owner;
      return dst;
    }

    method AddEndpoint(n: nat, e: Endpoint)
      requires Valid(State()) && n < |nodes|
      requires e in owner ==> owner[e] == n
      modifies this`nodes, this`owner
      ensures State() == Put(old(State()), n, e)
    {
      if e in owner && owner[e] != n {
        assert false;
      }
      if e !in nodes[n] {
        nodes := nodes[n := nodes[n] + [e]];
      }
      owner := owner[e := n];
    }

    method AddToNode(node: Ref, element: Ref, pin: int) returns (r: Outcome)
      requires Valid(State())
      modifies this`nodes, this`owner
      ensures Valid(State())
      ensures (State(), r) == Step(old(State()), Call.AddToNode(node, element, pin))
    {
      StepValid(State(), Call.AddToNode(node, element, pin));
      var n := ResolveNode(State(), node);
      if n.None? { return KeyError; }
      var i := ResolveElement(State(), element);
      if i.None? { return KeyError; }
      var e := (i.value, pin);
      var target := n.value;
      if e in owner && owner[e] != target {
        AbsorbDual(State(), target, owner[e]);
        target := MergeNodeIndices(target, owner[e]);
      }
      AddEndpoint(target, e);
      return Ok(target);
    }

    method ConnectEndpoints(a: Endpoint, b: Endpoint) returns (n: nat)
      requires Valid(State())
      modifies this`nodes, this`owner
      ensures State() == Connected(old(State()), a, b) && n == ConnectNode(old(State()), a, b)
    {
      if a !in owner && b !in owner {
        NewNodeDual(State());
        n := |nodes|;
        nodes := nodes + [[]];
      } else if a !in owner {
        n := owner[b];
      } else if b !in owner {
        n := owner[a];
      } else {
        AbsorbDual(State(), owner[a], owner[b]);
        n := MergeNodeIndices(owner[a], owner[b]);
      }
      PutDual(State(), n, a);
      AddEndpoint(n, a);
      AddEndpoint(n, b);
    }

    method Connect(elementA: Ref, pinA: int, elementB: Ref, pinB: int) returns (r: Outcome)
      requires Valid(State())
      modifies this`nodes, this`owner
      ensures Valid(State())
      ensures (State(), r) == Step(old(State()), Call.Connect(elementA, pinA, elementB, pinB))
    {
      StepValid(State(), Call.Connect(elementA, pinA, elementB, pinB));
      var i := ResolveElement(State(), elementA);
      if i.None? { return KeyError; }
      var j := ResolveElement(State(), elementB);
      if j.None? { return KeyError; }
      var n := ConnectEndpoints((i.value, pinA), (j.value, pinB));
      return Ok(n);
    }

    method ConnectRefs(a: Endpoint, b: Endpoint) returns (r: Outcome)
      requires Valid(State())
      modifies this`nodes, this`owner
      ensures Valid(State())
      ensures (State(), r) == Step(old(State()), Call.ConnectRefs(a, b))
    {
      ConnectRefsValid(State(), a, b);
      var n := ConnectEndpoints(a, b);
      return Ok(n);
    }

    method MergeNodes(dst: Ref, src: Ref) returns (r: Outcome)
      requires Valid(State())
      modifies this`nodes, this`owner
      ensures Valid(State())
      ensures (State(), r) == Step(old(State()), Call.MergeNodes(dst, src))
    {
      StepValid(State(), Call.MergeNodes(dst, src));
      var n := ResolveNode(State(), dst);
      if n.None? { return KeyError; }
      var m := ResolveNode(State(), src);
      if m.None? { return KeyError; }
      var k := MergeNodeIndices(n.value, m.value);
      return Ok(k);
    }

    /** Takes one endpoint off its node. */
    method Detach(e: Endpoint, ghost s: Net, ghost gone: set<Endpoint>)
      requires Valid(s) && e in s.owner && e !in gone
      requires owner == s.owner - gone && nodes == AllWithout(s.nodes, gone)
      modifies this`nodes, this`owner
      ensures owner == s.owner - (gone + {e}) && nodes == AllWithout(s.nodes, gone + {e})
    {
      var n := owner[e];
      OneGone(s, gone, e);
      owner := owner - {e};
      nodes := nodes[n := Without(nodes[n], {e})];
    }

    method DetachAll(i: nat)
      requires Valid(State())
      modifies this`nodes, this`owner
      ensures owner == old(owner) - Doomed(old(State()), i) && nodes == AllWithout(old(nodes), Doomed(old(State()), i))
    {
      ghost var s := State();
      var doomed := set e | e in owner && e.0 == i;
      ghost var gone: set<Endpoint> := {};
      NothingGone(nodes);
      while doomed != {}
        invariant doomed !! gone && doomed + gone == Doomed(s, i)
        invariant owner == s.owner - gone && nodes == AllWithout(s.nodes, gone)
        decreases doomed
      {
        var e :| e in doomed;
        assert e in Doomed(s, i);
        Detach(e, s, gone);
        doomed, gone := doomed - {e}, gone + {e};
      }
      assert gone == Doomed(s, i);
    }

    method DeleteModel(element: Ref) returns (r: Outcome)
      requires Valid(State())
      modifies this`elements, this`nodes, this`owner
      ensures Valid(State())
      ensures (State(), r) == Step(old(State()), Call.DeleteModel(element))
    {
      StepValid(State(), Call.DeleteModel(element));
      var i := ResolveElement(State(), element);
      if i.None? { return KeyError; }
      elements := elements[i.value := None];
      DetachAll(i.value);
      return Ok(i.value);
    }
  }

  /** What is still to be moved is on neither the target list nor the part moved already. */
  lemma MovedIsNew(s: Net, dst: nat, src: nat, i: nat)
    requires Valid(s) && dst < |s.nodes| && src < |s.nodes| && dst != src && i < |s.nodes[src]|
    ensures var e := s.nodes[src][i];
      e in s.owner && s.owner[e] == src && e !in s.nodes[dst] && e !in s.nodes[src][..i]
  {
    var e := s.nodes[src][i];
    assert e in s.nodes[src];
    assert s.owner[e] == src && NoRepeats(s.nodes[src]);
  }

  lemma NothingGone(nodes: seq<seq<Endpoint>>)
    ensures AllWithout(nodes, {}) == nodes
  {
    forall n | 0 <= n < |nodes| ensures Without(nodes[n], {}) == nodes[n] { WithoutNothing(nodes[n], {}); }
  }

  /** Filtering one more endpoint out touches only the list of its node. */
  lemma OneGone(s: Net, gone: set<Endpoint>, e: Endpoint)
    requires Valid(s) && e in s.owner && e !in gone
    ensures var n, nodes := s.owner[e], AllWithout(s.nodes, gone);
      AllWithout(s.nodes, gone + {e}) == nodes[n := Without(nodes[n], {e})]
  {
    var n, nodes := s.owner[e], AllWithout(s.nodes, gone);
    forall m | 0 <= m < |s.nodes|
      ensures Without(s.nodes[m], gone + {e}) == if m == n then Without(nodes[m], {e}) else nodes[m]
    {
      WithoutTwice(s.nodes[m], gone, {e});
      if m != n {
        WithoutKeeps(s.nodes[m], gone);
        WithoutNothing(nodes[m], {e});
      }
    }
  }

  lemma {:induction false} WithoutNothing(list: seq<Endpoint>, gone: set<Endpoint>)
    requires forall e :: e in list ==> e !in gone
    ensures Without(list, gone) == list
  {
    if list != [] {
      assert list[0] in list;
      WithoutNothing(list[1..], gone);
    }
  }

  lemma {:induction false} WithoutTwice(list: seq<Endpoint>, gone: set<Endpoint>, more: set<Endpoint>)
    ensures Without(Without(list, gone), more) == Without(list, gone + more)
  {
    if list != [] {
      WithoutTwice(list[1..], gone, more);
      var rest := Without(list[1..], gone);
      if list[0] in gone {
        assert Without(list, gone) == rest;
      } else {
        assert Without(list, gone) == [list[0]] + rest && ([list[0]] + rest)[1..] == rest;
      }
    }
  }
}
