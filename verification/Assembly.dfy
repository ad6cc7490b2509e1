/** NetlistBuilder.build: renumbers the surviving elements and lays each net out as a star of wires. */
module Assembly {
  import opened Prelude
  import opened Parts
  import opened Chains
  import opened Builder
  import opened NetlistBuilderObject

  // ----- Specification -----

  predicate Survives(entry: Option<Element>) {
    entry.Some?
  }

  /** The index an element gets when the deleted ones are squeezed out. */
  function NewIndex(elements: seq<Option<Element>>, i: nat): (k: nat)
    requires i <= |elements|
    ensures k <= i
  {
    CountBefore(elements, Survives, i)
  }

  function Kept(elements: seq<Option<Element>>): (kept: seq<Element>) {
    if elements == [] then [] else
    var i := |elements| - 1;
    Kept(elements[..i]) + if elements[i].Some? then [elements[i].value] else []
  }

  function Renumbered(s: Net, e: Endpoint): (x: Endpoint)
    requires Live(s, e.0)
  {
    (NewIndex(s.elements, e.0), e.1)
  }

  /** The live endpoints of a list, renumbered, in order. */
  function Active(s: Net, list: seq<Endpoint>): (active: seq<Endpoint>) {
    if list == [] then [] else
    var e := list[|list| - 1];
    Active(s, list[..|list| - 1]) + if Live(s, e.0) then [Renumbered(s, e)] else []
  }

  function Star(active: seq<Endpoint>): (wires: seq<Wire>)
    ensures |wires| == if |active| < 2 then 0 else |active| - 1
  {
    if |active| < 2 then [] else
    seq(|active| - 1, k requires 0 <= k < |active| - 1 =>
      Wire(active[0].0, active[0].1, active[k + 1].0, active[k + 1].1))
  }

  function StarOf(s: Net, n: nat): (wires: seq<Wire>)
    requires n < |s.nodes|
  {
    Star(Active(s, s.nodes[n]))
  }

  function Stars(s: Net, n: nat): (wires: seq<Wire>)
    requires n <= |s.nodes|
  {
    if n == 0 then [] else Stars(s, n - 1) + StarOf(s, n - 1)
  }

  function Wiring(s: Net): (wires: seq<Wire>) {
    Stars(s, |s.nodes|)
  }

  function Ends(w: Wire): (ends: (Endpoint, Endpoint)) {
    ((w.elementA, w.pinA), (w.elementB, w.pinB))
  }

  ghost function WireLinks(wires: seq<Wire>): (links: set<(Endpoint, Endpoint)>) {
    set i | 0 <= i < |wires| :: Ends(wires[i])
  }

  // ----- The loops -----

  method Renumber(elements: seq<Option<Element>>) returns (indexMap: map<nat, nat>, kept: seq<Element>)
    ensures kept == Kept(elements)
    ensures forall i: nat :: i in indexMap <==> i < |elements| && elements[i].Some?
    ensures forall i :: i in indexMap ==> indexMap[i] == NewIndex(elements, i)
  {
    indexMap, kept := map[], [];
    for i := 0 to |elements|
      invariant kept == Kept(elements[..i]) && |kept| == NewIndex(elements, i)
      invariant forall j: nat :: j in indexMap <==> j < i && elements[j].Some?
      invariant forall j :: j in indexMap ==> indexMap[j] == NewIndex(elements, j)
    {
      assert elements[..i + 1][..i] == elements[..i];
      if elements[i].Some? {
        indexMap := indexMap[i := |kept|];
        kept := kept + [elements[i].value];
      }
    }
    assert elements[..|elements|] == elements;
  }

  method Collect(s: Net, list: seq<Endpoint>, indexMap: map<nat, nat>) returns (active: seq<Endpoint>)
    requires forall i: nat :: i in indexMap <==> i < |s.elements| && s.elements[i].Some?
    requires forall i :: i in indexMap ==> indexMap[i] == NewIndex(s.elements, i)
    ensures active == Active(s, list)
  {
    active := [];
    for k := 0 to |list|
      invariant active == Active(s, list[..k])
    {
      var e := list[k];
      assert list[..k + 1][..k] == list[..k];
      if e.0 >= 0 && e.0 in indexMap { active := active + [(indexMap[e.0], e.1)]; }
    }
    assert list[..|list|] == list;
  }

  method LayStar(active: seq<Endpoint>) returns (wires: seq<Wire>)
    ensures wires == Star(active)
  {
    wires := [];
    if |active| < 2 { return; }
    for k := 1 to |active|
      invariant wires == Star(active)[..k - 1]
    {
      wires := wires + [Wire(active[0].0, active[0].1, active[k].0, active[k].1)];
    }
  }

  method Build(builder: NetlistBuilder) returns (elements: seq<Element>, wires: seq<Wire>)
    ensures elements == Kept(builder.elements) && wires == Wiring(builder.State())
  {
    var s := builder.State();
    var indexMap;
    indexMap, elements := Renumber(s.elements);
    wires := [];
    for n := 0 to |s.nodes|
      invariant wires == Stars(s, n)
    {
      var active := Collect(s, s.nodes[n], indexMap);
      var star := LayStar(active);
      wires := wires + star;
    }
  }

  // ----- Renumbering is an order-preserving bijection -----

  lemma {:induction false} KeptLength(elements: seq<Option<Element>>, n: nat)
    requires n <= |elements|
    ensures |Kept(elements[..n])| == NewIndex(elements, n)
    decreases n
  {
    if n > 0 {
      KeptLength(elements, n - 1);
      assert elements[..n][..n - 1] == elements[..n - 1];
    }
  }

  lemma {:induction false} KeptAt(elements: seq<Option<Element>>, i: nat, n: nat)
    requires i < n <= |elements| && elements[i].Some?
    ensures NewIndex(elements, i) < |Kept(elements[..n])|
    ensures Kept(elements[..n])[NewIndex(elements, i)] == elements[i].value
    decreases n
  {
    assert elements[..n][..n - 1] == elements[..n - 1];
    KeptLength(elements, n - 1);
    if i < n - 1 { KeptAt(elements, i, n - 1); }
  }

  lemma {:induction false} KeptFrom(elements: seq<Option<Element>>, k: nat, n: nat) returns (i: nat)
    requires n <= |elements| && k < NewIndex(elements, n)
    ensures i < n && elements[i].Some? && NewIndex(elements, i) == k
    decreases n
  {
    if k < NewIndex(elements, n - 1) {
      i := KeptFrom(elements, k, n - 1);
    } else {
      i := n - 1;
    }
  }

  /** Survivors keep their order and their contents, and every new index is some survivor's. */
  lemma RenumberingIsBijection(elements: seq<Option<Element>>, i: nat, j: nat, k: nat) returns (from: nat)
    requires i < |elements| && elements[i].Some? && j < |elements| && elements[j].Some? && k < |Kept(elements)|
    ensures NewIndex(elements, i) < |Kept(elements)| && Kept(elements)[NewIndex(elements, i)] == elements[i].value
    ensures i < j <==> NewIndex(elements, i) < NewIndex(elements, j)
    ensures from < |elements| && elements[from].Some? && NewIndex(elements, from) == k
  {
    assert elements[..|elements|] == elements;
    KeptAt(elements, i, |elements|);
    KeptLength(elements, |elements|);
    if i < j { CountMono(elements, Survives, i, j); } else { CountMono(elements, Survives, j, i); }
    from := KeptFrom(elements, k, |elements|);
  }

  // ----- The wires span exactly the nets -----

  /** Live endpoints of node n, counted with the nets that have any: a star of k endpoints has k - 1 wires. */
  ghost function LiveCount(s: Net, n: nat): (c: nat)
    requires n < |s.nodes|
  {
    |Active(s, s.nodes[n])|
  }

  ghost function LiveTotal(s: Net, n: nat): (c: nat)
    requires n <= |s.nodes|
  {
    if n == 0 then 0 else LiveTotal(s, n - 1) + LiveCount(s, n - 1)
  }

  ghost function NetTotal(s: Net, n: nat): (c: nat)
    requires n <= |s.nodes|
  {
    if n == 0 then 0 else NetTotal(s, n - 1) + if LiveCount(s, n - 1) == 0 then 0 else 1
  }

  /** Wires plus live nets equal live endpoints, so the wires form a forest with one tree per net. */
  lemma {:induction false} WireCount(s: Net, n: nat)
    requires n <= |s.nodes|
    ensures |Stars(s, n)| + NetTotal(s, n) == LiveTotal(s, n)
  {
    if n > 0 { WireCount(s, n - 1); }
  }

  lemma {:induction false} ActiveHas(s: Net, list: seq<Endpoint>, k: nat) returns (j: nat)
    requires k < |list| && Live(s, list[k].0)
    ensures j < |Active(s, list)| && Active(s, list)[j] == Renumbered(s, list[k])
    decreases |list|
  {
    if k == |list| - 1 {
      j := |Active(s, list[..k])|;
    } else {
      j := ActiveHas(s, list[..|list| - 1], k);
    }
  }

  lemma {:induction false} ActiveFrom(s: Net, list: seq<Endpoint>, j: nat) returns (k: nat)
    requires j < |Active(s, list)|
    ensures k < |list| && Live(s, list[k].0) && Active(s, list)[j] == Renumbered(s, list[k])
    decreases |list|
  {
    if j < |Active(s, list[..|list| - 1])| {
      k := ActiveFrom(s, list[..|list| - 1], j);
    } else {
      k := |list| - 1;
    }
  }

  lemma RenumberedInjective(s: Net, e: Endpoint, f: Endpoint)
    requires Live(s, e.0) && Live(s, f.0) && Renumbered(s, e) == Renumbered(s, f)
    ensures e == f
  {
    if f.0 < e.0 { CountMono(s.elements, Survives, f.0, e.0); }
    if e.0 < f.0 { CountMono(s.elements, Survives, e.0, f.0); }
  }

  /** Live endpoints stay distinct when renumbered. */
  lemma {:induction false} ActiveNoRepeats(s: Net, list: seq<Endpoint>)
    requires NoRepeats(list)
    ensures NoRepeats(Active(s, list))
  {
    if list != [] {
      var init, e := list[..|list| - 1], list[|list| - 1];
      ActiveNoRepeats(s, init);
      if Live(s, e.0) {
        forall j | 0 <= j < |Active(s, init)| ensures Active(s, init)[j] != Renumbered(s, e) {
          var k := ActiveFrom(s, init, j);
          if Active(s, init)[j] == Renumbered(s, e) { RenumberedInjective(s, init[k], e); }
        }
      }
    }
  }

  lemma {:induction false} ActiveTwo(s: Net, list: seq<Endpoint>) returns (k: nat, l: nat)
    requires |Active(s, list)| >= 2
    ensures k < l < |list| && Live(s, list[k].0) && Live(s, list[l].0)
    decreases |list|
  {
    var init := list[..|list| - 1];
    if |Active(s, init)| >= 2 {
      k, l := ActiveTwo(s, init);
    } else {
      k := ActiveFrom(s, init, 0);
      l := |list| - 1;
    }
  }

  lemma {:induction false} StarsHas(s: Net, n: nat, m: nat, k: nat) returns (i: nat)
    requires m < n <= |s.nodes| && k < |StarOf(s, m)|
    ensures i < |Stars(s, n)| && Stars(s, n)[i] == StarOf(s, m)[k]
    decreases n
  {
    if m == n - 1 {
      i := |Stars(s, n - 1)| + k;
    } else {
      i := StarsHas(s, n - 1, m, k);
    }
  }

  lemma {:induction false} StarsFrom(s: Net, n: nat, i: nat) returns (m: nat, k: nat)
    requires n <= |s.nodes| && i < |Stars(s, n)|
    ensures m < n && k < |StarOf(s, m)| && Stars(s, n)[i] == StarOf(s, m)[k]
    decreases n
  {
    if i < |Stars(s, n - 1)| {
      m, k := StarsFrom(s, n - 1, i);
    } else {
      m, k := n - 1, i - |Stars(s, n - 1)|;
    }
  }

  lemma ListOwner(s: Net, m: nat, k: nat)
    requires Dual(s.nodes, s.owner) && m < |s.nodes| && k < |s.nodes[m]|
    ensures s.nodes[m][k] in s.owner && s.owner[s.nodes[m][k]] == m
  {
    assert s.nodes[m][k] in s.nodes[m];
  }

  lemma StarEnds(s: Net, m: nat, k: nat) returns (p: nat, q: nat)
    requires m < |s.nodes| && k < |StarOf(s, m)| && NoRepeats(s.nodes[m])
    ensures p < |s.nodes[m]| && q < |s.nodes[m]| && LiveCount(s, m) >= 2
    ensures Live(s, s.nodes[m][p].0) && Live(s, s.nodes[m][q].0)
    ensures Ends(StarOf(s, m)[k]) == (Renumbered(s, s.nodes[m][p]), Renumbered(s, s.nodes[m][q]))
    ensures Renumbered(s, s.nodes[m][p]) == Active(s, s.nodes[m])[0] != Renumbered(s, s.nodes[m][q])
  {
    ActiveNoRepeats(s, s.nodes[m]);
    p := ActiveFrom(s, s.nodes[m], 0);
    q := ActiveFrom(s, s.nodes[m], k + 1);
  }

  /** Each wire runs between two live endpoints of one node, the first of which heads the node's star. */
  lemma WireFrom(s: Net, i: nat) returns (a: Endpoint, b: Endpoint)
    requires Dual(s.nodes, s.owner) && i < |Wiring(s)|
    ensures a in s.owner && b in s.owner && Live(s, a.0) && Live(s, b.0)
    ensures s.owner[a] == s.owner[b] && s.owner[a] < |s.nodes| && LiveCount(s, s.owner[a]) >= 2
    ensures Ends(Wiring(s)[i]) == (Renumbered(s, a), Renumbered(s, b)) && a != b
    ensures Renumbered(s, a) == Active(s, s.nodes[s.owner[a]])[0]
  {
    var m, k := StarsFrom(s, |s.nodes|, i);
    assert NoRepeats(s.nodes[m]);
    var p, q := StarEnds(s, m, k);
    ListOwner(s, m, p);
    ListOwner(s, m, q);
    a, b := s.nodes[m][p], s.nodes[m][q];
  }

  /** Every live endpoint of a net is wired straight to the head of its star, or is that head. */
  lemma WireTo(s: Net, a: Endpoint) returns (head: Endpoint)
    requires Dual(s.nodes, s.owner) && a in s.owner && Live(s, a.0)
    ensures |Active(s, s.nodes[s.owner[a]])| > 0 && head == Active(s, s.nodes[s.owner[a]])[0]
    ensures head == Renumbered(s, a) || (head, Renumbered(s, a)) in WireLinks(Wiring(s))
  {
    var m := s.owner[a];
    var list := s.nodes[m];
    var k :| 0 <= k < |list| && list[k] == a;
    var j := ActiveHas(s, list, k);
    head := Active(s, list)[0];
    if j > 0 {
      var i := StarsHas(s, |s.nodes|, m, j - 1);
      assert Ends(Wiring(s)[i]) == (head, Renumbered(s, a));
    }
  }

  /** The net an output endpoint came from, or the endpoint itself when it came from none. */
  datatype Home = InNet(node: nat) | Unwired(endpoint: Endpoint)

  ghost predicate Origin(s: Net, x: Endpoint, e: Endpoint) {
    e in s.owner && Live(s, e.0) && Renumbered(s, e) == x
  }

  ghost function HomeOf(s: Net, x: Endpoint): (h: Home) {
    if exists e :: Origin(s, x, e) then var e :| Origin(s, x, e); InNet(s.owner[e]) else Unwired(x)
  }

  lemma HomeIsOwner(s: Net, e: Endpoint)
    requires e in s.owner && Live(s, e.0)
    ensures HomeOf(s, Renumbered(s, e)) == InNet(s.owner[e])
  {
    var x := Renumbered(s, e);
    assert Origin(s, x, e);
    forall f | Origin(s, x, f) ensures f == e {
      if f.0 < e.0 { CountMono(s.elements, Survives, f.0, e.0); }
      if e.0 < f.0 { CountMono(s.elements, Survives, e.0, f.0); }
    }
  }

  /** Two live endpoints are joined by the wires of build exactly when they are on one net. */
  lemma WiresSpanNets(s: Net, a: Endpoint, b: Endpoint)
    requires Dual(s.nodes, s.owner) && a in s.owner && b in s.owner && Live(s, a.0) && Live(s, b.0)
    ensures Joined(WireLinks(Wiring(s)), Renumbered(s, a), Renumbered(s, b)) <==> s.owner[a] == s.owner[b]
  {
    var links := WireLinks(Wiring(s));
    var x, y := Renumbered(s, a), Renumbered(s, b);
    if Joined(links, x, y) {
      forall u, v | (u, v) in links ensures HomeOf(s, u) == HomeOf(s, v) {
        var i :| 0 <= i < |Wiring(s)| && Ends(Wiring(s)[i]) == (u, v);
        var p, q := WireFrom(s, i);
        HomeIsOwner(s, p);
        HomeIsOwner(s, q);
      }
      JoinedKeepsLabel(links, x => HomeOf(s, x), x, y);
      HomeIsOwner(s, a);
      HomeIsOwner(s, b);
    }
    if s.owner[a] == s.owner[b] {
      var head := WireTo(s, a);
      var head' := WireTo(s, b);
      JoinedRefl(links, x);
      JoinedRefl(links, y);
      if head != x { JoinedLink(links, x, head); }
      if head != y { JoinedLink(links, head, y); }
      JoinedTrans(links, x, head, y);
    }
  }

  // ----- The order of the wires -----

  /** The head of a star is the first live endpoint of its list. */
  lemma {:induction false} ActiveHead(s: Net, list: seq<Endpoint>) returns (k: nat)
    requires |Active(s, list)| > 0
    ensures k < |list| && Live(s, list[k].0) && Active(s, list)[0] == Renumbered(s, list[k])
    ensures forall i :: 0 <= i < k ==> !Live(s, list[i].0)
    decreases |list|
  {
    var init := list[..|list| - 1];
    if |Active(s, init)| > 0 {
      k := ActiveHead(s, init);
    } else {
      k := |list| - 1;
      forall i | 0 <= i < k ensures !Live(s, list[i].0) {
        if Live(s, list[i].0) { var j := ActiveHas(s, init, i); }
      }
    }
  }

  lemma {:induction false} ActiveOrder(s: Net, list: seq<Endpoint>, i: nat, j: nat) returns (k: nat, l: nat)
    requires i < j < |Active(s, list)|
    ensures k < l < |list| && Live(s, list[k].0) && Live(s, list[l].0)
    ensures Active(s, list)[i] == Renumbered(s, list[k]) && Active(s, list)[j] == Renumbered(s, list[l])
    decreases |list|
  {
    var init := list[..|list| - 1];
    if j < |Active(s, init)| {
      k, l := ActiveOrder(s, init, i, j);
    } else {
      k := ActiveFrom(s, init, i);
      l := |list| - 1;
    }
  }

  lemma {:induction false} StarsOrder(s: Net, n: nat, i: nat, j: nat) returns (m: nat, k: nat, m': nat, k': nat)
    requires n <= |s.nodes| && i < j < |Stars(s, n)|
    ensures m < n && k < |StarOf(s, m)| && Stars(s, n)[i] == StarOf(s, m)[k]
    ensures m' < n && k' < |StarOf(s, m')| && Stars(s, n)[j] == StarOf(s, m')[k']
    ensures m < m' || (m == m' && k < k')
    decreases n
  {
    var before := |Stars(s, n - 1)|;
    if j < before {
      m, k, m', k' := StarsOrder(s, n - 1, i, j);
    } else {
      m', k' := n - 1, j - before;
      if i < before {
        m, k := StarsFrom(s, n - 1, i);
      } else {
        m, k := n - 1, i - before;
      }
    }
  }

  /** Node m's list holds, at position p, the live endpoint that the wire leads to from the head of the list. */
  ghost predicate LeadsTo(s: Net, w: Wire, m: nat, p: nat) {
    && m < |s.nodes| && p < |s.nodes[m]| && Live(s, s.nodes[m][p].0)
    && Ends(w).1 == Renumbered(s, s.nodes[m][p])
  }

  /** The wires come node by node, and within a node in the order of its list. */
  lemma WiresInOrder(s: Net, i: nat, j: nat) returns (m: nat, p: nat, m': nat, p': nat)
    requires Dual(s.nodes, s.owner) && i < j < |Wiring(s)|
    ensures LeadsTo(s, Wiring(s)[i], m, p) && LeadsTo(s, Wiring(s)[j], m', p')
    ensures m < m' || (m == m' && p < p')
  {
    var k, k';
    m, k, m', k' := StarsOrder(s, |s.nodes|, i, j);
    if m == m' {
      p, p' := ActiveOrder(s, s.nodes[m], k + 1, k' + 1);
    } else {
      p := ActiveFrom(s, s.nodes[m], k + 1);
      p' := ActiveFrom(s, s.nodes[m'], k' + 1);
    }
  }
}
