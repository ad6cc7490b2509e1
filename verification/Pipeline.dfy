/** End to end: from a builder to the engine's nodes, through build, the flat wire table and the union-find. */
module Pipeline {
  import opened Prelude
  import opened Parts
  import opened Chains
  import opened Builder
  import opened BuilderHistory
  import opened NameChains
  import opened ConnectChains
  import opened CurrentNames
  import opened KeptReferences
  import opened NetlistBuilderObject
  import opened Assembly
  import opened Netlist
  import opened PropertyStream
  import opened Attachment

  ghost predicate Flattens(raw: seq<int>, wires: seq<Wire>) {
    && |raw| == 4 * |wires|
    && forall k :: 0 <= k < |wires| ==> Row(raw, k) == wires[k]
  }

  function Row(raw: seq<int>, k: nat): (w: Wire)
    requires 4 * k + 3 < |raw|
  {
    Wire(raw[4 * k], raw[4 * k + 1], raw[4 * k + 2], raw[4 * k + 3])
  }

  method FlattenWires(wires: seq<Wire>) returns (raw: seq<int>)
    ensures Flattens(raw, wires)
    ensures forall k :: 0 <= k < |wires| ==>
      && raw[4 * k] == wires[k].elementA && raw[4 * k + 1] == wires[k].pinA
      && raw[4 * k + 2] == wires[k].elementB && raw[4 * k + 3] == wires[k].pinB
  {
    raw := [];
    for i := 0 to |wires|
      invariant Flattens(raw, wires[..i])
    {
      var w := wires[i];
      ghost var before := raw;
      raw := raw + [w.elementA, w.pinA, w.elementB, w.pinB];
      forall k | 0 <= k < i + 1 ensures Row(raw, k) == wires[..i + 1][k] {
        if k < i { assert Row(raw, k) == Row(before, k) == wires[..i][k]; }
      }
    }
    assert wires[..|wires|] == wires;
    forall k | 0 <= k < |wires|
      ensures raw[4 * k] == wires[k].elementA && raw[4 * k + 1] == wires[k].pinA
      ensures raw[4 * k + 2] == wires[k].elementB && raw[4 * k + 3] == wires[k].pinB
    {
      assert Row(raw, k) == wires[k];
    }
  }

  // ----- The table as C sees it -----

  const INT_SPAN := 0x1_0000_0000

  /** ctypes takes any number into a 32-bit int, modulo 2^32. */
  function CInt(x: int): (y: int) {
    (x + INT_SPAN / 2) % INT_SPAN - INT_SPAN / 2
  }

  predicate FitsCInt(x: int) {
    -INT_SPAN / 2 <= x < INT_SPAN / 2
  }

  predicate WireFitsCInt(w: Wire) {
    FitsCInt(w.elementA) && FitsCInt(w.pinA) && FitsCInt(w.elementB) && FitsCInt(w.pinB)
  }

  lemma CIntIsIdentity(x: int)
    ensures CInt(x) == x <==> FitsCInt(x)
    ensures CInt(x + INT_SPAN) == CInt(x)
  {
  }

  ghost predicate Converted(table: seq<int>, raw: seq<int>) {
    |table| == |raw| && forall i :: 0 <= i < |raw| ==> table[i] == CInt(raw[i])
  }

  method CInts(raw: seq<int>) returns (table: seq<int>)
    ensures Converted(table, raw)
  {
    table := [];
    for i := 0 to |raw|
      invariant |table| == i && forall j :: 0 <= j < i ==> table[j] == CInt(raw[j])
    {
      table := table + [CInt(raw[i])];
    }
  }

  /** The wires arrive as they are exactly when all their numbers fit; otherwise pin p + 2^32 arrives as pin p. */
  lemma TableArrives(raw: seq<int>, table: seq<int>, wires: seq<Wire>)
    requires Flattens(raw, wires) && Converted(table, raw)
    ensures Flattens(table, wires) <==> forall k :: 0 <= k < |wires| ==> WireFitsCInt(wires[k])
  {
    forall k | 0 <= k < |wires| ensures Row(table, k) == wires[k] <==> WireFitsCInt(wires[k]) {
      assert Row(raw, k) == wires[k];
      CIntIsIdentity(raw[4 * k]);
      CIntIsIdentity(raw[4 * k + 1]);
      CIntIsIdentity(raw[4 * k + 2]);
      CIntIsIdentity(raw[4 * k + 3]);
    }
  }

  // ----- The circuit a builder state turns into -----

  predicate IsGround(s: Net, e: Endpoint) {
    Live(s, e.0) && s.elements[e.0].value.code == GROUND
  }

  /** A live endpoint of a ground element sits on node n. */
  ghost predicate Grounded(s: Net, n: nat) {
    exists e :: e in s.owner && s.owner[e] == n && IsGround(s, e)
  }

  /** The engine accepts this endpoint as a wire end: a ground pin, or a pin its component has. */
  predicate Fits(s: Net, counts: seq<nat>, e: Endpoint)
    requires |counts| == |Kept(s.elements)|
  {
    Live(s, e.0) && var x := Renumbered(s, e); EndOf(Codes(Kept(s.elements)), counts, x.0, x.1).Some?
  }

  /** The engine accepts the head of node n's star; otherwise it drops every wire of the net. */
  predicate HeadFits(s: Net, counts: seq<nat>, n: nat)
    requires |counts| == |Kept(s.elements)| && n < |s.nodes|
  {
    var active := Active(s, s.nodes[n]);
    |active| > 0 && EndOf(Codes(Kept(s.elements)), counts, active[0].0, active[0].1).Some?
  }

  /** Some other accepted endpoint is on a's net, and the net's wires are not dropped. */
  ghost predicate Shared(s: Net, counts: seq<nat>, a: Endpoint)
    requires |counts| == |Kept(s.elements)| && a in s.owner && s.owner[a] < |s.nodes|
  {
    && HeadFits(s, counts, s.owner[a])
    && exists e :: e in s.owner && s.owner[e] == s.owner[a] && e != a && Fits(s, counts, e)
  }

  /** The engine point of a live endpoint. */
  function PointOf(s: Net, e: Endpoint): (p: Point)
    requires Live(s, e.0)
  {
    if IsGround(s, e) then Ground else var x := Renumbered(s, e); Pin(x.0, x.1)
  }

  lemma CodeAt(s: Net, e: Endpoint)
    requires Live(s, e.0)
    ensures Renumbered(s, e).0 < |Codes(Kept(s.elements))|
    ensures Codes(Kept(s.elements))[Renumbered(s, e).0] == s.elements[e.0].value.code
  {
    assert s.elements[..|s.elements|] == s.elements;
    KeptAt(s.elements, e.0, |s.elements|);
  }

  /** What a wire end of endpoint e means to the engine. */
  lemma EndAt(s: Net, counts: seq<nat>, e: Endpoint)
    requires Live(s, e.0) && |counts| == |Kept(s.elements)|
    ensures var x := Renumbered(s, e); var end := EndOf(Codes(Kept(s.elements)), counts, x.0, x.1);
      && (end.Some? ==> end.value == PointOf(s, e))
      && (end.Some? <==> IsGround(s, e) || IsPin(counts, x.0, x.1))
  {
    CodeAt(s, e);
  }

  // ----- Rails -----

  datatype Rail = GroundRail | NetRail(node: nat) | Loose(point: Point)

  /** What a point should be connected to: its net, or ground when the net holds a ground pin. */
  ghost function RailOf(s: Net, counts: seq<nat>, p: Point): (r: Rail)
    requires |counts| == |Kept(s.elements)|
  {
    match p
    case Ground => GroundRail
    case Pin(e, i) =>
      match HomeOf(s, (e, i))
      case InNet(n) => if n < |s.nodes| && HeadFits(s, counts, n) then NetRailOf(s, n) else Loose(p)
      case Unwired(_) => Loose(p)
  }

  ghost function NetRailOf(s: Net, n: nat): (r: Rail) {
    if Grounded(s, n) then GroundRail else NetRail(n)
  }

  lemma RailOfEndpoint(s: Net, counts: seq<nat>, e: Endpoint)
    requires |counts| == |Kept(s.elements)| && e in s.owner && Live(s, e.0)
    requires s.owner[e] < |s.nodes| && HeadFits(s, counts, s.owner[e])
    ensures RailOf(s, counts, PointOf(s, e)) == NetRailOf(s, s.owner[e])
  {
    if IsGround(s, e) {
      assert Grounded(s, s.owner[e]);
    } else {
      HomeIsOwner(s, e);
    }
  }

  // ----- The engine's links -----

  /** A consistent builder state, its pin counts and the flat table of its wires, as it arrives. */
  ghost predicate Setup(s: Net, counts: seq<nat>, raw: seq<int>) {
    Dual(s.nodes, s.owner) && |counts| == |Kept(s.elements)| && Flattens(raw, Wiring(s))
  }

  /** The links the engine takes from the built wires. */
  ghost function BuiltLinks(s: Net, counts: seq<nat>, raw: seq<int>): (links: set<(Point, Point)>)
    requires Setup(s, counts, raw)
  {
    Links(Codes(Kept(s.elements)), counts, raw, |Wiring(s)|)
  }

  /** Every link runs between two accepted endpoints of one net whose head is accepted. */
  lemma LinkFrom(s: Net, counts: seq<nat>, raw: seq<int>, p: Point, q: Point) returns (a: Endpoint, b: Endpoint)
    requires Setup(s, counts, raw) && (p, q) in BuiltLinks(s, counts, raw)
    ensures a in s.owner && b in s.owner && Fits(s, counts, a) && Fits(s, counts, b) && a != b
    ensures s.owner[a] == s.owner[b] && s.owner[a] < |s.nodes| && HeadFits(s, counts, s.owner[a])
    ensures p == PointOf(s, a) && q == PointOf(s, b)
  {
    var codes, wires := Codes(Kept(s.elements)), Wiring(s);
    var i :| 0 <= i < |wires| && Accepted(codes, counts, raw, i) &&
      (FirstEnd(codes, counts, raw, i).value, SecondEnd(codes, counts, raw, i).value) == (p, q);
    assert Row(raw, i) == wires[i];
    a, b := WireFrom(s, i);
    EndAt(s, counts, a);
    EndAt(s, counts, b);
  }

  /** Every accepted endpoint is linked to the head of its star, or is that head. */
  lemma LinkTo(s: Net, counts: seq<nat>, raw: seq<int>, a: Endpoint) returns (head: Endpoint)
    requires Setup(s, counts, raw) && a in s.owner && Fits(s, counts, a) && HeadFits(s, counts, s.owner[a])
    ensures head in s.owner && Fits(s, counts, head) && s.owner[head] == s.owner[a]
    ensures Renumbered(s, head) == Active(s, s.nodes[s.owner[a]])[0]
    ensures head == a || Linked(BuiltLinks(s, counts, raw), PointOf(s, head), PointOf(s, a))
  {
    var codes, wires, x := Codes(Kept(s.elements)), Wiring(s), Renumbered(s, a);
    var h := WireTo(s, a);
    if h == x {
      head := a;
    } else {
      var i :| 0 <= i < |wires| && Ends(wires[i]) == (h, x);
      var b;
      head, b := WireFrom(s, i);
      RenumberedInjective(s, a, b);
      EndAt(s, counts, head);
      EndAt(s, counts, a);
      assert Row(raw, i) == wires[i];
      assert Accepted(codes, counts, raw, i);
    }
  }

  lemma SameNetJoined(s: Net, counts: seq<nat>, raw: seq<int>, a: Endpoint, b: Endpoint)
    requires Setup(s, counts, raw) && a in s.owner && b in s.owner && Fits(s, counts, a) && Fits(s, counts, b)
    requires s.owner[a] == s.owner[b] && HeadFits(s, counts, s.owner[a])
    ensures Joined(BuiltLinks(s, counts, raw), PointOf(s, a), PointOf(s, b))
  {
    var links := BuiltLinks(s, counts, raw);
    var x, y := PointOf(s, a), PointOf(s, b);
    var head := LinkTo(s, counts, raw, a);
    var head' := LinkTo(s, counts, raw, b);
    RenumberedInjective(s, head, head');
    JoinedRefl(links, x);
    JoinedRefl(links, y);
    if head != a { JoinedLink(links, x, PointOf(s, head)); }
    if head != b { JoinedLink(links, PointOf(s, head), y); }
    JoinedTrans(links, x, PointOf(s, head), y);
  }

  lemma LinksKeepRails(s: Net, counts: seq<nat>, raw: seq<int>, x: Point, y: Point)
    requires Setup(s, counts, raw) && Joined(BuiltLinks(s, counts, raw), x, y)
    ensures RailOf(s, counts, x) == RailOf(s, counts, y)
  {
    var links := BuiltLinks(s, counts, raw);
    forall u, v | (u, v) in links ensures RailOf(s, counts, u) == RailOf(s, counts, v) {
      var p, q := LinkFrom(s, counts, raw, u, v);
      RailOfEndpoint(s, counts, p);
      RailOfEndpoint(s, counts, q);
    }
    JoinedKeepsLabel(links, p => RailOf(s, counts, p), x, y);
  }

  /** An accepted endpoint is joined to ground exactly when its net holds a live ground pin. */
  lemma JoinedGround(s: Net, counts: seq<nat>, raw: seq<int>, a: Endpoint)
    requires Setup(s, counts, raw) && a in s.owner && Fits(s, counts, a) && HeadFits(s, counts, s.owner[a])
    ensures Joined(BuiltLinks(s, counts, raw), PointOf(s, a), Ground) <==> Grounded(s, s.owner[a])
  {
    if Joined(BuiltLinks(s, counts, raw), PointOf(s, a), Ground) {
      LinksKeepRails(s, counts, raw, PointOf(s, a), Ground);
      RailOfEndpoint(s, counts, a);
    }
    if Grounded(s, s.owner[a]) {
      var g :| g in s.owner && s.owner[g] == s.owner[a] && IsGround(s, g);
      EndAt(s, counts, g);
      SameNetJoined(s, counts, raw, a, g);
    }
  }

  /** Accepted endpoints are joined by the engine's links exactly when their nets are one or both hold ground. */
  lemma JoinedIsSameRail(s: Net, counts: seq<nat>, raw: seq<int>, a: Endpoint, b: Endpoint)
    requires Setup(s, counts, raw) && a in s.owner && b in s.owner && Fits(s, counts, a) && Fits(s, counts, b)
    requires HeadFits(s, counts, s.owner[a]) && HeadFits(s, counts, s.owner[b])
    ensures Joined(BuiltLinks(s, counts, raw), PointOf(s, a), PointOf(s, b)) <==>
            s.owner[a] == s.owner[b] || (Grounded(s, s.owner[a]) && Grounded(s, s.owner[b]))
  {
    var links, x, y := BuiltLinks(s, counts, raw), PointOf(s, a), PointOf(s, b);
    if Joined(links, x, y) {
      LinksKeepRails(s, counts, raw, x, y);
      RailOfEndpoint(s, counts, a);
      RailOfEndpoint(s, counts, b);
    }
    if s.owner[a] == s.owner[b] {
      SameNetJoined(s, counts, raw, a, b);
    } else if Grounded(s, s.owner[a]) && Grounded(s, s.owner[b]) {
      JoinedGround(s, counts, raw, a);
      JoinedGround(s, counts, raw, b);
      JoinedSym(links, y, Ground);
      JoinedTrans(links, x, Ground, y);
    }
  }

  /** A component pin is touched by an accepted wire exactly when its net is shared. */
  lemma UsedIsShared(s: Net, counts: seq<nat>, raw: seq<int>, a: Endpoint)
    requires Setup(s, counts, raw) && a in s.owner && Fits(s, counts, a) && !IsGround(s, a)
    ensures Used(BuiltLinks(s, counts, raw), PointOf(s, a)) <==> Shared(s, counts, a)
  {
    var links, x := BuiltLinks(s, counts, raw), PointOf(s, a);
    if Used(links, x) {
      var q :| Linked(links, x, q);
      var p0, q0 := if (x, q) in links then x else q, if (x, q) in links then q else x;
      var u, v := LinkFrom(s, counts, raw, p0, q0);
      RenumberedInjective(s, if (x, q) in links then u else v, a);
    }
    if Shared(s, counts, a) {
      var head := LinkTo(s, counts, raw, a);
      if head == a {
        var e :| e in s.owner && s.owner[e] == s.owner[a] && e != a && Fits(s, counts, e);
        var head' := LinkTo(s, counts, raw, e);
        RenumberedInjective(s, head, head');
        assert Linked(links, x, PointOf(s, e));
      } else {
        assert Linked(links, x, PointOf(s, head));
      }
    }
  }

  // ----- The end-to-end theorem -----

  /** The engine's name for a live endpoint of a component. */
  function EngineKey(s: Net, e: Endpoint): (k: (int, int))
    requires Live(s, e.0)
  {
    CodeAt(s, e);
    PinKey(Codes(Kept(s.elements)), NewIndex(s.elements, e.0), e.1)
  }

  /** A pin in use of a live component. */
  predicate LivePin(s: Net, e: Endpoint) {
    e in s.owner && Live(s, e.0) && !IsGround(s, e)
  }

  /**
   * The engine's nodes are the builder's nets: a pin is attached exactly when its component has it and its net is
   * shared; attached pins share a node exactly when they are on one net or both nets hold a live ground pin, and are
   * on the ground node exactly when their net does.
   */
  ghost predicate EngineMatches(s: Net, counts: seq<nat>, after: map<(int, int), Node>, a: Endpoint, b: Endpoint)
    requires Dual(s.nodes, s.owner) && |counts| == |Kept(s.elements)| && LivePin(s, a) && LivePin(s, b)
  {
    && (EngineKey(s, a) in after <==> Fits(s, counts, a) && Shared(s, counts, a))
    && (EngineKey(s, a) in after ==> (after[EngineKey(s, a)] == GroundNode <==> Grounded(s, s.owner[a])))
    && (EngineKey(s, a) in after && EngineKey(s, b) in after ==>
          (after[EngineKey(s, a)] == after[EngineKey(s, b)] <==>
             s.owner[a] == s.owner[b] || (Grounded(s, s.owner[a]) && Grounded(s, s.owner[b]))))
  }

  lemma AttachedIsShared(s: Net, models: seq<Option<nat>>, raw: seq<int>, after: map<(int, int), Node>, hi: nat,
                         a: Endpoint)
    requires var codes := Codes(Kept(s.elements)); var counts := PinCounts(codes, models);
      Setup(s, counts, raw) && Wired(codes, counts, BuiltLinks(s, counts, raw), map[], after, 0, hi)
    requires LivePin(s, a)
    ensures EngineKey(s, a) in after <==>
      Fits(s, PinCounts(Codes(Kept(s.elements)), models), a) && Shared(s, PinCounts(Codes(Kept(s.elements)), models), a)
  {
    var codes := Codes(Kept(s.elements));
    var counts := PinCounts(codes, models);
    EndAt(s, counts, a);
    CodeAt(s, a);
    if Fits(s, counts, a) {
      UsedIsShared(s, counts, raw, a);
    } else {
      NotAComponentPin(codes, models, NewIndex(s.elements, a.0), a.1);
    }
  }

  /** A pin number its component does not have names no component pin at all. */
  lemma NotAComponentPin(codes: seq<int>, models: seq<Option<nat>>, e: nat, p: int)
    requires e < |codes| && codes[e] != 0 && !IsPin(PinCounts(codes, models), e, p)
    ensures !IsComponentPin(codes, PinCounts(codes, models), PinKey(codes, e, p))
  {
    forall f | 0 <= f < |codes| && IsPin(PinCounts(codes, models), f, p)
      ensures PinKey(codes, f, p) != PinKey(codes, e, p)
    {
      if f < e { CountMono(codes, IsComponent, f, e); }
      if e < f { CountMono(codes, IsComponent, e, f); }
    }
  }

  lemma NodesAreNets(s: Net, models: seq<Option<nat>>, raw: seq<int>, after: map<(int, int), Node>, hi: nat,
                     a: Endpoint, b: Endpoint)
    requires var codes := Codes(Kept(s.elements)); var counts := PinCounts(codes, models);
      Setup(s, counts, raw) && Wired(codes, counts, BuiltLinks(s, counts, raw), map[], after, 0, hi)
    requires LivePin(s, a) && LivePin(s, b)
    ensures EngineMatches(s, PinCounts(Codes(Kept(s.elements)), models), after, a, b)
  {
    var counts := PinCounts(Codes(Kept(s.elements)), models);
    AttachedIsShared(s, models, raw, after, hi, a);
    AttachedIsShared(s, models, raw, after, hi, b);
    EndAt(s, counts, a);
    EndAt(s, counts, b);
    if EngineKey(s, a) in after {
      UsedIsShared(s, counts, raw, a);
      JoinedGround(s, counts, raw, a);
      if EngineKey(s, b) in after {
        UsedIsShared(s, counts, raw, b);
        JoinedIsSameRail(s, counts, raw, a, b);
      }
    }
  }

  /** When every pin in use exists on its component, a net is shared exactly when it has two live endpoints. */
  lemma SharedWhenInRange(s: Net, counts: seq<nat>, a: Endpoint)
    requires Dual(s.nodes, s.owner) && |counts| == |Kept(s.elements)| && a in s.owner && Live(s, a.0)
    requires forall e :: e in s.owner && Live(s, e.0) ==> Fits(s, counts, e)
    ensures Shared(s, counts, a) <==> LiveCount(s, s.owner[a]) >= 2
  {
    if Shared(s, counts, a) {
      var e :| e in s.owner && s.owner[e] == s.owner[a] && e != a && Fits(s, counts, e);
      TwoLive(s, a, e);
    }
    if LiveCount(s, s.owner[a]) >= 2 {
      var e := AnotherLive(s, a);
      assert e in s.owner && s.owner[e] == s.owner[a] && e != a && Fits(s, counts, e);
      var h := ActiveFrom(s, s.nodes[s.owner[a]], 0);
      ListOwner(s, s.owner[a], h);
      assert Fits(s, counts, s.nodes[s.owner[a]][h]);
    }
  }

  lemma TwoLive(s: Net, a: Endpoint, e: Endpoint)
    requires Dual(s.nodes, s.owner) && a in s.owner && Live(s, a.0)
    requires e in s.owner && s.owner[e] == s.owner[a] && e != a && Live(s, e.0)
    ensures LiveCount(s, s.owner[a]) >= 2
  {
    var list := s.nodes[s.owner[a]];
    var k :| 0 <= k < |list| && list[k] == a;
    var l :| 0 <= l < |list| && list[l] == e;
    var i := ActiveHas(s, list, k);
    var j := ActiveHas(s, list, l);
    if Renumbered(s, a) == Renumbered(s, e) { RenumberedInjective(s, a, e); }
  }

  lemma AnotherLive(s: Net, a: Endpoint) returns (e: Endpoint)
    requires Dual(s.nodes, s.owner) && a in s.owner && LiveCount(s, s.owner[a]) >= 2
    ensures e in s.owner && s.owner[e] == s.owner[a] && e != a && Live(s, e.0)
  {
    var n := s.owner[a];
    var k, l := ActiveTwo(s, s.nodes[n]);
    ListOwner(s, n, k);
    ListOwner(s, n, l);
    assert NoRepeats(s.nodes[n]);
    e := if s.nodes[n][k] == a then s.nodes[n][l] else s.nodes[n][k];
  }

  /** build, the flat wire table and build_netlist_from_wires in one go. */
  method Assemble(builder: NetlistBuilder, models: seq<Option<nat>>) returns (board: Board)
    requires Valid(builder.State())
    requires CompIndex(Codes(Kept(builder.elements)), |Kept(builder.elements)|) <= |models|
    ensures fresh(board)
    ensures (forall k :: 0 <= k < |Wiring(builder.State())| ==> WireFitsCInt(Wiring(builder.State())[k])) ==>
      forall a, b :: LivePin(builder.State(), a) && LivePin(builder.State(), b) ==>
        EngineMatches(builder.State(), PinCounts(Codes(Kept(builder.elements)), models), board.pinNode, a, b)
  {
    var elements, wires := Build(builder);
    var codes := Codes(elements);
    var flat := FlattenWires(wires);
    var raw := CInts(flat);
    TableArrives(flat, raw, wires);
    board := new Board();
    BuildFromWires(board, codes, models, raw, |wires|);
    ghost var s := builder.State();
    if Flattens(raw, Wiring(s)) {
      forall a, b | LivePin(s, a) && LivePin(s, b)
        ensures EngineMatches(s, PinCounts(codes, models), board.pinNode, a, b)
      {
        NodesAreNets(s, models, raw, board.pinNode, board.nodeCount, a, b);
      }
    }
  }

  /** The engine's name for a live pin: that pin of the component made for the pin's element. */
  lemma EngineKeyIsOwn(s: Net, made: seq<Component>, e: Endpoint) returns (c: nat)
    requires Live(s, e.0) && !IsGround(s, e) && Creates(Codes(Kept(s.elements)), made)
    ensures c < |made| && EngineKey(s, e) == (c, e.1) && made[c].element == NewIndex(s.elements, e.0)
    ensures made[c].code == s.elements[e.0].value.code
  {
    var codes, i := Codes(Kept(s.elements)), NewIndex(s.elements, e.0);
    CodeAt(s, e);
    assert HasComponent(made, i);
    c :| 0 <= c < |made| && made[c].element == i;
    OwnNumber(codes, made, c);
  }

  // ----- From the user's calls to the engine -----

  type Relation = (Endpoint, Endpoint) -> bool

  /** A live ground pin is related to a. */
  ghost predicate ToGround(s: Net, joined: Relation, a: Endpoint) {
    exists g :: g in s.owner && IsGround(s, g) && joined(a, g)
  }

  /** Another endpoint that the engine accepts is related to a. */
  ghost predicate ToAnother(s: Net, counts: seq<nat>, joined: Relation, a: Endpoint)
    requires |counts| == |Kept(s.elements)|
  {
    exists e :: e in s.owner && e != a && Fits(s, counts, e) && joined(a, e)
  }

  /**
   * The engine's nodes are what `joined` joins: pin a is attached exactly when its component has it, its net's head
   * is accepted and it is joined to another accepted endpoint; it is on the ground node exactly when it is joined to a
   * live ground pin; and two attached pins share a node exactly when they are joined or both are joined to ground.
   */
  ghost predicate EngineFollows(s: Net, counts: seq<nat>, after: map<(int, int), Node>, joined: Relation,
                                a: Endpoint, b: Endpoint)
    requires Dual(s.nodes, s.owner) && |counts| == |Kept(s.elements)| && LivePin(s, a) && LivePin(s, b)
  {
    var k, l := EngineKey(s, a), EngineKey(s, b);
    && (k in after <==>
          Fits(s, counts, a) && HeadFits(s, counts, s.owner[a]) && ToAnother(s, counts, joined, a))
    && (k in after ==> (after[k] == GroundNode <==> ToGround(s, joined, a)))
    && (k in after && l in after ==>
          (after[k] == after[l] <==> joined(a, b) || (ToGround(s, joined, a) && ToGround(s, joined, b))))
  }

  /** `joined` relates the endpoints in use that are on one net. */
  ghost predicate IsNets(s: Net, joined: Relation) {
    forall x, y :: x in s.owner && y in s.owner ==> (s.owner[x] == s.owner[y] <==> joined(x, y))
  }

  lemma FollowsNets(s: Net, counts: seq<nat>, after: map<(int, int), Node>, joined: Relation, a: Endpoint, b: Endpoint)
    requires Dual(s.nodes, s.owner) && |counts| == |Kept(s.elements)| && LivePin(s, a) && LivePin(s, b)
    requires EngineMatches(s, counts, after, a, b) && IsNets(s, joined)
    ensures EngineFollows(s, counts, after, joined, a, b)
  {
    GroundOnNet(s, joined, a);
    GroundOnNet(s, joined, b);
    SharedOnNet(s, counts, joined, a);
  }

  lemma GroundOnNet(s: Net, joined: Relation, a: Endpoint)
    requires IsNets(s, joined) && a in s.owner
    ensures ToGround(s, joined, a) <==> Grounded(s, s.owner[a])
  {
  }

  lemma SharedOnNet(s: Net, counts: seq<nat>, joined: Relation, a: Endpoint)
    requires Dual(s.nodes, s.owner) && |counts| == |Kept(s.elements)| && IsNets(s, joined) && a in s.owner
    ensures Shared(s, counts, a) <==> HeadFits(s, counts, s.owner[a]) && ToAnother(s, counts, joined, a)
  {
  }

  /** The engine's netlist `after` was built from the builder that these calls have left. */
  ghost predicate BuiltFrom(calls: seq<Call>, models: seq<Option<nat>>, raw: seq<int>, after: map<(int, int), Node>,
                            hi: nat)
  {
    var s := Run(calls).0;
    var codes := Codes(Kept(s.elements));
    var counts := PinCounts(codes, models);
    Setup(s, counts, raw) && Wired(codes, counts, BuiltLinks(s, counts, raw), map[], after, 0, hi)
  }

  /** Joined by the calls so far, names taken with their lives. */
  ghost function JoinedByCalls(calls: seq<Call>): Relation {
    (x, y) => Joined(Run(calls).1.links, PinNow(Run(calls).1, x), PinNow(Run(calls).1, y))
  }

  /** Joined by a chain of calls, names taken as they stand. */
  ghost function ChainOfCalls(calls: seq<Call>): Relation {
    (x, y) => Joined(CallLinks(calls), PinName(x), PinName(y))
  }

  ghost function ChainOfConnects(calls: seq<Call>): Relation {
    (x, y) => Joined(Connects(calls), x, y)
  }

  lemma EngineFollowsRun(calls: seq<Call>, joined: Relation, models: seq<Option<nat>>, raw: seq<int>,
                         after: map<(int, int), Node>, hi: nat, a: Endpoint, b: Endpoint)
    requires BuiltFrom(calls, models, raw, after, hi) && LivePin(Run(calls).0, a) && LivePin(Run(calls).0, b)
    requires IsNets(Run(calls).0, joined)
    ensures EngineFollows(Run(calls).0, PinCounts(Codes(Kept(Run(calls).0.elements)), models), after, joined, a, b)
  {
    var s := Run(calls).0;
    NodesAreNets(s, models, raw, after, hi, a, b);
    FollowsNets(s, PinCounts(Codes(Kept(s.elements)), models), after, joined, a, b);
  }

  /** After any sequence of public calls, the engine's nodes are exactly what the calls have joined. */
  lemma NodesAreWhatCallsJoined(calls: seq<Call>, models: seq<Option<nat>>, raw: seq<int>,
                                after: map<(int, int), Node>, hi: nat, a: Endpoint, b: Endpoint)
    requires BuiltFrom(calls, models, raw, after, hi) && LivePin(Run(calls).0, a) && LivePin(Run(calls).0, b)
    ensures EngineFollows(Run(calls).0, PinCounts(Codes(Kept(Run(calls).0.elements)), models), after,
                          JoinedByCalls(calls), a, b)
  {
    var s := Run(calls).0;
    forall x, y | x in s.owner && y in s.owner ensures s.owner[x] == s.owner[y] <==> JoinedByCalls(calls)(x, y) {
      NetsAreWhatCallsJoined(calls, x, y, s.owner[x]);
    }
    EngineFollowsRun(calls, JoinedByCalls(calls), models, raw, after, hi, a, b);
  }

  /** After a run of safe calls, they are the chains of calls, names taken as they stand. */
  lemma NodesAreNameChains(calls: seq<Call>, models: seq<Option<nat>>, raw: seq<int>,
                           after: map<(int, int), Node>, hi: nat, a: Endpoint, b: Endpoint)
    requires AllSafe(calls)
    requires BuiltFrom(calls, models, raw, after, hi) && LivePin(Run(calls).0, a) && LivePin(Run(calls).0, b)
    ensures EngineFollows(Run(calls).0, PinCounts(Codes(Kept(Run(calls).0.elements)), models), after,
                          ChainOfCalls(calls), a, b)
  {
    assert calls[..|calls|] == calls;
    SafeUpTo(calls, |calls|);
    EngineFollowsRun(calls, ChainOfCalls(calls), models, raw, after, hi, a, b);
  }

  /** After a run without node references whose connects are safe, they are the chains of connect calls. */
  lemma NodesAreConnectChains(calls: seq<Call>, models: seq<Option<nat>>, raw: seq<int>,
                              after: map<(int, int), Node>, hi: nat, a: Endpoint, b: Endpoint)
    requires NoNodesNamed(calls) && AllConnectsSafe(calls)
    requires BuiltFrom(calls, models, raw, after, hi) && LivePin(Run(calls).0, a) && LivePin(Run(calls).0, b)
    ensures EngineFollows(Run(calls).0, PinCounts(Codes(Kept(Run(calls).0.elements)), models), after,
                          ChainOfConnects(calls), a, b)
  {
    assert calls[..|calls|] == calls;
    SafePairsUpTo(calls, |calls|);
    EngineFollowsRun(calls, ChainOfConnects(calls), models, raw, after, hi, a, b);
  }

  // ----- A net with a bad head -----

  /** At least two resistors, and a net that starts with pin p of the first. */
  ghost predicate BadHead(s: Net, p: int) {
    && |s.elements| >= 2 && (forall i :: 0 <= i < |s.elements| ==> s.elements[i] == Some(RESISTOR))
    && s.nodes == [[(0, p), (0, 0), (1, 0)]] && s.owner == map[(0, p) := 0, (0, 0) := 0, (1, 0) := 0]
  }

  lemma BadHeadState(s: Net, s1: Net, s2: Net, n: nat, p: int)
    requires OnlyResistors(s, n) && n >= 2 && Valid(s) && Valid(s1) && p != 0
    requires s1 == Connected(s, (0, p), (0, 0)) && s2 == Connected(s1, (0, 0), (1, 0))
    ensures BadHead(s2, p)
  {
    var t := Put(NewNode(s), 0, (0, p));
    assert |NewNode(s).nodes| == 1 && NewNode(s).nodes[0] == [];
    assert |t.nodes| == 1 && t.nodes[0] == [(0, p)];
    assert s1 == Put(t, 0, (0, 0)) && s1.nodes[0] == [(0, p)] + [(0, 0)];
    assert s2 == Put(s1, 0, (1, 0)) && s2.nodes[0] == s1.nodes[0] + [(1, 0)] == [(0, p), (0, 0), (1, 0)];
  }

  lemma BadHeadRun(calls: seq<Call>, calls1: seq<Call>, calls2: seq<Call>, n: nat, p: int)
    requires OnlyResistors(Run(calls).0, n) && n >= 2 && p != 0
    requires calls1 == calls + [ConnectRefs((0, p), (0, 0))] && calls2 == calls1 + [ConnectRefs((0, 0), (1, 0))]
    ensures BadHead(Run(calls2).0, p)
  {
    NextConnect(calls, (0, p), (0, 0), calls1);
    NextConnect(calls1, (0, 0), (1, 0), calls2);
    BadHeadState(Run(calls).0, Run(calls1).0, Run(calls2).0, n, p);
  }

  lemma BadHeadFits(s: Net, counts: seq<nat>, p: int)
    requires BadHead(s, p) && |counts| == |Kept(s.elements)| && |counts| >= 2 && counts[0] == counts[1] == 2
    requires p < 0 || p >= 2
    ensures Dual(s.nodes, s.owner)
    ensures LivePin(s, (0, 0)) && LivePin(s, (1, 0)) && Fits(s, counts, (0, 0)) && Fits(s, counts, (1, 0))
    ensures !HeadFits(s, counts, 0)
  {
    CodeAt(s, (0, 0));
    CodeAt(s, (1, 0));
    EndAt(s, counts, (0, 0));
    EndAt(s, counts, (1, 0));
    EndAt(s, counts, (0, p));
    var j := ActiveHas(s, s.nodes[0], 0);
    var k := ActiveHead(s, s.nodes[0]);
  }

  lemma BadHeadCounts(s: Net, models: seq<Option<nat>>, p: int)
    requires BadHead(s, p) && |models| >= 2 && models[0] == models[1] == Some(2)
    ensures var counts := PinCounts(Codes(Kept(s.elements)), models);
      |counts| == |Kept(s.elements)| && |counts| >= 2 && counts[0] == counts[1] == 2
  {
    var codes := Codes(Kept(s.elements));
    CodeAt(s, (0, 0));
    CodeAt(s, (1, 0));
    assert codes[0] == 1 && codes[1] == 1;
    assert CompIndex(codes, 0) == 0 && CompIndex(codes, 1) == 1;
  }

  /**
   * A net whose first endpoint names a pin its component does not have: the two pins that exist are on one net and
   * joined by the calls, and yet the engine attaches neither.
   */
  lemma BadHeadDropsNet(n: nat, calls1: seq<Call>, calls2: seq<Call>, p: int, models: seq<Option<nat>>, raw: seq<int>,
                        after: map<(int, int), Node>, hi: nat)
    requires n >= 2 && FitsCInt(p) && (p < 0 || p >= 2) && |models| >= 2 && models[0] == models[1] == Some(2)
    requires calls1 == AddCalls(n) + [ConnectRefs((0, p), (0, 0))] && calls2 == calls1 + [ConnectRefs((0, 0), (1, 0))]
    requires BuiltFrom(calls2, models, raw, after, hi)
    ensures var s := Run(calls2).0; var counts := PinCounts(Codes(Kept(s.elements)), models);
      && LivePin(s, (0, 0)) && LivePin(s, (1, 0)) && Fits(s, counts, (0, 0)) && Fits(s, counts, (1, 0))
      && s.owner[(0, 0)] == s.owner[(1, 0)] && JoinedByCalls(calls2)((0, 0), (1, 0))
      && EngineKey(s, (0, 0)) !in after && EngineKey(s, (1, 0)) !in after
  {
    AddRun(n);
    BadHeadRun(AddCalls(n), calls1, calls2, n, p);
    var s := Run(calls2).0;
    BadHeadCounts(s, models, p);
    BadHeadFits(s, PinCounts(Codes(Kept(s.elements)), models), p);
    NetsAreWhatCallsJoined(calls2, (0, 0), (1, 0), 0);
    NodesAreWhatCallsJoined(calls2, models, raw, after, hi, (0, 0), (1, 0));
    NodesAreWhatCallsJoined(calls2, models, raw, after, hi, (1, 0), (0, 0));
  }
}
