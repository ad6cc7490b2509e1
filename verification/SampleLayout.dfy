/** Sampling: prefix-sum layout and flat buffers on the C++ side, slices by component on the Python side. */
module SampleLayout {
  import opened Prelude
  import opened Netlist

  datatype DigitalState = L | H | X | Z

  /** What sampling reads from a node: its voltage, whether any analog pin sits on it, and its digital state. */
  datatype NodeInfo = NodeInfo(voltage: real, analogPins: nat, state: DigitalState)

  /** A component's pins, each on a node or on none, and the currents of its branches. */
  datatype View = View(pins: seq<Option<NodeInfo>>, branches: seq<real>)

  /** A component whose model the engine cannot find contributes nothing. */
  type Components = seq<Option<View>>

  // ----- What a sample should hold -----

  function Voltage(pin: Option<NodeInfo>): (v: real) {
    if pin.Some? then pin.value.voltage else 0.0
  }

  function StateCode(s: DigitalState): (n: nat) {
    match s case L => 0 case H => 1 case X => 2 case Z => 3
  }

  /** The two digital encodings: true or not, and the four states with X for pins off a digital node. */
  datatype Encoding = Bit | FourState

  function Digital(enc: Encoding, pin: Option<NodeInfo>): (n: nat) {
    if pin.Some? && pin.value.analogPins == 0 then
      match enc
      case Bit => if pin.value.state == H then 1 else 0
      case FourState => StateCode(pin.value.state)
    else
      match enc case Bit => 0 case FourState => StateCode(X)
  }

  function PinsOf(c: Option<View>): (pins: seq<Option<NodeInfo>>) {
    if c.Some? then c.value.pins else []
  }

  function BranchesOf(c: Option<View>): (branches: seq<real>) {
    if c.Some? then c.value.branches else []
  }

  function Voltages(c: Option<View>): (r: seq<real>)
    ensures |r| == |PinsOf(c)|
  {
    seq(|PinsOf(c)|, j requires 0 <= j < |PinsOf(c)| => Voltage(PinsOf(c)[j]))
  }

  function Digitals(enc: Encoding, c: Option<View>): (r: seq<nat>)
    ensures |r| == |PinsOf(c)|
  {
    seq(|PinsOf(c)|, j requires 0 <= j < |PinsOf(c)| => Digital(enc, PinsOf(c)[j]))
  }

  // ----- Layout -----

  function Sizes(comps: Components): (r: (seq<nat>, seq<nat>))
    ensures |r.0| == |r.1| == |comps|
  {
    (seq(|comps|, i requires 0 <= i < |comps| => |PinsOf(comps[i])|),
     seq(|comps|, i requires 0 <= i < |comps| => |BranchesOf(comps[i])|))
  }

  ghost predicate PrefixTo(ord: seq<nat>, sizes: seq<nat>, n: nat) {
    n <= |sizes| && n < |ord| && forall i :: 0 <= i <= n ==> ord[i] == Base(sizes, i)
  }

  /** ord holds the prefix sums of the sizes, so the ranges ord[i]..ord[i + 1] tile 0..ord[n]. */
  ghost predicate Tiles(ord: seq<nat>, sizes: seq<nat>) {
    |ord| == |sizes| + 1 && PrefixTo(ord, sizes, |sizes|)
  }

  lemma PrefixStep(ord: seq<nat>, sizes: seq<nat>, i: nat, next: nat)
    requires PrefixTo(ord, sizes, i) && i < |sizes| && i + 1 < |ord| && next == ord[i] + sizes[i]
    ensures PrefixTo(ord[i + 1 := next], sizes, i + 1)
  {
  }

  /** Every cell of the buffer belongs to exactly one component's range. */
  lemma TilesPartition(ord: seq<nat>, sizes: seq<nat>, cell: nat) returns (owner: nat)
    requires Tiles(ord, sizes) && cell < ord[|sizes|]
    ensures owner < |sizes| && ord[owner] <= cell < ord[owner + 1] && ord[owner + 1] == ord[owner] + sizes[owner]
    ensures forall i :: 0 <= i < |sizes| && ord[i] <= cell < ord[i + 1] ==> i == owner
  {
    var p := SlotSurjective(sizes, |sizes|, cell);
    owner := p.ele;
    assert ord[owner] == Base(sizes, owner) && ord[owner + 1] == Base(sizes, owner + 1);
    forall i | 0 <= i < |sizes| && ord[i] <= cell < ord[i + 1] ensures i == owner {
      if i < owner { BaseMono(sizes, i + 1, owner); }
      if owner < i { BaseMono(sizes, owner + 1, i); }
    }
  }

  method Layout(comps: Components) returns (voltageOrd: seq<nat>, currentOrd: seq<nat>, digitalOrd: seq<nat>)
    ensures Tiles(voltageOrd, Sizes(comps).0) && Tiles(currentOrd, Sizes(comps).1) && Tiles(digitalOrd, Sizes(comps).0)
  {
    var n := |comps|;
    ghost var pins, branches := Sizes(comps).0, Sizes(comps).1;
    voltageOrd, currentOrd, digitalOrd := seq(n + 1, _ => 0), seq(n + 1, _ => 0), seq(n + 1, _ => 0);
    for i := 0 to n
      invariant |voltageOrd| == |currentOrd| == |digitalOrd| == n + 1
      invariant PrefixTo(voltageOrd, pins, i) && PrefixTo(currentOrd, branches, i) && PrefixTo(digitalOrd, pins, i)
    {
      var v := voltageOrd[i] + |PinsOf(comps[i])|;
      var c := currentOrd[i] + |BranchesOf(comps[i])|;
      var d := digitalOrd[i] + |PinsOf(comps[i])|;
      PrefixStep(voltageOrd, pins, i, v);
      PrefixStep(currentOrd, branches, i, c);
      PrefixStep(digitalOrd, pins, i, d);
      voltageOrd, currentOrd, digitalOrd := voltageOrd[i + 1 := v], currentOrd[i + 1 := c], digitalOrd[i + 1 := d];
    }
  }

  // ----- Sampling -----

  /** Component k's values sit in its range. */
  ghost predicate Holds<T>(buffer: seq<T>, at: nat, values: seq<T>) {
    at + |values| <= |buffer| && buffer[at..at + |values|] == values
  }

  function Stored<T>(buffer: seq<T>, at: nat, values: seq<T>): (r: seq<T>)
    requires at + |values| <= |buffer|
    ensures |r| == |buffer|
  {
    buffer[..at] + values + buffer[at + |values|..]
  }

  /** One component's values go to consecutive cells; the rest of the buffer is left alone. */
  method Store<T>(buffer: array<T>, at: nat, values: seq<T>)
    requires at + |values| <= buffer.Length
    modifies buffer
    ensures buffer[..] == Stored(old(buffer[..]), at, values)
  {
    ghost var before := buffer[..];
    for j := 0 to |values|
      invariant buffer[..] == Stored(before, at, values[..j])
    {
      assert before[at + j..] == [before[at + j]] + before[at + j + 1..];
      buffer[j + at] := values[j];
      assert values[..j + 1] == values[..j] + [values[j]];
    }
    assert values[..|values|] == values;
  }

  /** The first n components' values sit in their ranges. */
  ghost predicate HoldAll<T>(buffer: seq<T>, ord: seq<nat>, values: seq<seq<T>>, n: nat) {
    n <= |values| && n < |ord| && forall k :: 0 <= k < n ==> Holds(buffer, ord[k], values[k])
  }

  ghost predicate Sized<T>(values: seq<seq<T>>, sizes: seq<nat>) {
    |values| == |sizes| && forall i :: 0 <= i < |values| ==> |values[i]| == sizes[i]
  }

  lemma TilesOrder(ord: seq<nat>, sizes: seq<nat>, k: nat, i: nat)
    requires Tiles(ord, sizes) && k < i <= |sizes|
    ensures ord[k] + sizes[k] <= ord[i] <= ord[|sizes|]
  {
    BaseMono(sizes, k, i);
    BaseMono(sizes, i, |sizes|);
  }

  lemma StoreHolds<T>(buffer: seq<T>, at: nat, values: seq<T>)
    requires at + |values| <= |buffer|
    ensures Holds(Stored(buffer, at, values), at, values)
  {
  }

  /** Writing a later range keeps what an earlier one holds. */
  lemma StoreKeeps<T>(buffer: seq<T>, at: nat, values: seq<T>, at': nat, values': seq<T>)
    requires at + |values| <= |buffer| && at' + |values'| <= at && Holds(buffer, at', values')
    ensures Holds(Stored(buffer, at, values), at', values')
  {
    var after := Stored(buffer, at, values);
    assert after[at'..at' + |values'|] == buffer[at'..at' + |values'|];
  }

  /** Ranges before the i-th end where it begins, and the i-th fits a buffer of the given size. */
  ghost predicate InOrder<T>(ord: seq<nat>, values: seq<seq<T>>, i: nat, size: nat) {
    && i < |values| && |ord| == |values| + 1 && ord[i] + |values[i]| <= size
    && forall k :: 0 <= k < i ==> ord[k] + |values[k]| <= ord[i]
  }

  lemma TilesInOrder<T>(ord: seq<nat>, sizes: seq<nat>, values: seq<seq<T>>, i: nat, size: nat)
    requires Tiles(ord, sizes) && Sized(values, sizes) && i < |values| && ord[|sizes|] <= size
    ensures InOrder(ord, values, i, size)
  {
    TilesOrder(ord, sizes, i, |sizes|);
    forall k | 0 <= k < i ensures ord[k] + |values[k]| <= ord[i] {
      TilesOrder(ord, sizes, k, i);
    }
  }

  lemma StoreStep<T>(buffer: seq<T>, ord: seq<nat>, values: seq<seq<T>>, i: nat)
    requires InOrder(ord, values, i, |buffer|) && HoldAll(buffer, ord, values, i)
    ensures HoldAll(Stored(buffer, ord[i], values[i]), ord, values, i + 1)
  {
    StoreHolds(buffer, ord[i], values[i]);
    forall k | 0 <= k < i ensures Holds(Stored(buffer, ord[i], values[i]), ord[k], values[k]) {
      StoreKeeps(buffer, ord[i], values[i], ord[k], values[k]);
    }
  }

  function AllVoltages(comps: Components): (r: seq<seq<real>>) {
    seq(|comps|, i requires 0 <= i < |comps| => Voltages(comps[i]))
  }

  function AllBranches(comps: Components): (r: seq<seq<real>>) {
    seq(|comps|, i requires 0 <= i < |comps| => BranchesOf(comps[i]))
  }

  function AllDigitals(enc: Encoding, comps: Components): (r: seq<seq<nat>>) {
    seq(|comps|, i requires 0 <= i < |comps| => Digitals(enc, comps[i]))
  }

  /** circuit_sample, circuit_sample_u8 (both Bit) and circuit_sample_digital_state_u8 (FourState). */
  method FillBuffers(comps: Components, enc: Encoding, voltageOrd: seq<nat>, currentOrd: seq<nat>, digitalOrd: seq<nat>,
                     voltage: array<real>, current: array<real>, digital: array<nat>)
    requires Tiles(voltageOrd, Sizes(comps).0) && Tiles(currentOrd, Sizes(comps).1) && Tiles(digitalOrd, Sizes(comps).0)
    requires voltageOrd[|comps|] <= voltage.Length && currentOrd[|comps|] <= current.Length
    requires digitalOrd[|comps|] <= digital.Length && voltage != current
    modifies voltage, current, digital
    ensures HoldAll(voltage[..], voltageOrd, AllVoltages(comps), |comps|)
    ensures HoldAll(current[..], currentOrd, AllBranches(comps), |comps|)
    ensures HoldAll(digital[..], digitalOrd, AllDigitals(enc, comps), |comps|)
  {
    ghost var pins, branches := Sizes(comps).0, Sizes(comps).1;
    for i := 0 to |comps|
      invariant HoldAll(voltage[..], voltageOrd, AllVoltages(comps), i)
      invariant HoldAll(current[..], currentOrd, AllBranches(comps), i)
      invariant HoldAll(digital[..], digitalOrd, AllDigitals(enc, comps), i)
    {
      TilesInOrder(voltageOrd, pins, AllVoltages(comps), i, voltage.Length);
      TilesInOrder(currentOrd, branches, AllBranches(comps), i, current.Length);
      TilesInOrder(digitalOrd, pins, AllDigitals(enc, comps), i, digital.Length);
      StoreStep(voltage[..], voltageOrd, AllVoltages(comps), i);
      StoreStep(current[..], currentOrd, AllBranches(comps), i);
      StoreStep(digital[..], digitalOrd, AllDigitals(enc, comps), i);
      Store(voltage, voltageOrd[i], Voltages(comps[i]));
      Store(current, currentOrd[i], BranchesOf(comps[i]));
      Store(digital, digitalOrd[i], Digitals(enc, comps[i]));
    }
  }

  /** The 0/1 sampler is the 4-state sampler with H read as 1 and everything else as 0. */
  lemma BitIsFourStateHigh(c: Option<View>)
    ensures forall j :: 0 <= j < |Digitals(Bit, c)| ==>
      Digitals(Bit, c)[j] == if Digitals(FourState, c)[j] == StateCode(H) then 1 else 0
  {
  }

  // ----- The buffers, cell by cell -----

  /** What a voltage cell shows of a pin. */
  predicate ShowsVoltage(pin: Option<NodeInfo>, v: real) {
    match pin
    case Some(node) => v == node.voltage
    case None => v == 0.0
  }

  /** What a 4-state cell shows of a pin: 0 to 3 for L, H, X and Z on a node without analog pins, otherwise 2. */
  predicate ShowsState(pin: Option<NodeInfo>, d: nat) {
    match pin
    case Some(NodeInfo(_, 0, L)) => d == 0
    case Some(NodeInfo(_, 0, H)) => d == 1
    case Some(NodeInfo(_, 0, Z)) => d == 3
    case _ => d == 2
  }

  /** What a 0/1 cell shows of a pin: 1 for H on a node without analog pins, otherwise 0. */
  predicate ShowsBit(pin: Option<NodeInfo>, d: nat) {
    match pin
    case Some(NodeInfo(_, 0, H)) => d == 1
    case _ => d == 0
  }

  /** The layouts give each found component as many cells as it has pins and branches, and a missing one none. */
  lemma LayoutIs(comps: Components, voltageOrd: seq<nat>, currentOrd: seq<nat>, digitalOrd: seq<nat>, c: nat)
    requires Tiles(voltageOrd, Sizes(comps).0) && Tiles(currentOrd, Sizes(comps).1) && Tiles(digitalOrd, Sizes(comps).0)
    requires c < |comps|
    ensures voltageOrd[0] == currentOrd[0] == digitalOrd[0] == 0
    ensures match comps[c]
      case None =>
        && voltageOrd[c + 1] == voltageOrd[c] && currentOrd[c + 1] == currentOrd[c]
        && digitalOrd[c + 1] == digitalOrd[c]
      case Some(v) =>
        && voltageOrd[c + 1] == voltageOrd[c] + |v.pins| && currentOrd[c + 1] == currentOrd[c] + |v.branches|
        && digitalOrd[c + 1] == digitalOrd[c] + |v.pins|
  {
    LayoutStep(voltageOrd, Sizes(comps).0, c);
    LayoutStep(currentOrd, Sizes(comps).1, c);
    LayoutStep(digitalOrd, Sizes(comps).0, c);
  }

  lemma LayoutStep(ord: seq<nat>, sizes: seq<nat>, c: nat)
    requires Tiles(ord, sizes) && c < |sizes|
    ensures ord[0] == 0 && ord[c + 1] == ord[c] + sizes[c]
  {
    assert ord[0] == Base(sizes, 0) && ord[c] == Base(sizes, c) && ord[c + 1] == Base(sizes, c + 1);
  }

  /** Filled buffers show every pin and branch of every component in its own cell. */
  lemma BuffersShow(comps: Components, enc: Encoding, voltageOrd: seq<nat>, currentOrd: seq<nat>, digitalOrd: seq<nat>,
                    voltage: seq<real>, current: seq<real>, digital: seq<nat>, c: nat, v: View)
    requires HoldAll(voltage, voltageOrd, AllVoltages(comps), |comps|)
    requires HoldAll(current, currentOrd, AllBranches(comps), |comps|)
    requires HoldAll(digital, digitalOrd, AllDigitals(enc, comps), |comps|)
    requires c < |comps| && comps[c] == Some(v)
    ensures voltageOrd[c] + |v.pins| <= |voltage| && digitalOrd[c] + |v.pins| <= |digital|
    ensures forall j :: 0 <= j < |v.pins| ==> ShowsVoltage(v.pins[j], voltage[voltageOrd[c] + j])
    ensures forall j :: 0 <= j < |v.pins| ==>
      if enc == Bit then ShowsBit(v.pins[j], digital[digitalOrd[c] + j])
      else ShowsState(v.pins[j], digital[digitalOrd[c] + j])
    ensures currentOrd[c] + |v.branches| <= |current|
    ensures forall j :: 0 <= j < |v.branches| ==> current[currentOrd[c] + j] == v.branches[j]
  {
    HeldCells(voltage, voltageOrd[c], Voltages(comps[c]));
    HeldCells(current, currentOrd[c], BranchesOf(comps[c]));
    HeldCells(digital, digitalOrd[c], Digitals(enc, comps[c]));
    forall j | 0 <= j < |v.pins|
      ensures ShowsVoltage(v.pins[j], Voltages(comps[c])[j])
      ensures if enc == Bit then ShowsBit(v.pins[j], Digitals(enc, comps[c])[j])
              else ShowsState(v.pins[j], Digitals(enc, comps[c])[j])
    {
    }
  }

  lemma HeldCells<T>(buffer: seq<T>, at: nat, values: seq<T>)
    requires Holds(buffer, at, values)
    ensures at + |values| <= |buffer| && forall j :: 0 <= j < |values| ==> buffer[at + j] == values[j]
  {
    forall j | 0 <= j < |values| ensures buffer[at + j] == values[j] {
      assert buffer[at..at + |values|][j] == buffer[at + j];
    }
  }

  // ----- The Python side -----

  datatype ComponentSample =
    ComponentSample(component: nat, element: nat, voltages: seq<real>, currents: seq<real>, digital: seq<nat>)

  /** The elements that are not ground, in order. */
  function NonGround(codes: seq<int>, n: nat): (r: seq<nat>)
    requires n <= |codes|
    ensures |r| == CompIndex(codes, n)
  {
    if n == 0 then [] else NonGround(codes, n - 1) + if codes[n - 1] != 0 then [n - 1] else []
  }

  /** Component c belongs to the element that was numbered c when the engine created it. */
  lemma {:induction false} NonGroundAt(codes: seq<int>, e: nat, n: nat)
    requires e < n <= |codes| && codes[e] != 0
    ensures CompIndex(codes, e) < |NonGround(codes, n)| && NonGround(codes, n)[CompIndex(codes, e)] == e
    decreases n
  {
    if e < n - 1 { NonGroundAt(codes, e, n - 1); }
  }

  /** The range of component c is exactly its values. */
  ghost predicate RangeIs<T>(ord: seq<nat>, values: seq<seq<T>>, buffer: seq<T>, c: nat) {
    && c < |values| && c + 1 < |ord| && ord[c] <= ord[c + 1] <= |buffer|
    && buffer[ord[c]..ord[c + 1]] == values[c]
  }

  lemma RangesHold<T>(ord: seq<nat>, sizes: seq<nat>, values: seq<seq<T>>, buffer: seq<T>)
    requires Tiles(ord, sizes) && Sized(values, sizes) && HoldAll(buffer, ord, values, |values|)
    ensures forall c :: 0 <= c < |values| ==> RangeIs(ord, values, buffer, c)
  {
    forall c | 0 <= c < |values| ensures RangeIs(ord, values, buffer, c) {
      assert ord[c] == Base(sizes, c) && ord[c + 1] == Base(sizes, c + 1) && Holds(buffer, ord[c], values[c]);
    }
  }

  /** What sample should report. */
  function Expected(codes: seq<int>, comps: Components, c: nat): (s: ComponentSample)
    requires c < |comps| == CompIndex(codes, |codes|)
  {
    ComponentSample(c, NonGround(codes, |codes|)[c], Voltages(comps[c]), BranchesOf(comps[c]),
                    Digitals(FourState, comps[c]))
  }

  method Slice(codes: seq<int>, ghost comps: Components, voltageOrd: seq<nat>, currentOrd: seq<nat>,
               digitalOrd: seq<nat>, voltage: seq<real>, current: seq<real>, digital: seq<nat>)
    returns (samples: seq<ComponentSample>)
    requires |comps| == CompIndex(codes, |codes|)
    requires forall c :: 0 <= c < |comps| ==> RangeIs(voltageOrd, AllVoltages(comps), voltage, c)
    requires forall c :: 0 <= c < |comps| ==> RangeIs(currentOrd, AllBranches(comps), current, c)
    requires forall c :: 0 <= c < |comps| ==> RangeIs(digitalOrd, AllDigitals(FourState, comps), digital, c)
    ensures |samples| == |comps| && forall c :: 0 <= c < |comps| ==> samples[c] == Expected(codes, comps, c)
  {
    samples := [];
    var elements := NonGround(codes, |codes|);
    for c := 0 to |elements|
      invariant |samples| == c && forall k :: 0 <= k < c ==> samples[k] == Expected(codes, comps, k)
    {
      assert RangeIs(voltageOrd, AllVoltages(comps), voltage, c);
      assert RangeIs(currentOrd, AllBranches(comps), current, c);
      assert RangeIs(digitalOrd, AllDigitals(FourState, comps), digital, c);
      samples := samples + [ComponentSample(c, elements[c],
                                            voltage[voltageOrd[c]..voltageOrd[c + 1]],
                                            current[currentOrd[c]..currentOrd[c + 1]],
                                            digital[digitalOrd[c]..digitalOrd[c + 1]])];
    }
  }

  /** Circuit.sample. */
  method Sample(codes: seq<int>, comps: Components) returns (samples: seq<ComponentSample>)
    requires |comps| == CompIndex(codes, |codes|)
    ensures |samples| == |comps| && forall c :: 0 <= c < |comps| ==> samples[c] == Expected(codes, comps, c)
  {
    var voltageOrd, currentOrd, digitalOrd := Layout(comps);
    var n := |comps|;
    var voltage := new real[if voltageOrd[n] == 0 then 1 else voltageOrd[n]](_ => 0.0);
    var current := new real[if currentOrd[n] == 0 then 1 else currentOrd[n]](_ => 0.0);
    var digital := new nat[if digitalOrd[n] == 0 then 1 else digitalOrd[n]](_ => 0);
    FillBuffers(comps, FourState, voltageOrd, currentOrd, digitalOrd, voltage, current, digital);
    RangesHold(voltageOrd, Sizes(comps).0, AllVoltages(comps), voltage[..]);
    RangesHold(currentOrd, Sizes(comps).1, AllBranches(comps), current[..]);
    RangesHold(digitalOrd, Sizes(comps).0, AllDigitals(FourState, comps), digital[..]);
    samples := Slice(codes, comps, voltageOrd, currentOrd, digitalOrd, voltage[..], current[..], digital[..]);
  }

  /** The sample shows the component: its pins' voltages and states, its branches, and nothing for a missing model. */
  predicate ShowsComponent(view: Option<View>, s: ComponentSample) {
    match view
    case None => s.voltages == [] && s.currents == [] && s.digital == []
    case Some(v) =>
      && s.currents == v.branches && |s.voltages| == |s.digital| == |v.pins|
      && forall j :: 0 <= j < |v.pins| ==> ShowsVoltage(v.pins[j], s.voltages[j]) && ShowsState(v.pins[j], s.digital[j])
  }

  lemma ExpectedShows(codes: seq<int>, comps: Components, c: nat)
    requires c < |comps| == CompIndex(codes, |codes|)
    ensures Expected(codes, comps, c).component == c && ShowsComponent(comps[c], Expected(codes, comps, c))
  {
  }

  /** The round trip for one element: what sample reports under its index is what its own component shows. */
  lemma SampleOfElement(codes: seq<int>, comps: Components, samples: seq<ComponentSample>, e: nat)
    requires |comps| == CompIndex(codes, |codes|) == |samples| && e < |codes| && codes[e] != 0
    requires forall c :: 0 <= c < |comps| ==> samples[c] == Expected(codes, comps, c)
    ensures var c := CompIndex(codes, e);
      && c < |samples| && samples[c].element == e && samples[c].component == c
      && ShowsComponent(comps[c], samples[c])
    ensures forall c :: 0 <= c < |samples| && samples[c].element == e ==> c == CompIndex(codes, e)
  {
    NonGroundAt(codes, e, |codes|);
    ExpectedShows(codes, comps, CompIndex(codes, e));
    forall c | 0 <= c < |samples| && samples[c].element == e ensures c == CompIndex(codes, e) {
      NonGroundFrom(codes, |codes|, c);
    }
  }

  lemma {:induction false} NonGroundFrom(codes: seq<int>, n: nat, c: nat)
    requires n <= |codes| && c < |NonGround(codes, n)|
    ensures var e := NonGround(codes, n)[c]; e < n && codes[e] != 0 && CompIndex(codes, e) == c
    decreases n
  {
    if c < |NonGround(codes, n - 1)| { NonGroundFrom(codes, n - 1, c); }
  }
}
