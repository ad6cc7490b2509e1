/** The flat property stream: written element by element in Python, read back by code in create_circuit. */
module PropertyStream {
  import opened Prelude
  import opened Parts
  import opened Netlist

  // ----- The two tables -----

  /** Properties per element code; None for codes a table does not know. */
  type Table = int -> Option<nat>

  /** Python's PROPERTY_ARITY. A code without an entry may carry any number of properties. */
  function Arity(code: int): (n: Option<nat>) {
    if code == 0 || code == 54 || code == 232 || code == 300 || code == 301 then Some(0)
    else if 201 <= code <= 212 || 220 <= code <= 228 then Some(0)
    else if 1 <= code <= 4 || code == 6 || 8 <= code <= 12 || code == 14 || code == 16 || code == 17 then Some(1)
    else if code == 200 || 229 <= code <= 231 then Some(1)
    else if code == 18 || code == 19 then Some(2)
    else if code == 5 || code == 7 || code == 15 || code == 52 || code == 53 then Some(3)
    else if code == 20 || code == 23 then Some(4)
    else if code == 21 || code == 50 || code == 51 || code == 233 then Some(5)
    else if code == 22 then Some(7)
    else if code == 13 then Some(9)
    else if code == 55 || code == 56 then Some(14)
    else None
  }

  /**
   * How far creating an element advances the engine's cursor; None where nothing is created and the circuit is
   * abandoned. Ground is skipped, and the Verilog elements 300 and 301 take their text from elsewhere.
   */
  function ReadCount(code: int): (n: Option<nat>) {
    match code
    case 0 => Some(0)
    case 5 => Some(3) case 7 => Some(3) case 13 => Some(9) case 15 => Some(3)
    case 18 => Some(2) case 19 => Some(2)
    case 20 => Some(4) case 21 => Some(5) case 22 => Some(7) case 23 => Some(4)
    case 50 => Some(5) case 51 => Some(5) case 52 => Some(3) case 53 => Some(3)
    case 54 => Some(0) case 55 => Some(13) case 56 => Some(13)
    case 200 => Some(1) case 229 => Some(1) case 230 => Some(1) case 231 => Some(1)
    case 232 => Some(0) case 233 => Some(5) case 300 => Some(0) case 301 => Some(0)
    case _ =>
      if 1 <= code <= 17 then Some(1)
      else if 201 <= code <= 212 || 220 <= code <= 228 then Some(0)
      else None
  }

  /** The codes by number of properties, and what the engine reads of them. */
  lemma CodesByArity(code: int)
    ensures Arity(code) == Some(0) <==>
      code in {0, 54, 201, 202, 203, 204, 205, 206, 207, 208, 209, 210, 211, 212,
               220, 221, 222, 223, 224, 225, 226, 227, 228, 232, 300, 301}
    ensures Arity(code) == Some(1) <==> code in {1, 2, 3, 4, 6, 8, 9, 10, 11, 12, 14, 16, 17, 200, 229, 230, 231}
    ensures Arity(code) == Some(2) <==> code in {18, 19}
    ensures Arity(code) == Some(3) <==> code in {5, 7, 15, 52, 53}
    ensures Arity(code) == Some(4) <==> code in {20, 23}
    ensures Arity(code) == Some(5) <==> code in {21, 50, 51, 233}
    ensures Arity(code) == Some(7) <==> code == 22
    ensures Arity(code) == Some(9) <==> code == 13
    ensures Arity(code) == Some(14) <==> code in {55, 56}
    ensures Arity(code).Some? ==> Arity(code).value in {0, 1, 2, 3, 4, 5, 7, 9, 14}
    ensures ReadCount(code) == if code in {55, 56} then Some(13) else Arity(code)
  {
  }

  predicate Bsim(code: int) {
    code == 55 || code == 56
  }

  /** The tables know the same codes and agree on all of them except 55 and 56, where the second is one less. */
  ghost predicate Agree(arity: Table, reader: Table) {
    forall code ::
      && (arity(code).Some? <==> reader(code).Some?)
      && (arity(code).Some? ==> arity(code).value == reader(code).value + if Bsim(code) then 1 else 0)
  }

  lemma TablesAgree()
    ensures Agree(Arity, ReadCount)
  {
    forall code
      ensures Arity(code).Some? <==> ReadCount(code).Some?
      ensures Arity(code).Some? ==> Arity(code).value == ReadCount(code).value + if Bsim(code) then 1 else 0
    {
    }
  }

  // ----- Validation and flattening (Python) -----

  predicate IsVerilog(code: int) {
    code == 300 || code == 301
  }

  predicate ElementOk(arity: Table, e: Element) {
    && (arity(e.code).Some? ==> |e.properties| == arity(e.code).value)
    && (IsVerilog(e.code) ==> e.source.Some? && e.source.value != "")
    && (!IsVerilog(e.code) ==> e.source.None? && e.top.None?)
  }

  predicate ValidElements(arity: Table, elements: seq<Element>) {
    elements != [] && forall i :: 0 <= i < |elements| ==> ElementOk(arity, elements[i])
  }

  method ValidateElements(arity: Table, elements: seq<Element>) returns (ok: bool)
    ensures ok <==> ValidElements(arity, elements)
  {
    if elements == [] { return false; }
    for i := 0 to |elements|
      invariant forall k :: 0 <= k < i ==> ElementOk(arity, elements[k])
    {
      var e := elements[i];
      var expected := arity(e.code);
      if expected.Some? && |e.properties| != expected.value { return false; }
      if IsVerilog(e.code) && (e.source.None? || e.source.value == "") { return false; }
      if !IsVerilog(e.code) && (e.source.Some? || e.top.Some?) { return false; }
    }
    return true;
  }

  /** What Python turns down, and nothing else: no elements, a wrong count, or Verilog text missing or out of place. */
  lemma TurnedDown(arity: Table, elements: seq<Element>)
    ensures !ValidElements(arity, elements) <==>
      || |elements| == 0
      || exists i :: 0 <= i < |elements| && var e := elements[i];
           || (arity(e.code).Some? && |e.properties| != arity(e.code).value)
           || (e.code in {300, 301} && (e.source == None || e.source == Some("")))
           || (e.code !in {300, 301} && (e.source != None || e.top != None))
  {
  }

  function SliceStart(elements: seq<Element>, i: nat): (p: nat)
    requires i <= |elements|
  {
    if i == 0 then 0 else SliceStart(elements, i - 1) + |elements[i - 1].properties|
  }

  function Flat(elements: seq<Element>, i: nat): (stream: seq<real>)
    requires i <= |elements|
    ensures |stream| == SliceStart(elements, i)
  {
    if i == 0 then [] else Flat(elements, i - 1) + elements[i - 1].properties
  }

  /** The array handed to the engine is never empty. */
  function Stream(elements: seq<Element>): (stream: seq<real>) {
    var flat := Flat(elements, |elements|);
    if flat == [] then [0.0] else flat
  }

  method FlattenProperties(elements: seq<Element>) returns (stream: seq<real>)
    ensures stream == Stream(elements)
  {
    stream := [];
    for i := 0 to |elements|
      invariant stream == Flat(elements, i)
    {
      stream := stream + elements[i].properties;
    }
    if stream == [] { stream := [0.0]; }
  }

  lemma {:induction false} FlatSlice(elements: seq<Element>, i: nat, n: nat)
    requires i < n <= |elements|
    ensures SliceStart(elements, i) + |elements[i].properties| <= SliceStart(elements, n)
    ensures Flat(elements, n)[SliceStart(elements, i)..][..|elements[i].properties|] == elements[i].properties
    decreases n
  {
    var a, m := SliceStart(elements, i), |elements[i].properties|;
    if i == n - 1 {
      assert Flat(elements, n)[a..] == elements[i].properties;
    } else {
      FlatSlice(elements, i, n - 1);
      var before := Flat(elements, n - 1);
      assert Flat(elements, n)[a..][..m] == before[a..][..m];
    }
  }

  /** Any leading part of an element's properties sits at its slice start in the stream. */
  lemma StreamSlice(elements: seq<Element>, i: nat, n: nat)
    requires i < |elements| && n <= |elements[i].properties|
    ensures var at := SliceStart(elements, i);
      at + n <= |Stream(elements)| && Stream(elements)[at..at + n] == elements[i].properties[..n]
  {
    var flat, at, m := Flat(elements, |elements|), SliceStart(elements, i), |elements[i].properties|;
    FlatSlice(elements, i, |elements|);
    assert flat[at..][..m][..n] == flat[at..at + n];
  }

  // ----- The reader (C++) -----

  datatype Component = Component(element: nat, code: int, values: seq<real>)

  function Reads(reader: Table, code: int): (n: nat) {
    if reader(code).Some? then reader(code).value else 0
  }

  /** Where the cursor stands when element i is reached. */
  function ReadPos(reader: Table, codes: seq<int>, i: nat): (p: nat)
    requires i <= |codes|
  {
    if i == 0 then 0 else ReadPos(reader, codes, i - 1) + if codes[i - 1] == 0 then 0 else Reads(reader, codes[i - 1])
  }

  lemma {:induction false} ReadPosMono(reader: Table, codes: seq<int>, i: nat, j: nat)
    requires i <= j <= |codes|
    ensures ReadPos(reader, codes, i) <= ReadPos(reader, codes, j)
    ensures i < j && codes[i] != 0 ==> ReadPos(reader, codes, i) + Reads(reader, codes[i]) <= ReadPos(reader, codes, j)
    decreases j
  {
    if i < j { ReadPosMono(reader, codes, i, j - 1); }
  }

  predicate Creatable(reader: Table, code: int) {
    code == GROUND || reader(code).Some?
  }

  /** What lies in memory from the properties pointer on; the engine does not know where the array ends. */
  type Memory = nat -> real

  function Window(memory: Memory, at: nat, n: nat): (values: seq<real>)
    ensures |values| == n && forall j :: 0 <= j < n ==> values[j] == memory(at + j)
  {
    seq(n, j requires 0 <= j < n => memory(at + j))
  }

  /** Element i is ground, or has become the component with its number, built from memory at the cursor. */
  predicate Built(reader: Table, codes: seq<int>, memory: Memory, made: seq<Component>, i: nat)
    requires i < |codes|
  {
    var c, at, n := CompIndex(codes, i), ReadPos(reader, codes, i), Reads(reader, codes[i]);
    codes[i] != 0 ==> c < |made| && made[c] == Component(i, codes[i], Window(memory, at, n))
  }

  /** The element loop of create_circuit: an element that cannot be created abandons the circuit. */
  method CreateComponents(reader: Table, codes: seq<int>, memory: Memory) returns (r: Option<seq<Component>>)
    ensures r.Some? <==> forall i :: 0 <= i < |codes| ==> Creatable(reader, codes[i])
    ensures r.Some? ==> |r.value| == CompIndex(codes, |codes|)
    ensures r.Some? ==> forall i :: 0 <= i < |codes| ==> Built(reader, codes, memory, r.value, i)
  {
    var made: seq<Component> := [];
    var cursor := 0;
    for i := 0 to |codes|
      invariant cursor == ReadPos(reader, codes, i) && |made| == CompIndex(codes, i)
      invariant forall k :: 0 <= k < i ==> Creatable(reader, codes[k])
      invariant forall k :: 0 <= k < i ==> Built(reader, codes, memory, made, k)
    {
      CountMono(codes, IsComponent, i, |codes|);
      if codes[i] != 0 {
        var n := reader(codes[i]);
        if n.None? { return None; }
        var next := Component(i, codes[i], Window(memory, cursor, n.value));
        forall k | 0 <= k < i ensures Built(reader, codes, memory, made + [next], k) {
          assert Built(reader, codes, memory, made, k);
        }
        made := made + [next];
        cursor := cursor + n.value;
      }
    }
    return Some(made);
  }

  // ----- Alignment -----

  /** Elements of code 55 or 56 before i. */
  function BsimBefore(elements: seq<Element>, i: nat): (n: nat)
    requires i <= |elements|
    ensures n == 0 <==> forall k :: 0 <= k < i ==> !Bsim(elements[k].code)
  {
    if i == 0 then 0 else BsimBefore(elements, i - 1) + if Bsim(elements[i - 1].code) then 1 else 0
  }

  /** A list Python accepts and the engine can create. */
  ghost predicate AcceptedList(elements: seq<Element>) {
    ValidElements(Arity, elements) && forall k :: 0 <= k < |elements| ==> Creatable(ReadCount, elements[k].code)
  }

  lemma {:induction false} Drift(arity: Table, reader: Table, elements: seq<Element>, i: nat)
    requires Agree(arity, reader) && arity(GROUND) == Some(0) && i <= |elements|
    requires forall k :: 0 <= k < i ==> ElementOk(arity, elements[k]) && Creatable(reader, elements[k].code)
    ensures ReadPos(reader, Codes(elements), i) + BsimBefore(elements, i) == SliceStart(elements, i)
  {
    if i > 0 { Drift(arity, reader, elements, i - 1); }
  }

  /**
   * The reader is behind its slice by one position per earlier BSIM element, so it is aligned exactly when there is
   * none; and it never runs past the stream.
   */
  lemma ReaderDrift(elements: seq<Element>, i: nat)
    requires AcceptedList(elements) && i <= |elements|
    ensures ReadPos(ReadCount, Codes(elements), i) + BsimBefore(elements, i) == SliceStart(elements, i)
    ensures ReadPos(ReadCount, Codes(elements), i) == SliceStart(elements, i) <==>
            forall k :: 0 <= k < i ==> !Bsim(elements[k].code)
    ensures ReadPos(ReadCount, Codes(elements), |elements|) <= |Stream(elements)|
  {
    TablesAgree();
    Drift(Arity, ReadCount, elements, i);
    Drift(Arity, ReadCount, elements, |elements|);
  }

  lemma PropertyCount(arity: Table, reader: Table, e: Element)
    requires Agree(arity, reader) && ElementOk(arity, e) && Creatable(reader, e.code) && e.code != GROUND
    ensures |e.properties| == Reads(reader, e.code) + if Bsim(e.code) then 1 else 0
  {
  }

  lemma AcceptedCount(elements: seq<Element>, i: nat)
    requires AcceptedList(elements) && i < |elements| && elements[i].code != GROUND
    ensures |elements[i].properties| == Reads(ReadCount, elements[i].code) + if Bsim(elements[i].code) then 1 else 0
  {
    TablesAgree();
    PropertyCount(Arity, ReadCount, elements[i]);
  }

  /** part is what stream holds from position at on. */
  predicate SliceOf(part: seq<real>, stream: seq<real>, at: int) {
    0 <= at && at + |part| <= |stream| && part == stream[at..at + |part|]
  }

  lemma SameSlice(a: seq<real>, b: seq<real>, stream: seq<real>, at: int)
    requires SliceOf(a, stream, at) && SliceOf(b, stream, at) && |a| == |b|
    ensures a == b
  {
  }

  lemma OwnValues(elements: seq<Element>, i: nat, values: seq<real>)
    requires i < |elements| && |values| <= |elements[i].properties|
    requires SliceOf(values, Stream(elements), SliceStart(elements, i))
    ensures values == elements[i].properties[..|values|]
  {
    StreamSlice(elements, i, |values|);
    SameSlice(values, elements[i].properties[..|values|], Stream(elements), SliceStart(elements, i));
  }

  /** The array at the properties pointer. */
  ghost predicate Holds(memory: Memory, stream: seq<real>) {
    forall j :: 0 <= j < |stream| ==> memory(j) == stream[j]
  }

  lemma BuiltPart(reader: Table, codes: seq<int>, memory: Memory, stream: seq<real>, made: seq<Component>, i: nat)
    requires i < |codes| && codes[i] != 0 && Built(reader, codes, memory, made, i)
    requires Holds(memory, stream) && ReadPos(reader, codes, |codes|) <= |stream|
    ensures CompIndex(codes, i) < |made| && |made[CompIndex(codes, i)].values| == Reads(reader, codes[i])
    ensures SliceOf(made[CompIndex(codes, i)].values, stream, ReadPos(reader, codes, i))
  {
    ReadPosMono(reader, codes, i, |codes|);
  }

  /**
   * What element i is built from: the stream from its own slice start, less one position per earlier BSIM element;
   * without those, its own properties (the first 13 of 14 for a BSIM element).
   */
  lemma ReadsOwnSlice(elements: seq<Element>, memory: Memory, i: nat, made: seq<Component>)
    requires AcceptedList(elements) && Holds(memory, Stream(elements)) && i < |elements| && elements[i].code != GROUND
    requires Built(ReadCount, Codes(elements), memory, made, i)
    ensures var values := made[CompIndex(Codes(elements), i)].values;
      && SliceOf(values, Stream(elements), SliceStart(elements, i) - BsimBefore(elements, i))
      && |elements[i].properties| == |values| + (if Bsim(elements[i].code) then 1 else 0)
      && (BsimBefore(elements, i) == 0 ==> values == elements[i].properties[..|values|])
  {
    ReaderDrift(elements, i);
    AcceptedCount(elements, i);
    BuiltPart(ReadCount, Codes(elements), memory, Stream(elements), made, i);
    if BsimBefore(elements, i) == 0 {
      OwnValues(elements, i, made[CompIndex(Codes(elements), i)].values);
    }
  }

  /** The drift shows: a resistor after a BSIM transistor is built from the transistor's last property. */
  lemma DriftIsVisible(elements: seq<Element>, memory: Memory, made: seq<Component>)
    requires AcceptedList(elements) && |elements| == 2 && Bsim(elements[0].code) && elements[1].code == 1
    requires Holds(memory, Stream(elements)) && Built(ReadCount, Codes(elements), memory, made, 1)
    ensures |elements[0].properties| == 14
    ensures made[CompIndex(Codes(elements), 1)].values == [elements[0].properties[13]]
  {
    ReadsOwnSlice(elements, memory, 1, made);
    StreamSlice(elements, 0, 14);
    assert BsimBefore(elements, 1) == 1;
    var stream := Stream(elements);
    assert stream[0..14][13] == stream[13];
  }
}
