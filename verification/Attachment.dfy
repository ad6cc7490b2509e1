/** What wiring does to components: create_circuit's element loop and build_netlist_from_wires together. */
module Attachment {
  import opened Prelude
  import opened Parts
  import opened Chains
  import opened Netlist
  import opened PropertyStream
  import opened SampleLayout

  // ----- The components -----

  /** The components are made for the elements that are not ground, one each, in order. */
  ghost predicate Creates(codes: seq<int>, made: seq<Component>) {
    && (forall c :: 0 <= c < |made| ==>
          made[c].element < |codes| && codes[made[c].element] != 0 && made[c].code == codes[made[c].element])
    && (forall c, d :: 0 <= c < d < |made| ==> made[c].element < made[d].element)
    && (forall e :: 0 <= e < |codes| && codes[e] != 0 ==> HasComponent(made, e))
  }

  ghost predicate HasComponent(made: seq<Component>, e: nat) {
    exists c :: 0 <= c < |made| && made[c].element == e
  }

  lemma {:induction false} NumberFrom(codes: seq<int>, n: nat, c: nat) returns (e: nat)
    requires n <= |codes| && c < CompIndex(codes, n)
    ensures e < n && codes[e] != 0 && CompIndex(codes, e) == c
    decreases n
  {
    if c < CompIndex(codes, n - 1) {
      e := NumberFrom(codes, n - 1, c);
    } else {
      e := n - 1;
    }
  }

  /** What CreateComponents promises. */
  ghost predicate AllBuilt(reader: Table, codes: seq<int>, memory: Memory, made: seq<Component>) {
    |made| == CompIndex(codes, |codes|) && forall i :: 0 <= i < |codes| ==> Built(reader, codes, memory, made, i)
  }

  lemma BuiltNumber(reader: Table, codes: seq<int>, memory: Memory, made: seq<Component>, e: nat)
    requires AllBuilt(reader, codes, memory, made) && e < |codes| && codes[e] != 0
    ensures var c := CompIndex(codes, e); c < |made| && made[c].element == e && made[c].code == codes[e]
  {
    assert Built(reader, codes, memory, made, e);
  }

  lemma BuiltFor(reader: Table, codes: seq<int>, memory: Memory, made: seq<Component>, c: nat) returns (e: nat)
    requires AllBuilt(reader, codes, memory, made) && c < |made|
    ensures e < |codes| && codes[e] != 0 && CompIndex(codes, e) == c && made[c].element == e && made[c].code == codes[e]
  {
    e := NumberFrom(codes, |codes|, c);
    BuiltNumber(reader, codes, memory, made, e);
  }

  lemma ComponentsInOrder(reader: Table, codes: seq<int>, memory: Memory, made: seq<Component>)
    requires AllBuilt(reader, codes, memory, made)
    ensures Creates(codes, made)
  {
    forall c | 0 <= c < |made|
      ensures made[c].element < |codes| && codes[made[c].element] != 0 && made[c].code == codes[made[c].element]
    {
      var e := BuiltFor(reader, codes, memory, made, c);
    }
    forall c, d | 0 <= c < d < |made| ensures made[c].element < made[d].element {
      var e := BuiltFor(reader, codes, memory, made, c);
      var f := BuiltFor(reader, codes, memory, made, d);
      if f <= e { CountMono(codes, IsComponent, f, e); }
    }
    forall e | 0 <= e < |codes| && codes[e] != 0 ensures HasComponent(made, e) {
      BuiltNumber(reader, codes, memory, made, e);
    }
  }

  // ----- Numbers and components -----

  lemma {:induction false} NoneBetween(codes: seq<int>, i: nat, j: nat)
    requires i <= j <= |codes| && forall e :: i <= e < j ==> codes[e] == 0
    ensures CompIndex(codes, i) == CompIndex(codes, j)
    decreases j
  {
    if i < j { NoneBetween(codes, i, j - 1); }
  }

  lemma GroundBetween(codes: seq<int>, made: seq<Component>, c: nat, e: nat)
    requires Creates(codes, made) && c < |made| && e < made[c].element && (c == 0 || made[c - 1].element < e)
    ensures codes[e] == 0
  {
    forall d | 0 <= d < |made| ensures made[d].element != e {
    }
    assert !HasComponent(made, e);
  }

  /** Component c is the one numbered c. */
  lemma {:induction false} OwnNumber(codes: seq<int>, made: seq<Component>, c: nat)
    requires Creates(codes, made) && c < |made|
    ensures CompIndex(codes, made[c].element) == c
  {
    var from := if c == 0 then 0 else made[c - 1].element + 1;
    forall e | from <= e < made[c].element ensures codes[e] == 0 {
      GroundBetween(codes, made, c, e);
    }
    NoneBetween(codes, from, made[c].element);
    if c > 0 { OwnNumber(codes, made, c - 1); }
  }

  /** A pin that component c's model has. */
  predicate ModelPin(models: seq<Option<nat>>, c: int, p: int) {
    0 <= c < |models| && models[c].Some? && 0 <= p < models[c].value
  }

  /** The pins of element e are those of its component's model; ground has none. */
  lemma PinsOfComponent(codes: seq<int>, models: seq<Option<nat>>, made: seq<Component>, c: nat, p: int)
    requires Creates(codes, made) && c < |made|
    ensures IsPin(PinCounts(codes, models), made[c].element, p) <==> ModelPin(models, c, p)
  {
    OwnNumber(codes, made, c);
  }

  lemma ComponentOfPin(codes: seq<int>, models: seq<Option<nat>>, made: seq<Component>, e: nat, p: int) returns (c: nat)
    requires Creates(codes, made) && IsPin(PinCounts(codes, models), e, p)
    ensures c < |made| && made[c].element == e && PinKey(codes, e, p) == (c, p)
  {
    assert HasComponent(made, e);
    c :| 0 <= c < |made| && made[c].element == e;
    OwnNumber(codes, made, c);
  }

  // ----- The theorem -----

  /** The point of component c's pin p. */
  function PinPoint(made: seq<Component>, c: int, p: int): (x: Point)
    requires 0 <= c < |made|
  {
    Pin(made[c].element, p)
  }

  /**
   * Pin p of component c is attached exactly when its model has the pin and an accepted wire touches pin p of the
   * element the component was made for; attached pins share a node exactly when a chain of wires joins those pins of
   * those elements, and sit on the ground node exactly when a chain joins them to ground.
   */
  ghost predicate ComponentsWired(models: seq<Option<nat>>, made: seq<Component>, links: set<(Point, Point)>,
                                  after: map<(int, int), Node>)
  {
    && (forall c, p :: (c, p) in after <==>
          0 <= c < |made| && ModelPin(models, c, p) && Used(links, PinPoint(made, c, p)))
    && (forall c, p :: (c, p) in after ==>
          (after[(c, p)] == GroundNode <==> Joined(links, PinPoint(made, c, p), Ground)))
    && (forall c, p, d, q :: (c, p) in after && (d, q) in after ==>
          (after[(c, p)] == after[(d, q)] <==> Joined(links, PinPoint(made, c, p), PinPoint(made, d, q))))
  }

  lemma AttachedComponent(codes: seq<int>, models: seq<Option<nat>>, made: seq<Component>, links: set<(Point, Point)>,
                          after: map<(int, int), Node>, hi: nat, c: int, p: int)
    requires Creates(codes, made) && Wired(codes, PinCounts(codes, models), links, map[], after, 0, hi)
    ensures (c, p) in after <==> 0 <= c < |made| && ModelPin(models, c, p) && Used(links, PinPoint(made, c, p))
    ensures (c, p) in after ==>
      IsPin(PinCounts(codes, models), made[c].element, p) && PinKey(codes, made[c].element, p) == (c, p)
  {
    var counts := PinCounts(codes, models);
    if (c, p) in after {
      var e := WiredPin(codes, counts, links, after, hi, (c, p));
      var d := ComponentOfPin(codes, models, made, e, p);
      PinsOfComponent(codes, models, made, c, p);
    }
    if 0 <= c < |made| && ModelPin(models, c, p) {
      PinsOfComponent(codes, models, made, c, p);
      var d := ComponentOfPin(codes, models, made, made[c].element, p);
      assert d == c;
      if !Used(links, PinPoint(made, c, p)) { assert Lookup(after, (c, p)) == None; }
    }
  }

  /** build_netlist_from_wires in terms of components: each pin lands on the component made for its own element. */
  lemma PinsOnOwnComponents(codes: seq<int>, models: seq<Option<nat>>, made: seq<Component>, links: set<(Point, Point)>,
                            after: map<(int, int), Node>, hi: nat)
    requires Creates(codes, made) && Wired(codes, PinCounts(codes, models), links, map[], after, 0, hi)
    ensures ComponentsWired(models, made, links, after)
  {
    forall c, p
      ensures (c, p) in after <==> 0 <= c < |made| && ModelPin(models, c, p) && Used(links, PinPoint(made, c, p))
      ensures (c, p) in after ==>
        IsPin(PinCounts(codes, models), made[c].element, p) && PinKey(codes, made[c].element, p) == (c, p)
    {
      AttachedComponent(codes, models, made, links, after, hi, c, p);
    }
  }

  /** The wire end (ele, pin) names point x. */
  predicate NamesPoint(codes: seq<int>, counts: seq<nat>, ele: int, pin: int, x: Point)
    requires |counts| == |codes|
  {
    && 0 <= ele < |codes|
    && match x
       case Ground => codes[ele] == 0
       case Pin(e, p) => codes[ele] != 0 && e == ele && p == pin && 0 <= pin < counts[ele]
  }

  ghost predicate WireNames(codes: seq<int>, counts: seq<nat>, wires: seq<int>, i: nat, x: Point, y: Point)
    requires |counts| == |codes| && 4 * i + 3 < |wires|
  {
    && NamesPoint(codes, counts, wires[4 * i], wires[4 * i + 1], x)
    && NamesPoint(codes, counts, wires[4 * i + 2], wires[4 * i + 3], y)
  }

  /** The links are the rows of the table whose two ends both name something, and nothing else. */
  lemma LinksAreRows(codes: seq<int>, counts: seq<nat>, wires: seq<int>, k: nat, x: Point, y: Point)
    requires |counts| == |codes| && 4 * k <= |wires|
    ensures (x, y) in Links(codes, counts, wires, k) <==>
            exists i :: 0 <= i < k && WireNames(codes, counts, wires, i, x, y)
  {
    if (x, y) in Links(codes, counts, wires, k) {
      var i :| 0 <= i < k && Accepted(codes, counts, wires, i) &&
        (FirstEnd(codes, counts, wires, i).value, SecondEnd(codes, counts, wires, i).value) == (x, y);
      assert WireNames(codes, counts, wires, i, x, y);
    }
    if i :| 0 <= i < k && WireNames(codes, counts, wires, i, x, y) {
      assert Accepted(codes, counts, wires, i);
      assert FirstEnd(codes, counts, wires, i) == Some(x) && SecondEnd(codes, counts, wires, i) == Some(y);
    }
  }

  /** What sample files under component c is filed under the element the component was made for. */
  lemma SampledComponent(codes: seq<int>, made: seq<Component>, c: nat)
    requires Creates(codes, made) && c < |made| && |made| == CompIndex(codes, |codes|)
    ensures NonGround(codes, |codes|)[c] == made[c].element
  {
    OwnNumber(codes, made, c);
    NonGroundAt(codes, made[c].element, |codes|);
  }
}
