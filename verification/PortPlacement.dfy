/** collect_groups and the element placer: one row per port group, one column per bit, over exact reals. */
module PortPlacement {
  import opened Prelude
  import opened Decimal

  datatype Direction = Input | Output
  datatype Port = Port(name: string, dir: Direction)

  datatype GroupLayout = GroupLayout(rowByBase: map<string, nat>, widthByBase: map<string, nat>, order: seq<string>)

  function BitOf(name: string): (bit: nat) {
    var idx := BitIndex(name, BaseName(name));
    if idx.Some? then idx.value else 0
  }

  /** The width one port asks for; the increment wraps at the word. */
  function WidthFor(name: string): (w: nat) {
    var idx := BitIndex(name, BaseName(name));
    if idx.Some? then (idx.value + 1) % WORD else 1
  }

  /** What grouping sees of a port: its group and the width it asks for. */
  datatype Ask = Ask(base: string, width: nat)

  function AskOf(p: Port): (a: Ask) {
    Ask(BaseName(p.name), WidthFor(p.name))
  }

  /** The ports of one direction among the first n, as asks. */
  function Asks(ports: seq<Port>, dir: Direction, n: nat): (asks: seq<Ask>)
    requires n <= |ports|
  {
    if n == 0 then [] else
    Asks(ports, dir, n - 1) + if ports[n - 1].dir == dir then [AskOf(ports[n - 1])] else []
  }

  /** The group of each port of the direction. */
  function Labels(ports: seq<Port>, dir: Direction): (labels: seq<Option<string>>)
    ensures |labels| == |ports|
  {
    seq(|ports|, i requires 0 <= i < |ports| => if ports[i].dir == dir then Some(BaseName(ports[i].name)) else None)
  }

  /** The labels among the first n, in order of first appearance. */
  function Order(labels: seq<Option<string>>, n: nat): (order: seq<string>)
    requires n <= |labels|
  {
    if n == 0 then [] else
    var before, next := Order(labels, n - 1), labels[n - 1];
    if next.None? || next.value in before then before else before + [next.value]
  }

  /** The groups are the bases asked for, once each; a group is as wide as the widest ask, at least 1. */
  ghost predicate Collected(asks: seq<Ask>, order: seq<string>, widths: map<string, nat>) {
    && (forall i, j :: 0 <= i < j < |order| ==> order[i] != order[j])
    && (forall b :: b in widths <==> b in order)
    && (forall k :: 0 <= k < |asks| ==> asks[k].base in widths && asks[k].width <= widths[asks[k].base])
    && (forall b :: b in widths ==> Asked(asks, b) && 1 <= widths[b] && (widths[b] == 1 || Ask(b, widths[b]) in asks))
  }

  ghost predicate Asked(asks: seq<Ask>, base: string) {
    exists k :: 0 <= k < |asks| && asks[k].base == base
  }

  /** Rows number the groups in order of first appearance. */
  ghost predicate IsGrouping(ports: seq<Port>, dir: Direction, g: GroupLayout) {
    && g.order == Order(Labels(ports, dir), |ports|)
    && Collected(Asks(ports, dir, |ports|), g.order, g.widthByBase)
    && (forall b :: b in g.rowByBase <==> b in g.order)
    && (forall i :: 0 <= i < |g.order| ==> g.rowByBase[g.order[i]] == i)
  }

  function Max(a: nat, b: nat): (m: nat) {
    if a < b then b else a
  }

  lemma CollectedStep(asks: seq<Ask>, ask: Ask, order: seq<string>, widths: map<string, nat>)
    requires Collected(asks, order, widths)
    ensures Collected(asks + [ask],
                      if ask.base in widths then order else order + [ask.base],
                      widths[ask.base := Max(if ask.base in widths then widths[ask.base] else 1, ask.width)])
  {
    var asks' := asks + [ask];
    assert asks'[|asks|] == ask;
    forall b | Asked(asks, b) ensures Asked(asks', b) {
      var k :| 0 <= k < |asks| && asks[k].base == b;
      assert asks'[k].base == b;
    }
    assert Asked(asks', ask.base);
  }

  lemma AsksStep(ports: seq<Port>, dir: Direction, n: nat)
    requires n < |ports|
    ensures Asks(ports, dir, n + 1) ==
      if ports[n].dir == dir then Asks(ports, dir, n) + [AskOf(ports[n])] else Asks(ports, dir, n)
  {
  }

  /** The groups of the first n ports. */
  ghost predicate Grouped(ports: seq<Port>, dir: Direction, n: nat, order: seq<string>, widths: map<string, nat>)
    requires n <= |ports|
  {
    Collected(Asks(ports, dir, n), order, widths) && order == Order(Labels(ports, dir), n)
  }

  lemma OrderStep(ports: seq<Port>, dir: Direction, n: nat)
    requires n < |ports|
    ensures var before, base := Order(Labels(ports, dir), n), BaseName(ports[n].name);
      Order(Labels(ports, dir), n + 1) == if ports[n].dir != dir || base in before then before else before + [base]
  {
  }

  lemma GroupedStep(ports: seq<Port>, dir: Direction, n: nat, order: seq<string>, widths: map<string, nat>)
    requires n < |ports| && Grouped(ports, dir, n, order, widths)
    ensures if ports[n].dir != dir then Grouped(ports, dir, n + 1, order, widths) else
      var base, width := BaseName(ports[n].name), WidthFor(ports[n].name);
      Grouped(ports, dir, n + 1, if base in widths then order else order + [base],
              widths[base := Max(if base in widths then widths[base] else 1, width)])
    ensures forall b :: b in widths ==> 1 <= widths[b]
  {
    AsksStep(ports, dir, n);
    OrderStep(ports, dir, n);
    CollectedStep(Asks(ports, dir, n), AskOf(ports[n]), order, widths);
  }

  method CollectGroups(ports: seq<Port>, dir: Direction) returns (g: GroupLayout)
    ensures IsGrouping(ports, dir, g)
  {
    var order: seq<string>, widths: map<string, nat> := [], map[];
    for n := 0 to |ports|
      invariant Grouped(ports, dir, n, order, widths)
    {
      GroupedStep(ports, dir, n, order, widths);
      if ports[n].dir != dir { continue; }
      order, widths := AddPort(ports[n].name, order, widths);
    }
    var rows := NumberRows(order);
    g := GroupLayout(rows, widths, order);
  }

  method AddPort(name: string, order: seq<string>, widths: map<string, nat>)
    returns (order': seq<string>, widths': map<string, nat>)
    requires forall b :: b in widths ==> 1 <= widths[b]
    ensures order' == if BaseName(name) in widths then order else order + [BaseName(name)]
    ensures var base := BaseName(name);
      widths' == widths[base := Max(if base in widths then widths[base] else 1, WidthFor(name))]
  {
    order', widths' := order, widths;
    var base := BaseName(name);
    if base !in widths {
      order' := order + [base];
      widths' := widths[base := 1];
    }
    var idx := ParseBitIndex(name, base);
    if idx.Some? {
      var w := widths'[base];
      widths' := widths'[base := Max(w, (idx.value + 1) % WORD)];
    }
    assert widths' == widths'[base := widths'[base]];
  }

  method NumberRows(order: seq<string>) returns (rows: map<string, nat>)
    requires forall i, j :: 0 <= i < j < |order| ==> order[i] != order[j]
    ensures forall b :: b in rows <==> b in order
    ensures forall i :: 0 <= i < |order| ==> rows[order[i]] == i
  {
    rows := map[];
    for i := 0 to |order|
      invariant forall b :: b in rows <==> b in order[..i]
      invariant forall k :: 0 <= k < i ==> rows[order[k]] == k
    {
      rows := rows[order[i] := i];
    }
    assert order[..|order|] == order;
  }

  lemma {:induction false} AskedFor(ports: seq<Port>, dir: Direction, k: nat, n: nat)
    requires k < n <= |ports| && ports[k].dir == dir
    ensures AskOf(ports[k]) in Asks(ports, dir, n)
    decreases n
  {
    if k < n - 1 { AskedFor(ports, dir, k, n - 1); }
  }

  lemma {:induction false} AskedBy(ports: seq<Port>, dir: Direction, a: Ask, n: nat) returns (k: nat)
    requires n <= |ports| && a in Asks(ports, dir, n)
    ensures k < n && ports[k].dir == dir && AskOf(ports[k]) == a
    decreases n
  {
    if a in Asks(ports, dir, n - 1) { k := AskedBy(ports, dir, a, n - 1); } else { k := n - 1; }
  }

  // ----- Positions -----

  function RowCenterY(row: nat, rows: nat, yMin: real, yMax: real): (y: real) {
    if rows <= 1 then 0.5 * (yMin + yMax)
    else yMax - (yMax - yMin) * (row as real / (rows - 1) as real)
  }

  /** Bit 0 on the right. The subtraction is on unsigned words, so it wraps when the bit is not below the width. */
  function ColumnX(bit: nat, width: nat, xMin: real, xMax: real): (x: real) {
    if width <= 1 then 0.5 * (xMin + xMax)
    else xMin + (xMax - xMin) * (((width - 1 - bit) % WORD) as real / (width - 1) as real)
  }

  ghost predicate IsPort(ports: seq<Port>, dir: Direction, k: nat) {
    k < |ports| && ports[k].dir == dir
  }

  lemma WidthOfBit(name: string)
    ensures WidthFor(name) < WORD && BitOf(name) < WORD
    ensures BitOf(name) != WORD - 1 ==> BitOf(name) < WidthFor(name)
  {
  }

  /** A port's bit is below its group's width exactly when its index is not the last word, which wraps to 0. */
  lemma BitBelowWidth(ports: seq<Port>, dir: Direction, g: GroupLayout, k: nat)
    requires IsGrouping(ports, dir, g) && k < |ports| && ports[k].dir == dir
    ensures BaseName(ports[k].name) in g.widthByBase && BaseName(ports[k].name) in g.rowByBase
    ensures BitOf(ports[k].name) < g.widthByBase[BaseName(ports[k].name)] <==> BitOf(ports[k].name) != WORD - 1
    ensures g.widthByBase[BaseName(ports[k].name)] < WORD
  {
    var asks := Asks(ports, dir, |ports|);
    AskedFor(ports, dir, k, |ports|);
    var i :| 0 <= i < |asks| && asks[i] == AskOf(ports[k]);
    WidthOfBit(ports[k].name);
    var w := g.widthByBase[asks[i].base];
    if w != 1 {
      var m := AskedBy(ports, dir, Ask(asks[i].base, w), |ports|);
      WidthOfBit(ports[m].name);
    }
  }

  /** The element placer for one direction, on the desk from -1 to 1. */
  function Place(g: GroupLayout, name: string, yMin: real, yMax: real): (p: Option<(real, real)>) {
    var base := BaseName(name);
    if base !in g.rowByBase then None else
    var rows := if |g.order| > 1 then |g.order| else 1;
    var width := if base in g.widthByBase then g.widthByBase[base] else 1;
    Some((ColumnX(BitOf(name), width, -1.0, 1.0), RowCenterY(g.rowByBase[base], rows, yMin, yMax)))
  }

  lemma FractionInjective(a: nat, b: nat, n: nat, lo: real, hi: real)
    requires n > 0 && lo != hi
    ensures (hi - lo) * (a as real / n as real) == (hi - lo) * (b as real / n as real) ==> a == b
  {
    var p, q, s := a as real / n as real, b as real / n as real, hi - lo;
    assert p * n as real == a as real && q * n as real == b as real;
    if s * p == s * q {
      assert s * (p - q) == 0.0;
      assert p == q;
    }
  }

  lemma RowsDistinct(a: nat, b: nat, rows: nat, yMin: real, yMax: real)
    requires yMin != yMax && a < rows && b < rows && a != b
    ensures RowCenterY(a, rows, yMin, yMax) != RowCenterY(b, rows, yMin, yMax)
  {
    FractionInjective(a, b, rows - 1, yMin, yMax);
  }

  /** Subtracting words from one word wraps at most once, so it tells them apart. */
  lemma WrapInjective(c: int, a: nat, b: nat)
    requires 0 <= c < WORD && a < WORD && b < WORD && a != b
    ensures (c - a) % WORD != (c - b) % WORD
  {
    WrapOnce(c - a);
    WrapOnce(c - b);
  }

  lemma WrapOnce(d: int)
    requires -WORD < d < WORD
    ensures d % WORD == if d < 0 then d + WORD else d
  {
  }

  lemma ColumnsDistinct(a: nat, b: nat, width: nat)
    requires 1 < width < WORD && a < WORD && b < WORD && a != b
    ensures ColumnX(a, width, -1.0, 1.0) != ColumnX(b, width, -1.0, 1.0)
  {
    WrapInjective(width - 1, a, b);
    FractionInjective((width - 1 - a) % WORD, (width - 1 - b) % WORD, width - 1, -1.0, 1.0);
  }

  predicate ZeroOrLast(bit: nat) {
    bit == 0 || bit == WORD - 1
  }

  /** Every port of the group has index 0, or the last word, whose increment wraps to 0. */
  ghost predicate OneColumn(ports: seq<Port>, dir: Direction, base: string) {
    forall m :: 0 <= m < |ports| && ports[m].dir == dir && BaseName(ports[m].name) == base ==>
      ZeroOrLast(BitOf(ports[m].name))
  }

  lemma WidthIsOne(ports: seq<Port>, dir: Direction, g: GroupLayout, base: string)
    requires IsGrouping(ports, dir, g) && base in g.widthByBase
    ensures g.widthByBase[base] == 1 <==> OneColumn(ports, dir, base)
  {
    var asks, w := Asks(ports, dir, |ports|), g.widthByBase[base];
    if w != 1 {
      var m := AskedBy(ports, dir, Ask(base, w), |ports|);
      WideBit(ports[m].name);
    }
    forall m | 0 <= m < |ports| && ports[m].dir == dir && BaseName(ports[m].name) == base
      ensures w == 1 ==> ZeroOrLast(BitOf(ports[m].name))
    {
      AskedFor(ports, dir, m, |ports|);
      WideBit(ports[m].name);
    }
  }

  lemma WideBit(name: string)
    ensures WidthFor(name) > 1 <==> !ZeroOrLast(BitOf(name))
  {
  }

  /**
   * Two ports of one direction land on one spot exactly when they are of one group and name one bit, or the whole group
   * names only the bits 0 and 2^64 - 1.
   */
  lemma PositionsShared(ports: seq<Port>, dir: Direction, g: GroupLayout, k: nat, l: nat, yMin: real, yMax: real)
    requires IsGrouping(ports, dir, g) && IsPort(ports, dir, k) && IsPort(ports, dir, l) && yMin != yMax
    ensures Place(g, ports[k].name, yMin, yMax).Some?
    ensures Place(g, ports[k].name, yMin, yMax) == Place(g, ports[l].name, yMin, yMax) <==>
      && BaseName(ports[k].name) == BaseName(ports[l].name)
      && (BitOf(ports[k].name) == BitOf(ports[l].name) || OneColumn(ports, dir, BaseName(ports[k].name)))
  {
    BitBelowWidth(ports, dir, g, k);
    BitBelowWidth(ports, dir, g, l);
    WidthOfBit(ports[k].name);
    WidthOfBit(ports[l].name);
    var a, b := BaseName(ports[k].name), BaseName(ports[l].name);
    WidthIsOne(ports, dir, g, a);
    var i :| 0 <= i < |g.order| && g.order[i] == a;
    var j :| 0 <= j < |g.order| && g.order[j] == b;
    if a != b {
      RowsDistinct(i, j, |g.order|, yMin, yMax);
    } else if BitOf(ports[k].name) != BitOf(ports[l].name) && g.widthByBase[a] != 1 {
      ColumnsDistinct(BitOf(ports[k].name), BitOf(ports[l].name), g.widthByBase[a]);
    }
  }

  /** Short of the last word as index, that is when they name the same bit of the same group. */
  lemma PositionsDistinct(ports: seq<Port>, dir: Direction, g: GroupLayout, k: nat, l: nat, yMin: real, yMax: real)
    requires IsGrouping(ports, dir, g) && IsPort(ports, dir, k) && IsPort(ports, dir, l) && yMin != yMax
    requires BitOf(ports[k].name) != WORD - 1 && BitOf(ports[l].name) != WORD - 1
    ensures Place(g, ports[k].name, yMin, yMax) == Place(g, ports[l].name, yMin, yMax) <==>
      BaseName(ports[k].name) == BaseName(ports[l].name) && BitOf(ports[k].name) == BitOf(ports[l].name)
  {
    PositionsShared(ports, dir, g, k, l, yMin, yMax);
    BitBelowWidth(ports, dir, g, k);
    BitBelowWidth(ports, dir, g, l);
  }

  /** Two ports of bits 0 and 2^64 - 1: the second asks for a width that wraps to 0, and both land on one spot. */
  lemma TwoCollide(x: string, y: string, dir: Direction, g: GroupLayout, yMin: real, yMax: real)
    requires BaseName(x) == BaseName(y) && BitOf(x) == 0 && BitOf(y) == WORD - 1
    requires IsGrouping([Port(x, dir), Port(y, dir)], dir, g) && yMin != yMax
    ensures Place(g, x, yMin, yMax).Some? && Place(g, x, yMin, yMax) == Place(g, y, yMin, yMax)
  {
    PositionsShared([Port(x, dir), Port(y, dir)], dir, g, 0, 1, yMin, yMax);
  }

  /** Such ports are a[0] and a[18446744073709551615], for any a. */
  lemma LastWordCollides(base: string, last: nat, dir: Direction, g: GroupLayout, yMin: real, yMax: real)
    requires '[' !in base && last == WORD - 1
    requires IsGrouping([Port(BitName(base, 0), dir), Port(BitName(base, last), dir)], dir, g) && yMin != yMax
    ensures BitName(base, 0) != BitName(base, last)
    ensures Place(g, BitName(base, 0), yMin, yMax).Some?
    ensures Place(g, BitName(base, 0), yMin, yMax) == Place(g, BitName(base, last), yMin, yMax)
  {
    BitNameRoundTrip(base, 0);
    BitNameRoundTrip(base, last);
    TwoCollide(BitName(base, 0), BitName(base, last), dir, g, yMin, yMax);
  }

  // ----- The reserved bands -----

  /** The y band of a direction: the top and bottom thirds less a gap when wires are drawn, else all but a sixteenth. */
  function BandMin(dir: Direction, wires: bool, gap: real): (y: real) {
    match dir
    case Input => if wires then 1.0 / 3.0 + gap else 1.0 / 16.0
    case Output => -1.0
  }

  function BandMax(dir: Direction, wires: bool, gap: real): (y: real) {
    match dir
    case Input => 1.0
    case Output => if wires then -1.0 / 3.0 - gap else -1.0 / 16.0
  }

  /** The rectangle handed to the automatic layout. */
  predicate InLayout(p: (real, real), wires: bool) {
    && -1.0 <= p.0 <= 1.0
    && if wires then -1.0 / 3.0 <= p.1 <= 1.0 / 3.0 else -1.0 <= p.1 <= 1.0
  }

  lemma RowBetween(row: nat, rows: nat, yMin: real, yMax: real, lo: real, hi: real)
    requires row < rows && lo <= yMin <= hi && lo <= yMax <= hi
    ensures lo <= RowCenterY(row, rows, yMin, yMax) <= hi
  {
    if rows > 1 {
      UnitFraction(row, rows - 1);
      Between(yMax, yMin, row as real / (rows - 1) as real, RowCenterY(row, rows, yMin, yMax));
    }
  }

  lemma UnitFraction(a: nat, n: nat)
    requires 0 < n && a <= n
    ensures 0.0 <= a as real / n as real <= 1.0
  {
    var t := a as real / n as real;
    assert t * n as real == a as real;
  }

  lemma ProductSign(x: real, y: real)
    requires x >= 0.0 && y >= 0.0
    ensures x * y >= 0.0
  {
  }

  /** The point v part of the way from a to b lies between them. */
  lemma Between(a: real, b: real, t: real, v: real)
    requires 0.0 <= t <= 1.0 && v == a - (a - b) * t
    ensures b <= a ==> b <= v <= a
    ensures a <= b ==> a <= v <= b
  {
    if b <= a {
      DownTo(a, b, t, v);
    } else {
      UpTo(a, b, t, v);
    }
  }

  lemma DownTo(a: real, b: real, t: real, v: real)
    requires 0.0 <= t <= 1.0 && v == a - (a - b) * t && b <= a
    ensures b <= v <= a
  {
    var d, rest := a - b, 1.0 - t;
    ProductSign(d, t);
    ProductSign(d, rest);
    assert d * rest == d - d * t;
  }

  lemma UpTo(a: real, b: real, t: real, v: real)
    requires 0.0 <= t <= 1.0 && v == a - (a - b) * t && a <= b
    ensures a <= v <= b
  {
    var d, rest := b - a, 1.0 - t;
    ProductSign(d, t);
    ProductSign(d, rest);
    assert d * rest == d - d * t;
    assert (a - b) * t == 0.0 - d * t;
  }

  /** With wires and any positive gap, no port lies in the layout rectangle. */
  lemma PortsStayOutside(ports: seq<Port>, dir: Direction, g: GroupLayout, name: string, gap: real)
    requires IsGrouping(ports, dir, g) && gap > 0.0
    ensures var p := Place(g, name, BandMin(dir, true, gap), BandMax(dir, true, gap));
      p.Some? ==> !InLayout(p.value, true)
  {
    var base := BaseName(name);
    if base in g.rowByBase {
      var i :| 0 <= i < |g.order| && g.order[i] == base;
      var lo, hi := BandMin(dir, true, gap), BandMax(dir, true, gap);
      if dir == Input {
        var least := if lo < 1.0 then lo else 1.0;
        RowBetween(i, |g.order|, lo, hi, least, if lo < 1.0 then 1.0 else lo);
      } else {
        var most := if hi > -1.0 then hi else -1.0;
        RowBetween(i, |g.order|, lo, hi, if hi > -1.0 then -1.0 else hi, most);
      }
    }
  }

  // ----- Where the ports are -----

  lemma ScaleOrder(s: real, p: real, q: real)
    requires s > 0.0
    ensures s * p < s * q <==> p < q
  {
    if p < q { ProductPositive(s, q - p); assert s * (q - p) == s * q - s * p; }
    if p > q { ProductPositive(s, p - q); assert s * (p - q) == s * p - s * q; }
  }

  lemma ProductPositive(x: real, y: real)
    requires x > 0.0 && y > 0.0
    ensures x * y > 0.0
  {
  }

  lemma FractionOrder(a: nat, b: nat, n: nat)
    requires n > 0
    ensures a as real / n as real < b as real / n as real <==> a < b
  {
    var p, q := a as real / n as real, b as real / n as real;
    assert p * n as real == a as real && q * n as real == b as real;
    ScaleOrder(n as real, p, q);
    assert n as real * p == a as real && n as real * q == b as real;
  }

  lemma WholeFraction(n: nat)
    requires n > 0
    ensures n as real / n as real == 1.0 && 0 as real / n as real == 0.0
  {
  }

  /** Lower bits are further right, within a group's width. */
  lemma ColumnOrder(a: nat, b: nat, width: nat)
    requires a < width < WORD && b < width
    ensures ColumnX(a, width, -1.0, 1.0) > ColumnX(b, width, -1.0, 1.0) <==> a < b
  {
    if width > 1 {
      WrapOnce(width - 1 - a);
      WrapOnce(width - 1 - b);
      FractionOrder(width - 1 - b, width - 1 - a, width - 1);
    }
  }

  /** Bit 0 is at the right edge and the highest bit at the left edge, or both in the middle of a group of width 1. */
  lemma ColumnEdges(width: nat)
    requires 0 < width < WORD
    ensures ColumnX(0, width, -1.0, 1.0) == if width == 1 then 0.0 else 1.0
    ensures ColumnX(width - 1, width, -1.0, 1.0) == if width == 1 then 0.0 else -1.0
  {
    if width > 1 {
      WrapOnce(width - 1);
      WholeFraction(width - 1);
    }
  }

  /** Neighbouring bits are evenly spaced. */
  lemma ColumnSpacing(bit: nat, width: nat)
    requires bit + 1 < width < WORD
    ensures ColumnX(bit, width, -1.0, 1.0) - ColumnX(bit + 1, width, -1.0, 1.0) == 2.0 / (width - 1) as real
  {
    WrapOnce(width - 1 - bit);
    WrapOnce(width - 2 - bit);
    FractionStep(width - 2 - bit, width - 1);
  }

  lemma FractionStep(a: nat, n: nat)
    requires n > 0
    ensures (a + 1) as real / n as real - a as real / n as real == 1.0 / n as real
    ensures 2.0 / n as real == 2.0 * (1.0 / n as real)
  {
    var p, q, u := (a + 1) as real / n as real, a as real / n as real, 1.0 / n as real;
    assert p * n as real == (a + 1) as real && q * n as real == a as real && u * n as real == 1.0;
    assert (p - q - u) * n as real == 0.0;
  }

  /** In one group, lower bits lie to the right of higher ones, and neighbours are 2 / (width - 1) apart. */
  lemma BitsRightToLeft(ports: seq<Port>, dir: Direction, g: GroupLayout, k: nat, l: nat, yMin: real, yMax: real)
    requires IsGrouping(ports, dir, g) && IsPort(ports, dir, k) && IsPort(ports, dir, l)
    requires BaseName(ports[k].name) == BaseName(ports[l].name)
    requires BitOf(ports[k].name) != WORD - 1 && BitOf(ports[l].name) != WORD - 1
    ensures var p, q := Place(g, ports[k].name, yMin, yMax), Place(g, ports[l].name, yMin, yMax);
      && p.Some? && q.Some? && p.value.1 == q.value.1
      && (p.value.0 > q.value.0 <==> BitOf(ports[k].name) < BitOf(ports[l].name))
    ensures BitOf(ports[l].name) == BitOf(ports[k].name) + 1 ==>
      && BaseName(ports[k].name) in g.widthByBase && g.widthByBase[BaseName(ports[k].name)] > 1
      && Place(g, ports[k].name, yMin, yMax).value.0 - Place(g, ports[l].name, yMin, yMax).value.0 ==
         2.0 / (g.widthByBase[BaseName(ports[k].name)] - 1) as real
  {
    BitBelowWidth(ports, dir, g, k);
    BitBelowWidth(ports, dir, g, l);
    var width := g.widthByBase[BaseName(ports[k].name)];
    ColumnOrder(BitOf(ports[k].name), BitOf(ports[l].name), width);
    if BitOf(ports[l].name) == BitOf(ports[k].name) + 1 { ColumnSpacing(BitOf(ports[k].name), width); }
  }

  /** Bit 0 of a group at least two wide is at x = 1 and its highest bit at -1; a group one wide is in the middle. */
  lemma BitsFillDesk(ports: seq<Port>, dir: Direction, g: GroupLayout, k: nat, yMin: real, yMax: real)
    requires IsGrouping(ports, dir, g) && IsPort(ports, dir, k) && BitOf(ports[k].name) != WORD - 1
    ensures var base, bit := BaseName(ports[k].name), BitOf(ports[k].name);
      && base in g.widthByBase && Place(g, ports[k].name, yMin, yMax).Some?
      && var width, x := g.widthByBase[base], Place(g, ports[k].name, yMin, yMax).value.0;
      && bit < width && (width == 1 ==> x == 0.0)
      && (width > 1 && bit == 0 ==> x == 1.0) && (width > 1 && bit == width - 1 ==> x == -1.0)
  {
    BitBelowWidth(ports, dir, g, k);
    var width := g.widthByBase[BaseName(ports[k].name)];
    ColumnEdges(width);
  }

  // ----- Rows -----

  lemma RowOrder(a: nat, b: nat, rows: nat, yMin: real, yMax: real)
    requires a < rows && b < rows && yMin < yMax
    ensures RowCenterY(a, rows, yMin, yMax) > RowCenterY(b, rows, yMin, yMax) <==> a < b
  {
    if rows > 1 {
      FractionOrder(a, b, rows - 1);
      ScaleOrder(yMax - yMin, a as real / (rows - 1) as real, b as real / (rows - 1) as real);
    }
  }

  lemma RowEdges(rows: nat, yMin: real, yMax: real)
    requires rows > 1
    ensures RowCenterY(0, rows, yMin, yMax) == yMax && RowCenterY(rows - 1, rows, yMin, yMax) == yMin
  {
    WholeFraction(rows - 1);
  }

  /** Label i is the first of its kind. */
  ghost predicate FirstLabel(labels: seq<Option<string>>, base: string, i: nat) {
    i < |labels| && labels[i] == Some(base) && forall j :: 0 <= j < i ==> labels[j] != Some(base)
  }

  lemma {:induction false} Ordered(labels: seq<Option<string>>, n: nat, base: string, i: nat)
    requires n <= |labels| && FirstLabel(labels, base, i)
    ensures base in Order(labels, n) <==> i < n
  {
    if n > 0 { Ordered(labels, n - 1, base, i); }
  }

  /** Labels are listed in the order their first ones appear in. */
  lemma {:induction false} OrderedByFirst(labels: seq<Option<string>>, n: nat, p: nat, q: nat, i: nat, j: nat)
    requires n <= |labels| && p < q < |Order(labels, n)|
    requires FirstLabel(labels, Order(labels, n)[p], i) && FirstLabel(labels, Order(labels, n)[q], j)
    ensures i < j
    decreases n
  {
    var before := Order(labels, n - 1);
    if q < |before| {
      OrderedByFirst(labels, n - 1, p, q, i, j);
    } else {
      assert before[p] in before;
      Ordered(labels, n - 1, before[p], i);
      Ordered(labels, n - 1, labels[n - 1].value, j);
    }
  }

  /** Port i is the first of its group. */
  ghost predicate IsFirst(ports: seq<Port>, dir: Direction, base: string, i: nat) {
    && i < |ports| && ports[i].dir == dir && BaseName(ports[i].name) == base
    && forall j :: 0 <= j < i && ports[j].dir == dir ==> BaseName(ports[j].name) != base
  }

  /** Rows follow the order in which the groups' first ports appear. */
  lemma RowsByFirst(ports: seq<Port>, dir: Direction, g: GroupLayout, a: string, b: string, i: nat, j: nat)
    requires IsGrouping(ports, dir, g) && IsFirst(ports, dir, a, i) && IsFirst(ports, dir, b, j)
    requires a in g.rowByBase && b in g.rowByBase
    ensures g.rowByBase[a] < |g.order| && g.rowByBase[b] < |g.order| && (g.rowByBase[a] < g.rowByBase[b] <==> i < j)
  {
    var labels := Labels(ports, dir);
    var m :| 0 <= m < |g.order| && g.order[m] == a;
    var n :| 0 <= n < |g.order| && g.order[n] == b;
    assert FirstLabel(labels, a, i) && FirstLabel(labels, b, j);
    if m < n { OrderedByFirst(labels, |ports|, m, n, i, j); }
    if n < m { OrderedByFirst(labels, |ports|, n, m, j, i); }
  }

  /** Groups of one direction lie top to bottom in the order their first ports appear in. */
  lemma GroupsTopDown(ports: seq<Port>, dir: Direction, g: GroupLayout, i: nat, j: nat, yMin: real, yMax: real)
    requires IsGrouping(ports, dir, g) && yMin < yMax
    requires i < |ports| && IsFirst(ports, dir, BaseName(ports[i].name), i)
    requires j < |ports| && IsFirst(ports, dir, BaseName(ports[j].name), j)
    ensures var p, q := Place(g, ports[i].name, yMin, yMax), Place(g, ports[j].name, yMin, yMax);
      p.Some? && q.Some? && (p.value.1 > q.value.1 <==> i < j)
  {
    var a, b := BaseName(ports[i].name), BaseName(ports[j].name);
    BitBelowWidth(ports, dir, g, i);
    BitBelowWidth(ports, dir, g, j);
    RowsByFirst(ports, dir, g, a, b, i, j);
    RowOrder(g.rowByBase[a], g.rowByBase[b], |g.order|, yMin, yMax);
  }

  /** The first group lies on the upper edge of its band and the last on the lower edge; one alone in the middle. */
  lemma GroupsFillBand(ports: seq<Port>, dir: Direction, g: GroupLayout, k: nat, wires: bool, gap: real)
    requires IsGrouping(ports, dir, g) && IsPort(ports, dir, k)
    ensures var p := Place(g, ports[k].name, BandMin(dir, wires, gap), BandMax(dir, wires, gap));
      var upper := if dir == Input then 1.0 else if wires then -1.0 / 3.0 - gap else -1.0 / 16.0;
      var lower := if dir == Output then -1.0 else if wires then 1.0 / 3.0 + gap else 1.0 / 16.0;
      && p.Some? && |g.order| > 0
      && (|g.order| == 1 ==> p.value.1 == 0.5 * (lower + upper))
      && (|g.order| > 1 && BaseName(ports[k].name) == g.order[0] ==> p.value.1 == upper)
      && (|g.order| > 1 && BaseName(ports[k].name) == g.order[|g.order| - 1] ==> p.value.1 == lower)
  {
    BitBelowWidth(ports, dir, g, k);
    if |g.order| > 1 { RowEdges(|g.order|, BandMin(dir, wires, gap), BandMax(dir, wires, gap)); }
  }

  lemma {:induction false} OrderedLabel(labels: seq<Option<string>>, n: nat, base: string) returns (i: nat)
    requires n <= |labels| && base in Order(labels, n)
    ensures i < n && labels[i] == Some(base)
  {
    if base in Order(labels, n - 1) { i := OrderedLabel(labels, n - 1, base); } else { i := n - 1; }
  }

  /** A name that shares its base with no port of the direction gets no place. */
  lemma NoPlaceForOthers(ports: seq<Port>, dir: Direction, g: GroupLayout, name: string, yMin: real, yMax: real)
    requires IsGrouping(ports, dir, g)
    requires forall k :: 0 <= k < |ports| && ports[k].dir == dir ==> BaseName(ports[k].name) != BaseName(name)
    ensures Place(g, name, yMin, yMax).None?
  {
    if BaseName(name) in g.rowByBase { var i := OrderedLabel(Labels(ports, dir), |ports|, BaseName(name)); }
  }

  /** Every input lies above every output, with wires and without. */
  lemma InputsAboveOutputs(ports: seq<Port>, inputs: GroupLayout, outputs: GroupLayout, k: nat, l: nat, wires: bool,
                           gap: real)
    requires IsGrouping(ports, Input, inputs) && IsGrouping(ports, Output, outputs) && gap >= 0.0
    requires IsPort(ports, Input, k) && IsPort(ports, Output, l)
    ensures var p := Place(inputs, ports[k].name, BandMin(Input, wires, gap), BandMax(Input, wires, gap));
      var q := Place(outputs, ports[l].name, BandMin(Output, wires, gap), BandMax(Output, wires, gap));
      p.Some? && q.Some? && p.value.1 > 0.0 > q.value.1
  {
    InputAbove(ports, inputs, k, wires, gap);
    OutputBelow(ports, outputs, l, wires, gap);
  }

  lemma InputAbove(ports: seq<Port>, g: GroupLayout, k: nat, wires: bool, gap: real)
    requires IsGrouping(ports, Input, g) && IsPort(ports, Input, k) && gap >= 0.0
    ensures var p := Place(g, ports[k].name, BandMin(Input, wires, gap), BandMax(Input, wires, gap));
      p.Some? && p.value.1 > 0.0
  {
    BitBelowWidth(ports, Input, g, k);
    var i :| 0 <= i < |g.order| && g.order[i] == BaseName(ports[k].name);
    var lo := BandMin(Input, wires, gap);
    RowBetween(i, |g.order|, lo, 1.0, 1.0 / 16.0, if lo < 1.0 then 1.0 else lo);
  }

  lemma OutputBelow(ports: seq<Port>, g: GroupLayout, k: nat, wires: bool, gap: real)
    requires IsGrouping(ports, Output, g) && IsPort(ports, Output, k) && gap >= 0.0
    ensures var p := Place(g, ports[k].name, BandMin(Output, wires, gap), BandMax(Output, wires, gap));
      p.Some? && p.value.1 < 0.0
  {
    BitBelowWidth(ports, Output, g, k);
    var i :| 0 <= i < |g.order| && g.order[i] == BaseName(ports[k].name);
    var hi := BandMax(Output, wires, gap);
    RowBetween(i, |g.order|, -1.0, hi, if hi > -1.0 then -1.0 else hi, -1.0 / 16.0);
  }
}
