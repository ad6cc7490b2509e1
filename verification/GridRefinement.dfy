/** refine_steps_to_fit_table, over exact reals: finer layout steps under a hard cap on grid cells. */
module GridRefinement {

  const MAX_CELLS := 2000000
  const SPAN_X := 2.0
  const WIDENINGS: nat := 256
  const SHRINKINGS: nat := 200
  const SLACK := 0.000000000001

  /** The layout region is the whole desk, or its middle third when wires are drawn. */
  function SpanY(wires: bool): (s: real)
    ensures 2.0 / 3.0 <= s <= 2.0
  {
    if wires then 2.0 / 3.0 else 2.0
  }

  function Cells(span: real, step: real): (n: int)
    requires step > 0.0
  {
    (span / step + SLACK).Floor + 1
  }

  function Capacity(x: real, y: real, wires: bool): (c: real) {
    if x > 0.0 && y > 0.0 then Cells(SPAN_X, x) as real * Cells(SpanY(wires), y) as real else 0.0
  }

  predicate GridOk(x: real, y: real, wires: bool) {
    && x > 0.0 && y > 0.0
    && var w, h := Cells(SPAN_X, x), Cells(SpanY(wires), y);
    && w > 0 && h > 0 && w <= MAX_CELLS / h
  }

  function Max(a: real, b: real): (m: real) {
    if a < b then b else a
  }

  /** The effective minimum step: up to k widenings by 2% until a square grid fits. */
  function Widened(e: real, wires: bool, k: nat): (r: real)
    decreases k
  {
    if k == 0 || GridOk(e, e, wires) then e else Widened(e * 1.02, wires, k - 1)
  }

  /** Up to k shrinkings by 5%, never below the minimum, until the target is reached or the grid would overflow. */
  function Shrunk(x: real, y: real, least: real, target: real, wires: bool, k: nat): (r: (real, real))
    decreases k
  {
    if k == 0 || Capacity(x, y, wires) >= target then (x, y) else
    var x', y' := Max(x * 0.95, least), Max(y * 0.95, least);
    if !GridOk(x', y', wires) then (x, y) else Shrunk(x', y', least, target, wires, k - 1)
  }

  /** The minimum step before widening: the caller's, or a default. */
  function FirstLeast(minStep: real): (e: real)
    ensures e > 0.0
  {
    Max(if minStep <= 0.0 then 0.001 else minStep, 0.000000001)
  }

  function LeastStep(minStep: real, wires: bool): (r: real) {
    Widened(FirstLeast(minStep), wires, WIDENINGS)
  }

  function Target(required: nat, fill: real): (t: real) {
    required as real * fill
  }

  /** The step the shrinking starts from: the caller's, or a safe one when that grid would overflow. */
  function Clamped(x: real, y: real, least: real, wires: bool): (r: (real, real)) {
    if GridOk(x, y, wires) then (x, y) else (Max(least, 0.000001), Max(least, 0.000001))
  }

  function Refined(required: nat, wires: bool, minStep: real, fill: real, x: real, y: real): (r: (real, real)) {
    if required == 0 || x <= 0.0 || y <= 0.0 then (x, y) else
    var least := LeastStep(minStep, wires);
    var (x', y') := Clamped(x, y, least, wires);
    Shrunk(x', y', least, Target(required, Max(fill, 1.0)), wires, SHRINKINGS)
  }

  class LayoutOptions {
    var stepX: real
    var stepY: real

    constructor (x: real, y: real)
      ensures stepX == x && stepY == y
    {
      stepX, stepY := x, y;
    }
  }

  method FindLeastStep(minStep: real, wires: bool) returns (least: real)
    ensures least == LeastStep(minStep, wires)
  {
    var min' := minStep;
    if min' <= 0.0 { min' := 0.001; }
    least := Max(min', 0.000000001);
    var guard := 0;
    while guard < WIDENINGS && !GridOk(least, least, wires)
      invariant guard <= WIDENINGS
      invariant Widened(least, wires, WIDENINGS - guard) == LeastStep(minStep, wires)
    {
      least := least * 1.02;
      guard := guard + 1;
    }
  }

  method ClampSteps(least: real, wires: bool, options: LayoutOptions)
    modifies options
    ensures (options.stepX, options.stepY) == Clamped(old(options.stepX), old(options.stepY), least, wires)
  {
    if !GridOk(options.stepX, options.stepY, wires) {
      var safe := Max(least, 0.000001);
      options.stepX := safe;
      options.stepY := safe;
    }
  }

  method ShrinkSteps(least: real, target: real, wires: bool, options: LayoutOptions)
    modifies options
    ensures (options.stepX, options.stepY) ==
            Shrunk(old(options.stepX), old(options.stepY), least, target, wires, SHRINKINGS)
  {
    var iter := 0;
    while iter < SHRINKINGS && Capacity(options.stepX, options.stepY, wires) < target
      invariant iter <= SHRINKINGS
      invariant Shrunk(options.stepX, options.stepY, least, target, wires, SHRINKINGS - iter) ==
                Shrunk(old(options.stepX), old(options.stepY), least, target, wires, SHRINKINGS)
    {
      var nextX, nextY := Max(options.stepX * 0.95, least), Max(options.stepY * 0.95, least);
      if !GridOk(nextX, nextY, wires) { break; }
      options.stepX, options.stepY := nextX, nextY;
      iter := iter + 1;
    }
  }

  method RefineSteps(required: nat, wires: bool, minStep: real, fill: real, options: LayoutOptions)
    modifies options
    ensures (options.stepX, options.stepY) ==
            Refined(required, wires, minStep, fill, old(options.stepX), old(options.stepY))
  {
    if required == 0 { return; }
    if options.stepX <= 0.0 || options.stepY <= 0.0 { return; }
    var fill' := fill;
    if fill' < 1.0 { fill' := 1.0; }
    var least := FindLeastStep(minStep, wires);
    ClampSteps(least, wires, options);
    ShrinkSteps(least, Target(required, fill'), wires, options);
  }

  // ----- Coarser grids have fewer cells -----

  lemma QuotientFalls(span: real, a: real, b: real)
    requires span > 0.0 && 0.0 < a <= b
    ensures 0.0 < span / b <= span / a
  {
    var p, q := span / a, span / b;
    assert p * a == span && q * b == span;
    if p < q { assert p * a < q * a <= q * b; }
  }

  lemma CellsFall(span: real, a: real, b: real)
    requires span > 0.0 && 0.0 < a <= b
    ensures 1 <= Cells(span, b) <= Cells(span, a)
  {
    QuotientFalls(span, a, b);
  }

  lemma QuotientBound(w: int, h: int)
    requires w > 0 && h > 0
    ensures w <= MAX_CELLS / h <==> w * h <= MAX_CELLS
  {
    var q := MAX_CELLS / h;
    assert q * h <= MAX_CELLS < q * h + h;
    if w <= q { assert w * h <= q * h; } else { assert w * h >= (q + 1) * h; }
  }

  /** The cap as a product: the grid fits exactly when it has at most 2,000,000 cells. */
  lemma GridOkIsCellCount(x: real, y: real, wires: bool)
    requires x > 0.0 && y > 0.0
    ensures GridOk(x, y, wires) <==> Cells(SPAN_X, x) * Cells(SpanY(wires), y) <= MAX_CELLS
  {
    CellsFall(SPAN_X, x, x);
    CellsFall(SpanY(wires), y, y);
    QuotientBound(Cells(SPAN_X, x), Cells(SpanY(wires), y));
  }

  lemma ProductMono(a: nat, b: nat, c: nat, d: nat)
    requires a <= b && c <= d
    ensures a * c <= b * d
  {
    assert a * c <= b * c <= b * d;
  }

  lemma GridOkMono(x: real, y: real, x': real, y': real, wires: bool)
    requires GridOk(x, y, wires) && x <= x' && y <= y'
    ensures GridOk(x', y', wires)
  {
    GridOkIsCellCount(x, y, wires);
    GridOkIsCellCount(x', y', wires);
    CellsFall(SPAN_X, x, x');
    CellsFall(SpanY(wires), y, y');
    ProductMono(Cells(SPAN_X, x'), Cells(SPAN_X, x), Cells(SpanY(wires), y'), Cells(SpanY(wires), y));
  }

  /** Once the minimum step fits, the early break of the shrinking loop is dead. */
  lemma BreakIsDead(x: real, y: real, least: real, wires: bool)
    requires GridOk(least, least, wires)
    ensures GridOk(Max(x * 0.95, least), Max(y * 0.95, least), wires)
  {
    GridOkMono(least, least, Max(x * 0.95, least), Max(y * 0.95, least), wires);
  }

  // ----- Powers -----

  function Pow(b: real, n: nat): (p: real) {
    if n == 0 then 1.0 else b * Pow(b, n - 1)
  }

  lemma {:induction false} PowAdd(b: real, m: nat, n: nat)
    ensures Pow(b, m + n) == Pow(b, m) * Pow(b, n)
  {
    if m > 0 {
      PowAdd(b, m - 1, n);
      assert b * (Pow(b, m - 1) * Pow(b, n)) == (b * Pow(b, m - 1)) * Pow(b, n);
    }
  }

  lemma SquareAbove(p: real, lo: real, lo': real)
    requires 0.0 < lo <= p && 0.0 < lo' <= lo * lo
    ensures lo' <= p * p
  {
    assert lo * lo <= p * lo <= p * p;
  }

  lemma ProductBelow(p: real, q: real, hi: real, hi': real)
    requires 0.0 <= p <= hi && 0.0 <= q <= hi'
    ensures p * q <= hi * hi'
  {
    assert p * q <= hi * q <= hi * hi';
  }

  lemma {:induction false} PowPositive(b: real, n: nat)
    requires b > 0.0
    ensures Pow(b, n) > 0.0
  {
    if n > 0 { PowPositive(b, n - 1); }
  }

  lemma PowDoubleAbove(b: real, n: nat, lo: real, lo': real)
    requires 0.0 < lo <= Pow(b, n) && 0.0 < lo' <= lo * lo
    ensures lo' <= Pow(b, 2 * n)
  {
    PowAdd(b, n, n);
    SquareAbove(Pow(b, n), lo, lo');
  }

  lemma PowSumBelow(b: real, m: nat, n: nat, hi: real, hi': real, both: real)
    requires 0.0 < b && Pow(b, m) <= hi && Pow(b, n) <= hi' && hi * hi' <= both
    ensures Pow(b, m + n) <= both
  {
    PowPositive(b, m);
    PowPositive(b, n);
    PowAdd(b, m, n);
    ProductBelow(Pow(b, m), Pow(b, n), hi, hi');
  }

  /** 256 widenings by 2% multiply the step by more than 150. */
  lemma WideningPower(b: real)
    requires b == 1.02
    ensures Pow(b, 256) >= 150.0
  {
    assert Pow(b, 1) == b * Pow(b, 0);
    PowDoubleAbove(b, 1, 1.02, 1.0404);
    PowDoubleAbove(b, 2, 1.0404, 1.0824);
    PowDoubleAbove(b, 4, 1.0824, 1.1715);
    PowDoubleAbove(b, 8, 1.1715, 1.3724);
    PowDoubleAbove(b, 16, 1.3724, 1.8834);
    PowDoubleAbove(b, 32, 1.8834, 3.547);
    PowDoubleAbove(b, 64, 3.547, 12.58);
    PowDoubleAbove(b, 128, 12.58, 158.0);
  }

  lemma ShrinkingPowers(b: real)
    requires b == 0.95
    ensures Pow(b, 8) <= 0.6636 && Pow(b, 64) <= 0.0377
  {
    assert Pow(b, 1) == b * Pow(b, 0);
    PowSumBelow(b, 1, 1, 0.95, 0.95, 0.9025);
    PowSumBelow(b, 2, 2, 0.9025, 0.9025, 0.8146);
    PowSumBelow(b, 4, 4, 0.8146, 0.8146, 0.6636);
    PowSumBelow(b, 8, 8, 0.6636, 0.6636, 0.4404);
    PowSumBelow(b, 16, 16, 0.4404, 0.4404, 0.194);
    PowSumBelow(b, 32, 32, 0.194, 0.194, 0.0377);
  }

  /** 200 shrinkings by 5% bring a step of 10 below 0.0008. */
  lemma ShrinkingPower(b: real)
    requires b == 0.95
    ensures 10.0 * Pow(b, 200) <= 0.0008
  {
    ShrinkingPowers(b);
    PowSumBelow(b, 64, 64, 0.0377, 0.0377, 0.00143);
    PowSumBelow(b, 64, 8, 0.0377, 0.6636, 0.0251);
    PowSumBelow(b, 128, 72, 0.00143, 0.0251, 0.000036);
  }

  // ----- Repeated steps -----

  /** Step c after i shrinkings by 5%. */
  function Less(c: real, i: nat): (r: real) {
    if i == 0 then c else Less(c, i - 1) * 0.95
  }

  /** Step e after i widenings by 2%. */
  function More(e: real, i: nat): (r: real) {
    if i == 0 then e else More(e, i - 1) * 1.02
  }

  lemma {:induction false} LessIsPower(c: real, i: nat)
    ensures Less(c, i) == c * Pow(0.95, i)
  {
    if i > 0 {
      LessIsPower(c, i - 1);
      var p := Pow(0.95, i - 1);
      assert (c * p) * 0.95 == c * (0.95 * p);
    }
  }

  lemma {:induction false} MoreIsPower(e: real, i: nat)
    ensures More(e, i) == e * Pow(1.02, i)
  {
    if i > 0 {
      MoreIsPower(e, i - 1);
      var p := Pow(1.02, i - 1);
      assert (e * p) * 1.02 == e * (1.02 * p);
    }
  }

  lemma {:induction false} MorePositive(e: real, i: nat)
    requires e > 0.0
    ensures More(e, i) > 0.0
  {
    if i > 0 { MorePositive(e, i - 1); }
  }

  lemma {:induction false} LessShift(c: real, i: nat)
    ensures Less(c * 0.95, i) == Less(c, i + 1)
  {
    if i > 0 { LessShift(c, i - 1); }
  }

  lemma {:induction false} MoreShift(e: real, i: nat)
    ensures More(e * 1.02, i) == More(e, i + 1)
  {
    if i > 0 { MoreShift(e, i - 1); }
  }

  // ----- The minimum step -----

  lemma {:induction false} WidenedBelowWidest(e: real, wires: bool, k: nat)
    requires e > 0.0
    ensures e <= Widened(e, wires, k) <= More(e, k)
    ensures GridOk(Widened(e, wires, k), Widened(e, wires, k), wires) || Widened(e, wires, k) == More(e, k)
    decreases k
  {
    WidestGrows(e, k);
    if k > 0 && !GridOk(e, e, wires) {
      WidenedBelowWidest(e * 1.02, wires, k - 1);
      MoreShift(e, k - 1);
    }
  }

  lemma {:induction false} WidestGrows(e: real, k: nat)
    requires e > 0.0
    ensures e <= More(e, k)
    decreases k
  {
    if k > 0 { WidestGrows(e, k - 1); }
  }

  lemma FitsAtTheTop(a: real, top: real, wires: bool)
    requires 0.0 < a <= top && (GridOk(a, a, wires) || a == top)
    ensures GridOk(a, a, wires) <==> GridOk(top, top, wires)
  {
    if GridOk(a, a, wires) { GridOkMono(a, a, top, top, wires); }
  }

  /** The widened step fits exactly when the largest step the widenings can reach fits. */
  lemma LeastFitsIff(e: real, wires: bool, k: nat)
    requires e > 0.0
    ensures GridOk(Widened(e, wires, k), Widened(e, wires, k), wires) <==> GridOk(More(e, k), More(e, k), wires)
  {
    WidenedBelowWidest(e, wires, k);
    FitsAtTheTop(Widened(e, wires, k), More(e, k), wires);
  }

  /** Cells for a step of at least 0.0015, and for one below 0.0008. */
  lemma CellBounds(step: real, wires: bool)
    requires step > 0.0
    ensures step >= 0.0015 ==> Cells(SPAN_X, step) <= 1334 && Cells(SpanY(wires), step) <= 1334
    ensures step < 0.0008 ==> Cells(SPAN_X, step) >= 2501 && Cells(SpanY(wires), step) >= 834
  {
    if step >= 0.0015 {
      QuotientFalls(SPAN_X, 0.0015, step);
      QuotientFalls(SpanY(wires), 0.0015, step);
    }
    if step < 0.0008 {
      QuotientFalls(SPAN_X, step, 0.0008);
      QuotientFalls(SpanY(wires), step, 0.0008);
    }
  }

  lemma StepBounds(step: real, wires: bool)
    requires step > 0.0
    ensures step >= 0.0015 ==> GridOk(step, step, wires)
    ensures GridOk(step, step, wires) ==> step >= 0.0008
  {
    CellBounds(step, wires);
    CellsFall(SPAN_X, step, step);
    CellsFall(SpanY(wires), step, step);
    GridOkIsCellCount(step, step, wires);
    var w, h := Cells(SPAN_X, step), Cells(SpanY(wires), step);
    if step >= 0.0015 { ProductMono(w, 1334, h, 1334); }
    if step < 0.0008 { ProductMono(2501, w, 834, h); }
  }

  lemma WidestIsLarge(e: real)
    requires e >= 0.00001
    ensures More(e, WIDENINGS) >= 0.0015
  {
    var p := Pow(1.02, WIDENINGS);
    WideningPower(1.02);
    MoreIsPower(e, WIDENINGS);
    ProductBelow(0.00001, 150.0, e, p);
  }

  /** From a minimum step of 0.00001 or more, and from the default, a fitting minimum is always found. */
  lemma LeastStepFits(minStep: real, wires: bool)
    requires minStep <= 0.0 || minStep >= 0.00001
    ensures GridOk(LeastStep(minStep, wires), LeastStep(minStep, wires), wires)
  {
    var e := FirstLeast(minStep);
    WidestIsLarge(e);
    StepBounds(More(e, WIDENINGS), wires);
    LeastFitsIff(e, wires, WIDENINGS);
  }

  // ----- The outcome -----

  lemma {:induction false} ShrunkFits(x: real, y: real, least: real, target: real, wires: bool, k: nat)
    requires x > 0.0 && y > 0.0
    ensures var (x', y') := Shrunk(x, y, least, target, wires, k);
      x' > 0.0 && y' > 0.0 && ((x', y') == (x, y) || GridOk(x', y', wires))
    decreases k
  {
    if k > 0 && Capacity(x, y, wires) < target {
      var nx, ny := Max(x * 0.95, least), Max(y * 0.95, least);
      if GridOk(nx, ny, wires) { ShrunkFits(nx, ny, least, target, wires, k - 1); }
    }
  }

  /** The step the clamp falls back on when every widening has been used. */
  function LastResort(minStep: real): (r: real) {
    Max(More(FirstLeast(minStep), WIDENINGS), 0.000001)
  }

  lemma SafeFitsIff(minStep: real, wires: bool)
    ensures var safe := Max(LeastStep(minStep, wires), 0.000001);
      GridOk(safe, safe, wires) <==> GridOk(LastResort(minStep), LastResort(minStep), wires)
  {
    var e := FirstLeast(minStep);
    var least, top := LeastStep(minStep, wires), More(e, WIDENINGS);
    WidenedBelowWidest(e, wires, WIDENINGS);
    var safe := Max(least, 0.000001);
    if GridOk(least, least, wires) { GridOkMono(least, least, safe, safe, wires); }
    FitsAtTheTop(safe, Max(top, 0.000001), wires);
  }

  lemma ShrunkStuck(x: real, least: real, target: real, wires: bool, k: nat)
    requires 0.0 < least <= x && !GridOk(x, x, wires)
    ensures Shrunk(x, x, least, target, wires, k) == (x, x)
  {
    var next := Max(x * 0.95, least);
    if GridOk(next, next, wires) { GridOkMono(next, next, x, x, wires); }
  }

  /** The refined grid respects the cap exactly when the caller's steps do or the last-resort step does. */
  lemma RefinedFitsIff(required: nat, wires: bool, minStep: real, fill: real, x: real, y: real)
    requires required > 0 && x > 0.0 && y > 0.0
    ensures var (x', y') := Refined(required, wires, minStep, fill, x, y);
      && x' > 0.0 && y' > 0.0
      && (Cells(SPAN_X, x') * Cells(SpanY(wires), y') <= MAX_CELLS <==>
          GridOk(x, y, wires) || GridOk(LastResort(minStep), LastResort(minStep), wires))
  {
    var least := LeastStep(minStep, wires);
    var target := Target(required, Max(fill, 1.0));
    SafeFitsIff(minStep, wires);
    WidenedBelowWidest(FirstLeast(minStep), wires, WIDENINGS);
    var (cx, cy) := Clamped(x, y, least, wires);
    ShrunkFits(cx, cy, least, target, wires, SHRINKINGS);
    if !GridOk(cx, cy, wires) { ShrunkStuck(cx, least, target, wires, SHRINKINGS); }
    var (x', y') := Refined(required, wires, minStep, fill, x, y);
    GridOkIsCellCount(x', y', wires);
  }

  /** With a minimum step of at least 0.00001, or none given, the cap always holds. */
  lemma RefinedFits(required: nat, wires: bool, minStep: real, fill: real, x: real, y: real)
    requires required > 0 && x > 0.0 && y > 0.0
    requires minStep <= 0.0 || minStep >= 0.00001
    ensures var (x', y') := Refined(required, wires, minStep, fill, x, y);
      x' > 0.0 && y' > 0.0 && Cells(SPAN_X, x') * Cells(SpanY(wires), y') <= MAX_CELLS
  {
    WidestIsLarge(FirstLeast(minStep));
    StepBounds(LastResort(minStep), wires);
    RefinedFitsIff(required, wires, minStep, fill, x, y);
  }

  /** Below that the cap can fail: steps and minimum of 1e-9 leave far too many cells. */
  lemma RefinedCanOverflow(wires: bool)
    ensures var (x', y') := Refined(1, wires, 0.000000001, 1.0, 0.000000001, 0.000000001);
      x' > 0.0 && y' > 0.0 && Cells(SPAN_X, x') * Cells(SpanY(wires), y') > MAX_CELLS
  {
    var e := 0.000000001;
    WidestIsSmall(e);
    assert FirstLeast(e) == e;
    StepBounds(LastResort(e), wires);
    StepBounds(e, wires);
    RefinedFitsIff(1, wires, e, 1.0, e, e);
  }

  lemma WidestIsSmall(e: real)
    requires 0.0 < e <= 0.000000001
    ensures More(e, WIDENINGS) < 0.0008
  {
    var b := 1.02;
    WideningPowerBelow(b);
    MoreIsPower(e, WIDENINGS);
    PowPositive(b, WIDENINGS);
    ProductBelow(e, Pow(b, WIDENINGS), 0.000000001, 1300.0);
  }

  lemma WideningPowerBelow(b: real)
    requires b == 1.02
    ensures Pow(b, 256) <= 1300.0
  {
    assert Pow(b, 1) == b * Pow(b, 0);
    PowSumBelow(b, 1, 1, 1.02, 1.02, 1.05);
    PowSumBelow(b, 2, 2, 1.05, 1.05, 1.11);
    PowSumBelow(b, 4, 4, 1.11, 1.11, 1.24);
    PowSumBelow(b, 8, 8, 1.24, 1.24, 1.54);
    PowSumBelow(b, 16, 16, 1.54, 1.54, 2.4);
    PowSumBelow(b, 32, 32, 2.4, 2.4, 6.0);
    PowSumBelow(b, 64, 64, 6.0, 6.0, 36.0);
    PowSumBelow(b, 128, 128, 36.0, 36.0, 1300.0);
  }

  // ----- Reaching the target -----

  /** After j shrinkings no step is above both 10 * 0.95^j and the minimum. */
  lemma {:induction false} ShrunkReaches(x: real, y: real, least: real, target: real, wires: bool, k: nat, bound: real)
    requires GridOk(least, least, wires)
    requires x <= Max(bound, least) && y <= Max(bound, least)
    requires k < SHRINKINGS ==> x >= least && y >= least
    requires Less(bound, k) <= least && k <= SHRINKINGS && bound > 0.0
    ensures var (x', y') := Shrunk(x, y, least, target, wires, k);
      Capacity(x', y', wires) >= target || (x', y') == (least, least)
    decreases k
  {
    if k > 0 && Capacity(x, y, wires) < target {
      BreakIsDead(x, y, least, wires);
      LessShift(bound, k - 1);
      ShrunkReaches(Max(x * 0.95, least), Max(y * 0.95, least), least, target, wires, k - 1, bound * 0.95);
    }
  }

  /** From steps of at most 10, refinement falls short of the target only with both steps at the minimum. */
  lemma RefinedReaches(required: nat, wires: bool, minStep: real, fill: real, x: real, y: real)
    requires required > 0 && 0.0 < x <= 10.0 && 0.0 < y <= 10.0
    requires GridOk(LeastStep(minStep, wires), LeastStep(minStep, wires), wires)
    ensures var (x', y') := Refined(required, wires, minStep, fill, x, y);
      || Capacity(x', y', wires) >= Target(required, Max(fill, 1.0))
      || (x', y') == (LeastStep(minStep, wires), LeastStep(minStep, wires))
  {
    var least := LeastStep(minStep, wires);
    StepBounds(least, wires);
    ShrinkingPower(0.95);
    LessIsPower(10.0, SHRINKINGS);
    var (cx, cy) := Clamped(x, y, least, wires);
    ShrunkReaches(cx, cy, least, Target(required, Max(fill, 1.0)), wires, SHRINKINGS, 10.0);
  }

  // ----- What the refined steps are -----

  /** The cells of a span: as many steps as fit it, and one more. */
  lemma CellsFit(span: real, step: real)
    requires step > 0.0 && span > 0.0
    ensures var n := Cells(span, step); (n - 1) as real <= span / step + 0.000000000001 < n as real
  {
  }

  /** The region is 2 wide and 2 high, or 2/3 high with wires; capacity and cap are about its cells. */
  lemma CapacityIs(x: real, y: real, wires: bool)
    requires x > 0.0 && y > 0.0
    ensures var cells := Cells(2.0, x) * Cells(if wires then 2.0 / 3.0 else 2.0, y);
      Capacity(x, y, wires) == cells as real && (GridOk(x, y, wires) <==> cells <= 2000000)
  {
    GridOkIsCellCount(x, y, wires);
  }

  lemma CapacityAtTenth()
    ensures Capacity(0.1, 0.1, false) == 441.0 && Capacity(0.1, 0.1, true) == 147.0
  {
    CellsAre(2.0, 0.1, 21);
    CellsAre(2.0 / 3.0, 0.1, 7);
  }

  lemma CellsAre(span: real, step: real, n: int)
    requires step > 0.0 && span > 0.0 && (n - 1) as real <= span / step + 0.000000000001 < n as real
    ensures Cells(span, step) == n
  {
  }

  /** Step c after i shrinkings by 5%, never below the minimum. */
  function Shrinking(c: real, least: real, i: nat): (r: real) {
    if i == 0 then c else if Less(c, i) < least then least else Less(c, i)
  }

  lemma ShrinkingNext(c: real, least: real, i: nat)
    requires least > 0.0
    ensures Max(Shrinking(c, least, i) * 0.95, least) == Shrinking(c, least, i + 1)
  {
  }

  /** The steps after i shrinkings fall short of the target. */
  predicate Short(cx: real, cy: real, least: real, target: real, wires: bool, i: nat) {
    Capacity(Shrinking(cx, least, i), Shrinking(cy, least, i), wires) < target
  }

  /** The steps after i shrinkings respect the cap. */
  predicate Fitting(cx: real, cy: real, least: real, wires: bool, i: nat) {
    GridOk(Shrinking(cx, least, i), Shrinking(cy, least, i), wires)
  }

  /** After i shrinkings the steps fall short, and one more shrinking would respect the cap. */
  predicate Continues(cx: real, cy: real, least: real, target: real, wires: bool, i: nat) {
    Short(cx, cy, least, target, wires, i) && Fitting(cx, cy, least, wires, i + 1)
  }

  /** j shrinkings, no more and no fewer: the steps had to go on each time before, and then need not or may not. */
  ghost predicate StopsAt(cx: real, cy: real, least: real, target: real, wires: bool, from: nat, j: nat) {
    && from <= j <= 200
    && (forall i :: from <= i < j ==> Continues(cx, cy, least, target, wires, i))
    && (j == 200 || !Continues(cx, cy, least, target, wires, j))
  }

  lemma {:induction false} ShrunkStops(cx: real, cy: real, least: real, target: real, wires: bool, k: nat, i: nat)
    returns (j: nat)
    requires least > 0.0 && i + k == 200
    ensures StopsAt(cx, cy, least, target, wires, i, j)
    ensures Shrunk(Shrinking(cx, least, i), Shrinking(cy, least, i), least, target, wires, k) ==
            (Shrinking(cx, least, j), Shrinking(cy, least, j))
    decreases k
  {
    if k > 0 { ShrunkOnce(cx, cy, least, target, wires, k, i); }
    if k > 0 && Continues(cx, cy, least, target, wires, i) {
      j := ShrunkStops(cx, cy, least, target, wires, k - 1, i + 1);
    } else {
      j := i;
    }
  }

  lemma ShrunkOnce(cx: real, cy: real, least: real, target: real, wires: bool, k: nat, i: nat)
    requires least > 0.0 && k > 0
    ensures Shrunk(Shrinking(cx, least, i), Shrinking(cy, least, i), least, target, wires, k) ==
      if Continues(cx, cy, least, target, wires, i)
      then Shrunk(Shrinking(cx, least, i + 1), Shrinking(cy, least, i + 1), least, target, wires, k - 1)
      else (Shrinking(cx, least, i), Shrinking(cy, least, i))
  {
    ShrinkingNext(cx, least, i);
    ShrinkingNext(cy, least, i);
  }

  predicate SquareFits(e: real, wires: bool, i: nat) {
    GridOk(More(e, i), More(e, i), wires)
  }

  /** The minimum step: e widened by 2% until a square grid fits, 256 times at most. */
  ghost predicate IsWidened(e: real, wires: bool, from: nat, g: nat) {
    && from <= g <= 256 && (forall i :: from <= i < g ==> !SquareFits(e, wires, i))
    && (g == 256 || SquareFits(e, wires, g))
  }

  lemma {:induction false} WidenedStops(e: real, wires: bool, k: nat, i: nat) returns (g: nat)
    requires i + k == 256
    ensures IsWidened(e, wires, i, g) && Widened(More(e, i), wires, k) == More(e, g)
    decreases k
  {
    g := i;
    if k > 0 && !SquareFits(e, wires, i) {
      g := WidenedStops(e, wires, k - 1, i + 1);
    }
  }

  /** The minimum before widening: the caller's, or 0.001, and never below 1e-9. */
  function Minimum(minStep: real): (e: real) {
    if minStep <= 0.0 then 0.001 else if minStep < 0.000000001 then 0.000000001 else minStep
  }

  /** The step shrinking starts from: the caller's if its grid respects the cap, else the minimum, at least 1e-6. */
  function StartStep(x: real, y: real, c: real, least: real, wires: bool): (r: real) {
    if GridOk(x, y, wires) then c else if least < 0.000001 then 0.000001 else least
  }

  function AtLeastOne(fill: real): (f: real) {
    if fill < 1.0 then 1.0 else fill
  }

  /** The cells asked for, with a fill factor of at least 1. */
  function Demand(required: nat, fill: real): (t: real) {
    required as real * AtLeastOne(fill)
  }

  lemma DemandIsTarget(required: nat, fill: real)
    ensures Demand(required, fill) == Target(required, Max(fill, 1.0))
  {
    assert AtLeastOne(fill) == Max(fill, 1.0);
  }

  lemma StartsClamped(x: real, y: real, least: real, wires: bool)
    ensures Clamped(x, y, least, wires) == (StartStep(x, y, x, least, wires), StartStep(x, y, y, least, wires))
  {
  }

  lemma LeastIs(minStep: real, wires: bool, k: nat) returns (g: nat)
    requires k == WIDENINGS
    ensures IsWidened(Minimum(minStep), wires, 0, g) && LeastStep(minStep, wires) == More(Minimum(minStep), g)
    ensures LeastStep(minStep, wires) > 0.0
  {
    var e := Minimum(minStep);
    assert e == FirstLeast(minStep);
    g := WidenedStops(e, wires, k, 0);
    MorePositive(e, g);
  }

  lemma RefinedStarts(required: nat, wires: bool, minStep: real, fill: real, x: real, y: real, k: nat)
    requires required > 0 && x > 0.0 && y > 0.0 && k == SHRINKINGS
    ensures var least := LeastStep(minStep, wires);
      Refined(required, wires, minStep, fill, x, y) ==
        Shrunk(StartStep(x, y, x, least, wires), StartStep(x, y, y, least, wires), least,
               Demand(required, fill), wires, k)
  {
    DemandIsTarget(required, fill);
    StartsClamped(x, y, LeastStep(minStep, wires), wires);
  }

  lemma ShrunkIs(cx: real, cy: real, least: real, target: real, wires: bool, k: nat) returns (j: nat)
    requires least > 0.0 && k == SHRINKINGS
    ensures StopsAt(cx, cy, least, target, wires, 0, j)
    ensures Shrunk(cx, cy, least, target, wires, k) == (Shrinking(cx, least, j), Shrinking(cy, least, j))
  {
    j := ShrunkStops(cx, cy, least, target, wires, k, 0);
  }

  /**
   * What refine_steps_to_fit_table computes: nothing to do leaves the steps alone; otherwise each is its start shrunk j
   * times, where j is the first number of shrinkings to meet the demand, or the last the rules allow.
   */
  lemma RefinedIs(required: nat, wires: bool, minStep: real, fill: real, x: real, y: real)
    returns (least: real, g: nat, j: nat)
    ensures required == 0 || x <= 0.0 || y <= 0.0 ==> Refined(required, wires, minStep, fill, x, y) == (x, y)
    ensures IsWidened(Minimum(minStep), wires, 0, g) && least == More(Minimum(minStep), g)
    ensures required > 0 && x > 0.0 && y > 0.0 ==>
      var cx, cy := StartStep(x, y, x, least, wires), StartStep(x, y, y, least, wires);
      && StopsAt(cx, cy, least, Demand(required, fill), wires, 0, j)
      && Refined(required, wires, minStep, fill, x, y) == (Shrinking(cx, least, j), Shrinking(cy, least, j))
  {
    g := LeastIs(minStep, wires, WIDENINGS);
    least := LeastStep(minStep, wires);
    var cx, cy := StartStep(x, y, x, least, wires), StartStep(x, y, y, least, wires);
    j := ShrunkIs(cx, cy, least, Demand(required, fill), wires, SHRINKINGS);
    if required > 0 && x > 0.0 && y > 0.0 {
      RefinedStarts(required, wires, minStep, fill, x, y, SHRINKINGS);
    }
  }

  lemma StopsAtOnce(x: real, y: real, least: real, target: real, wires: bool, j: nat)
    requires StopsAt(x, y, least, target, wires, 0, j) && Capacity(x, y, wires) >= target
    ensures j == 0
  {
    assert !Continues(x, y, least, target, wires, 0);
  }

  /** Steps that respect the cap and meet the demand come back unchanged. */
  lemma GoodStepsStay(required: nat, wires: bool, minStep: real, fill: real, x: real, y: real, demand: real)
    requires x > 0.0 && y > 0.0 && GridOk(x, y, wires)
    requires demand == Demand(required, fill) && Capacity(x, y, wires) >= demand
    ensures Refined(required, wires, minStep, fill, x, y) == (x, y)
  {
    var least, g, j := RefinedIs(required, wires, minStep, fill, x, y);
    if required > 0 { StopsAtOnce(x, y, least, demand, wires, j); }
  }
}
