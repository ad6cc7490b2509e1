/** The selection-sampling fallback of c_sample, and why every subset is equally likely. */
module SelectionSampling {

  // ----- What a sequence of draws selects -----

  /** One draw per element; each comes from uniform_int_distribution(0, m) with m elements still to follow. */
  predicate IsDraws(count: nat, draws: seq<nat>) {
    if count == 0 then draws == []
    else |draws| > 0 && draws[0] < count && IsDraws(count - 1, draws[1..])
  }

  /** Which of `count` elements are kept when k are wanted: an element is kept when its draw is below what is left. */
  function Keep(count: nat, k: nat, draws: seq<nat>): (mask: seq<bool>)
    requires IsDraws(count, draws) && k <= count
    ensures |mask| == count && Ones(mask) == k
  {
    if count == 0 then [] else
    var rest := Keep(count - 1, if draws[0] < k then k - 1 else k, draws[1..]);
    var mask := [draws[0] < k] + rest;
    assert mask[1..] == rest;
    mask
  }

  function Ones(mask: seq<bool>): (n: nat)
    ensures n <= |mask|
  {
    if mask == [] then 0 else (if mask[0] then 1 else 0) + Ones(mask[1..])
  }

  /** The elements a mask keeps, in order. */
  function Chosen<T>(items: seq<T>, mask: seq<bool>): (r: seq<T>)
    requires |items| == |mask|
    ensures |r| == Ones(mask)
  {
    if items == [] then [] else (if mask[0] then [items[0]] else []) + Chosen(items[1..], mask[1..])
  }

  function Min(a: nat, b: nat): (m: nat) {
    if a < b then a else b
  }

  // ----- The loop -----

  lemma {:induction false} DrawsLength(count: nat, draws: seq<nat>)
    requires IsDraws(count, draws)
    ensures |draws| == count
  {
    if count > 0 { DrawsLength(count - 1, draws[1..]); }
  }

  /** What is kept of the items, given the draws. */
  ghost function Drawn<T>(items: seq<T>, k: nat, draws: seq<nat>): (r: seq<T>)
    requires IsDraws(|items|, draws) && k <= |items|
    ensures |r| == k
  {
    Chosen(items, Keep(|items|, k, draws))
  }

  lemma KeepStep(count: nat, k: nat, draws: seq<nat>)
    requires 0 < count && IsDraws(count, draws) && k <= count
    ensures |draws| > 0 && draws[0] < count && IsDraws(count - 1, draws[1..])
    ensures Keep(count, k, draws) == [draws[0] < k] + Keep(count - 1, if draws[0] < k then k - 1 else k, draws[1..])
  {
  }

  lemma ChosenStep<T>(items: seq<T>, b: bool, rest: seq<bool>)
    requires |items| == |rest| + 1
    ensures Chosen(items, [b] + rest) == (if b then [items[0]] else []) + Chosen(items[1..], rest)
  {
    assert ([b] + rest)[1..] == rest;
  }

  lemma DrawnStep<T>(items: seq<T>, k: nat, draws: seq<nat>)
    requires 0 < |items| && IsDraws(|items|, draws) && k <= |items|
    ensures |draws| > 0 && draws[0] < |items| && IsDraws(|items| - 1, draws[1..])
    ensures draws[0] < k ==> Drawn(items, k, draws) == [items[0]] + Drawn(items[1..], k - 1, draws[1..])
    ensures draws[0] >= k ==> Drawn(items, k, draws) == Drawn(items[1..], k, draws[1..])
  {
    KeepStep(|items|, k, draws);
    ChosenStep(items, draws[0] < k, Keep(|items| - 1, if draws[0] < k then k - 1 else k, draws[1..]));
  }

  /** What is kept is what has been kept so far and what is drawn from the items ahead. */
  ghost predicate Pending<T>(whole: seq<T>, kept: seq<T>, ahead: seq<T>, left: nat, coming: seq<nat>) {
    left <= |ahead| && IsDraws(|ahead|, coming) && whole == kept + Drawn(ahead, left, coming)
  }

  lemma PendingStep<T>(whole: seq<T>, kept: seq<T>, ahead: seq<T>, left: nat, coming: seq<nat>)
    requires Pending(whole, kept, ahead, left, coming) && 0 < left
    ensures |coming| > 0
    ensures if coming[0] < left then Pending(whole, kept + [ahead[0]], ahead[1..], left - 1, coming[1..])
            else Pending(whole, kept, ahead[1..], left, coming[1..])
  {
    DrawnStep(ahead, left, coming);
    if coming[0] < left {
      var rest := Drawn(ahead[1..], left - 1, coming[1..]);
      assert kept + ([ahead[0]] + rest) == kept + [ahead[0]] + rest;
    }
  }

  lemma NothingPending<T>(whole: seq<T>, kept: seq<T>, ahead: seq<T>, coming: seq<nat>)
    requires Pending(whole, kept, ahead, 0, coming)
    ensures whole == kept
  {
  }

  /**
   * The loop itself; the i-th call of the generator yields draws[i]. It stops before the range ends, and keeps an
   * in-order subsequence of min(n, count) elements, the one the draws select; draws it does not reach do not matter.
   */
  method Sample<T>(items: seq<T>, n: nat, draws: seq<nat>) returns (result: seq<T>)
    requires IsDraws(|items|, draws)
    ensures result == Drawn(items, Min(n, |items|), draws)
    ensures |result| == if n < |items| then n else |items|
  {
    var first: nat, unsampled: nat := 0, |items|;
    var left: nat := Min(n, unsampled);
    result := [];
    DrawsLength(|items|, draws);
    ghost var whole, ahead, coming := Drawn(items, left, draws), items, draws;
    while left != 0
      invariant left <= unsampled == |ahead| && first + unsampled == |items| == |draws|
      invariant ahead == items[first..] && coming == draws[first..]
      invariant Pending(whole, result, ahead, left, coming)
      decreases unsampled
    {
      PendingStep(whole, result, ahead, left, coming);
      unsampled := unsampled - 1;
      var r := draws[first];
      if r < left {
        result := result + [items[first]];
        left := left - 1;
      }
      ahead, coming := ahead[1..], coming[1..];
      first := first + 1;
    }
    NothingPending(whole, result, ahead, coming);
  }

  // ----- Which elements are kept -----

  /** The draws, one by one: the i-th is below the number of elements still to come. */
  lemma {:induction false} DrawsAre(count: nat, draws: seq<nat>)
    ensures IsDraws(count, draws) <==> |draws| == count && forall i :: 0 <= i < count ==> draws[i] < count - i
  {
    if count > 0 && |draws| > 0 {
      DrawsAre(count - 1, draws[1..]);
      if forall i :: 0 <= i < count - 1 ==> i < |draws[1..]| && draws[1..][i] < count - 1 - i {
        forall i | 0 < i < count && |draws| == count ensures draws[i] < count - i {
          assert draws[1..][i - 1] == draws[i];
        }
      }
    }
  }

  /** Position p lies after the first j kept positions and before the next. */
  predicate InGap(pos: seq<nat>, j: nat, p: nat) {
    j <= |pos| && (j == 0 || pos[j - 1] < p) && (j == |pos| || p < pos[j])
  }

  /**
   * The positions kept when k are wanted: in order, and after j elements have been kept the next is kept exactly when
   * its draw is below the k - j still wanted.
   */
  ghost predicate Kept(draws: seq<nat>, k: nat, pos: seq<nat>) {
    && |pos| == k
    && (forall j :: 0 <= j < |pos| ==> pos[j] < |draws| && draws[pos[j]] < k - j)
    && (forall i, j :: 0 <= i < j < |pos| ==> pos[i] < pos[j])
    && (forall j, p :: 0 <= p < |draws| && 0 <= j && InGap(pos, j, p) ==> draws[p] >= k - j)
  }

  function Later(pos: seq<nat>): (r: seq<nat>)
    ensures |r| == |pos| && forall j :: 0 <= j < |pos| ==> r[j] == pos[j] + 1
  {
    seq(|pos|, j requires 0 <= j < |pos| => pos[j] + 1)
  }

  lemma KeptHead(draws: seq<nat>, k: nat, pos: seq<nat>)
    requires |draws| > 0 && draws[0] < k && Kept(draws[1..], k - 1, pos)
    ensures Kept(draws, k, [0] + Later(pos))
  {
    var all := [0] + Later(pos);
    forall j, p | 0 <= p < |draws| && 0 <= j && InGap(all, j, p) ensures draws[p] >= k - j {
      assert j > 0 && p > 0;
      assert InGap(pos, j - 1, p - 1);
      assert draws[1..][p - 1] >= k - 1 - (j - 1);
    }
    forall j | 0 <= j < |all| ensures all[j] < |draws| && draws[all[j]] < k - j {
      if j > 0 { assert draws[1..][pos[j - 1]] == draws[all[j]]; }
    }
  }

  lemma SkippedHead(draws: seq<nat>, k: nat, pos: seq<nat>)
    requires |draws| > 0 && draws[0] >= k && Kept(draws[1..], k, pos)
    ensures Kept(draws, k, Later(pos))
  {
    var all := Later(pos);
    forall j, p | 0 <= p < |draws| && 0 <= j && InGap(all, j, p) ensures draws[p] >= k - j {
      if p > 0 {
        assert InGap(pos, j, p - 1);
        assert draws[1..][p - 1] >= k - j;
      }
    }
    forall j | 0 <= j < |all| ensures all[j] < |draws| && draws[all[j]] < k - j {
      assert draws[1..][pos[j]] == draws[all[j]];
    }
  }

  /** What is drawn: the items at the kept positions, in order. */
  lemma {:induction false} DrawnIs<T>(items: seq<T>, k: nat, draws: seq<nat>) returns (pos: seq<nat>)
    requires IsDraws(|items|, draws) && k <= |items|
    ensures |draws| == |items| && Kept(draws, k, pos)
    ensures forall j :: 0 <= j < k ==> Drawn(items, k, draws)[j] == items[pos[j]]
    decreases |items|
  {
    DrawsLength(|items|, draws);
    if items == [] {
      pos := [];
    } else {
      DrawnStep(items, k, draws);
      if draws[0] < k {
        var rest := DrawnIs(items[1..], k - 1, draws[1..]);
        KeptHead(draws, k, rest);
        pos := [0] + Later(rest);
      } else {
        var rest := DrawnIs(items[1..], k, draws[1..]);
        SkippedHead(draws, k, rest);
        pos := Later(rest);
      }
    }
  }

  // ----- Counting -----

  function Factorial(n: nat): (f: nat)
    ensures f > 0
  {
    if n == 0 then 1 else n * Factorial(n - 1)
  }

  function Times(m: nat, x: nat): (p: nat) {
    if m == 0 then 0 else Times(m - 1, x) + x
  }

  lemma {:induction false} TimesIsProduct(m: nat, x: nat)
    ensures Times(m, x) == m * x
  {
    if m > 0 {
      TimesIsProduct(m - 1, x);
      assert m * x == (m - 1) * x + x;
    }
  }

  /** k! j! */
  function Ways(k: nat, j: nat): (w: nat) {
    Factorial(k) * Factorial(j)
  }

  lemma WaysGrow(k: nat, j: nat)
    ensures Times(k + 1, Ways(k, j)) == Ways(k + 1, j) && Times(j + 1, Ways(k, j)) == Ways(k, j + 1)
  {
    TimesIsProduct(k + 1, Ways(k, j));
    TimesIsProduct(j + 1, Ways(k, j));
    var f, g := Factorial(k), Factorial(j);
    assert (k + 1) * (f * g) == ((k + 1) * f) * g;
    assert (j + 1) * (f * g) == f * ((j + 1) * g);
  }

  ghost function OneHead(h: nat, tails: set<seq<nat>>): (r: set<seq<nat>>) {
    set d | d in tails :: [h] + d
  }

  /** Every sequence made of a head in lo..hi and a tail from the set. */
  ghost function Prefixed(lo: nat, hi: nat, tails: set<seq<nat>>): (r: set<seq<nat>>) {
    set h, d | lo <= h < hi && d in tails :: [h] + d
  }

  lemma OneHeadMembers(h: nat, tails: set<seq<nat>>, d: seq<nat>)
    ensures d in OneHead(h, tails) <==> |d| > 0 && d[0] == h && d[1..] in tails
  {
    if |d| > 0 { assert d == [d[0]] + d[1..]; }
    if d in OneHead(h, tails) {
      var e :| e in tails && d == [h] + e;
      assert d[1..] == e;
    }
  }

  lemma PrefixedMembers(lo: nat, hi: nat, tails: set<seq<nat>>, d: seq<nat>)
    ensures d in Prefixed(lo, hi, tails) <==> |d| > 0 && lo <= d[0] < hi && d[1..] in tails
  {
    if |d| > 0 { assert d == [d[0]] + d[1..]; }
    if d in Prefixed(lo, hi, tails) {
      var h, e :| lo <= h < hi && e in tails && d == [h] + e;
      assert d[1..] == e;
    }
  }

  /** All draw sequences for `count` elements. */
  ghost function AllDraws(count: nat): (r: set<seq<nat>>) {
    if count == 0 then {[]} else Prefixed(0, count, AllDraws(count - 1))
  }

  lemma {:induction false} AllDrawsMembers(count: nat, d: seq<nat>)
    ensures d in AllDraws(count) <==> IsDraws(count, d)
    decreases count
  {
    if count > 0 {
      PrefixedMembers(0, count, AllDraws(count - 1), d);
      if |d| > 0 { AllDrawsMembers(count - 1, d[1..]); }
    }
  }

  lemma {:induction false} OneHeadSize(h: nat, tails: set<seq<nat>>)
    ensures |OneHead(h, tails)| == |tails|
    decreases |tails|
  {
    if tails == {} {
      assert OneHead(h, tails) == {};
    } else {
      var d :| d in tails;
      OneHeadSize(h, tails - {d});
      assert ([h] + d)[1..] == d;
      OneHeadMembers(h, tails - {d}, [h] + d);
      forall x ensures x in OneHead(h, tails) <==> x in OneHead(h, tails - {d}) + {[h] + d} {
        OneHeadMembers(h, tails, x);
        OneHeadMembers(h, tails - {d}, x);
        if |x| > 0 { assert x == [x[0]] + x[1..]; }
      }
      assert OneHead(h, tails) == OneHead(h, tails - {d}) + {[h] + d};
    }
  }

  lemma DisjointSize<T>(a: set<T>, b: set<T>)
    requires a !! b
    ensures |a + b| == |a| + |b|
  {
  }

  lemma HeadsDisjoint(lo: nat, h: nat, tails: set<seq<nat>>)
    requires lo <= h
    ensures Prefixed(lo, h, tails) !! OneHead(h, tails)
  {
    forall d | d in Prefixed(lo, h, tails) ensures d !in OneHead(h, tails) {
      PrefixedMembers(lo, h, tails, d);
      OneHeadMembers(h, tails, d);
    }
  }

  lemma PrefixedMore(lo: nat, h: nat, tails: set<seq<nat>>)
    requires lo <= h
    ensures Prefixed(lo, h + 1, tails) == Prefixed(lo, h, tails) + OneHead(h, tails)
  {
    forall d ensures d in Prefixed(lo, h + 1, tails) <==> d in Prefixed(lo, h, tails) + OneHead(h, tails) {
      PrefixedMembers(lo, h + 1, tails, d);
      PrefixedMembers(lo, h, tails, d);
      OneHeadMembers(h, tails, d);
    }
  }

  lemma OneHeadMore(lo: nat, h: nat, tails: set<seq<nat>>)
    requires lo <= h
    ensures |Prefixed(lo, h + 1, tails)| == |Prefixed(lo, h, tails)| + |tails|
  {
    OneHeadSize(h, tails);
    HeadsDisjoint(lo, h, tails);
    PrefixedMore(lo, h, tails);
    DisjointSize(Prefixed(lo, h, tails), OneHead(h, tails));
  }

  lemma {:induction false} PrefixedSize(lo: nat, m: nat, tails: set<seq<nat>>)
    ensures |Prefixed(lo, lo + m, tails)| == Times(m, |tails|)
    decreases m
  {
    if m == 0 {
      assert Prefixed(lo, lo, tails) == {};
    } else {
      PrefixedSize(lo, m - 1, tails);
      OneHeadMore(lo, lo + m - 1, tails);
      TimesMore(m - 1, |tails|);
    }
  }

  lemma TimesMore(m: nat, x: nat)
    ensures Times(m + 1, x) == Times(m, x) + x
  {
  }

  /** There are count! draw sequences in all. */
  lemma {:induction false} AllDrawsSize(count: nat)
    ensures |AllDraws(count)| == Factorial(count)
  {
    if count > 0 {
      AllDrawsSize(count - 1);
      PrefixedSize(0, count, AllDraws(count - 1));
      TimesIsProduct(count, Factorial(count - 1));
    }
  }

  /** The draw sequences that select exactly the masked elements. */
  ghost function Selecting(count: nat, k: nat, mask: seq<bool>): (r: set<seq<nat>>)
    requires k <= count
  {
    set d | d in AllDraws(count) && IsDraws(count, d) && Keep(count, k, d) == mask
  }

  lemma KeepUncons(count: nat, k: nat, mask: seq<bool>, d: seq<nat>)
    requires 0 < count == |mask| && k <= count && IsDraws(count, d)
    ensures Keep(count, k, d) == mask <==>
      (d[0] < k) == mask[0] && Keep(count - 1, if d[0] < k then k - 1 else k, d[1..]) == mask[1..]
  {
    KeepStep(count, k, d);
    assert mask == [mask[0]] + mask[1..];
    var rest := Keep(count - 1, if d[0] < k then k - 1 else k, d[1..]);
    assert ([d[0] < k] + rest)[0] == (d[0] < k) && ([d[0] < k] + rest)[1..] == rest;
  }

  /** A kept head leaves k first draws, a skipped one count - k. */
  lemma SelectingUncons(count: nat, k: nat, mask: seq<bool>)
    requires 0 < count == |mask| && k <= count && Ones(mask) == k
    ensures mask[0] ==> k > 0 && Selecting(count, k, mask) == Prefixed(0, k, Selecting(count - 1, k - 1, mask[1..]))
    ensures !mask[0] ==>
      k < count && Selecting(count, k, mask) == Prefixed(k, count, Selecting(count - 1, k, mask[1..]))
  {
    var k' := if mask[0] then k - 1 else k;
    var (lo, hi) := if mask[0] then (0, k) else (k, count);
    forall d ensures d in Selecting(count, k, mask) <==> d in Prefixed(lo, hi, Selecting(count - 1, k', mask[1..])) {
      PrefixedMembers(lo, hi, Selecting(count - 1, k', mask[1..]), d);
      AllDrawsMembers(count, d);
      if |d| > 0 { AllDrawsMembers(count - 1, d[1..]); }
      if IsDraws(count, d) { KeepUncons(count, k, mask, d); }
    }
  }

  lemma OnlyEmpty(mask: seq<bool>)
    requires mask == []
    ensures |Selecting(0, 0, mask)| == 1
  {
    assert Selecting(0, 0, mask) == {[]};
  }

  lemma UniformKept(count: nat, k: nat, tails: set<seq<nat>>)
    requires 0 < k <= count && |tails| == Ways(k - 1, count - k)
    ensures |Prefixed(0, k, tails)| == Ways(k, count - k)
  {
    PrefixedSize(0, k, tails);
    WaysGrow(k - 1, count - k);
  }

  lemma UniformSkipped(count: nat, k: nat, tails: set<seq<nat>>)
    requires k < count && |tails| == Ways(k, count - k - 1)
    ensures |Prefixed(k, count, tails)| == Ways(k, count - k)
  {
    PrefixedSize(k, count - k, tails);
    WaysGrow(k, count - k - 1);
  }

  /** Each way of keeping k of count elements comes from exactly k! (count - k)! of the count! draw sequences. */
  lemma {:induction false} SelectionIsUniform(count: nat, k: nat, mask: seq<bool>)
    requires |mask| == count && Ones(mask) == k
    ensures |Selecting(count, k, mask)| == Ways(k, count - k)
    decreases count
  {
    if count == 0 {
      OnlyEmpty(mask);
    } else {
      SelectingUncons(count, k, mask);
      if mask[0] {
        SelectionIsUniform(count - 1, k - 1, mask[1..]);
        UniformKept(count, k, Selecting(count - 1, k - 1, mask[1..]));
      } else {
        SelectionIsUniform(count - 1, k, mask[1..]);
        UniformSkipped(count, k, Selecting(count - 1, k, mask[1..]));
      }
    }
  }
}
