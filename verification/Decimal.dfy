/** Decimal text: the wrapping digit loops of parse_bit_index and parse_u64_list, and the printing they undo. */
module Decimal {
  import opened Prelude

  const WORD := 0x1_0000_0000_0000_0000

  predicate IsDigit(c: char) {
    '0' <= c <= '9'
  }

  predicate AllDigits(s: string) {
    forall i :: 0 <= i < |s| ==> IsDigit(s[i])
  }

  function DigitOf(c: char): (d: nat)
    requires IsDigit(c)
    ensures d < 10
  {
    c as int - '0' as int
  }

  /** The number a run of digits denotes, without a word limit. */
  function Value(s: string): (v: nat)
    requires AllDigits(s)
  {
    if s == "" then 0 else Value(s[..|s| - 1]) * 10 + DigitOf(s[|s| - 1])
  }

  /** 10 to the power n. */
  function Ten(n: nat): (p: nat) {
    if n == 0 then 1 else Ten(n - 1) * 10
  }

  /** Places count tens: appending digits shifts what came before by one place each. */
  lemma {:induction false} ValueOfPlaces(a: string, b: string)
    requires AllDigits(a) && AllDigits(b)
    ensures AllDigits(a + b) && Value(a + b) == Value(a) * Ten(|b|) + Value(b)
    decreases |b|
  {
    if b == "" {
      assert a + b == a;
    } else {
      var n := |b| - 1;
      ValueOfPlaces(a, b[..n]);
      assert (a + b)[..|a + b| - 1] == a + b[..n];
      ShiftPlace(Value(a), Ten(n), Value(b[..n]), DigitOf(b[n]));
    }
  }

  lemma ShiftPlace(v: nat, p: nat, w: nat, d: nat)
    ensures (v * p + w) * 10 + d == v * (p * 10) + (w * 10 + d)
  {
    assert v * (p * 10) == (v * p) * 10;
  }

  lemma ValueOfTen()
    ensures AllDigits(['1', '0']) && Value(['1', '0']) == 10 && Value(['7']) == 7
  {
    assert ['1', '0'][..1] == ['1'] && ['1'][..0] == [] && ['7'][..0] == [];
  }

  function Print(n: nat): (s: string)
    ensures s != "" && AllDigits(s)
  {
    var last := ('0' as int + n % 10) as char;
    if n < 10 then [last] else Print(n / 10) + [last]
  }

  lemma {:induction false} ValueOfPrint(n: nat)
    ensures Value(Print(n)) == n
  {
    var last := ('0' as int + n % 10) as char;
    assert DigitOf(last) == n % 10;
    if n < 10 {
      assert Print(n)[..0] == "";
    } else {
      ValueOfPrint(n / 10);
      assert Print(n)[..|Print(n)| - 1] == Print(n / 10);
    }
  }

  /** One step of a digit loop on a machine word keeps track of the unlimited value. */
  lemma WrapStep(v: nat, d: nat)
    ensures ((v % WORD) * 10 + d) % WORD == (v * 10 + d) % WORD
  {
    var q, r := v / WORD, v % WORD;
    assert v * 10 + d == (r * 10 + d) + WORD * (q * 10);
    AddMultiple(r * 10 + d, q * 10);
  }

  lemma {:induction false} AddMultiple(a: nat, k: nat)
    ensures (a + WORD * k) % WORD == a % WORD
  {
    if k > 0 {
      AddMultiple(a, k - 1);
      assert (a + WORD * k) == (a + WORD * (k - 1)) + WORD;
    }
  }

  // ----- parse_bit_index and base_name -----

  predicate StartsWith(s: string, p: string) {
    |p| <= |s| && s[..|p|] == p
  }

  function Inner(s: string, base: string): (r: string)
    requires |base| + 2 <= |s|
  {
    s[|base| + 1..|s| - 1]
  }

  /** base[digits], with the index taken modulo the word. */
  function BitIndex(s: string, base: string): (r: Option<nat>)
    ensures r.Some? ==> r.value < WORD
  {
    if !StartsWith(s, base) || |s| < |base| + 3 || s[|base|] != '[' || s[|s| - 1] != ']' then None
    else if AllDigits(Inner(s, base)) then Some(Value(Inner(s, base)) % WORD) else None
  }

  method ParseBitIndex(s: string, base: string) returns (r: Option<nat>)
    ensures r == BitIndex(s, base)
  {
    if !StartsWith(s, base) { return None; }
    if |s| < |base| + 3 { return None; }
    if s[|base|] != '[' { return None; }
    if s[|s| - 1] != ']' { return None; }
    var inner := Inner(s, base);
    var v: nat := 0;
    for k := 0 to |inner|
      invariant AllDigits(inner[..k]) && v == Value(inner[..k]) % WORD
    {
      if inner[k] < '0' || inner[k] > '9' { return None; }
      assert inner[..k + 1][..k] == inner[..k];
      WrapStep(Value(inner[..k]), DigitOf(inner[k]));
      v := (v * 10 + DigitOf(inner[k])) % WORD;
    }
    assert inner[..|inner|] == inner;
    return Some(v);
  }

  function BaseName(name: string): (base: string)
    ensures StartsWith(name, base) && '[' !in base
    ensures base != name ==> name[|base|] == '['
  {
    if name == "" || name[0] == '[' then "" else [name[0]] + BaseName(name[1..])
  }

  lemma {:induction false} BaseNameOf(base: string, rest: string)
    requires '[' !in base && (rest == "" || rest[0] == '[')
    ensures BaseName(base + rest) == base
  {
    if base != "" {
      assert (base + rest)[1..] == base[1..] + rest;
      BaseNameOf(base[1..], rest);
    } else {
      assert base + rest == rest;
    }
  }

  function BitName(base: string, n: nat): (s: string) {
    base + "[" + Print(n) + "]"
  }

  /** A vector port's name gives back its base and its bit, for every bit that fits the word. */
  lemma BitNameRoundTrip(base: string, n: nat)
    requires '[' !in base && n < WORD
    ensures BaseName(BitName(base, n)) == base && BitIndex(BitName(base, n), base) == Some(n)
  {
    var s := BitName(base, n);
    var rest := "[" + Print(n) + "]";
    assert s == base + rest;
    BaseNameOf(base, rest);
    assert Inner(s, base) == Print(n);
    ValueOfPrint(n);
  }

  /** The text is the base, a bracket, digits with the given value modulo the word, and a closing bracket. */
  ghost predicate Brackets(s: string, base: string, digits: string, v: nat) {
    digits != "" && AllDigits(digits) && s == base + "[" + digits + "]" && v == Value(digits) % WORD
  }

  lemma BitIndexIs(s: string, base: string, v: nat)
    ensures BitIndex(s, base) == Some(v) <==> exists digits :: Brackets(s, base, digits, v)
  {
    if BitIndex(s, base) == Some(v) {
      var digits := Inner(s, base);
      assert s == base + "[" + digits + "]";
      assert Brackets(s, base, digits, v);
    }
    if digits :| Brackets(s, base, digits, v) {
      assert Inner(s, base) == digits;
    }
  }

  // ----- parse_u64_list -----

  /** The pieces between commas. */
  function Split(s: string): (parts: seq<string>)
    ensures |parts| > 0
  {
    if s == "" then [""] else
    var before, c := Split(s[..|s| - 1]), s[|s| - 1];
    if c == ',' then before + [""] else before[..|before| - 1] + [before[|before| - 1] + [c]]
  }

  predicate IsNumber(part: string) {
    part != "" && AllDigits(part)
  }

  /** The first n pieces are numbers. */
  predicate Numbers(parts: seq<string>, n: nat) {
    n <= |parts| && forall i :: 0 <= i < n ==> IsNumber(parts[i])
  }

  function Values(parts: seq<string>, n: nat): (r: seq<nat>)
    requires Numbers(parts, n)
  {
    seq(n, i requires 0 <= i < n => Value(parts[i]) % WORD)
  }

  /** The loop's state after a prefix: all pieces but the last are in `out`, the last is in `v`. */
  ghost predicate Scanned(parts: seq<string>, out: seq<nat>, v: nat, hasDigit: bool)
    requires |parts| > 0
  {
    var n := |parts| - 1;
    && Numbers(parts, n) && out == Values(parts, n)
    && AllDigits(parts[n]) && v == Value(parts[n]) % WORD && (hasDigit <==> parts[n] != "")
  }

  lemma ScanDigit(s: string, k: nat, out: seq<nat>, v: nat, hasDigit: bool)
    requires k < |s| && IsDigit(s[k]) && Scanned(Split(s[..k]), out, v, hasDigit)
    ensures Scanned(Split(s[..k + 1]), out, (v * 10 + DigitOf(s[k])) % WORD, true)
  {
    var parts, n := Split(s[..k]), |Split(s[..k])| - 1;
    assert s[..k + 1][..k] == s[..k];
    assert Split(s[..k + 1]) == parts[..n] + [parts[n] + [s[k]]];
    OneMoreDigit(parts, out, v, hasDigit, s[k]);
  }

  lemma OneMoreDigit(parts: seq<string>, out: seq<nat>, v: nat, hasDigit: bool, c: char)
    requires |parts| > 0 && IsDigit(c) && Scanned(parts, out, v, hasDigit)
    ensures var n := |parts| - 1;
      Scanned(parts[..n] + [parts[n] + [c]], out, (v * 10 + DigitOf(c)) % WORD, true)
  {
    var n := |parts| - 1;
    var part := parts[n] + [c];
    assert part[..|part| - 1] == parts[n];
    WrapStep(Value(parts[n]), DigitOf(c));
    assert Values(parts[..n] + [part], n) == Values(parts, n);
  }

  lemma ScanComma(s: string, k: nat, out: seq<nat>, v: nat)
    requires k < |s| && s[k] == ',' && Scanned(Split(s[..k]), out, v, true)
    ensures Scanned(Split(s[..k + 1]), out + [v], 0, false)
  {
    assert s[..k + 1][..k] == s[..k];
    var parts := Split(s[..k]);
    assert Split(s[..k + 1]) == parts + [""];
    assert Values(parts + [""], |parts|) == Values(parts, |parts| - 1) + [Value(parts[|parts| - 1]) % WORD];
  }

  /** Reading on only extends the last piece and adds further ones. */
  lemma {:induction false} SplitExtends(s: string, k: nat, n: nat)
    requires k <= n <= |s|
    ensures |Split(s[..k])| <= |Split(s[..n])|
    ensures forall i :: 0 <= i < |Split(s[..k])| - 1 ==> Split(s[..n])[i] == Split(s[..k])[i]
    ensures Split(s[..k])[|Split(s[..k])| - 1] <= Split(s[..n])[|Split(s[..k])| - 1]
    decreases n
  {
    if k < n {
      assert s[..n][..n - 1] == s[..n - 1];
      SplitExtends(s, k, n - 1);
    }
  }

  /** Earlier pieces are settled: reading on does not change what has been scanned. */
  lemma ScannedStays(s: string, k: nat, out: seq<nat>, v: nat, hasDigit: bool)
    requires k <= |s| && Scanned(Split(s[..k]), out, v, hasDigit)
    ensures |out| == |Split(s[..k])| - 1 < |Split(s)|
    ensures Numbers(Split(s), |out|) && out == Values(Split(s), |out|)
  {
    assert s[..|s|] == s;
    SplitExtends(s, k, |s|);
    var parts, n := Split(s[..k]), |Split(s[..k])| - 1;
    forall i | 0 <= i < n ensures IsNumber(Split(s)[i]) && Split(s)[i] == parts[i] {
      assert IsNumber(parts[i]);
    }
  }

  /** A comma right after a comma, or at the start, leaves an empty piece for good. */
  lemma EmptyPieceFails(s: string, k: nat, n: nat)
    requires k < |s| && s[k] == ',' && n == |Split(s[..k])| - 1 && Split(s[..k])[n] == ""
    ensures n < |Split(s)| && !IsNumber(Split(s)[n])
  {
    assert s[..|s|] == s && s[..k + 1][..k] == s[..k];
    assert Split(s[..k + 1]) == Split(s[..k]) + [""];
    SplitExtends(s, k + 1, |s|);
  }

  /** The pieces with d appended to the last one. */
  function Extended(parts: seq<string>, d: string): (r: seq<string>)
    requires |parts| > 0
  {
    parts[..|parts| - 1] + [parts[|parts| - 1] + d]
  }

  lemma SplitSnoc(s: string, c: char)
    ensures Split(s + [c]) == if c == ',' then Split(s) + [""] else Extended(Split(s), [c])
  {
    assert (s + [c])[..|s + [c]| - 1] == s;
  }

  lemma GrownPiece(s: string, k: nat)
    requires k < |s| && s[k] != ','
    ensures Split(s[..k + 1]) == Extended(Split(s[..k]), [s[k]])
  {
    assert s[..k + 1] == s[..k] + [s[k]];
    SplitSnoc(s[..k], s[k]);
  }

  /** A character that is neither digit nor comma spoils its piece for good. */
  lemma SpoiledPieceFails(s: string, k: nat, n: nat, i: nat)
    requires k <= |s| && n == |Split(s[..k])| - 1 && i < |Split(s[..k])[n]| && !IsDigit(Split(s[..k])[n][i])
    ensures n < |Split(s)| && !IsNumber(Split(s)[n])
  {
    assert s[..|s|] == s;
    SplitExtends(s, k, |s|);
    assert Split(s)[n][i] == Split(s[..k])[n][i];
  }

  lemma BadCharacterFails(s: string, k: nat, n: nat)
    requires k < |s| && s[k] != ',' && !IsDigit(s[k]) && n == |Split(s[..k])| - 1
    ensures n < |Split(s)| && !IsNumber(Split(s)[n])
  {
    GrownPiece(s, k);
    SpoiledPieceFails(s, k + 1, n, |Split(s[..k])[n]|);
  }

  /**
   * Accepts exactly the comma-separated lists of non-empty digit runs, and returns their values modulo the word; a
   * rejected text leaves the values of the good pieces before the fault.
   */
  method ParseList(s: string) returns (ok: bool, out: seq<nat>)
    ensures ok <==> Numbers(Split(s), |Split(s)|)
    ensures Numbers(Split(s), |out|) && out == Values(Split(s), |out|)
    ensures ok ==> |out| == |Split(s)|
  {
    out := [];
    if s == "" {
      assert !IsNumber(Split(s)[0]);
      return false, out;
    }
    var v: nat, hasDigit := 0, false;
    for k := 0 to |s|
      invariant Scanned(Split(s[..k]), out, v, hasDigit)
    {
      if '0' <= s[k] <= '9' {
        ScanDigit(s, k, out, v, hasDigit);
        hasDigit := true;
        v := (v * 10 + DigitOf(s[k])) % WORD;
      } else if s[k] == ',' {
        if !hasDigit {
          ScannedStays(s, k, out, v, hasDigit);
          EmptyPieceFails(s, k, |out|);
          return false, out;
        }
        ScanComma(s, k, out, v);
        out := out + [v];
        v, hasDigit := 0, false;
      } else {
        ScannedStays(s, k, out, v, hasDigit);
        BadCharacterFails(s, k, |out|);
        return false, out;
      }
    }
    assert s[..|s|] == s;
    var parts := Split(s);
    if !hasDigit {
      assert !IsNumber(parts[|parts| - 1]);
      return false, out;
    }
    assert Values(parts, |parts|) == Values(parts, |parts| - 1) + [v];
    out := out + [v];
    ok := true;
  }

  /** Pieces with a comma before each but the first. */
  function Commas(parts: seq<string>): (s: string) {
    if parts == [] then ""
    else if |parts| == 1 then parts[0]
    else Commas(parts[..|parts| - 1]) + "," + parts[|parts| - 1]
  }

  lemma CommasSnoc(parts: seq<string>, c: char)
    requires parts != []
    ensures Commas(parts + [[]]) == Commas(parts) + [',']
    ensures Commas(Extended(parts, [c])) == Commas(parts) + [c]
  {
    var n := |parts| - 1;
    assert (parts + [[]])[..|parts|] == parts && Commas(parts) + "," + "" == Commas(parts) + ",";
    assert Extended(parts, [c])[..n] == parts[..n];
    if n > 0 { assert Commas(parts[..n]) + "," + (parts[n] + [c]) == Commas(parts[..n]) + "," + parts[n] + [c]; }
  }

  /** The pieces are what lies between the commas: none holds one, and joined by commas they give the text back. */
  lemma {:induction false} SplitIs(s: string)
    ensures Commas(Split(s)) == s && forall i :: 0 <= i < |Split(s)| ==> ',' !in Split(s)[i]
  {
    if s != "" {
      var before, c := s[..|s| - 1], s[|s| - 1];
      SplitIs(before);
      assert s == before + [c];
      SplitSnoc(before, c);
      CommasSnoc(Split(before), c);
    }
  }

  function Printed(xs: seq<nat>): (r: seq<string>) {
    seq(|xs|, i requires 0 <= i < |xs| => Print(xs[i]))
  }

  /** The printed list. */
  function Join(xs: seq<nat>): (s: string) {
    Commas(Printed(xs))
  }

  lemma ExtendedTwice(parts: seq<string>, d: string, c: char)
    requires |parts| > 0
    ensures Extended(Extended(parts, d), [c]) == Extended(parts, d + [c])
  {
    assert parts[|parts| - 1] + d + [c] == parts[|parts| - 1] + (d + [c]);
  }

  lemma {:induction false} SplitDigits(s: string, d: string)
    requires AllDigits(d)
    ensures Split(s + d) == Extended(Split(s), d)
    decreases |d|
  {
    if d == "" {
      var parts := Split(s);
      assert s + d == s && parts[|parts| - 1] + d == parts[|parts| - 1];
      assert Extended(parts, d) == parts;
    } else {
      var init, c := d[..|d| - 1], d[|d| - 1];
      SplitDigits(s, init);
      assert d == init + [c];
      assert s + d == (s + init) + [c];
      SplitSnoc(s + init, c);
      ExtendedTwice(Split(s), init, c);
    }
  }

  lemma ExtendedBlank(parts: seq<string>, p: string)
    ensures Extended(parts + [""], p) == parts + [p]
  {
    assert "" + p == p;
  }

  lemma SplitOne(p: string)
    requires AllDigits(p)
    ensures Split(p) == [p]
  {
    SplitDigits("", p);
    assert "" + p == p;
  }

  lemma SplitMore(a: string, p: string)
    requires AllDigits(p)
    ensures Split(a + "," + p) == Split(a) + [p]
  {
    SplitSnoc(a, ',');
    SplitDigits(a + ",", p);
    ExtendedBlank(Split(a), p);
  }

  ghost predicate DigitParts(parts: seq<string>) {
    forall i :: 0 <= i < |parts| ==> AllDigits(parts[i])
  }

  lemma CommasMore(parts: seq<string>, p: string)
    requires parts != []
    ensures Commas(parts + [p]) == Commas(parts) + "," + p
  {
    assert (parts + [p])[..|parts|] == parts;
  }

  /** Splitting undoes joining. */
  lemma {:induction false} SplitCommas(parts: seq<string>)
    requires parts != [] && DigitParts(parts)
    ensures Split(Commas(parts)) == parts
    decreases |parts|
  {
    var n := |parts| - 1;
    var before, p := parts[..n], parts[n];
    assert parts == before + [p] && AllDigits(p);
    if n == 0 {
      SplitOne(p);
    } else {
      SplitCommas(before);
      CommasMore(before, p);
      SplitMore(Commas(before), p);
    }
  }

  lemma PrintedValues(xs: seq<nat>)
    requires forall i :: 0 <= i < |xs| ==> xs[i] < WORD
    ensures Numbers(Printed(xs), |xs|) && Values(Printed(xs), |xs|) == xs
  {
    forall i | 0 <= i < |xs| ensures IsNumber(Printed(xs)[i]) && Value(Printed(xs)[i]) % WORD == xs[i] {
      ValueOfPrint(xs[i]);
    }
  }

  /** Printing a list of words and parsing the text gives the list back. */
  lemma ListRoundTrip(xs: seq<nat>)
    requires xs != [] && forall i :: 0 <= i < |xs| ==> xs[i] < WORD
    ensures Numbers(Split(Join(xs)), |Split(Join(xs))|)
    ensures Values(Split(Join(xs)), |Split(Join(xs))|) == xs
  {
    SplitCommas(Printed(xs));
    PrintedValues(xs);
  }
}
