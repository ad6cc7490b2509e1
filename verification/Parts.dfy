/** The element and wire records that circuits are made of. */
module Parts {
  import opened Prelude

  const GROUND := 0

  datatype Element = Element(code: int, properties: seq<real>, source: Option<string>, top: Option<string>)

  datatype Wire = Wire(elementA: int, pinA: int, elementB: int, pinB: int)

  function Codes(elements: seq<Element>): (codes: seq<int>)
    ensures |codes| == |elements|
  {
    seq(|elements|, i requires 0 <= i < |elements| => elements[i].code)
  }

  /** How many of the first i entries are counted: the number entry i gets when the others are squeezed out. */
  function CountBefore<T>(s: seq<T>, counted: T -> bool, i: nat): (n: nat)
    requires i <= |s|
    ensures n <= i
  {
    if i == 0 then 0 else CountBefore(s, counted, i - 1) + if counted(s[i - 1]) then 1 else 0
  }

  lemma {:induction false} CountMono<T>(s: seq<T>, counted: T -> bool, i: nat, j: nat)
    requires i <= j <= |s|
    ensures CountBefore(s, counted, i) <= CountBefore(s, counted, j)
    ensures i < j && counted(s[i]) ==> CountBefore(s, counted, i) < CountBefore(s, counted, j)
    decreases j
  {
    if i < j { CountMono(s, counted, i, j - 1); }
  }
}
