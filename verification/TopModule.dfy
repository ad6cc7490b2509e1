/** find_top_module: picking the root of a Verilog design when the user names none. */
module TopModule {
  import opened Prelude

  datatype Module = Module(name: string, instances: seq<string>, ports: nat)

  // ----- The instantiation graph -----

  /** Module i instantiates module j. */
  predicate Instantiates(d: seq<Module>, i: nat, j: nat) {
    i < |d| && j < |d| && d[j].name in d[i].instances
  }

  predicate Instantiated(d: seq<Module>, j: nat) {
    exists i :: 0 <= i < |d| && Instantiates(d, i, j)
  }

  /** A way down the hierarchy, module by module. */
  ghost predicate IsPath(d: seq<Module>, p: seq<nat>) {
    |p| > 0 && (forall k :: 0 <= k < |p| ==> p[k] < |d|) &&
    forall k, l :: 0 <= k && l == k + 1 && l < |p| ==> Instantiates(d, p[k], p[l])
  }

  ghost predicate Acyclic(d: seq<Module>) {
    forall p :: IsPath(d, p) && |p| >= 2 ==> p[0] != p[|p| - 1]
  }

  ghost predicate Reaches(d: seq<Module>, i: nat, j: nat) {
    exists p :: IsPath(d, p) && p[0] == i && p[|p| - 1] == j
  }

  // ----- The choice -----

  /** The choice is fixed by the design: most ports among the modules nobody instantiates, earliest on ties. */
  ghost predicate IsTop(d: seq<Module>, top: Option<nat>) {
    match top
    case None => d == []
    case Some(t) =>
      && t < |d|
      && (Instantiated(d, t) ==> t == |d| - 1 && forall j :: 0 <= j < |d| ==> Instantiated(d, j))
      && (!Instantiated(d, t) ==> forall j :: 0 <= j < |d| && !Instantiated(d, j) ==>
            d[j].ports <= d[t].ports && (j < t ==> d[j].ports < d[t].ports))
  }

  method CollectUsed(d: seq<Module>) returns (used: set<string>)
    ensures forall j :: 0 <= j < |d| ==> (d[j].name in used <==> Instantiated(d, j))
  {
    used := {};
    for i := 0 to |d|
      invariant forall n :: n in used <==> exists k :: 0 <= k < i && n in d[k].instances
    {
      for k := 0 to |d[i].instances|
        invariant forall n :: n in used <==> (exists k :: 0 <= k < i && n in d[k].instances) || n in d[i].instances[..k]
      {
        used := used + {d[i].instances[k]};
      }
    }
    forall j | 0 <= j < |d| ensures d[j].name in used <==> Instantiated(d, j) {
      if Instantiated(d, j) { var k :| 0 <= k < |d| && Instantiates(d, k, j); }
      if d[j].name in used {
        var k :| 0 <= k < |d| && d[j].name in d[k].instances;
        assert Instantiates(d, k, j);
      }
    }
  }

  /** The modules nobody instantiates, in order. */
  ghost predicate AreRoots(d: seq<Module>, roots: seq<nat>) {
    && (forall k :: 0 <= k < |roots| ==> roots[k] < |d| && !Instantiated(d, roots[k]))
    && (forall k, l :: 0 <= k < l < |roots| ==> roots[k] < roots[l])
    && (forall j :: 0 <= j < |d| && !Instantiated(d, j) ==> j in roots)
  }

  method CollectRoots(d: seq<Module>) returns (roots: seq<nat>)
    ensures AreRoots(d, roots)
  {
    var used := CollectUsed(d);
    roots := [];
    for i := 0 to |d|
      invariant forall k :: 0 <= k < |roots| ==> roots[k] < i && !Instantiated(d, roots[k])
      invariant forall k, l :: 0 <= k < l < |roots| ==> roots[k] < roots[l]
      invariant forall j :: 0 <= j < i && !Instantiated(d, j) ==> j in roots
    {
      if d[i].name !in used { roots := roots + [i]; }
    }
  }

  method FindTop(d: seq<Module>) returns (top: Option<nat>)
    ensures IsTop(d, top)
  {
    var candidates := CollectRoots(d);
    if |candidates| == 1 { return Some(candidates[0]); }
    if |candidates| == 0 {
      if |d| == 0 { return None; }
      return Some(|d| - 1);
    }
    var best := 0;
    for c := 0 to |candidates|
      invariant 0 <= best < |candidates| && (best == 0 || best < c)
      invariant forall k :: 0 <= k < c ==> d[candidates[k]].ports <= d[candidates[best]].ports
      invariant forall k :: 0 <= k < best ==> d[candidates[k]].ports < d[candidates[best]].ports
    {
      if d[candidates[c]].ports > d[candidates[best]].ports { best := c; }
    }
    return Some(candidates[best]);
  }

  /** The design admits only one choice. */
  lemma TopIsUnique(d: seq<Module>, a: Option<nat>, b: Option<nat>)
    requires IsTop(d, a) && IsTop(d, b)
    ensures a == b
  {
  }

  /** No module lists module j among its instances. */
  ghost predicate NamedNowhere(d: seq<Module>, j: nat) {
    j < |d| && forall i :: 0 <= i < |d| ==> d[j].name !in d[i].instances
  }

  /**
   * The choice in the design's own terms: among the modules that no instance names, the first of those with most ports;
   * if every module is named by some instance, the last module; none only if there is none.
   */
  lemma TopIs(d: seq<Module>, t: nat)
    ensures IsTop(d, Some(t)) <==>
      && t < |d|
      && if NamedNowhere(d, t)
         then forall j :: 0 <= j < |d| && NamedNowhere(d, j) ==>
                d[j].ports <= d[t].ports && (j < t ==> d[j].ports < d[t].ports)
         else t == |d| - 1 && forall j :: 0 <= j < |d| ==> !NamedNowhere(d, j)
    ensures IsTop(d, None) <==> |d| == 0
  {
    forall j | 0 <= j < |d| ensures Instantiated(d, j) <==> !NamedNowhere(d, j) {
      if !NamedNowhere(d, j) {
        var i :| 0 <= i < |d| && d[j].name in d[i].instances;
        assert Instantiates(d, i, j);
      }
    }
  }

  // ----- Acyclic designs -----

  lemma AcyclicPathsAreSimple(d: seq<Module>, p: seq<nat>, i: nat, j: nat)
    requires Acyclic(d) && IsPath(d, p) && i < j < |p|
    ensures p[i] != p[j]
  {
    var q := p[i..j + 1];
    assert IsPath(d, q) by {
      forall k, l | 0 <= k && l == k + 1 && l < |q| ensures Instantiates(d, q[k], q[l]) {
        assert Instantiates(d, p[i + k], p[i + l]);
      }
    }
  }

  ghost function Below(n: nat): (r: set<nat>)
    ensures |r| == n && forall i: nat :: i in r <==> i < n
  {
    if n == 0 then {} else Below(n - 1) + {n - 1}
  }

  ghost function Members(p: seq<nat>): (r: set<nat>)
    ensures forall x :: x in r <==> x in p
  {
    if p == [] then {} else Members(p[1..]) + {p[0]}
  }

  lemma {:induction false} MembersSize(p: seq<nat>)
    requires forall i, j :: 0 <= i < j < |p| ==> p[i] != p[j]
    ensures |Members(p)| == |p|
  {
    if p != [] {
      assert p[0] !in p[1..];
      MembersSize(p[1..]);
    }
  }

  /** Distinct numbers below n are at most n many. */
  lemma Pigeonhole(p: seq<nat>, n: nat)
    requires forall i :: 0 <= i < |p| ==> p[i] < n
    requires forall i, j :: 0 <= i < j < |p| ==> p[i] != p[j]
    ensures |p| <= n
  {
    MembersSize(p);
    var rest := Below(n) - Members(p);
    assert Below(n) == Members(p) + rest;
  }

  /** Walking up from any path ends at a module nobody instantiates. */
  lemma {:induction false} ClimbToRoot(d: seq<Module>, p: seq<nat>) returns (q: seq<nat>)
    requires Acyclic(d) && IsPath(d, p)
    ensures IsPath(d, q) && q[|q| - 1] == p[|p| - 1] && !Instantiated(d, q[0])
    decreases |d| - |p|
  {
    if !Instantiated(d, p[0]) {
      q := p;
    } else {
      var i :| 0 <= i < |d| && Instantiates(d, i, p[0]);
      var longer: seq<nat> := [i] + p;
      forall a, b | 0 <= a < b < |longer| ensures longer[a] != longer[b] {
        AcyclicPathsAreSimple(d, longer, a, b);
      }
      Pigeonhole(longer, |d|);
      q := ClimbToRoot(d, longer);
    }
  }

  /**
   * In a non-empty acyclic design the fallback to the last module is never used: the top is instantiated by nobody
   * and beats every other such module on ports; and if it is the only one, every module is reachable from it.
   */
  lemma TopOfAcyclicDesign(d: seq<Module>, top: Option<nat>)
    requires d != [] && Acyclic(d) && IsTop(d, top)
    ensures top.Some? && top.value < |d| && !Instantiated(d, top.value)
    ensures (forall j :: 0 <= j < |d| && !Instantiated(d, j) ==> j == top.value) ==>
      forall m :: 0 <= m < |d| ==> Reaches(d, top.value, m)
  {
    var q := ClimbToRoot(d, [0]);
    if forall j :: 0 <= j < |d| && !Instantiated(d, j) ==> j == top.value {
      forall m | 0 <= m < |d| ensures Reaches(d, top.value, m) {
        var r := ClimbToRoot(d, [m]);
      }
    }
  }

  /** Every module of an acyclic design lies below some module nobody instantiates. */
  lemma RootsCoverDesign(d: seq<Module>, m: nat) returns (root: nat)
    requires Acyclic(d) && m < |d|
    ensures root < |d| && !Instantiated(d, root) && Reaches(d, root, m)
  {
    var q := ClimbToRoot(d, [m]);
    root := q[0];
  }
}
