/** The in-place, path-compressing union-find over point numbers. */
module UnionFind {

  /** `root` is the parent forest's root table; `depth` falls on every step towards a root, so there is no cycle. */
  ghost predicate Forest(parent: seq<int>, root: seq<int>, depth: seq<nat>) {
    && |parent| == |root| == |depth|
    && forall x :: 0 <= x < |parent| ==>
      && 0 <= parent[x] < |parent|
      && 0 <= root[x] < |parent|
      && parent[root[x]] == root[x]
      && root[parent[x]] == root[x]
      && (parent[x] == x ==> root[x] == x)
      && (parent[x] != x ==> depth[parent[x]] < depth[x])
  }

  /** Every point that hangs below another, and the root it hangs from, has been marked. */
  ghost predicate Touched(parent: seq<int>, root: seq<int>, visited: seq<bool>) {
    && |parent| == |root| == |visited|
    && forall x :: 0 <= x < |parent| && parent[x] != x ==>
      visited[x] && 0 <= root[x] < |parent| && visited[root[x]]
  }

  /** The parent array alone fixes the root table: the root is where the parent steps end. */
  lemma {:induction false} RootsUnique(parent: seq<int>, root: seq<int>, depth: seq<nat>,
                                       root': seq<int>, depth': seq<nat>, x: int)
    requires Forest(parent, root, depth) && Forest(parent, root', depth')
    requires 0 <= x < |parent|
    ensures root[x] == root'[x]
    decreases depth[x]
  {
    if parent[x] != x { RootsUnique(parent, root, depth, root', depth', parent[x]); }
  }

  /** A root is strictly above everything that hangs from it. */
  lemma {:induction false} DepthToRoot(parent: seq<int>, root: seq<int>, depth: seq<nat>, x: int)
    requires Forest(parent, root, depth)
    requires 0 <= x < |parent|
    ensures x != root[x] ==> depth[root[x]] < depth[x]
    decreases depth[x]
  {
    if parent[x] != x { DepthToRoot(parent, root, depth, parent[x]); }
  }

  /** Rewiring a point straight to its root keeps the forest, its root table and its marks. */
  lemma CompressKeepsForest(parent: seq<int>, root: seq<int>, depth: seq<nat>, visited: seq<bool>, x: int)
    requires Forest(parent, root, depth) && Touched(parent, root, visited)
    requires 0 <= x < |parent| && parent[x] != x
    ensures Forest(parent[x := root[x]], root, depth)
    ensures Touched(parent[x := root[x]], root, visited)
  {
    DepthToRoot(parent, root, depth, x);
    var up := root[x];
    assert parent[up] == up && root[up] == up && up != x;
  }

  lemma RootMarked(parent: seq<int>, root: seq<int>, depth: seq<nat>, visited: seq<bool>, x: int)
    requires Forest(parent, root, depth) && Touched(parent, root, visited) && 0 <= x < |parent| && visited[x]
    ensures 0 <= root[x] < |parent| && root[root[x]] == root[x] && visited[root[x]]
  {
  }

  /** Finds the root of x, rewires every point on the way straight to it, and marks x. */
  method Find(x: int, parent: array<int>, visited: array<bool>, ghost root: seq<int>, ghost depth: seq<nat>)
    returns (r: int)
    requires 0 <= x < parent.Length == visited.Length
    requires Forest(parent[..], root, depth) && Touched(parent[..], root, visited[..])
    modifies parent, visited
    ensures Forest(parent[..], root, depth) && Touched(parent[..], root, visited[..])
    ensures r == root[x] == parent[x]
    ensures visited[..] == old(visited[..])[x := true]
    ensures forall y :: 0 <= y < parent.Length ==> parent[y] == old(parent[y]) || parent[y] == root[y]
    decreases depth[x]
  {
    if parent[x] != x {
      var up := Find(parent[x], parent, visited, root, depth);
      ghost var before := parent[..];
      CompressKeepsForest(before, root, depth, visited[..], x);
      parent[x] := up;
      assert parent[..] == before[x := up];
    }
    visited[x] := true;
    r := parent[x];
  }

  /** The root table after hanging root `under` below root `top`. */
  function RootsAfter(root: seq<int>, top: int, under: int): (r: seq<int>) {
    seq(|root|, i requires 0 <= i < |root| => if root[i] == under then top else root[i])
  }

  function DepthsAfter(root: seq<int>, depth: seq<nat>, top: int, under: int): (r: seq<nat>)
    requires |root| == |depth| && 0 <= top < |depth|
  {
    seq(|root|, i requires 0 <= i < |root| => if root[i] == under then depth[i] + depth[top] + 1 else depth[i])
  }

  /** Hanging one root below another keeps the forest acyclic and merges exactly the two trees. */
  lemma HangKeepsForest(parent: seq<int>, root: seq<int>, depth: seq<nat>, visited: seq<bool>, top: int, under: int)
    requires Forest(parent, root, depth) && Touched(parent, root, visited)
    requires 0 <= top < |parent| && 0 <= under < |parent| && top != under
    requires root[top] == top && root[under] == under && visited[top] && visited[under]
    ensures Forest(parent[under := top], RootsAfter(root, top, under), DepthsAfter(root, depth, top, under))
    ensures Touched(parent[under := top], RootsAfter(root, top, under), visited)
  {
  }

  /** x and y have one root once the trees of a and b have been joined. */
  ghost predicate SameTree(root: seq<int>, a: int, b: int, x: int, y: int)
    requires 0 <= a < |root| && 0 <= b < |root| && 0 <= x < |root| && 0 <= y < |root|
  {
    || root[x] == root[y]
    || (root[x] == root[a] && root[y] == root[b])
    || (root[x] == root[b] && root[y] == root[a])
  }

  /** The trees of a and b have been joined, and no others. */
  ghost predicate United(root: seq<int>, root': seq<int>, a: int, b: int) {
    && |root'| == |root| && 0 <= a < |root| && 0 <= b < |root|
    && forall x, y :: 0 <= x < |root| && 0 <= y < |root| ==>
      (root'[x] == root'[y] <==> SameTree(root, a, b, x, y))
  }

  lemma HangUnites(root: seq<int>, top: int, under: int, a: int, b: int)
    requires 0 <= a < |root| && 0 <= b < |root|
    requires (top == root[a] && under == root[b]) || (top == root[b] && under == root[a])
    ensures United(root, RootsAfter(root, top, under), a, b)
  {
  }

  /** One wire: joins the trees of a and b, never hanging the ground slot below another root. */
  method Unite(a: int, b: int, ground: int, parent: array<int>, visited: array<bool>,
               ghost root: seq<int>, ghost depth: seq<nat>)
    returns (ghost root': seq<int>, ghost depth': seq<nat>)
    requires 0 <= a < parent.Length && 0 <= b < parent.Length && 0 <= ground < parent.Length == visited.Length
    requires Forest(parent[..], root, depth) && Touched(parent[..], root, visited[..])
    requires root[ground] == ground
    modifies parent, visited
    ensures Forest(parent[..], root', depth') && Touched(parent[..], root', visited[..])
    ensures visited[..] == old(visited[..])[a := true][b := true]
    ensures root'[ground] == ground
    ensures United(root, root', a, b)
  {
    var root1 := Find(a, parent, visited, root, depth);
    var root2 := Find(b, parent, visited, root, depth);
    root', depth' := root, depth;
    if root1 != root2 {
      var top, under := root1, root2;
      if root1 == ground {
        top, under := root1, root2;
      } else if root2 == ground {
        top, under := root2, root1;
      }
      HangKeepsForest(parent[..], root, depth, visited[..], top, under);
      HangUnites(root, top, under, a, b);
      root', depth' := RootsAfter(root, top, under), DepthsAfter(root, depth, top, under);
      ghost var before := parent[..];
      parent[under] := top;
      assert parent[..] == before[under := top];
    }
  }
}
