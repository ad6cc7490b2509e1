/** Undirected chains of links: the reference meaning of "electrically joined". */
module Chains {

  ghost predicate Linked<T>(links: set<(T, T)>, a: T, b: T) {
    (a, b) in links || (b, a) in links
  }

  /** a and b are the ends of a chain of exactly n links. */
  ghost predicate Chain<T(!new)>(links: set<(T, T)>, n: nat, a: T, b: T)
    decreases n
  {
    if n == 0 then a == b else exists c :: Linked(links, a, c) && Chain(links, n - 1, c, b)
  }

  ghost predicate Joined<T(!new)>(links: set<(T, T)>, a: T, b: T) {
    exists n: nat :: Chain(links, n, a, b)
  }

  /** Two points carry the same label exactly when a chain of links joins them. */
  ghost predicate Classifies<T(!new), L>(links: set<(T, T)>, tag: T -> L) {
    forall x, y :: tag(x) == tag(y) <==> Joined(links, x, y)
  }

  /** x and y fall together once the classes of a and b have been merged. */
  ghost predicate Merged<T, L>(tag: T -> L, a: T, b: T, x: T, y: T) {
    || tag(x) == tag(y)
    || (tag(x) == tag(a) && tag(y) == tag(b))
    || (tag(x) == tag(b) && tag(y) == tag(a))
  }

  lemma JoinedRefl<T(!new)>(links: set<(T, T)>, a: T)
    ensures Joined(links, a, a)
  {
    assert Chain(links, 0, a, a);
  }

  lemma JoinedLink<T(!new)>(links: set<(T, T)>, a: T, b: T)
    requires Linked(links, a, b)
    ensures Joined(links, a, b)
  {
    assert Chain(links, 0, b, b);
    assert Chain(links, 1, a, b);
  }

  lemma {:induction false} ChainAppend<T(!new)>(links: set<(T, T)>, n: nat, m: nat, a: T, b: T, c: T)
    requires Chain(links, n, a, b) && Chain(links, m, b, c)
    ensures Chain(links, n + m, a, c)
    decreases n
  {
    if n != 0 {
      var d :| Linked(links, a, d) && Chain(links, n - 1, d, b);
      ChainAppend(links, n - 1, m, d, b, c);
    }
  }

  lemma {:induction false} ChainReverse<T(!new)>(links: set<(T, T)>, n: nat, a: T, b: T)
    requires Chain(links, n, a, b)
    ensures Chain(links, n, b, a)
    decreases n
  {
    if n != 0 {
      var d :| Linked(links, a, d) && Chain(links, n - 1, d, b);
      ChainReverse(links, n - 1, d, b);
      assert Linked(links, d, a) && Chain(links, 0, a, a);
      assert Chain(links, 1, d, a);
      ChainAppend(links, n - 1, 1, b, d, a);
    }
  }

  lemma JoinedTrans<T(!new)>(links: set<(T, T)>, a: T, b: T, c: T)
    requires Joined(links, a, b) && Joined(links, b, c)
    ensures Joined(links, a, c)
  {
    var n: nat :| Chain(links, n, a, b);
    var m: nat :| Chain(links, m, b, c);
    ChainAppend(links, n, m, a, b, c);
  }

  lemma JoinedSym<T(!new)>(links: set<(T, T)>, a: T, b: T)
    requires Joined(links, a, b)
    ensures Joined(links, b, a)
  {
    var n: nat :| Chain(links, n, a, b);
    ChainReverse(links, n, a, b);
  }

  lemma {:induction false} ChainMono<T(!new)>(links: set<(T, T)>, more: set<(T, T)>, n: nat, a: T, b: T)
    requires forall x, y :: Linked(links, x, y) ==> Linked(more, x, y)
    requires Chain(links, n, a, b)
    ensures Chain(more, n, a, b)
    decreases n
  {
    if n != 0 {
      var c :| Linked(links, a, c) && Chain(links, n - 1, c, b);
      ChainMono(links, more, n - 1, c, b);
    }
  }

  lemma JoinedMono<T(!new)>(links: set<(T, T)>, more: set<(T, T)>, a: T, b: T)
    requires forall x, y :: Linked(links, x, y) ==> Linked(more, x, y)
    requires Joined(links, a, b)
    ensures Joined(more, a, b)
  {
    var n: nat :| Chain(links, n, a, b);
    ChainMono(links, more, n, a, b);
  }

  /** Only the undirected links matter: flipping, repeating or reordering them changes no chain. */
  lemma JoinedSameLinks<T(!new)>(links: set<(T, T)>, other: set<(T, T)>, a: T, b: T)
    requires forall x, y :: Linked(links, x, y) <==> Linked(other, x, y)
    ensures Joined(links, a, b) <==> Joined(other, a, b)
  {
    if Joined(links, a, b) { JoinedMono(links, other, a, b); }
    if Joined(other, a, b) { JoinedMono(other, links, a, b); }
  }

  /** A label that every link preserves is preserved by every chain. */
  lemma {:induction false} ChainKeepsLabel<T(!new), L>(links: set<(T, T)>, tag: T -> L, n: nat, a: T, b: T)
    requires forall x, y :: (x, y) in links ==> tag(x) == tag(y)
    requires Chain(links, n, a, b)
    ensures tag(a) == tag(b)
    decreases n
  {
    if n != 0 {
      var c :| Linked(links, a, c) && Chain(links, n - 1, c, b);
      ChainKeepsLabel(links, tag, n - 1, c, b);
    }
  }

  lemma JoinedKeepsLabel<T(!new), L>(links: set<(T, T)>, tag: T -> L, a: T, b: T)
    requires forall x, y :: (x, y) in links ==> tag(x) == tag(y)
    requires Joined(links, a, b)
    ensures tag(a) == tag(b)
  {
    var n: nat :| Chain(links, n, a, b);
    ChainKeepsLabel(links, tag, n, a, b);
  }

  /** With no links at all, an injective label classifies. */
  lemma NoLinks<T(!new), L>(tag: T -> L)
    requires forall x, y :: tag(x) == tag(y) ==> x == y
    ensures Classifies({}, tag)
  {
    forall x, y ensures tag(x) == tag(y) <==> Joined({}, x, y) {
      JoinedRefl({}, x);
      if Joined({}, x, y) { JoinedKeepsLabel({}, tag, x, y); }
    }
  }

  /** Adding one link merges the two classes it touches and nothing else. */
  lemma AddLink<T(!new), L>(links: set<(T, T)>, a: T, b: T, tag: T -> L, tag': T -> L)
    requires Classifies(links, tag)
    requires forall x, y :: tag'(x) == tag'(y) <==> Merged(tag, a, b, x, y)
    ensures Classifies(links + {(a, b)}, tag')
  {
    var more := links + {(a, b)};
    forall x, y | (x, y) in more ensures tag'(x) == tag'(y) {
      if (x, y) in links { JoinedLink(links, x, y); }
    }
    forall x, y ensures tag'(x) == tag'(y) <==> Joined(more, x, y) {
      if Joined(more, x, y) { JoinedKeepsLabel(more, tag', x, y); }
      if tag'(x) == tag'(y) { AddLinkJoins(links, a, b, tag, x, y); }
    }
  }

  lemma AddLinkJoins<T(!new), L>(links: set<(T, T)>, a: T, b: T, tag: T -> L, x: T, y: T)
    requires Classifies(links, tag) && Merged(tag, a, b, x, y)
    ensures Joined(links + {(a, b)}, x, y)
  {
    var more := links + {(a, b)};
    JoinedLink(more, a, b);
    JoinedLink(more, b, a);
    if tag(x) == tag(y) {
      JoinedMono(links, more, x, y);
    } else {
      var (u, v) := if tag(x) == tag(a) && tag(y) == tag(b) then (a, b) else (b, a);
      JoinedMono(links, more, x, u);
      JoinedMono(links, more, v, y);
      JoinedTrans(more, x, u, v);
      JoinedTrans(more, x, v, y);
    }
  }

  /** If every link maps to a joined pair, so does every chain. */
  lemma {:induction false} ChainMaps<T(!new), U(!new)>(links: set<(T, T)>, other: set<(U, U)>, f: T -> U, n: nat,
                                                       a: T, b: T)
    requires forall x, y :: (x, y) in links ==> Joined(other, f(x), f(y))
    requires Chain(links, n, a, b)
    ensures Joined(other, f(a), f(b))
    decreases n
  {
    if n == 0 {
      JoinedRefl(other, f(a));
    } else {
      var c :| Linked(links, a, c) && Chain(links, n - 1, c, b);
      ChainMaps(links, other, f, n - 1, c, b);
      if (c, a) in links { JoinedSym(other, f(c), f(a)); }
      JoinedTrans(other, f(a), f(c), f(b));
    }
  }

  lemma JoinedMaps<T(!new), U(!new)>(links: set<(T, T)>, other: set<(U, U)>, f: T -> U, a: T, b: T)
    requires forall x, y :: (x, y) in links ==> Joined(other, f(x), f(y))
    requires Joined(links, a, b)
    ensures Joined(other, f(a), f(b))
  {
    var n: nat :| Chain(links, n, a, b);
    ChainMaps(links, other, f, n, a, b);
  }

  /** A chain over one more link either does without it or passes through both its ends. */
  ghost predicate Bridged<T(!new)>(links: set<(T, T)>, u: T, v: T, a: T, b: T) {
    || Joined(links, a, b)
    || (Joined(links, a, u) && Joined(links, v, b))
    || (Joined(links, a, v) && Joined(links, u, b))
  }

  lemma {:induction false} ChainBridged<T(!new)>(links: set<(T, T)>, u: T, v: T, n: nat, a: T, b: T)
    requires Chain(links + {(u, v)}, n, a, b)
    ensures Bridged(links, u, v, a, b)
    decreases n
  {
    JoinedRefl(links, a);
    if n != 0 {
      var c :| Linked(links + {(u, v)}, a, c) && Chain(links + {(u, v)}, n - 1, c, b);
      ChainBridged(links, u, v, n - 1, c, b);
      if Linked(links, a, c) { BridgedFrom(links, u, v, a, c, b); }
    }
  }

  lemma BridgedFrom<T(!new)>(links: set<(T, T)>, u: T, v: T, a: T, c: T, b: T)
    requires Linked(links, a, c) && Bridged(links, u, v, c, b)
    ensures Bridged(links, u, v, a, b)
  {
    JoinedLink(links, a, c);
    if Joined(links, c, b) { JoinedTrans(links, a, c, b); }
    if Joined(links, c, u) { JoinedTrans(links, a, c, u); }
    if Joined(links, c, v) { JoinedTrans(links, a, c, v); }
  }

  lemma JoinedBridged<T(!new)>(links: set<(T, T)>, u: T, v: T, a: T, b: T)
    requires Joined(links + {(u, v)}, a, b)
    ensures Bridged(links, u, v, a, b)
  {
    var n: nat :| Chain(links + {(u, v)}, n, a, b);
    ChainBridged(links, u, v, n, a, b);
  }

  lemma UnlinkedAlone<T(!new)>(links: set<(T, T)>, a: T, b: T)
    requires (forall c :: !Linked(links, a, c)) && Joined(links, a, b)
    ensures a == b
  {
    var n: nat :| Chain(links, n, a, b);
  }
}
