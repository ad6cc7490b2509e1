/** Placing things on numbered nodes by joining two at a time: when the nodes stay exactly the chains of links. */
module Placements {
  import opened Prelude
  import opened Chains

  /** Things that have a place share it exactly when a chain joins them. */
  ghost predicate Faithful<T(!new)>(links: set<(T, T)>, place: T -> Option<nat>) {
    forall x, y :: place(x).Some? && place(y).Some? ==> (place(x) == place(y) <==> Joined(links, x, y))
  }

  /** Things that share a place are joined by a chain. */
  ghost predicate Sound<T(!new)>(links: set<(T, T)>, place: T -> Option<nat>) {
    forall x, y :: place(x).Some? && place(x) == place(y) ==> Joined(links, x, y)
  }

  /** Joining u and v puts x on their common node: x is one of them, or has the place of one of them. */
  predicate Gathered<T(==)>(place: T -> Option<nat>, u: T, v: T, x: T) {
    x == u || x == v || (place(x).Some? && (place(x) == place(u) || place(x) == place(v)))
  }

  /** Whatever a chain reaches from u or v and has a place is on the node of one of the two. */
  ghost predicate Harmless<T(!new)>(links: set<(T, T)>, place: T -> Option<nat>, u: T, v: T) {
    forall x :: place(x).Some? && (Joined(links, u, x) || Joined(links, v, x)) ==> Gathered(place, u, v, x)
  }

  /** u and v come together on node n, which is new or the node of one of them; nothing else moves. */
  ghost predicate Gathers<T(!new)>(place: T -> Option<nat>, place': T -> Option<nat>, u: T, v: T, n: nat) {
    && (forall x :: place'(x).Some? ==> place'(x) == if Gathered(place, u, v, x) then Some(n) else place(x))
    && Anchored(place, place', u, v, n)
  }

  /** One of u and v ends up on n, which was nobody else's node, and whatever was on neither of their nodes stays. */
  ghost predicate Anchored<T(!new)>(place: T -> Option<nat>, place': T -> Option<nat>, u: T, v: T, n: nat) {
    && (forall x :: place(x).Some? && !Gathered(place, u, v, x) ==> place'(x) == place(x) && place(x) != Some(n))
    && (place'(u) == Some(n) || place'(v) == Some(n))
  }

  lemma GatheredJoined<T(!new)>(links: set<(T, T)>, place: T -> Option<nat>, u: T, v: T, x: T)
    requires Sound(links, place) && Gathered(place, u, v, x)
    ensures Joined(links + {(u, v)}, u, x)
  {
    var more := links + {(u, v)};
    JoinedRefl(more, u);
    JoinedLink(more, u, v);
    if x != u && x != v {
      var w := if place(x) == place(u) then u else v;
      JoinedMono(links, more, w, x);
      JoinedTrans(more, u, w, x);
    }
  }

  /** Things on one node after the join are joined by chains, harmless or not. */
  lemma SamePlaceJoined<T(!new)>(links: set<(T, T)>, place: T -> Option<nat>, place': T -> Option<nat>,
                                 u: T, v: T, n: nat, x: T, y: T)
    requires Sound(links, place) && Gathers(place, place', u, v, n)
    requires place'(x).Some? && place'(x) == place'(y)
    ensures Joined(links + {(u, v)}, x, y)
  {
    var more := links + {(u, v)};
    if Gathered(place, u, v, x) {
      GatheredJoined(links, place, u, v, x);
      GatheredJoined(links, place, u, v, y);
      JoinedSym(more, u, x);
      JoinedTrans(more, x, u, y);
    } else {
      JoinedMono(links, more, x, y);
    }
  }

  lemma SoundKeeps<T(!new)>(links: set<(T, T)>, place: T -> Option<nat>, place': T -> Option<nat>, u: T, v: T, n: nat)
    requires Sound(links, place) && Gathers(place, place', u, v, n)
    ensures Sound(links + {(u, v)}, place')
  {
    forall x, y | place'(x).Some? && place'(x) == place'(y) ensures Joined(links + {(u, v)}, x, y) {
      SamePlaceJoined(links, place, place', u, v, n, x, y);
    }
  }

  lemma JoinedSamePlace<T(!new)>(links: set<(T, T)>, place: T -> Option<nat>, place': T -> Option<nat>,
                                 u: T, v: T, n: nat, x: T, y: T)
    requires Faithful(links, place) && Gathers(place, place', u, v, n) && Harmless(links, place, u, v)
    requires place'(x).Some? && place'(y).Some? && Joined(links + {(u, v)}, x, y)
    ensures place'(x) == place'(y)
  {
    JoinedBridged(links, u, v, x, y);
    if Joined(links, x, y) { JoinedSym(links, x, y); }
    if Joined(links, x, u) { JoinedSym(links, x, u); }
    if Joined(links, x, v) { JoinedSym(links, x, v); }
  }

  lemma HarmlessKeeps<T(!new)>(links: set<(T, T)>, place: T -> Option<nat>, place': T -> Option<nat>,
                               u: T, v: T, n: nat)
    requires Faithful(links, place) && Gathers(place, place', u, v, n) && Harmless(links, place, u, v)
    ensures Faithful(links + {(u, v)}, place')
  {
    forall x, y | place'(x).Some? && place'(y).Some?
      ensures place'(x) == place'(y) <==> Joined(links + {(u, v)}, x, y)
    {
      if place'(x) == place'(y) { SamePlaceJoined(links, place, place', u, v, n, x, y); }
      if Joined(links + {(u, v)}, x, y) { JoinedSamePlace(links, place, place', u, v, n, x, y); }
    }
  }

  /** A join that is not harmless leaves two things apart that a chain joins. */
  lemma FaithfulNeedsHarmless<T(!new)>(links: set<(T, T)>, more: set<(T, T)>, place: T -> Option<nat>,
                                       place': T -> Option<nat>, u: T, v: T, n: nat)
    requires links + {(u, v)} <= more && Anchored(place, place', u, v, n) && Faithful(more, place')
    ensures Harmless(links, place, u, v)
  {
    forall x | place(x).Some? && (Joined(links, u, x) || Joined(links, v, x)) ensures Gathered(place, u, v, x) {
      var w := if Joined(links, u, x) then u else v;
      var z := if place'(u) == Some(n) then u else v;
      JoinedMono(links, more, w, x);
      JoinedRefl(more, z);
      if z != w { JoinedLink(more, z, w); }
      JoinedTrans(more, z, w, x);
    }
  }

  /** Linking x to y, which is on its node already or takes its place there for the first time. */
  lemma LeafSound<T(!new)>(links: set<(T, T)>, place: T -> Option<nat>, place': T -> Option<nat>, x: T, y: T, n: nat)
    requires Sound(links, place) && place(x) == Some(n) && place'(y) == Some(n)
    requires place(y) == Some(n) || place(y).None?
    requires forall z :: z != y ==> place'(z) == place(z)
    ensures Sound(links + {(x, y)}, place')
  {
    SoundKeeps(links, place, place', x, y, n);
  }

  lemma LeafKeeps<T(!new)>(links: set<(T, T)>, place: T -> Option<nat>, place': T -> Option<nat>, x: T, y: T, n: nat)
    requires Faithful(links, place) && place(x) == Some(n) && place'(y) == Some(n)
    requires place(y) == Some(n) || (place(y).None? && forall z :: !Linked(links, y, z))
    requires forall z :: z != y ==> place'(z) == place(z)
    ensures Faithful(links + {(x, y)}, place')
  {
    forall z | place(z).Some? && (Joined(links, x, z) || Joined(links, y, z)) ensures Gathered(place, x, y, z) {
      if place(y).None? && Joined(links, y, z) { UnlinkedAlone(links, y, z); }
    }
    HarmlessKeeps(links, place, place', x, y, n);
  }
}
