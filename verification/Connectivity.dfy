/** Undirected graphs given by a set of links, and what their walks connect. */
module Connectivity {

  ghost predicate Adjacent<T(!new)>(links: set<(T, T)>, a: T, b: T) {
    (a, b) in links || (b, a) in links
  }

  ghost predicate Walk<T(!new)>(links: set<(T, T)>, path: seq<T>, a: T, b: T) {
    && |path| > 0 && path[0] == a && path[|path| - 1] == b
    && forall i :: 0 <= i < |path| - 1 ==> Adjacent(links, path[i], path[i + 1])
  }

  /** Some chain of links leads from `a` to `b`. */
  ghost predicate Connected<T(!new)>(links: set<(T, T)>, a: T, b: T) {
    exists path :: Walk(links, path, a, b)
  }

  lemma Itself<T(!new)>(links: set<(T, T)>, a: T)
    ensures Connected(links, a, a)
  {
    assert Walk(links, [a], a, a);
  }

  lemma OneLink<T(!new)>(links: set<(T, T)>, a: T, b: T)
    requires Adjacent(links, a, b)
    ensures Connected(links, a, b)
  {
    assert Walk(links, [a, b], a, b);
  }

  lemma Joined<T(!new)>(links: set<(T, T)>, a: T, b: T, c: T)
    requires Connected(links, a, b) && Connected(links, b, c)
    ensures Connected(links, a, c)
  {
    var p :| Walk(links, p, a, b);
    var q :| Walk(links, q, b, c);
    var path := p + q[1..];
    forall i | 0 <= i < |path| - 1
      ensures Adjacent(links, path[i], path[i + 1])
    {
      if i < |p| - 1 {
        assert path[i] == p[i] && path[i + 1] == p[i + 1];
      } else {
        assert path[i] == q[i - (|p| - 1)] && path[i + 1] == q[i - (|p| - 1) + 1];
      }
    }
    assert Walk(links, path, a, c);
  }

  lemma Backwards<T(!new)>(links: set<(T, T)>, a: T, b: T)
    ensures Connected(links, a, b) ==> Connected(links, b, a)
  {
    if Connected(links, a, b) {
      var p :| Walk(links, p, a, b);
      var path := seq(|p|, i requires 0 <= i < |p| => p[|p| - 1 - i]);
      forall i | 0 <= i < |path| - 1
        ensures Adjacent(links, path[i], path[i + 1])
      {
        assert Adjacent(links, p[|p| - 2 - i], p[|p| - 2 - i + 1]);
      }
      assert Walk(links, path, b, a);
    }
  }

  lemma MoreLinks<T(!new)>(links: set<(T, T)>, more: set<(T, T)>, a: T, b: T)
    requires links <= more && Connected(links, a, b)
    ensures Connected(more, a, b)
  {
    var p :| Walk(links, p, a, b);
    assert Walk(more, p, a, b);
  }

  /** What one more link connects: ends that were connected, or that were connected to its two ends. */
  ghost predicate Bridged<T(!new)>(links: set<(T, T)>, u: T, v: T, a: T, b: T) {
    || Connected(links, a, b)
    || (Connected(links, a, u) && Connected(links, v, b))
    || (Connected(links, a, v) && Connected(links, u, b))
  }

  lemma LinkConnects<T(!new)>(links: set<(T, T)>, u: T, v: T, a: T, b: T)
    ensures Connected(links + {(u, v)}, a, b) <==> Bridged(links, u, v, a, b)
  {
    var more := links + {(u, v)};
    if Connected(more, a, b) {
      var path :| Walk(more, path, a, b);
      WalkBridged(links, u, v, path, a, b);
    }
    if Bridged(links, u, v, a, b) {
      BridgedConnected(links, u, v, a, b);
    }
  }

  lemma BridgedConnected<T(!new)>(links: set<(T, T)>, u: T, v: T, a: T, b: T)
    requires Bridged(links, u, v, a, b)
    ensures Connected(links + {(u, v)}, a, b)
  {
    hide Connected;
    var more := links + {(u, v)};
    OneLink(more, u, v);
    OneLink(more, v, u);
    if Connected(links, a, b) {
      MoreLinks(links, more, a, b);
    } else {
      var (x, y) := if Connected(links, a, u) && Connected(links, v, b) then (u, v) else (v, u);
      Crossing(links, more, a, x, y, b);
    }
  }

  lemma Crossing<T(!new)>(links: set<(T, T)>, more: set<(T, T)>, a: T, x: T, y: T, b: T)
    requires links <= more && Connected(links, a, x) && Connected(more, x, y) && Connected(links, y, b)
    ensures Connected(more, a, b)
  {
    hide Connected;
    MoreLinks(links, more, a, x);
    MoreLinks(links, more, y, b);
    Joined(more, a, x, y);
    Joined(more, a, y, b);
  }

  lemma {:induction false} WalkBridged<T(!new)>(links: set<(T, T)>, u: T, v: T, path: seq<T>, a: T, b: T)
    requires Walk(links + {(u, v)}, path, a, b)
    ensures Bridged(links, u, v, a, b)
    decreases |path|
  {
    hide Connected;
    if |path| == 1 {
      Itself(links, a);
    } else {
      var m := path[|path| - 2];
      WalkBridged(links, u, v, path[..|path| - 1], a, m);
      assert Adjacent(links + {(u, v)}, path[|path| - 2], path[|path| - 2 + 1]);
      StepBridged(links, u, v, a, m, b);
    }
  }

  lemma StepBridged<T(!new)>(links: set<(T, T)>, u: T, v: T, a: T, m: T, b: T)
    requires Bridged(links, u, v, a, m) && Adjacent(links + {(u, v)}, m, b)
    ensures Bridged(links, u, v, a, b)
  {
    hide Connected;
    Itself(links, b);
    if Adjacent(links, m, b) {
      OneLink(links, m, b);
      if Connected(links, a, m) {
        Joined(links, a, m, b);
      } else if Connected(links, a, u) && Connected(links, v, m) {
        Joined(links, v, m, b);
      } else {
        Joined(links, u, m, b);
      }
    }
  }

  /** A node no link touches is connected to itself only. */
  lemma Isolated<T(!new)>(links: set<(T, T)>, x: T, b: T)
    requires forall l :: l in links ==> l.0 != x && l.1 != x
    ensures Connected(links, x, b) <==> x == b
  {
    if Connected(links, x, b) {
      var path :| Walk(links, path, x, b);
      assert |path| > 1 ==> Adjacent(links, path[0], path[0 + 1]);
    }
    Itself(links, x);
  }

  /** Walks do not leave a set that no link leaves. */
  lemma StaysInside<T(!new)>(links: set<(T, T)>, inside: set<T>, a: T, b: T)
    requires forall l :: l in links ==> (l.0 in inside <==> l.1 in inside)
    requires Connected(links, a, b)
    ensures a in inside <==> b in inside
  {
    var path :| Walk(links, path, a, b);
    WalkStays(links, inside, path, a, b);
  }

  lemma {:induction false} WalkStays<T(!new)>(links: set<(T, T)>, inside: set<T>, path: seq<T>, a: T, b: T)
    requires forall l :: l in links ==> (l.0 in inside <==> l.1 in inside)
    requires Walk(links, path, a, b)
    ensures a in inside <==> b in inside
    decreases |path|
  {
    if |path| > 1 {
      assert Adjacent(links, path[|path| - 2], path[|path| - 2 + 1]);
      WalkStays(links, inside, path[..|path| - 1], a, path[|path| - 2]);
    }
  }
}
