/**
 The graph theory behind channel floods.

 A graph maps each server holding a channel to the servers it lists. Walks,
 reachability and cycles are the textbook notions; the proofs go through
 non-backtracking walks (never `.. u, v, u ..`), which are exactly the routes a
 say can take, because a server never sends a say back where it came from.
*/
module Graphs {
  import opened Addresses
  import opened Lists

  type Graph = map<Addr, set<Addr>>

  predicate Edge(g: Graph, u: Addr, v: Addr) {
    u in g && v in g[u]
  }

  ghost predicate Symmetric(g: Graph) {
    forall u, v {:trigger Edge(g, u, v)} :: Edge(g, u, v) ==> Edge(g, v, u)
  }

  ghost predicate Loopless(g: Graph) {
    forall u {:trigger Edge(g, u, u)} :: !Edge(g, u, u)
  }

  ghost predicate Subgraph(g: Graph, h: Graph) {
    forall u, v {:trigger Edge(g, u, v)} :: Edge(g, u, v) ==> Edge(h, u, v)
  }

  ghost predicate Hop(g: Graph, w: seq<Addr>, i: int)
    requires 0 < i < |w|
  {
    Edge(g, w[i - 1], w[i])
  }

  ghost predicate Walk(g: Graph, w: seq<Addr>) {
    |w| > 0 && forall i {:trigger Hop(g, w, i)} :: 0 < i < |w| ==> Hop(g, w, i)
  }

  ghost predicate WalkBetween(g: Graph, x: Addr, w: seq<Addr>, y: Addr) {
    Walk(g, w) && w[0] == x && w[|w| - 1] == y
  }

  ghost predicate Reaches(g: Graph, x: Addr, y: Addr) {
    exists w :: WalkBetween(g, x, w, y)
  }

  // A closed walk over at least three distinct servers.
  ghost predicate Cycle(g: Graph, c: seq<Addr>) {
    |c| >= 4 && Walk(g, c) && c[0] == c[|c| - 1] && Distinct(c[1..])
  }

  ghost predicate Acyclic(g: Graph) {
    forall c :: !Cycle(g, c)
  }

  // No cycle in the component of `o`.
  ghost predicate AcyclicAt(g: Graph, o: Addr) {
    forall c :: Cycle(g, c) ==> !Reaches(g, o, c[0])
  }

  // ------------------------------------------------ non-backtracking walks

  ghost predicate Onward(w: seq<Addr>, i: int)
    requires 1 < i < |w|
  {
    w[i - 2] != w[i]
  }

  ghost predicate Straight(g: Graph, w: seq<Addr>) {
    Walk(g, w) && forall i {:trigger Onward(w, i)} :: 1 < i < |w| ==> Onward(w, i)
  }

  lemma StraightSlice(g: Graph, w: seq<Addr>, a: nat, b: nat)
    requires Straight(g, w) && a < b <= |w|
    ensures Straight(g, w[a..b])
  {
    var s := w[a..b];
    forall i | 0 < i < |s| ensures Hop(g, s, i) {
      assert Hop(g, w, i + a);
    }
    forall i | 1 < i < |s| ensures Onward(s, i) {
      assert Onward(w, i + a);
    }
  }

  lemma StraightSnoc(g: Graph, w: seq<Addr>, x: Addr)
    requires Straight(g, w) && Edge(g, w[|w| - 1], x)
    requires |w| > 1 ==> w[|w| - 2] != x
    ensures Straight(g, w + [x])
  {
    var s := w + [x];
    forall i | 0 < i < |s| ensures Hop(g, s, i) {
      if i < |w| {
        assert Hop(g, w, i);
      }
    }
    forall i | 1 < i < |s| ensures Onward(s, i) {
      if i < |w| {
        assert Onward(w, i);
      }
    }
  }

  // Two straight walks that meet end to start join straight, if the junction
  // does not turn back.
  lemma StraightJoin(g: Graph, p: seq<Addr>, q: seq<Addr>)
    requires Straight(g, p) && Straight(g, q) && p[|p| - 1] == q[0]
    requires |p| > 1 && |q| > 1 ==> p[|p| - 2] != q[1]
    ensures Straight(g, p + q[1..])
  {
    var s := p + q[1..];
    var d := |p| - 1;
    forall i | 0 < i < |s| ensures Hop(g, s, i) {
      if i < |p| {
        assert Hop(g, p, i);
      } else {
        assert Hop(g, q, i - d);
      }
    }
    forall i | 1 < i < |s| ensures Onward(s, i) {
      if i < |p| {
        assert Onward(p, i);
      } else if i > |p| {
        assert Onward(q, i - d);
      }
    }
  }

  function Reversed(w: seq<Addr>): (r: seq<Addr>)
    ensures |r| == |w|
    ensures forall i :: 0 <= i < |w| ==> r[i] == w[|w| - 1 - i]
  {
    seq(|w|, i requires 0 <= i < |w| => w[|w| - 1 - i])
  }

  lemma StraightReversed(g: Graph, w: seq<Addr>)
    requires Symmetric(g) && Straight(g, w)
    ensures Straight(g, Reversed(w))
  {
    var r := Reversed(w);
    forall i | 0 < i < |r| ensures Hop(g, r, i) {
      assert Hop(g, w, |w| - i);
      assert Edge(g, w[|w| - 1 - i], w[|w| - i]);
    }
    forall i | 1 < i < |r| ensures Onward(r, i) {
      assert Onward(w, |w| + 1 - i);
    }
  }

  lemma WalkSlice(g: Graph, w: seq<Addr>, a: nat, b: nat)
    requires Walk(g, w) && a < b <= |w|
    ensures Walk(g, w[a..b])
  {
    forall i | 0 < i < b - a ensures Hop(g, w[a..b], i) {
      assert Hop(g, w, i + a);
    }
  }

  // Reachability does not need detours: some straight walk does it too.
  lemma {:induction false} Straighten(g: Graph, x: Addr, w: seq<Addr>, y: Addr) returns (s: seq<Addr>)
    requires WalkBetween(g, x, w, y)
    ensures Straight(g, s) && s[0] == x && s[|s| - 1] == y
    decreases |w|
  {
    if |w| == 1 {
      s := w;
    } else {
      var u := w[|w| - 2];
      WalkSlice(g, w, 0, |w| - 1);
      assert w[..|w| - 1] == w[0..|w| - 1];
      s := Straighten(g, x, w[..|w| - 1], u);
      assert Hop(g, w, |w| - 1);
      if |s| > 1 && s[|s| - 2] == y {
        StraightSlice(g, s, 0, |s| - 1);
        s := s[0..|s| - 1];
      } else {
        StraightSnoc(g, s, y);
        s := s + [y];
      }
    }
  }

  lemma ReachesSelf(g: Graph, x: Addr)
    ensures Reaches(g, x, x)
  {
    assert WalkBetween(g, x, [x], x);
  }

  lemma ReachesSnoc(g: Graph, x: Addr, u: Addr, v: Addr)
    requires Reaches(g, x, u) && Edge(g, u, v)
    ensures Reaches(g, x, v)
  {
    var w :| WalkBetween(g, x, w, u);
    var s := w + [v];
    forall i | 0 < i < |s| ensures Hop(g, s, i) {
      if i < |w| {
        assert Hop(g, w, i);
      }
    }
    assert WalkBetween(g, x, s, v);
  }

  lemma {:induction false} ReachesTrans(g: Graph, x: Addr, w: seq<Addr>)
    requires Walk(g, w) && Reaches(g, x, w[0])
    ensures Reaches(g, x, w[|w| - 1])
    decreases |w|
  {
    hide Reaches;
    if |w| > 1 {
      var n := |w| - 1;
      WalkSlice(g, w, 0, n);
      ReachesTrans(g, x, w[0..n]);
      assert Hop(g, w, n);
      ReachesSnoc(g, x, w[n - 1], w[n]);
    }
  }

  lemma StraightReaches(g: Graph, w: seq<Addr>, i: nat)
    requires Walk(g, w) && i < |w|
    ensures Reaches(g, w[0], w[i])
  {
    WalkSlice(g, w, 0, i + 1);
    assert WalkBetween(g, w[0], w[0..i + 1], w[i]);
  }

  // ------------------------------------------------------ acyclic graphs

  // The stretch of a straight walk between a server and its return is a cycle,
  // when nothing else repeats.
  lemma ReturnIsCycle(g: Graph, w: seq<Addr>, j: nat)
    requires Loopless(g) && Straight(g, w) && j < |w| - 1 && w[j] == w[|w| - 1]
    requires forall a, b :: 0 <= a < b < |w| - 1 ==> w[a] != w[b]
    ensures Cycle(g, w[j..])
  {
    var n := |w| - 1;
    assert Hop(g, w, n);
    assert n > 1 ==> Onward(w, n);
    var c := w[j..];
    assert c == w[j..n + 1];
    WalkSlice(g, w, j, n + 1);
    forall a, b | 0 <= a < b < n - j ensures c[1..][a] != c[1..][b] {
      assert c[1..][a] == w[j + 1 + a] && c[1..][b] == w[j + 1 + b];
    }
  }

  // In a component without cycles a straight walk never revisits a server.
  lemma {:induction false} StraightDistinct(g: Graph, w: seq<Addr>)
    requires Symmetric(g) && Loopless(g) && Straight(g, w) && AcyclicAt(g, w[0])
    ensures Distinct(w)
    decreases |w|
  {
    var n := |w| - 1;
    if n > 0 {
      StraightSlice(g, w, 0, n);
      StraightDistinct(g, w[0..n]);
      forall i, j | 0 <= i < j < n ensures w[i] != w[j] {
        assert w[0..n][i] != w[0..n][j];
      }
      forall j | 0 <= j < n ensures w[j] != w[n] {
        if w[j] == w[n] {
          ReturnIsCycle(g, w, j);
          StraightReaches(g, w, j);
        }
      }
    }
  }

  // ... and two straight walks with the same ends are the same walk.
  lemma {:induction false} StraightUnique(g: Graph, p: seq<Addr>, q: seq<Addr>)
    requires Symmetric(g) && Loopless(g) && Straight(g, p) && Straight(g, q)
    requires p[0] == q[0] && p[|p| - 1] == q[|q| - 1] && AcyclicAt(g, p[0])
    ensures p == q
    decreases |p| + |q|
  {
    StraightDistinct(g, p);
    StraightDistinct(g, q);
    if |p| > 1 && |q| > 1 {
      if p[|p| - 2] == q[|q| - 2] {
        StraightSlice(g, p, 0, |p| - 1);
        StraightSlice(g, q, 0, |q| - 1);
        StraightUnique(g, p[0..|p| - 1], q[0..|q| - 1]);
        assert p == p[0..|p| - 1] + [p[|p| - 1]];
        assert q == q[0..|q| - 1] + [q[|q| - 1]];
      } else {
        var r := Reversed(q);
        StraightReversed(g, q);
        assert r[1] == q[|q| - 2];
        StraightJoin(g, p, r);
        var s := p + r[1..];
        assert s[|s| - 1] == r[|r| - 1] == q[0] == s[0];
        StraightDistinct(g, s);
      }
    }
  }

  // ---------------------------------------- the direction of a flood from o

  // `u` comes just before `v` on a straight walk from `o`.
  ghost predicate Ahead(g: Graph, o: Addr, u: Addr, v: Addr) {
    exists w :: Straight(g, w) && |w| > 1 && w[0] == o && w[|w| - 2] == u && w[|w| - 1] == v
  }

  lemma AheadStart(g: Graph, o: Addr, v: Addr)
    requires Edge(g, o, v)
    ensures Ahead(g, o, o, v)
  {
    StraightSnoc(g, [o], v);
    assert [o] + [v] == [o, v];
  }

  lemma AheadNext(g: Graph, o: Addr, u: Addr, v: Addr, x: Addr)
    requires Ahead(g, o, u, v) && Edge(g, v, x) && x != u
    ensures Ahead(g, o, v, x)
  {
    var w :| Straight(g, w) && |w| > 1 && w[0] == o && w[|w| - 2] == u && w[|w| - 1] == v;
    StraightSnoc(g, w, x);
    var s := w + [x];
    assert s[0] == o && s[|s| - 2] == v && s[|s| - 1] == x;
  }

  lemma AheadEdge(g: Graph, o: Addr, u: Addr, v: Addr)
    requires Ahead(g, o, u, v)
    ensures Edge(g, u, v) && Reaches(g, o, u) && Reaches(g, o, v)
    ensures u == o || exists t :: Ahead(g, o, t, u) && t != v
  {
    var w :| Straight(g, w) && |w| > 1 && w[0] == o && w[|w| - 2] == u && w[|w| - 1] == v;
    assert Hop(g, w, |w| - 1);
    StraightReaches(g, w, |w| - 2);
    StraightReaches(g, w, |w| - 1);
    if |w| > 2 {
      var s := w[0..|w| - 1];
      StraightSlice(g, w, 0, |w| - 1);
      assert s[|s| - 2] == w[|w| - 3] && s[|s| - 1] == u;
      assert Onward(w, |w| - 1);
      assert Ahead(g, o, w[|w| - 3], u);
    }
  }

  lemma AheadExists(g: Graph, o: Addr, v: Addr) returns (u: Addr)
    requires Reaches(g, o, v) && v != o
    ensures Ahead(g, o, u, v)
  {
    var w :| WalkBetween(g, o, w, v);
    var s := Straighten(g, o, w, v);
    u := s[|s| - 2];
  }

  lemma AheadUnique(g: Graph, o: Addr, t: Addr, u: Addr, v: Addr)
    requires Symmetric(g) && Loopless(g) && AcyclicAt(g, o)
    requires Ahead(g, o, t, v) && Ahead(g, o, u, v)
    ensures t == u && v != o && !Ahead(g, o, v, u)
  {
    hide Straight, Symmetric, Loopless, AcyclicAt;
    var p :| Straight(g, p) && |p| > 1 && p[0] == o && p[|p| - 2] == t && p[|p| - 1] == v;
    var q :| Straight(g, q) && |q| > 1 && q[0] == o && q[|q| - 2] == u && q[|q| - 1] == v;
    StraightUnique(g, p, q);
    StraightDistinct(g, p);
    if Ahead(g, o, v, u) {
      var r :| Straight(g, r) && |r| > 1 && r[0] == o && r[|r| - 2] == v && r[|r| - 1] == u;
      NoWayBack(g, p, r);
    }
  }

  // What lies at the end of one walk does not lie on the way to where it came from.
  lemma NoWayBack(g: Graph, p: seq<Addr>, r: seq<Addr>)
    requires Symmetric(g) && Loopless(g) && Straight(g, p) && Straight(g, r) && AcyclicAt(g, p[0]) && Distinct(p)
    requires |p| > 1 && |r| > 1 && r[0] == p[0] && r[|r| - 1] == p[|p| - 2]
    ensures r[|r| - 2] != p[|p| - 1]
  {
    hide Symmetric, Loopless, AcyclicAt;
    StraightSlice(g, p, 0, |p| - 1);
    StraightUnique(g, p[0..|p| - 1], r);
  }

  // A property that holds at `o` and passes along every flood edge holds
  // everywhere `o` reaches.
  lemma {:induction false} ReachInduction(g: Graph, o: Addr, v: Addr, done: set<Addr>)
    requires o in done && Reaches(g, o, v)
    requires forall t, u :: Ahead(g, o, t, u) && t in done ==> u in done
    ensures v in done
  {
    var w :| WalkBetween(g, o, w, v);
    var s := Straighten(g, o, w, v);
    ReachInductionAlong(g, s, done);
  }

  lemma {:induction false} ReachInductionAlong(g: Graph, s: seq<Addr>, done: set<Addr>)
    requires Straight(g, s) && s[0] in done
    requires forall t, u :: Ahead(g, s[0], t, u) && t in done ==> u in done
    ensures s[|s| - 1] in done
    decreases |s|
  {
    if |s| > 1 {
      StraightSlice(g, s, 0, |s| - 1);
      ReachInductionAlong(g, s[0..|s| - 1], done);
      assert Ahead(g, s[0], s[|s| - 2], s[|s| - 1]);
    }
  }

  // --------------------------------------------------------- taking away

  lemma SubgraphWalk(g: Graph, h: Graph, w: seq<Addr>)
    requires Subgraph(g, h) && Walk(g, w)
    ensures Walk(h, w)
  {
    forall i | 0 < i < |w| ensures Hop(h, w, i) {
      assert Hop(g, w, i);
    }
  }

  lemma SubgraphReaches(g: Graph, h: Graph, x: Addr, y: Addr)
    requires Subgraph(g, h) && Reaches(g, x, y)
    ensures Reaches(h, x, y)
  {
    var w :| WalkBetween(g, x, w, y);
    SubgraphWalk(g, h, w);
    assert WalkBetween(h, x, w, y);
  }

  lemma SubgraphAcyclic(g: Graph, h: Graph)
    requires Subgraph(g, h) && Acyclic(h)
    ensures Acyclic(g)
  {
    forall c ensures !Cycle(g, c) {
      if Cycle(g, c) {
        SubgraphWalk(g, h, c);
        assert Cycle(h, c);
      }
    }
  }

  // Servers that list at most one other can all be taken away at once without
  // separating any two that stay.
  lemma RemoveLeaves(g: Graph, h: Graph, gone: set<Addr>, x: Addr, y: Addr)
    requires Symmetric(g)
    requires forall n :: n in gone && n in g ==> |g[n]| <= 1
    requires forall u, v :: Edge(g, u, v) && u !in gone && v !in gone ==> Edge(h, u, v)
    requires x !in gone && y !in gone && Reaches(g, x, y)
    ensures Reaches(h, x, y)
  {
    var w0 :| WalkBetween(g, x, w0, y);
    var w := Straighten(g, x, w0, y);
    forall i | 0 <= i < |w| ensures w[i] !in gone {
      if 0 < i < |w| - 1 {
        assert Hop(g, w, i) && Hop(g, w, i + 1) && Onward(w, i + 1);
        assert Edge(g, w[i - 1], w[i]) && Edge(g, w[i], w[i - 1]);
        var two := {w[i - 1], w[i + 1]};
        if |g[w[i]]| <= 1 {
          SubsetSize(two, g[w[i]]);
          assert false;
        }
      }
    }
    forall i | 0 < i < |w| ensures Hop(h, w, i) {
      assert Hop(g, w, i);
      assert Edge(g, w[i - 1], w[i]);
    }
    assert WalkBetween(h, x, w, y);
  }

  lemma {:induction false} SubsetSize<T>(a: set<T>, b: set<T>)
    requires a <= b
    ensures |a| <= |b|
  {
    assert b == a + (b - a);
  }

  // ------------------------------------------------- cycles and long walks

  // A cycle somewhere in o's component gives a straight walk from `o` that
  // comes back to a server it has visited.
  lemma CycleRevisits(g: Graph, o: Addr, c: seq<Addr>) returns (s: seq<Addr>)
    requires Symmetric(g) && Loopless(g) && Cycle(g, c) && Reaches(g, o, c[0])
    ensures Straight(g, s) && s[0] == o && !Distinct(s)
  {
    var w :| WalkBetween(g, o, w, c[0]);
    var p := Straighten(g, o, w, c[0]);
    var j: nat;
    p, j := FirstContact(g, p, c, |p| - 1, 0);
    CycleStraight(g, c);
    var a, b := c[j..|c|], c[0..j + 1];
    StraightSlice(g, c, j, |c|);
    StraightSlice(g, c, 0, j + 1);
    assert |a| > 1 && a[1] == c[j + 1];
    StraightJoin(g, p, a);
    s := p + a[1..];
    assert s[|s| - 1] == c[0] && s[|s| - 2] == c[|c| - 2];
    if j > 0 {
      assert c[1..][|c| - 3] == c[|c| - 2] && c[1..][0] == c[1];
      StraightJoin(g, s, b);
      s := s + b[1..];
    }
    assert s[|p| - 1] == c[j] == s[|s| - 1];
    assert |p| - 1 < |s| - 1;
  }

  lemma CycleStraight(g: Graph, c: seq<Addr>)
    requires Cycle(g, c)
    ensures Straight(g, c)
  {
    forall i | 1 < i < |c| ensures Onward(c, i) {
      assert c[1..][i - 1] == c[i];
      if i == 2 {
        assert c[1..][|c| - 2] == c[0];
      } else {
        assert c[1..][i - 3] == c[i - 2];
      }
    }
  }

  // Cut a straight walk to a cycle at its first contact with it.
  lemma {:induction false} FirstContact(g: Graph, p: seq<Addr>, c: seq<Addr>, n: nat, j0: nat)
    returns (q: seq<Addr>, j: nat)
    requires Straight(g, p) && n < |p| && j0 < |c| - 1 && p[n] == c[j0]
    ensures Straight(g, q) && q[0] == p[0] && j < |c| - 1 && q[|q| - 1] == c[j]
    ensures |q| > 1 ==> q[|q| - 2] !in c[..|c| - 1]
    decreases n
  {
    if i :| 0 <= i < n && p[i] in c[..|c| - 1] {
      var k :| 0 <= k < |c| - 1 && c[..|c| - 1][k] == p[i];
      q, j := FirstContact(g, p, c, i, k);
    } else {
      StraightSlice(g, p, 0, n + 1);
      q, j := p[0..n + 1], j0;
      if n > 0 {
        assert q[|q| - 2] == p[n - 1];
      }
    }
  }

  // A straight walk that revisits a server can be continued for ever.
  lemma {:induction false} Unending(g: Graph, s: seq<Addr>, n: nat) returns (w: seq<Addr>)
    requires Loopless(g) && Straight(g, s) && !Distinct(s)
    ensures Straight(g, w) && w[0] == s[0] && |w| > n
  {
    var i, j :| 0 <= i < j < |s| && s[i] == s[j];
    var a, b := TightenLoop(g, s, i, j);
    StraightSlice(g, s, 0, b + 1);
    w := s[0..b + 1];
    StraightSlice(g, s, a, b + 1);
    var loop := s[a..b + 1];
    while |w| <= n
      invariant Straight(g, w) && w[0] == s[0] && |w| > 1
      invariant w[|w| - 1] == loop[0] && w[|w| - 2] == s[b - 1]
      decreases n - |w|
    {
      StraightJoin(g, w, loop);
      w := w + loop[1..];
    }
  }

  // Inside a revisit there is one whose two ends leave in different directions.
  lemma {:induction false} TightenLoop(g: Graph, s: seq<Addr>, i: nat, j: nat) returns (a: nat, b: nat)
    requires Loopless(g) && Straight(g, s) && i < j < |s| && s[i] == s[j]
    ensures a + 1 < b < |s| && s[a] == s[b] && s[a + 1] != s[b - 1]
    decreases j - i
  {
    assert Hop(g, s, j);
    assert i + 1 < j && Onward(s, j);
    if s[i + 1] == s[j - 1] {
      a, b := TightenLoop(g, s, i + 1, j - 1);
    } else {
      a, b := i, j;
    }
  }

  lemma Another<T>(s: set<T>, a: T) returns (b: T)
    requires |s| >= 2
    ensures b in s && b != a
  {
    if s - {a} == {} {
      SubsetSize(s, {a});
    }
    b :| b in s - {a};
  }

  // --------------------------------------------------- from leaf to leaf

  // A walk out of a leaf can be continued until it ends at a leaf, perhaps by
  // going round a cycle and back to where it began.
  lemma {:induction false} OutToLeaf(g: Graph, w: seq<Addr>) returns (out: seq<Addr>)
    requires Symmetric(g) && Loopless(g) && Straight(g, w) && |w| > 1 && Distinct(w)
    requires w[0] in g && |g[w[0]]| <= 1
    ensures Straight(g, out) && |out| > 1 && out[0] == w[0]
    ensures out[|out| - 1] in g && |g[out[|out| - 1]]| <= 1
    decreases |g.Keys| - |w|
  {
    var n := |w| - 1;
    assert Hop(g, w, n);
    assert Edge(g, w[n - 1], w[n]) && Edge(g, w[n], w[n - 1]);
    if |g[w[n]]| <= 1 {
      return w;
    }
    var x := Another(g[w[n]], w[n - 1]);
    StraightSnoc(g, w, x);
    if x !in w {
      WalkSize(g, w + [x]);
      out := OutToLeaf(g, w + [x]);
    } else {
      assert Edge(g, w[n], x) && !Edge(g, w[n], w[n]);
      out := BackToStart(g, w, x);
    }
  }

  lemma WalkSize(g: Graph, w: seq<Addr>)
    requires Symmetric(g) && Walk(g, w) && |w| > 1 && Distinct(w)
    ensures |w| <= |g.Keys|
  {
    forall i | 0 <= i < |w| ensures w[i] in g {
      if i > 0 {
        assert Hop(g, w, i);
        assert Edge(g, w[i - 1], w[i]) && Edge(g, w[i], w[i - 1]);
      } else {
        assert Hop(g, w, 1);
      }
    }
    DistinctSize(w);
    SubsetSize(ToSet(w), g.Keys);
  }

  // A straight walk that runs into itself can go back the way it came.
  lemma BackToStart(g: Graph, w: seq<Addr>, x: Addr) returns (out: seq<Addr>)
    requires Symmetric(g) && Straight(g, w + [x]) && |w| > 1 && Distinct(w) && x in w && x != w[|w| - 1]
    requires w[0] in g
    ensures Straight(g, out) && |out| > 1 && out[0] == w[0] == out[|out| - 1]
  {
    var j :| 0 <= j < |w| && w[j] == x;
    var s := w + [x];
    StraightSlice(g, s, 0, j + 1);
    var back := Reversed(s[0..j + 1]);
    StraightReversed(g, s[0..j + 1]);
    if j > 0 {
      assert s[|s| - 2] == w[|w| - 1] && back[1] == w[j - 1];
    }
    StraightJoin(g, s, back);
    out := s + back[1..];
  }
}
