/**
 The two topologies the servers are started in, and what they mean for says.

 On the H no say is handled twice, since it is a forest; on the grid every
 server has at least two neighbours, so once joins have drained no say ever does.
*/
module Topologies {
  import opened Addresses
  import opened Graphs
  import opened JoinFlood
  import opened Protocol
  import opened Pruning
  import opened Rounds
  import opened SayFlood
  import opened SayRound

  function Local(port: nat): Addr {
    Addr("127.0.0.1", port)
  }

  const H_SHAPE: Graph := map[
    Local(4000) := {Local(4001)},
    Local(4001) := {Local(4000), Local(4002), Local(4003)},
    Local(4002) := {Local(4001)},
    Local(4003) := {Local(4001), Local(4005)},
    Local(4004) := {Local(4005)},
    Local(4005) := {Local(4004), Local(4003), Local(4006)},
    Local(4006) := {Local(4005)}
  ]

  const GRID: Graph := map[
    Local(4000) := {Local(4001), Local(4003)},
    Local(4001) := {Local(4000), Local(4002), Local(4004)},
    Local(4002) := {Local(4001), Local(4005)},
    Local(4003) := {Local(4000), Local(4004), Local(4006)},
    Local(4004) := {Local(4001), Local(4003), Local(4005), Local(4007)},
    Local(4005) := {Local(4002), Local(4004), Local(4008)},
    Local(4006) := {Local(4003), Local(4007)},
    Local(4007) := {Local(4006), Local(4004), Local(4008)},
    Local(4008) := {Local(4005), Local(4007)}
  ]

  // ---------------------------------------------------------------- the H

  // Neighbours have different ranks.
  ghost predicate Sloped(g: Graph, rank: map<Addr, nat>) {
    forall u, v {:trigger Edge(g, u, v)} :: Edge(g, u, v) ==> u in rank && v in rank && rank[u] != rank[v]
  }

  // No server has two neighbours of lower rank.
  ghost predicate Ranked(g: Graph, rank: map<Addr, nat>) {
    && Sloped(g, rank)
    && (forall u, v, w {:trigger Edge(g, u, v), Edge(g, u, w)} ::
          Edge(g, u, v) && Edge(g, u, w) && rank[v] < rank[u] && rank[w] < rank[u] ==> v == w)
  }

  lemma {:induction false} Highest(c: seq<Addr>, rank: map<Addr, nat>, n: nat) returns (i: nat)
    requires 1 < n <= |c| && forall k :: 0 < k < n ==> c[k] in rank
    ensures 0 < i < n && forall k :: 0 < k < n ==> rank[c[k]] <= rank[c[i]]
    decreases n
  {
    if n == 2 {
      i := 1;
    } else {
      i := Highest(c, rank, n - 1);
      if rank[c[n - 1]] > rank[c[i]] {
        i := n - 1;
      }
    }
  }

  // The highest server of a cycle has two lower neighbours.
  lemma TwoBelow(g: Graph, rank: map<Addr, nat>, c: seq<Addr>) returns (u: Addr, v: Addr, w: Addr)
    requires Symmetric(g) && Sloped(g, rank) && Cycle(g, c)
    ensures Edge(g, u, v) && Edge(g, u, w) && v != w && rank[v] < rank[u] && rank[w] < rank[u]
  {
    forall k | 0 < k < |c| ensures Edge(g, c[k - 1], c[k]) && Edge(g, c[k], c[k - 1]) && c[k] in rank {
      assert Hop(g, c, k);
    }
    var last := |c| - 1;
    var i := Highest(c, rank, |c|);
    var next := if i == last then 1 else i + 1;
    assert c[1..][next - 1] == c[next];
    if i == 1 {
      assert c[1..][last - 1] == c[0];
    } else {
      assert c[1..][i - 2] == c[i - 1];
    }
    u, v, w := c[i], c[i - 1], c[next];
  }

  lemma RankedAcyclic(g: Graph, rank: map<Addr, nat>)
    requires Symmetric(g) && Ranked(g, rank)
    ensures Acyclic(g)
  {
    forall c ensures !Cycle(g, c) {
      if Cycle(g, c) {
        var u, v, w := TwoBelow(g, rank, c);
      }
    }
  }

  /** The H has no cycle. */
  lemma HShapeAcyclic()
    ensures Symmetric(H_SHAPE) && Loopless(H_SHAPE) && Acyclic(H_SHAPE)
  {
    var rank := map[Local(4001) := 0, Local(4000) := 1, Local(4002) := 1, Local(4003) := 1, Local(4005) := 2,
                    Local(4004) := 3, Local(4006) := 3];
    RankedAcyclic(H_SHAPE, rank);
  }

  /** Started as an H, after any number of rounds of any kind, the cluster hands
      every say exactly once to every other server of its origin's component. */
  lemma HShapeSayOnce(c: Cluster, ps: seq<Phase>, step: Step, steps: seq<Step>)
    requires Settled(c) && Topology(c) == H_SHAPE && ProperAll(c, ps)
    requires step.ClientSay? && Allowed(OutcomeAll(c, ps), step)
    requires Run(After(OutcomeAll(c, ps), step), steps) && AllDeliveries(steps)
    requires Drained(End(After(OutcomeAll(c, ps), step), steps))
    ensures
      var r := Opened(OutcomeAll(c, ps), step);
      (forall v :: TimesHandled(steps, v) == if v in r.Component() && v != step.at then 1 else 0)
  {
    HShapeAcyclic();
    EverySayOnce(c, ps, step, steps);
  }

  // ------------------------------------------------------------- the grid

  ghost predicate Meshed(g: Graph) {
    forall u :: u in g ==> |g[u]| >= 2
  }

  lemma GridSymmetric()
    ensures Symmetric(GRID) && Loopless(GRID)
  {
  }

  lemma GridMeshed()
    ensures Meshed(GRID)
  {
    forall u | u in GRID ensures exists a, b :: a in GRID[u] && b in GRID[u] && a != b {
    }
    forall u | u in GRID ensures |GRID[u]| >= 2 {
      var a, b :| a in GRID[u] && b in GRID[u] && a != b;
      SubsetSize({a, b}, GRID[u]);
    }
  }

  lemma JoinedGraph(c: Cluster, joins: seq<Step>, chan: string)
    requires WellFormed(c) && Drained(c) && Listing(c, chan) == map[]
    requires Run(c, joins) && JoinRun(c, joins) && Drained(End(c, joins))
    ensures Symmetric(Listing(End(c, joins), chan))
    ensures forall s :: s in Listing(End(c, joins), chan) ==> s in c.servers
    ensures forall s :: s in Listing(End(c, joins), chan) ==> Listing(End(c, joins), chan)[s] == c.servers[s].neighbours
  {
    hide Allowed, After, Run, End;
    var g, from := Listing(End(c, joins), chan), Joiners(joins, chan);
    JoinsConverge(c, joins, chan);
    forall s | s in g ensures Holds(End(c, joins), s, chan) && s in c.servers && g[s] == c.servers[s].neighbours {
    }
    forall s, t | Edge(g, s, t) ensures Edge(g, t, s) {
      assert Holds(End(c, joins), s, chan);
      assert Edge(Topology(c), s, t) && Edge(Topology(c), t, s);
      var j :| j in from && Reaches(Topology(c), j, s);
      ReachesSnoc(Topology(c), j, s, t);
      assert ReachedFrom(Topology(c), from, t);
      assert Holds(End(c, joins), t, chan);
    }
  }

  lemma JoinedIsSettled(c: Cluster, joins: seq<Step>)
    requires WellFormed(c) && Drained(c) && forall chan :: Listing(c, chan) == map[]
    requires Run(c, joins) && JoinRun(c, joins) && Drained(End(c, joins))
    ensures Settled(End(c, joins))
  {
    RunKeepsWellFormed(c, joins);
    forall chan ensures Symmetric(Listing(End(c, joins), chan)) {
      JoinedGraph(c, joins, chan);
    }
  }

  /** Where every server has at least two neighbours, as on the grid, no say on a
      channel that clients have joined ever drains. */
  lemma MeshedNeverDrains(c: Cluster, joins: seq<Step>, say: Step, steps: seq<Step>)
    requires WellFormed(c) && Drained(c) && (forall chan :: Listing(c, chan) == map[]) && Meshed(Topology(c))
    requires Run(c, joins) && JoinRun(c, joins) && Drained(End(c, joins))
    requires say.ClientSay? && Allowed(End(c, joins), say)
    requires Run(After(End(c, joins), say), steps) && AllDeliveries(steps)
    ensures !Drained(End(After(End(c, joins), say), steps))
  {
    hide WellFormed, Allowed, After;
    JoinedIsSettled(c, joins);
    JoinedGraph(c, joins, say.chan);
    forall v | v in Listing(End(c, joins), say.chan) ensures |Listing(End(c, joins), say.chan)[v]| >= 2 {
      assert |Topology(c)[v]| >= 2;
    }
    GridNeverDrains(End(c, joins), say, steps);
  }

  /** So on the grid. */
  lemma GridSaysNeverDrain(c: Cluster, joins: seq<Step>, say: Step, steps: seq<Step>)
    requires WellFormed(c) && Drained(c) && (forall chan :: Listing(c, chan) == map[]) && Topology(c) == GRID
    requires Run(c, joins) && JoinRun(c, joins) && Drained(End(c, joins))
    requires say.ClientSay? && Allowed(End(c, joins), say)
    requires Run(After(End(c, joins), say), steps) && AllDeliveries(steps)
    ensures !Drained(End(After(End(c, joins), say), steps))
  {
    hide WellFormed, Allowed, After, Run, End;
    GridMeshed();
    MeshedNeverDrains(c, joins, say, steps);
  }
}
