/**
 Every say reaches everybody.

 A channel is whole when any two servers that hold it and that the adjacency
 connects are connected in the channel. Quiet rounds keep channels whole, and so do
 join rounds in which no server is given up on; so on a forest the next say is
 handled exactly once by every connected server that holds the channel.
*/
module Wholeness {
  import opened Addresses
  import opened Graphs
  import opened Heartbeat
  import opened JoinFlood
  import opened Protocol
  import opened Pruning
  import opened Rounds
  import opened SayRound
  import opened Topologies

  ghost predicate Spans(top: Graph, g: Graph) {
    forall x, y {:trigger Reaches(g, x, y)} :: x in g && y in g && Reaches(top, x, y) ==> Reaches(g, x, y)
  }

  ghost predicate Whole(c: Cluster) {
    forall chan {:trigger Listing(c, chan)} :: Spans(Topology(c), Listing(c, chan))
  }

  // ----------------------------------------------------------- quiet rounds

  lemma {:induction false} QuietHolders(c: Cluster, steps: seq<Step>, chan: string)
    requires Settled(c) && Run(c, steps) && AllQuiet(steps)
    ensures Listing(End(c, steps), chan).Keys <= Listing(c, chan).Keys
    decreases |steps|
  {
    hide Allowed, After, Settled, Quiet;
    if steps != [] {
      var n := |steps| - 1;
      QuietHolders(c, steps[..n], chan);
      RunKeepsTidy(c, steps[..n], chan);
      QuietShape(End(c, steps[..n]), steps[n], chan);
    }
  }

  lemma QuietKeepsSpans(c: Cluster, steps: seq<Step>, chan: string)
    requires Settled(c) && Run(c, steps) && AllQuiet(steps) && Drained(End(c, steps))
    requires Spans(Topology(c), Listing(c, chan))
    ensures Spans(Topology(c), Listing(End(c, steps), chan))
  {
    hide Allowed, After, Run, End, Settled, AllQuiet, Reaches, Core;
    var c' := End(c, steps);
    QuietHolders(c, steps, chan);
    DrainedCore(c, steps, chan);
    forall x, y | x in Listing(c', chan) && y in Listing(c', chan) && Reaches(Topology(c), x, y)
      ensures Reaches(Listing(c', chan), x, y)
    {
      assert Reaches(Listing(c, chan), x, y);
      RunKeepsConnected(c, steps, chan, x, y);
    }
  }

  // ------------------------------------------------------------ join rounds

  // From `g0` to `g1` lists grew, and every neighbour of a new server lists it;
  // `g2` is the symmetric closure.
  ghost predicate Grown(top: Graph, g0: Graph, g1: Graph, g2: Graph) {
    && Symmetric(top) && g0.Keys <= g1.Keys == g2.Keys && Subgraph(g0, g2)
    && (forall s, t {:trigger Edge(top, s, t)} :: Edge(top, s, t) && s in g1 && s !in g0 ==> Edge(g1, t, s))
    && (forall s, t {:trigger Edge(g1, t, s)} :: Edge(g1, t, s) ==> Edge(g2, s, t) && Edge(g2, t, s))
  }

  // The last server before the end of the walk that holds the channel.
  lemma {:induction false} LastHolder(w: seq<Addr>, held: set<Addr>, n: nat) returns (j: nat)
    requires n < |w| && w[0] in held
    ensures j <= n && w[j] in held && forall i :: j < i <= n ==> w[i] !in held
    decreases n
  {
    if w[n] in held {
      j := n;
    } else {
      j := LastHolder(w, held, n - 1);
    }
  }

  lemma WalkPart(g: Graph, w: seq<Addr>, a: nat, b: nat)
    requires Walk(g, w) && a < b < |w|
    ensures Reaches(g, w[a], w[b]) && Walk(g, w[0..a + 1]) && Edge(g, w[a], w[a + 1])
  {
    WalkSlice(g, w, a, b + 1);
    assert WalkBetween(g, w[a], w[a..b + 1], w[b]);
    WalkSlice(g, w, 0, a + 1);
    assert Hop(g, w, a + 1);
  }

  // From the last holder on the way to the end: either they are neighbours and one
  // of them is new, or both held the channel before.
  lemma LastStep(top: Graph, g0: Graph, g1: Graph, g2: Graph, w: seq<Addr>, j: nat)
    requires Grown(top, g0, g1, g2) && Spans(top, g0) && Walk(top, w) && j < |w| - 1
    requires w[j] in g1 && w[|w| - 1] in g1 && forall i :: j < i < |w| - 1 ==> w[i] !in g1
    ensures Reaches(g2, w[j], w[|w| - 1])
  {
    var x, y := w[j], w[|w| - 1];
    WalkPart(top, w, j, |w| - 1);
    WalkPart(top, w, |w| - 2, |w| - 1);
    assert Edge(top, w[j + 1], x) && Edge(top, y, w[|w| - 2]);
    if x in g0 && y in g0 {
      assert Reaches(g0, x, y);
      SubgraphReaches(g0, g2, x, y);
    } else {
      OneIsNew(top, g0, g1, g2, w, j);
      ReachesSelf(g2, x);
      ReachesSnoc(g2, x, x, y);
    }
  }

  lemma OneIsNew(top: Graph, g0: Graph, g1: Graph, g2: Graph, w: seq<Addr>, j: nat)
    requires Grown(top, g0, g1, g2) && j < |w| - 1
    requires Edge(top, w[j], w[j + 1]) && Edge(top, w[|w| - 1], w[|w| - 2])
    requires w[j] in g1 && w[|w| - 1] in g1 && forall i :: j < i < |w| - 1 ==> w[i] !in g1
    requires w[j] !in g0 || w[|w| - 1] !in g0
    ensures Edge(g2, w[j], w[|w| - 1])
  {
    if w[j] !in g0 {
      assert Edge(g1, w[j + 1], w[j]);
    } else {
      assert Edge(g1, w[|w| - 2], w[|w| - 1]);
    }
  }

  lemma {:induction false} GrownAlong(top: Graph, g0: Graph, g1: Graph, g2: Graph, w: seq<Addr>)
    requires Grown(top, g0, g1, g2) && Spans(top, g0) && Walk(top, w) && |w| > 0
    requires w[0] in g1 && w[|w| - 1] in g1
    ensures Reaches(g2, w[0], w[|w| - 1])
    decreases |w|
  {
    hide Grown, Spans, Reaches, Walk;
    if |w| == 1 {
      ReachesSelf(g2, w[0]);
    } else {
      var j := LastHolder(w, g1.Keys, |w| - 2);
      WalkPart(top, w, j, |w| - 1);
      LastStep(top, g0, g1, g2, w, j);
      GrownAlong(top, g0, g1, g2, w[0..j + 1]);
      ReachesOn(g2, w[0], w[j], w[|w| - 1]);
    }
  }

  lemma ReachesOn(g: Graph, x: Addr, y: Addr, z: Addr)
    requires Reaches(g, x, y) && Reaches(g, y, z)
    ensures Reaches(g, x, z)
  {
    var w :| WalkBetween(g, y, w, z);
    ReachesTrans(g, x, w);
  }

  lemma GrownSpans(top: Graph, g0: Graph, g1: Graph, g2: Graph)
    requires Grown(top, g0, g1, g2) && Spans(top, g0)
    ensures Spans(top, g2)
  {
    forall x, y | x in g2 && y in g2 && Reaches(top, x, y) ensures Reaches(g2, x, y) {
      var w :| WalkBetween(top, x, w, y);
      GrownAlong(top, g0, g1, g2, w);
    }
  }

  lemma {:induction false} JoinsGrow(c: Cluster, steps: seq<Step>, chan: string)
    requires WellFormed(c) && Run(c, steps) && JoinRun(c, steps)
    ensures Listing(c, chan).Keys <= Listing(End(c, steps), chan).Keys
    ensures Subgraph(Listing(c, chan), Listing(End(c, steps), chan))
    decreases |steps|
  {
    hide Allowed, After, Joining, Listing, WellFormed;
    if steps != [] {
      var n := |steps| - 1;
      JoinsGrow(c, steps[..n], chan);
      RunKeepsWellFormed(c, steps[..n]);
      JoinKeepsTruthful(End(c, steps[..n]), steps[n], chan);
      forall u, v | Edge(Listing(c, chan), u, v) ensures Edge(Listing(End(c, steps), chan), u, v) {
        assert Edge(Listing(End(c, steps[..n]), chan), u, v);
      }
    }
  }

  // Drained joins leave every new server listed by all its neighbours.
  lemma NewAreListed(c: Cluster, joins: seq<Step>, chan: string)
    requires Settled(c) && Run(c, joins) && JoinRun(c, joins) && Drained(End(c, joins))
    ensures
      var g := Listing(End(c, joins), chan);
      && (forall s, t {:trigger Edge(g, t, s)} :: Edge(g, t, s) ==> s in g)
      && (forall s, t {:trigger Edge(Topology(c), s, t)} ::
            Edge(Topology(c), s, t) && s in g && s !in Listing(c, chan) ==> Edge(g, t, s))
  {
    hide Allowed, After, Run, End;
    var c', g := End(c, joins), Listing(End(c, joins), chan);
    SettledIsTruthful(c, chan);
    JoinRunKeepsAnnounced(c, joins, chan, Listing(c, chan).Keys);
    RunKeepsWellFormed(c, joins);
    forall s, t | Edge(Topology(c), s, t) && s in g && s !in Listing(c, chan) ensures Edge(g, t, s) {
      assert c'.net[Msg(s, t, chan, Join)] == 0;
    }
  }

  lemma JoinsKeepSpans(c: Cluster, joins: seq<Step>, beats: seq<Step>, chan: string)
    requires Settled(c) && Run(c, joins) && JoinRun(c, joins) && Drained(End(c, joins))
    requires ListsHolders(End(c, joins)) && WellFormed(End(c, joins)) && c.servers.Keys == End(c, joins).servers.Keys
    requires Run(End(c, joins), beats) && AllBeating(beats) && c.servers.Keys <= Beats(beats)
    requires Drained(End(End(c, joins), beats)) && Spans(Topology(c), Listing(c, chan))
    ensures Spans(Topology(c), Listing(End(End(c, joins), beats), chan))
  {
    hide Allowed, After, Run, End, AllBeating, Spans, Reaches;
    var mid := End(c, joins);
    var g0, g1, g2 := Listing(c, chan), Listing(mid, chan), Listing(End(mid, beats), chan);
    JoinsGrow(c, joins, chan);
    NewAreListed(c, joins, chan);
    HeartbeatSymmetrizes(mid, beats, chan);
    MutualSymmetric(g1);
    GrownSpans(Topology(c), g0, g1, g2);
  }

  // -------------------------------------------------------------- all rounds

  // No server is given up on.
  ghost predicate Patient(p: Phase) {
    p.JoinPhase? ==> forall i :: 0 <= i < |p.joins| ==> !p.joins[i].ServerTimeout?
  }

  ghost predicate AllPatient(ps: seq<Phase>) {
    forall i :: 0 <= i < |ps| ==> Patient(ps[i])
  }

  lemma {:induction false} PatientJoins(c: Cluster, steps: seq<Step>)
    requires Run(c, steps) && LooseRun(c, steps) && forall i :: 0 <= i < |steps| ==> !steps[i].ServerTimeout?
    ensures JoinRun(c, steps)
    decreases |steps|
  {
    hide Allowed, After, Joining;
    if steps != [] {
      PatientJoins(c, steps[..|steps| - 1]);
    }
  }

  lemma PhaseKeepsWhole(c: Cluster, p: Phase)
    requires Settled(c) && Whole(c) && Proper(c, p) && Patient(p)
    ensures Topology(Outcome(c, p)) == Topology(c) && Whole(Outcome(c, p))
  {
    hide Allowed, After, Spans;
    match p
    case QuietPhase(steps) =>
      RunKeepsWellFormed(c, steps);
      forall chan ensures Spans(Topology(c), Listing(End(c, steps), chan)) {
        QuietKeepsSpans(c, steps, chan);
      }
    case JoinPhase(joins, beats) =>
      var mid := End(c, joins);
      PatientJoins(c, joins);
      RunKeepsWellFormed(c, joins);
      RunKeepsWellFormed(mid, beats);
      SameTopology(c, mid);
      JoinsListHolders(c, joins);
      forall chan ensures Spans(Topology(c), Listing(End(mid, beats), chan)) {
        JoinsKeepSpans(c, joins, beats, chan);
      }
  }

  lemma JoinsListHolders(c: Cluster, joins: seq<Step>)
    requires Settled(c) && Run(c, joins) && LooseRun(c, joins)
    ensures ListsHolders(End(c, joins))
  {
    forall chan, u, v | Edge(Listing(End(c, joins), chan), u, v) ensures v in Listing(End(c, joins), chan) {
      SettledIsTruthful(c, chan);
      JoinsKeepTruthful(c, joins, chan);
    }
  }

  lemma {:induction false} PhasesKeepWhole(c: Cluster, ps: seq<Phase>)
    requires Settled(c) && Acyclic(Topology(c)) && Whole(c) && ProperAll(c, ps) && AllPatient(ps)
    ensures Topology(OutcomeAll(c, ps)) == Topology(c) && Whole(OutcomeAll(c, ps))
    decreases |ps|
  {
    hide Proper, Outcome, Whole, Settled, Acyclic, Patient;
    if ps != [] {
      var n := |ps| - 1;
      PhasesKeepWhole(c, ps[..n]);
      PhasesKeepSettled(c, ps[..n]);
      assert Patient(ps[n]);
      PhaseKeepsWhole(OutcomeAll(c, ps[..n]), ps[n]);
    }
  }

  /** On a forest, after any rounds in which no server is given up on, a drained say
      was handled once by every server that holds the channel and is connected to
      the origin, and by no other. */
  lemma EverySayEverywhere(c: Cluster, ps: seq<Phase>, step: Step, steps: seq<Step>)
    requires Settled(c) && Acyclic(Topology(c)) && Whole(c) && ProperAll(c, ps) && AllPatient(ps)
    requires step.ClientSay? && Allowed(OutcomeAll(c, ps), step)
    requires Run(After(OutcomeAll(c, ps), step), steps) && AllDeliveries(steps)
    requires Drained(End(After(OutcomeAll(c, ps), step), steps))
    ensures
      var c1 := OutcomeAll(c, ps);
      (forall v :: TimesHandled(steps, v) ==
        if Holds(c1, v, step.chan) && Reaches(Topology(c), step.at, v) && v != step.at then 1 else 0)
  {
    hide ProperAll, OutcomeAll, Run, End, After, Acyclic, TimesHandled, Reaches;
    EverySayOnce(c, ps, step, steps);
    PhasesKeepWhole(c, ps);
    PhasesKeepSettled(c, ps);
    WholeComponent(OutcomeAll(c, ps), step);
  }

  // In a whole cluster the channel's component is what the adjacency connects.
  lemma WholeComponent(c: Cluster, step: Step)
    requires WellFormed(c) && Whole(c) && step.ClientSay? && Allowed(c, step)
    ensures forall v :: v in Opened(c, step).Component() <==>
      Holds(c, v, step.chan) && Reaches(Topology(c), step.at, v)
  {
    hide Reaches, Symmetric;
    var g := Listing(c, step.chan);
    ListingShape(c, step.chan);
    assert Spans(Topology(c), g) && step.at in g;
    forall v ensures v in g && Reaches(g, step.at, v) <==> v in g && Reaches(Topology(c), step.at, v) {
      if v in g && Reaches(g, step.at, v) {
        SubgraphReaches(g, Topology(c), step.at, v);
      }
    }
  }

  // ------------------------------------------------- giving up on a server

  const A: Addr := Topologies.Local(4000)
  const B: Addr := Topologies.Local(4001)

  // One of two servers that list each other, or have given up on each other.
  function Half(other: Addr, user: Client, listed: set<Addr>): Server {
    Server({user}, {other}, map["c" := Channel({user}, listed, {})])
  }

  function Pair(listedByA: set<Addr>, listedByB: set<Addr>): Cluster {
    Cluster(map[A := Half(B, Client("x", A), listedByA), B := Half(A, Client("y", B), listedByB)],
            multiset{}, multiset{})
  }

  lemma PairListing(a: set<Addr>, b: set<Addr>, chan: string)
    ensures Listing(Pair(a, b), chan) == if chan == "c" then map[A := a, B := b] else map[]
  {
  }

  lemma PairAcyclic()
    ensures Symmetric(Topology(Pair({B}, {A}))) && Loopless(Topology(Pair({B}, {A})))
    ensures Acyclic(Topology(Pair({B}, {A})))
  {
    var top := Topology(Pair({B}, {A}));
    assert top == map[A := {B}, B := {A}];
    RankedAcyclic(top, map[A := 0, B := 1]);
  }

  lemma PairSettled()
    ensures Settled(Pair({B}, {A}))
  {
    var c := Pair({B}, {A});
    PairAcyclic();
    forall chan ensures Symmetric(Listing(c, chan)) {
      PairListing({B}, {A}, chan);
    }
    forall s | s in c.servers ensures WellFormedServer(c, s) {
    }
  }

  lemma PairWhole()
    ensures Whole(Pair({B}, {A}))
  {
    forall chan, x, y | x in Listing(Pair({B}, {A}), chan) && y in Listing(Pair({B}, {A}), chan)
      ensures Reaches(Listing(Pair({B}, {A}), chan), x, y)
    {
      var g := Listing(Pair({B}, {A}), chan);
      PairListing({B}, {A}, chan);
      ReachesSelf(g, x);
      if x != y {
        ReachesSnoc(g, x, x, y);
      }
    }
  }

  lemma HalfTimeout(other: Addr, user: Client)
    ensures OnServerTimeout(Half(other, user, {other}), map["c" := {other}]) == Effect(Half(other, user, {}), {}, {})
  {
    var sv := OnServerTimeout(Half(other, user, {other}), map["c" := {other}]).server;
    assert {other} - {other} == {};
    assert sv.channels == map["c" := Channel({user}, {}, {})];
  }

  lemma GiveUpA()
    ensures
      var step := ServerTimeout(A, map["c" := {B}]);
      Allowed(Pair({B}, {A}), step) && After(Pair({B}, {A}), step) == Pair({}, {A})
  {
    hide Half, OnServerTimeout;
    HalfTimeout(B, Client("x", A));
  }

  lemma GiveUpB()
    ensures
      var step := ServerTimeout(B, map["c" := {A}]);
      Allowed(Pair({}, {A}), step) && After(Pair({}, {A}), step) == Pair({}, {})
  {
    hide Half, OnServerTimeout;
    HalfTimeout(A, Client("y", B));
  }

  lemma BeatAlone(s: Addr)
    requires s == A || s == B
    ensures Allowed(Pair({}, {}), Heartbeat(s)) && After(Pair({}, {}), Heartbeat(s)) == Pair({}, {})
  {
    assert EffectOf(Pair({}, {}), Heartbeat(s)).msgs == {};
  }

  lemma {:induction false} TimeoutsLoose(c: Cluster, steps: seq<Step>)
    requires Run(c, steps) && forall i :: 0 <= i < |steps| ==> steps[i].ServerTimeout?
    ensures LooseRun(c, steps)
    decreases |steps|
  {
    hide Allowed, After, Joining;
    if steps != [] {
      TimeoutsLoose(c, steps[..|steps| - 1]);
    }
  }

  /** Two servers that give up on each other stay apart: a join round with server
      timeouts need not leave channels whole. */
  lemma TimeoutsSplit() returns (c: Cluster, p: Phase)
    ensures Settled(c) && Acyclic(Topology(c)) && Whole(c) && Proper(c, p) && !Whole(Outcome(c, p))
  {
    hide After, Allowed, Settled, Acyclic, Whole, Pair;
    c := Pair({B}, {A});
    var up, down := ServerTimeout(A, map["c" := {B}]), ServerTimeout(B, map["c" := {A}]);
    var joins, beats := [up] + [down], [Heartbeat(A)] + [Heartbeat(B)];
    p := JoinPhase(joins, beats);
    PairAcyclic();
    PairSettled();
    PairWhole();
    GiveUpA();
    GiveUpB();
    RunOne(c, up);
    RunOne(Pair({}, {A}), down);
    RunConcat(c, [up], [down]);
    BeatAlone(A);
    BeatAlone(B);
    RunOne(Pair({}, {}), Heartbeat(A));
    RunOne(Pair({}, {}), Heartbeat(B));
    PairApart();
    RunConcat(Pair({}, {}), [Heartbeat(A)], [Heartbeat(B)]);
    TimeoutsLoose(c, joins);
    BeatOne(Pair({}, {}), A);
    BeatOne(Pair({}, {}), B);
    BeatsConcat([Heartbeat(A)], [Heartbeat(B)]);
  }

  lemma PairApart()
    ensures Drained(Pair({}, {})) && Pair({B}, {A}).servers.Keys == Pair({}, {}).servers.Keys == {A, B}
    ensures !Whole(Pair({}, {}))
  {
    var c := Pair({}, {});
    var g := Listing(c, "c");
    PairListing({}, {}, "c");
    assert Edge(Topology(c), A, B);
    ReachesSelf(Topology(c), A);
    ReachesSnoc(Topology(c), A, A, B);
    if Reaches(g, A, B) {
      var w :| WalkBetween(g, A, w, B);
      ClosedUnderReach(g, {A}, w);
    }
    assert !Spans(Topology(c), g);
  }
}
