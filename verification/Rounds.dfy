/**
 Unbounded operation of a cluster whose adjacency is a forest.

 A quiet round is any mixture of logins, logouts, user timeouts, leaves, says and
 deliveries that drains; a join round is any mixture of logged-in joins and server
 timeouts that drains, then one periodic join from every server, drained. However
 many rounds there have been, the next say is handled exactly once by every other
 server of its origin's component.
*/
module Rounds {
  import opened Addresses
  import opened Graphs
  import opened Protocol
  import opened Pruning
  import opened JoinFlood
  import opened Heartbeat
  import opened SayRound
  import opened SayFlood

  // A logged-in join, the delivery of a join, or a server timeout.
  ghost predicate Loose(c: Cluster, step: Step) {
    Joining(c, step) || step.ServerTimeout?
  }

  ghost predicate LooseRun(c: Cluster, steps: seq<Step>)
    requires Run(c, steps)
    decreases |steps|
  {
    steps == [] ||
    (var n := |steps| - 1;
     LooseRun(c, steps[..n]) && Loose(End(c, steps[..n]), steps[n]))
  }

  datatype Phase = QuietPhase(steps: seq<Step>) | JoinPhase(joins: seq<Step>, beats: seq<Step>)

  ghost predicate Proper(c: Cluster, p: Phase) {
    match p
    case QuietPhase(steps) => Run(c, steps) && AllQuiet(steps) && Drained(End(c, steps))
    case JoinPhase(joins, beats) =>
      && Run(c, joins) && LooseRun(c, joins) && Drained(End(c, joins))
      && Run(End(c, joins), beats) && AllBeating(beats) && c.servers.Keys <= Beats(beats)
      && Drained(End(End(c, joins), beats))
  }

  ghost function Outcome(c: Cluster, p: Phase): Cluster
    requires Proper(c, p)
  {
    match p
    case QuietPhase(steps) => End(c, steps)
    case JoinPhase(joins, beats) => End(End(c, joins), beats)
  }

  ghost predicate ProperAll(c: Cluster, ps: seq<Phase>)
    decreases |ps|, 0
  {
    ps == [] ||
    (var n := |ps| - 1;
     ProperAll(c, ps[..n]) && Proper(OutcomeAll(c, ps[..n]), ps[n]))
  }

  ghost function OutcomeAll(c: Cluster, ps: seq<Phase>): Cluster
    requires ProperAll(c, ps)
    decreases |ps|, 1
  {
    if ps == [] then c
    else
      var n := |ps| - 1;
      Outcome(OutcomeAll(c, ps[..n]), ps[n])
  }

  // Timeouts only shorten lists.
  lemma TimeoutShape(c: Cluster, step: Step, chan: string)
    requires Allowed(c, step) && step.ServerTimeout?
    ensures After(c, step).net == c.net
    ensures Listing(After(c, step), chan).Keys == Listing(c, chan).Keys
    ensures Subgraph(Listing(After(c, step), chan), Listing(c, chan))
  {
    assert c.net + multiset({}) == c.net;
  }

  lemma TimeoutKeepsTruthful(c: Cluster, step: Step, chan: string)
    requires Allowed(c, step) && step.ServerTimeout? && Truthful(c, chan)
    ensures Truthful(After(c, step), chan)
  {
    hide After, Allowed, Listing;
    TimeoutShape(c, step, chan);
    forall s, t | Edge(Listing(After(c, step), chan), t, s) ensures s in Listing(c, chan) {
      assert Edge(Listing(c, chan), t, s);
    }
  }

  lemma {:induction false} JoinsKeepTruthful(c: Cluster, steps: seq<Step>, chan: string)
    requires WellFormed(c) && Truthful(c, chan) && Run(c, steps) && LooseRun(c, steps)
    ensures Truthful(End(c, steps), chan)
    decreases |steps|
  {
    hide Truthful, WellFormed, Allowed, After;
    if steps != [] {
      var n := |steps| - 1;
      JoinsKeepTruthful(c, steps[..n], chan);
      RunKeepsWellFormed(c, steps[..n]);
      if steps[n].ServerTimeout? {
        TimeoutKeepsTruthful(End(c, steps[..n]), steps[n], chan);
      } else {
        JoinKeepsTruthful(End(c, steps[..n]), steps[n], chan);
      }
    }
  }

  // ---------------------------------------------- join rounds can be finished

  lemma StepKeepsOnlyJoins(c: Cluster, step: Step)
    requires OnlyJoins(c) && Allowed(c, step) && (Loose(c, step) || Beating(step))
    ensures OnlyJoins(After(c, step))
  {
    StepKeepsWellFormed(c, step);
    var e := EffectOf(c, step);
    forall m | m in After(c, step).net ensures m.body.Join? {
      assert m in c.net || m in e.msgs;
    }
  }

  lemma {:induction false} RunKeepsOnlyJoins(c: Cluster, steps: seq<Step>)
    requires OnlyJoins(c) && Run(c, steps) && (LooseRun(c, steps) || AllBeating(steps))
    ensures OnlyJoins(End(c, steps))
    decreases |steps|
  {
    hide OnlyJoins, Allowed, After, Loose;
    if steps != [] {
      var n := |steps| - 1;
      RunKeepsOnlyJoins(c, steps[..n]);
      StepKeepsOnlyJoins(End(c, steps[..n]), steps[n]);
    }
  }

  lemma {:induction false} LooseConcat(c: Cluster, first: seq<Step>, rest: seq<Step>)
    requires Run(c, first) && LooseRun(c, first) && Run(End(c, first), rest) && JoinRun(End(c, first), rest)
    ensures Run(c, first + rest) && LooseRun(c, first + rest)
    decreases |rest|
  {
    hide Joining, Allowed, After;
    RunConcat(c, first, rest);
    if rest == [] {
      assert first + rest == first;
    } else {
      var n := |rest| - 1;
      LooseConcat(c, first, rest[..n]);
      RunConcat(c, first, rest[..n]);
      assert (first + rest)[..|first| + n] == first + rest[..n];
    }
  }

  lemma {:induction false} BeatsConcat(first: seq<Step>, rest: seq<Step>)
    requires AllBeating(first) && AllBeating(rest)
    ensures AllBeating(first + rest) && Beats(first + rest) == Beats(first) + Beats(rest)
    decreases |rest|
  {
    if rest == [] {
      assert first + rest == first;
    } else {
      var n := |rest| - 1;
      BeatsConcat(first, rest[..n]);
      assert (first + rest)[..|first| + n] == first + rest[..n];
    }
  }

  lemma BeatOne(c: Cluster, s: Addr)
    requires s in c.servers
    ensures Run(c, [Heartbeat(s)]) && End(c, [Heartbeat(s)]).servers == c.servers
    ensures AllBeating([Heartbeat(s)]) && Beats([Heartbeat(s)]) == {s}
  {
    RunOne(c, Heartbeat(s));
    assert [Heartbeat(s)][..0] == [];
  }

  lemma {:induction false} BeatAll(c: Cluster, servers: set<Addr>) returns (beats: seq<Step>)
    requires servers <= c.servers.Keys
    ensures Run(c, beats) && AllBeating(beats) && Beats(beats) == servers
    ensures End(c, beats).servers == c.servers
    decreases |servers|
  {
    hide Allowed, After, Beats, AllBeating;
    if s :| s in servers {
      var before := BeatAll(c, servers - {s});
      BeatOne(End(c, before), s);
      RunConcat(c, before, [Heartbeat(s)]);
      BeatsConcat(before, [Heartbeat(s)]);
      beats := before + [Heartbeat(s)];
    } else {
      beats := NoBeats();
    }
  }

  lemma NoBeats() returns (beats: seq<Step>)
    ensures beats == [] && AllBeating(beats) && Beats(beats) == {}
  {
    beats := [];
  }

  lemma {:induction false} JoinsBeat(c: Cluster, steps: seq<Step>)
    requires Run(c, steps) && AllDeliveries(steps) && JoinRun(c, steps)
    ensures AllBeating(steps)
    decreases |steps|
  {
    hide Allowed, After, Enabled;
    if steps != [] {
      var n := |steps| - 1;
      JoinsBeat(c, steps[..n]);
      assert Joining(End(c, steps[..n]), steps[n]) && steps[n].Deliver?;
      assert steps == steps[..n] + [steps[n]];
    }
  }

  lemma DrainLoose(c: Cluster, joins: seq<Step>) returns (all: seq<Step>)
    requires OnlyJoins(c) && Run(c, joins) && LooseRun(c, joins)
    ensures joins <= all && Run(c, all) && LooseRun(c, all) && Drained(End(c, all)) && OnlyJoins(End(c, all))
  {
    hide OnlyJoins, Allowed, After, Joining;
    RunKeepsOnlyJoins(c, joins);
    var more := JoinsDrain(End(c, joins));
    LooseConcat(c, joins, more);
    RunConcat(c, joins, more);
    all := joins + more;
    RunKeepsOnlyJoins(c, all);
  }

  lemma DrainBeats(c: Cluster, beats: seq<Step>) returns (all: seq<Step>)
    requires OnlyJoins(c) && Run(c, beats) && AllBeating(beats)
    ensures beats <= all && Run(c, all) && AllBeating(all) && Beats(beats) <= Beats(all) && Drained(End(c, all))
  {
    hide OnlyJoins, Allowed, After, Joining;
    RunKeepsOnlyJoins(c, beats);
    var more := JoinsDrain(End(c, beats));
    JoinsBeat(End(c, beats), more);
    BeatsConcat(beats, more);
    RunConcat(c, beats, more);
    all := beats + more;
  }

  /** However a join round begins, it can be finished; and whenever only joins are
      in flight, `JoinsDrain` bounds what is still to be delivered. */
  lemma JoinPhaseCompletes(c: Cluster, joins: seq<Step>) returns (p: Phase)
    requires Settled(c) && Run(c, joins) && LooseRun(c, joins)
    ensures p.JoinPhase? && joins <= p.joins && Proper(c, p)
  {
    hide OnlyJoins, Allowed, After, Joining;
    SettledOnlyJoins(c);
    var all := DrainLoose(c, joins);
    var mid := End(c, all);
    var beats := BeatAll(mid, mid.servers.Keys);
    var rest := DrainBeats(mid, beats);
    RunKeepsWellFormed(c, all);
    SameTopology(c, mid);
    p := JoinPhase(all, rest);
  }

  lemma SettledOnlyJoins(c: Cluster)
    requires Settled(c)
    ensures OnlyJoins(c)
  {
  }

  // -------------------------------------------------------------- all rounds

  lemma SettledIsTruthful(c: Cluster, chan: string)
    requires Settled(c)
    ensures Truthful(c, chan)
  {
    var g := Listing(c, chan);
    forall s, t | Edge(g, t, s) ensures s in g {
      assert Edge(g, s, t);
    }
  }

  lemma ForestTopology(c: Cluster)
    requires WellFormed(c) && Acyclic(Topology(c))
    ensures Forests(c)
  {
    forall chan ensures Acyclic(Listing(c, chan)) {
      ListingShape(c, chan);
      SubgraphAcyclic(Listing(c, chan), Topology(c));
    }
  }

  lemma PhaseKeepsSettled(c: Cluster, p: Phase)
    requires Settled(c) && Acyclic(Topology(c)) && Proper(c, p)
    ensures Settled(Outcome(c, p)) && Topology(Outcome(c, p)) == Topology(c)
  {
    match p
    case QuietPhase(steps) =>
      ForestTopology(c);
      PruningKeepsForests(c, steps);
      RunKeepsWellFormed(c, steps);
    case JoinPhase(joins, beats) =>
      var mid := End(c, joins);
      RunKeepsWellFormed(c, joins);
      RunKeepsWellFormed(mid, beats);
      SameTopology(c, mid);
      forall chan, u, v | Edge(Listing(mid, chan), u, v) ensures v in Listing(mid, chan) {
        SettledIsTruthful(c, chan);
        JoinsKeepTruthful(c, joins, chan);
      }
      forall chan ensures Symmetric(Listing(Outcome(c, p), chan)) {
        HeartbeatSymmetrizes(mid, beats, chan);
      }
  }

  /** Any number of rounds leaves the cluster settled, with every channel a forest. */
  lemma {:induction false} PhasesKeepSettled(c: Cluster, ps: seq<Phase>)
    requires Settled(c) && Acyclic(Topology(c)) && ProperAll(c, ps)
    ensures Settled(OutcomeAll(c, ps)) && Forests(OutcomeAll(c, ps))
    ensures Topology(OutcomeAll(c, ps)) == Topology(c)
    decreases |ps|
  {
    if ps != [] {
      var n := |ps| - 1;
      PhasesKeepSettled(c, ps[..n]);
      PhaseKeepsSettled(OutcomeAll(c, ps[..n]), ps[n]);
    }
    ForestTopology(OutcomeAll(c, ps));
  }

  /** On a forest, the say that follows any history of rounds ends, and once it
      has drained it has been handled by, and its text sent to the users of, every
      server of its component exactly once. */
  lemma EverySayOnce(c: Cluster, ps: seq<Phase>, step: Step, steps: seq<Step>)
    requires Settled(c) && Acyclic(Topology(c)) && ProperAll(c, ps)
    requires step.ClientSay? && Allowed(OutcomeAll(c, ps), step)
    requires Run(After(OutcomeAll(c, ps), step), steps) && AllDeliveries(steps)
    ensures Terminates(OutcomeAll(c, ps), step)
    ensures Drained(End(After(OutcomeAll(c, ps), step), steps)) ==>
      var r := Opened(OutcomeAll(c, ps), step);
      && (forall v :: TimesHandled(steps, v) == if v in r.Component() && v != step.at then 1 else 0)
      && End(After(OutcomeAll(c, ps), step), steps).texts ==
           OutcomeAll(c, ps).texts + multiset(r.TextsAt(r.Component()))
  {
    PhasesKeepSettled(c, ps);
    var c1 := OutcomeAll(c, ps);
    assert Acyclic(Listing(c1, step.chan));
    TerminatesIffAcyclic(c1, step);
    if Drained(End(After(c1, step), steps)) {
      ExactlyOnce(c1, step, steps);
    }
  }
}
