/**
 Says that overlap.

 Where no say can reach a server that would drop its channel, a say is handled
 exactly once by every other server of its origin's component although any number
 of others are in flight, as long as its id is its own.
*/
module Overlaps {
  import opened Addresses
  import opened Graphs
  import opened Protocol
  import opened Pruning
  import opened Races
  import opened SayRound

  ghost predicate FreshId(steps: seq<Step>, uid: nat) {
    forall i :: 0 <= i < |steps| && steps[i].ClientSay? ==> steps[i].uid != uid
  }

  ghost predicate NoneInFlight(c: Cluster, uid: nat) {
    forall m :: m in c.net && m.body.Say? ==> m.body.uid != uid
  }

  // The say that `step` opens, in the channel as the cluster began.
  ghost function SaidIn(c0: Cluster, c: Cluster, step: Step): Round
    requires Allowed(c, step) && step.ClientSay?
  {
    Opened(c, step).(start := c0)
  }

  // The run delivers a copy of this say to `v`.
  ghost predicate Hands(r: Round, step: Step, v: Addr) {
    step.Deliver? && CopyOf(r, step.msg) && step.msg.dst == v
  }

  ghost function Times(r: Round, steps: seq<Step>, v: Addr): nat {
    if steps == [] then 0
    else
      var n := |steps| - 1;
      Times(r, steps[..n], v) + if Hands(r, steps[n], v) then 1 else 0
  }

  ghost function Done(r: Round, step: Step): set<Addr> {
    if step.Deliver? && CopyOf(r, step.msg) then {step.msg.dst} else {}
  }

  ghost predicate Flight(r: Round, c: Cluster, handled: set<Addr>) {
    && r.say.Say? && Steady(r.start, c) && r.origin in handled && handled <= r.Component()
    && CopiesRouted(r, c, handled) && FrontierCovered(r, c, handled)
  }

  // The say's origin has a client and its channel has no cycle there.
  ghost predicate Sound(r: Round) {
    && r.say.Say? && Settled(r.start) && NoneAbandoned(r.start) && AcyclicAt(r.Graph(), r.origin)
    && r.origin in r.Graph() && Heard(r.start, r.origin, r.chan)
  }

  // --------------------------------------------------------- before the say

  lemma StepKeepsFresh(c: Cluster, step: Step, uid: nat)
    requires NoneInFlight(c, uid) && Allowed(c, step) && Saying(step) && (step.ClientSay? ==> step.uid != uid)
    ensures NoneInFlight(After(c, step), uid)
  {
    var e := EffectOf(c, step);
    assert step.Deliver? ==> step.msg in c.net;
    forall m | m in After(c, step).net && m.body.Say? ensures m.body.uid != uid {
      assert m in c.net || m in e.msgs;
    }
  }

  lemma {:induction false} RunKeepsFresh(c: Cluster, steps: seq<Step>, uid: nat)
    requires NoneInFlight(c, uid) && Run(c, steps) && AllSaying(steps) && FreshId(steps, uid)
    ensures NoneInFlight(End(c, steps), uid)
    decreases |steps|
  {
    hide Allowed, After, NoneInFlight, Saying;
    if steps != [] {
      var n := |steps| - 1;
      RunKeepsFresh(c, steps[..n], uid);
      StepKeepsFresh(End(c, steps[..n]), steps[n], uid);
    }
  }

  // -------------------------------------------------------- opening the say

  // Where a client can be heard the channel lists whom it listed at first.
  lemma HeardLists(c0: Cluster, c: Cluster, n: Addr, chan: string)
    requires SteadyServers(c0, c) && Holds(c, n, chan) && Heard(c0, n, chan)
    ensures Holds(c0, n, chan)
    ensures c.servers[n].channels[chan].servers == c0.servers[n].channels[chan].servers
    ensures c.servers[n].channels[chan].users == c0.servers[n].channels[chan].users
  {
    hide Heard;
    assert SteadyServer(c0, c, n, chan);
  }

  lemma SayIsSound(c0: Cluster, c: Cluster, step: Step)
    requires Settled(c0) && NoneAbandoned(c0) && Steady(c0, c) && Allowed(c, step) && step.ClientSay?
    requires AcyclicAt(Listing(c0, step.chan), step.at)
    ensures Sound(SaidIn(c0, c, step))
    ensures
      EffectOf(c, step).msgs ==
        Broadcast(step.at, Listing(c0, step.chan)[step.at], step.chan, SaidIn(c0, c, step).say)
  {
    hide Heard, NoneAbandoned, AcyclicAt, Settled;
    HasClient(c0, c, step.at, step.addr);
    HeardAtHome(c0, step.at, step.chan);
    HeardLists(c0, c, step.at, step.chan);
  }

  lemma OpensFlight(r: Round, c: Cluster, c': Cluster)
    requires Sound(r) && NoneInFlight(c, r.say.uid) && Steady(r.start, c')
    requires c'.net == c.net + multiset(Broadcast(r.origin, r.Graph()[r.origin], r.chan, r.say))
    ensures Flight(r, c', {r.origin})
  {
    hide AcyclicAt, Ahead, Heard, NoneAbandoned, Steady, Reaches;
    var g, o := r.Graph(), r.origin;
    ListingShape(r.start, r.chan);
    ReachesSelf(g, o);
    forall m | m in c'.net && CopyOf(r, m)
      ensures c'.net[m] == 1 && m.src == o && Ahead(g, o, o, m.dst) && m.dst != o
    {
      Posted(c.net, Broadcast(o, g[o], r.chan, r.say), m);
      assert Edge(g, o, m.dst);
      NoLoop(g, o);
      AheadStart(g, o, m.dst);
    }
    forall u, v | Ahead(g, o, u, v)
      ensures (v in {o} ==> u in {o}) && (u in {o} && v !in {o} ==> Msg(u, v, r.chan, r.say) in c'.net)
    {
      AheadUnique(g, o, u, u, v);
      AheadEdge(g, o, u, v);
    }
  }

  // ----------------------------------------------------------- while in flight

  lemma OtherStepsMiss(r: Round, c: Cluster, step: Step, x: Msg)
    requires r.say.Say? && Allowed(c, step) && Saying(step) && CopyOf(r, x)
    requires step.Deliver? ==> !CopyOf(r, step.msg) && !step.msg.body.Join?
    requires step.ClientSay? ==> step.uid != r.say.uid
    ensures x !in EffectOf(c, step).msgs && After(c, step).net[x] == c.net[x]
  {
    var e := EffectOf(c, step);
    Posted(if step.Deliver? then c.net - multiset{step.msg} else c.net, e.msgs, x);
  }

  lemma OtherStepKeepsFlight(r: Round, c: Cluster, handled: set<Addr>, step: Step)
    requires Sound(r) && Flight(r, c, handled) && Allowed(c, step) && Saying(step)
    requires step.Deliver? ==> !CopyOf(r, step.msg)
    requires step.ClientSay? ==> step.uid != r.say.uid
    requires Steady(r.start, After(c, step))
    ensures Flight(r, After(c, step), handled)
  {
    hide After, Allowed, Ahead, Sound, SteadyServers, WellFormed;
    var c' := After(c, step);
    if step.Deliver? {
      OnlySaysAndLeaves(r.start, c, step);
    }
    forall x | CopyOf(r, x) ensures c'.net[x] == c.net[x] {
      OtherStepsMiss(r, c, step, x);
    }
  }

  lemma InFlight(c: Cluster, m: Msg)
    requires Allowed(c, Deliver(m))
    ensures m in c.net && c.net[m] > 0
  {
  }

  // A copy meets the channel as the cluster began, and its text goes to the users.
  lemma CopyMeets(r: Round, c: Cluster, m: Msg)
    requires r.say.Say? && Steady(r.start, c) && Allowed(c, Deliver(m)) && CopyOf(r, m)
    ensures m.dst in r.Graph()
    ensures EffectOf(c, Deliver(m)).msgs ==
      Broadcast(m.dst, r.Graph()[m.dst] - {m.src}, r.chan, r.say) + LeaveMsgs(m.dst, c.servers[m.dst].channels)
    ensures EffectOf(c, Deliver(m)).texts == Texts(m.dst, r.Users(m.dst), r.chan, r.SayWho(), r.SayText())
  {
    hide Heard;
    assert m in c.net && SteadyMsg(r.start, m);
    assert WellFormedServer(c, m.dst);
    HeardLists(r.start, c, m.dst, r.chan);
  }

  lemma NetForwarded(r: Round, c: Cluster, m: Msg, leaves: set<Msg>, c': Cluster)
    requires r.say.Say? && m in c.net && m.dst in r.Graph() && forall l :: l in leaves ==> l.body.Leave?
    requires c'.net ==
      c.net - multiset{m} + multiset(Broadcast(m.dst, r.Graph()[m.dst] - {m.src}, r.chan, r.say) + leaves)
    ensures Forwarded(r, c, m, c')
  {
    hide Broadcast, Listing;
    var says := Broadcast(m.dst, r.Graph()[m.dst] - {m.src}, r.chan, r.say);
    forall x: Msg | CopyOf(r, x)
      ensures c'.net[x] == (if x == m then c.net[x] - 1 else c.net[x]) + (if x in says then 1 else 0) {
      Posted(c.net - multiset{m}, says + leaves, x);
    }
  }

  lemma CopyForwarded(r: Round, c: Cluster, m: Msg)
    requires r.say.Say? && Steady(r.start, c) && Allowed(c, Deliver(m)) && CopyOf(r, m)
    ensures Forwarded(r, c, m, After(c, Deliver(m)))
  {
    hide Steady, EffectAt, SafeAt, Listing, Broadcast, Forwarded;
    CopyMeets(r, c, m);
    NetForwarded(r, c, m, LeaveMsgs(m.dst, c.servers[m.dst].channels), After(c, Deliver(m)));
  }

  lemma CopyKeepsFlight(r: Round, c: Cluster, handled: set<Addr>, m: Msg)
    requires Sound(r) && Flight(r, c, handled) && Allowed(c, Deliver(m)) && CopyOf(r, m)
    requires Steady(r.start, After(c, Deliver(m)))
    ensures m.dst !in handled && Flight(r, After(c, Deliver(m)), handled + {m.dst})
  {
    hide After, Allowed, Heard, AcyclicAt, Ahead, NoneAbandoned, Steady, FrontierCovered, Forwarded, Reaches;
    InFlight(c, m);
    CopyForwarded(r, c, m);
    ListingShape(r.start, r.chan);
    CopyKeepsRouting(r, c, handled, m, After(c, Deliver(m)));
    AheadEdge(r.Graph(), r.origin, m.src, m.dst);
    assert Edge(r.Graph(), m.dst, m.src);
  }

  lemma StepKeepsFlight(r: Round, c: Cluster, handled: set<Addr>, step: Step)
    requires Sound(r) && Flight(r, c, handled) && Allowed(c, step) && Saying(step)
    requires step.ClientSay? ==> step.uid != r.say.uid
    ensures Flight(r, After(c, step), handled + Done(r, step))
    ensures Done(r, step) !! handled
  {
    hide After, Allowed, CopiesRouted, FrontierCovered, AcyclicAt, NoneAbandoned, Heard, CopyOf;
    StepKeepsSteady(r.start, c, step);
    if step.Deliver? && CopyOf(r, step.msg) {
      CopyKeepsFlight(r, c, handled, step.msg);
    } else {
      OtherStepKeepsFlight(r, c, handled, step);
      assert handled + {} == handled;
    }
  }

  ghost function AllDone(r: Round, steps: seq<Step>): set<Addr> {
    if steps == [] then {r.origin} else AllDone(r, steps[..|steps| - 1]) + Done(r, steps[|steps| - 1])
  }

  lemma {:induction false} RunKeepsFlight(r: Round, c: Cluster, steps: seq<Step>)
    requires Sound(r) && Flight(r, c, {r.origin}) && Run(c, steps) && AllSaying(steps) && FreshId(steps, r.say.uid)
    ensures Flight(r, End(c, steps), AllDone(r, steps))
    ensures forall v :: Times(r, steps, v) == if v in AllDone(r, steps) && v != r.origin then 1 else 0
    ensures r.origin in AllDone(r, steps)
    decreases |steps|
  {
    hide Sound, Flight, Allowed, After, Saying, CopyOf;
    if steps != [] {
      var n := |steps| - 1;
      RunKeepsFlight(r, c, steps[..n]);
      StepKeepsFlight(r, End(c, steps[..n]), AllDone(r, steps[..n]), steps[n]);
    }
  }

  lemma FlightComplete(r: Round, c: Cluster, handled: set<Addr>)
    requires Flight(r, c, handled) && Drained(c)
    ensures handled == r.Component()
  {
    hide Steady, Ahead, Reaches;
    forall v | v in r.Component() ensures v in handled {
      ReachInduction(r.Graph(), r.origin, v, handled);
    }
  }

  /** Overlapping says. From a settled cluster in which no say can reach a server
      that would drop its channel, whatever is said and delivered before and after
      a say: once nothing is in flight, every other server of its origin's component
      has handled it exactly once, and nobody else has. */
  lemma OverlappingExactlyOnce(c: Cluster, before: seq<Step>, step: Step, rest: seq<Step>)
    requires Settled(c) && NoneAbandoned(c) && step.ClientSay? && AcyclicAt(Listing(c, step.chan), step.at)
    requires Run(c, before) && AllSaying(before) && FreshId(before, step.uid)
    requires Allowed(End(c, before), step)
    requires Run(After(End(c, before), step), rest) && AllSaying(rest) && FreshId(rest, step.uid)
    requires Drained(End(After(End(c, before), step), rest))
    ensures
      var r := SaidIn(c, End(c, before), step);
      (forall v :: Times(r, rest, v) == if v in r.Component() && v != step.at then 1 else 0)
  {
    hide After, Allowed, Run, End, AllSaying, FreshId, Steady, NoneAbandoned, AcyclicAt, Flight, Sound, Times, AllDone;
    var c1 := End(c, before);
    var r := SaidIn(c, c1, step);
    SaysKeepSteady(c, before);
    RunKeepsFresh(c, before, step.uid);
    SayIsSound(c, c1, step);
    StepKeepsSteady(c, c1, step);
    SaySends(c1, step);
    OpensFlight(r, c1, After(c1, step));
    RunKeepsFlight(r, After(c1, step), rest);
    FlightComplete(r, End(After(c1, step), rest), AllDone(r, rest));
  }

  lemma SaySends(c: Cluster, step: Step)
    requires Allowed(c, step) && step.ClientSay?
    ensures After(c, step).net == c.net + multiset(EffectOf(c, step).msgs)
  {
  }
}
