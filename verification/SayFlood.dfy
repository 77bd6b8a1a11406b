/**
 When does a say stop flooding?

 Message ids are never recorded, so nothing but the shape of the subscription
 graph ends a flood: it is finite, under every delivery order, exactly when the
 origin's component has no cycle.
*/
module SayFlood {
  import opened Addresses
  import opened Graphs
  import opened Protocol
  import opened Pruning
  import opened SayRound
  import opened Sums

  // All delivery runs after the say are shorter than some bound.
  ghost predicate Terminates(c: Cluster, step: Step)
    requires Allowed(c, step)
  {
    exists bound: nat :: ShorterThan(c, step, bound)
  }

  ghost predicate ShorterThan(c: Cluster, step: Step, bound: nat)
    requires Allowed(c, step)
  {
    forall steps :: Run(After(c, step), steps) && AllDeliveries(steps) ==> |steps| <= bound
  }

  // --------------------------------------------- without cycles it is finite

  lemma OneLeaveAtMost(me: Addr, c: string, ch: Channel)
    ensures |LeaveMsgs(me, map[c := ch])| <= 1
  {
    var here := LeaveMsgs(me, map[c := ch]);
    if m :| m in here {
      forall x | x in here ensures x == m {
        SoleElement(ch.servers, x.dst, m.dst);
      }
      SubsetSize(here, {m});
    }
  }

  lemma {:induction false} LeavesPerChannel(me: Addr, channels: map<string, Channel>)
    ensures |LeaveMsgs(me, channels)| <= |channels|
    decreases |channels|
  {
    hide Prunable;
    if channels == map[] {
      assert LeaveMsgs(me, channels) == {};
    } else {
      var c :| c in channels;
      var rest := channels - {c};
      LeavesPerChannel(me, rest);
      OneLeaveAtMost(me, c, channels[c]);
      assert LeaveMsgs(me, channels) == LeaveMsgs(me, rest) + LeaveMsgs(me, map[c := channels[c]]);
      assert rest.Keys == channels.Keys - {c};
      assert |rest.Keys| == |channels.Keys| - 1;
    }
  }

  // What the first handling of the say at each server can put in flight.
  ghost function Load(r: Round): map<Addr, nat>
    requires r.Valid()
  {
    map v | v in r.Graph() :: |r.Graph()[v]| + |r.start.servers[v].channels|
  }

  ghost predicate NoNewChannels(r: Round, c: Cluster) {
    forall v :: v in c.servers && v in r.start.servers ==>
      c.servers[v].channels.Keys <= r.start.servers[v].channels.Keys
  }

  ghost function Potential(r: Round, c: Cluster, handled: set<Addr>): nat
    requires r.Valid()
  {
    |c.net| + Sum(r.Component() - handled, Load(r))
  }

  lemma CopySpendsPotential(r: Round, c: Cluster, handled: set<Addr>, m: Msg)
    requires r.Valid() && Flooding(r, c, handled) && NoNewChannels(r, c) && m in c.net && m.body.Say?
    ensures Allowed(c, Deliver(m))
    ensures Potential(r, After(c, Deliver(m)), handled + {m.dst}) < Potential(r, c, handled)
  {
    hide Settled, AcyclicAt, CopiesRouted, FrontierCovered, LeavesFromLeaves, OnlyCopies, ServerAsExpected, Ahead;
    var n := m.dst;
    CopyArrives(r, c, handled, m);
    var sv, g := c.servers[n], r.Graph();
    var says := Broadcast(n, g[n] - {m.src}, r.chan, r.say);
    var leaves := LeaveMsgs(n, sv.channels);
    assert EffectOf(c, Deliver(m)).msgs == says + leaves;
    assert says !! leaves;
    BroadcastSize(n, g[n] - {m.src}, r.chan, r.say);
    LeavesPerChannel(n, sv.channels);
    SubsetSize(sv.channels.Keys, r.start.servers[n].channels.Keys);
    SubsetSize(g[n] - {m.src}, g[n]);
    SumMinus(r.Component() - handled, Load(r), n);
    assert r.Component() - handled - {n} == r.Component() - (handled + {n});
  }

  lemma DeliveryAddsNoChannel(r: Round, c: Cluster, handled: set<Addr>, step: Step)
    requires r.Valid() && Flooding(r, c, handled) && NoNewChannels(r, c) && Allowed(c, step) && step.Deliver?
    ensures NoNewChannels(r, After(c, step))
  {
    hide Settled, AcyclicAt, CopiesRouted, FrontierCovered, ServerAsExpected;
    assert step.msg in c.net;
    var n := step.msg.dst;
    assert EffectOf(c, step).server.channels.Keys <= c.servers[n].channels.Keys;
  }

  lemma LeaveSpendsPotential(r: Round, c: Cluster, handled: set<Addr>, step: Step)
    requires r.Valid() && Flooding(r, c, handled) && Allowed(c, step) && step.Deliver? && !IsCopy(step)
    ensures Potential(r, After(c, step), handled) < Potential(r, c, handled)
  {
    hide Settled, AcyclicAt, CopiesRouted, FrontierCovered, ServerAsExpected, Round.Component, Sum;
    assert step.msg in c.net;
    assert EffectOf(c, step).msgs == {};
  }

  lemma DeliverySpendsPotential(r: Round, c: Cluster, handled: set<Addr>, step: Step)
    requires r.Valid() && Flooding(r, c, handled) && NoNewChannels(r, c) && Allowed(c, step) && step.Deliver?
    ensures NoNewChannels(r, After(c, step))
    ensures
      Potential(r, After(c, step), handled + if IsCopy(step) then {step.msg.dst} else {}) < Potential(r, c, handled)
  {
    hide Round.Valid, Flooding, NoNewChannels, Potential, After, EffectOf, SafeAt;
    DeliveryAddsNoChannel(r, c, handled, step);
    assert step.msg in c.net;
    if IsCopy(step) {
      CopySpendsPotential(r, c, handled, step.msg);
    } else {
      LeaveSpendsPotential(r, c, handled, step);
      assert handled + {} == handled;
    }
  }

  lemma {:induction false} RunSpendsPotential(r: Round, c: Cluster, steps: seq<Step>)
    requires r.Valid() && Flooding(r, c, {r.origin}) && NoNewChannels(r, c) && Run(c, steps) && AllDeliveries(steps)
    ensures NoNewChannels(r, End(c, steps))
    ensures |steps| + Potential(r, End(c, steps), Handled(r.origin, steps)) <= Potential(r, c, {r.origin})
    decreases |steps|
  {
    hide Round.Valid, Flooding, Allowed, After, NoNewChannels, Potential;
    if steps != [] {
      var n := |steps| - 1;
      RunSpendsPotential(r, c, steps[..n]);
      RunFloods(r, c, steps[..n]);
      DeliverySpendsPotential(r, End(c, steps[..n]), Handled(r.origin, steps[..n]), steps[n]);
    }
  }

  lemma AcyclicTerminates(c: Cluster, step: Step)
    requires Settled(c) && Allowed(c, step) && step.ClientSay? && AcyclicAt(Listing(c, step.chan), step.at)
    ensures Terminates(c, step)
  {
    var r := Opened(c, step);
    OpeningFloods(c, step);
    var bound := Potential(r, After(c, step), {step.at});
    forall steps | Run(After(c, step), steps) && AllDeliveries(steps) ensures |steps| <= bound {
      RunSpendsPotential(r, After(c, step), steps);
    }
    assert ShorterThan(c, step, bound);
  }

  // ----------------------------------------------- round a cycle it is not

  // The run that carries the copies along `w`, up to its server `k`.
  function Along(w: seq<Addr>, k: nat, chan: string, say: Body): seq<Step>
    requires k < |w|
  {
    if k == 0 then [] else Along(w, k - 1, chan, say) + [Deliver(Msg(w[k - 1], w[k], chan, say))]
  }

  // The channel is as the round began at every server, and so are the users.
  ghost predicate Intact(r: Round, c: Cluster) {
    && c.servers.Keys == r.start.servers.Keys
    && (forall v {:trigger c.servers[v]} :: v in c.servers ==>
          && c.servers[v].users == r.start.servers[v].users
          && (r.chan in c.servers[v].channels <==> r.chan in r.start.servers[v].channels)
          && (r.chan in c.servers[v].channels ==>
                c.servers[v].channels[r.chan] == r.start.servers[v].channels[r.chan]))
  }

  lemma IntactListing(r: Round, c: Cluster)
    requires Intact(r, c)
    ensures Listing(c, r.chan) == r.Graph()
  {
    assert forall v :: v in Listing(c, r.chan) <==> v in c.servers && r.chan in c.servers[v].channels;
  }

  // A copy is on its way from `u` to `v`, and the channel is intact.
  ghost predicate Riding(r: Round, c: Cluster, u: Addr, v: Addr) {
    r.say.Say? && WellFormed(c) && Intact(r, c) && Msg(u, v, r.chan, r.say) in c.net
  }

  // Servers inside a straight walk list two others, so they keep the channel.
  lemma RideEffect(r: Round, c: Cluster, u: Addr, v: Addr, next: Addr)
    requires Riding(r, c, u, v) && Edge(r.Graph(), v, u) && Edge(r.Graph(), v, next) && next != u
    ensures
      var step := Deliver(Msg(u, v, r.chan, r.say));
      && Allowed(c, step) && r.chan in c.servers[v].channels
      && EffectOf(c, step).server == c.servers[v].(channels := Kept(c.servers[v].channels))
      && !Prunable(c.servers[v].channels[r.chan])
      && Msg(v, next, r.chan, r.say) in EffectOf(c, step).msgs
  {
    var sv := c.servers[v];
    assert WellFormedServer(c, v);
    assert v in r.Graph();
    SubsetSize({u, next}, sv.channels[r.chan].servers);
  }

  lemma RideOn(r: Round, c: Cluster, u: Addr, v: Addr, next: Addr)
    requires Riding(r, c, u, v) && Edge(r.Graph(), v, u) && Edge(r.Graph(), v, next) && next != u
    ensures
      var step := Deliver(Msg(u, v, r.chan, r.say));
      Allowed(c, step) && Riding(r, After(c, step), v, next)
  {
    hide EffectAt, SafeAt, WellFormed, Prunable, Edge;
    var m := Msg(u, v, r.chan, r.say);
    RideEffect(r, c, u, v, next);
    Posted(c.net - multiset{m}, EffectOf(c, Deliver(m)).msgs, Msg(v, next, r.chan, r.say));
    StepKeepsWellFormed(c, Deliver(m));
  }

  lemma {:induction false} FollowWalk(r: Round, c: Cluster, w: seq<Addr>, k: nat)
    requires Symmetric(r.Graph()) && Straight(r.Graph(), w) && k + 1 < |w|
    requires Riding(r, c, w[0], w[1])
    ensures
      var steps := Along(w, k, r.chan, r.say);
      && Run(c, steps) && AllDeliveries(steps) && |steps| == k
      && Riding(r, End(c, steps), w[k], w[k + 1])
    decreases k
  {
    hide Riding, Allowed, After, Straight, Symmetric, Edge, Round.Graph;
    if k > 0 {
      FollowWalk(r, c, w, k - 1);
      var steps := Along(w, k, r.chan, r.say);
      assert steps[..k - 1] == Along(w, k - 1, r.chan, r.say);
      Bend(r.Graph(), w, k);
      RideOn(r, End(c, steps[..k - 1]), w[k - 1], w[k], w[k + 1]);
    }
  }

  lemma Bend(g: Graph, w: seq<Addr>, k: nat)
    requires Symmetric(g) && Straight(g, w) && 0 < k && k + 1 < |w|
    ensures Edge(g, w[k], w[k - 1]) && Edge(g, w[k], w[k + 1]) && w[k + 1] != w[k - 1]
  {
    assert Hop(g, w, k) && Hop(g, w, k + 1) && Onward(w, k + 1);
    assert Edge(g, w[k - 1], w[k]);
  }

  lemma StartsRiding(r: Round, c: Cluster, step: Step, v: Addr)
    requires WellFormed(c) && Intact(r, c) && Allowed(c, step) && step.ClientSay? && step.chan == r.chan
    requires r.say == Opened(c, step).say && Edge(r.Graph(), step.at, v)
    ensures Riding(r, After(c, step), step.at, v)
  {
    IntactListing(r, c);
    StepKeepsWellFormed(c, step);
    Posted(c.net, EffectOf(c, step).msgs, Msg(step.at, v, step.chan, r.say));
  }

  lemma CyclicDoesNotTerminate(c: Cluster, step: Step, bound: nat)
    requires Settled(c) && Allowed(c, step) && step.ClientSay? && !AcyclicAt(Listing(c, step.chan), step.at)
    ensures !ShorterThan(c, step, bound)
  {
    hide Allowed, After, Riding, Along;
    var g := Listing(c, step.chan);
    ListingShape(c, step.chan);
    var cycle :| Cycle(g, cycle) && Reaches(g, step.at, cycle[0]);
    var s := CycleRevisits(g, step.at, cycle);
    var w := Unending(g, s, bound + 2);
    var r := Opened(c, step);
    assert Hop(g, w, 1);
    StartsRiding(r, c, step, w[1]);
    FollowWalk(r, After(c, step), w, bound + 1);
    assert |Along(w, bound + 1, step.chan, r.say)| > bound;
  }

  /** A say floods for a bounded number of deliveries, whatever their order, if
      and only if no cycle of the channel's graph can be reached from its origin. */
  lemma TerminatesIffAcyclic(c: Cluster, step: Step)
    requires Settled(c) && Allowed(c, step) && step.ClientSay?
    ensures Terminates(c, step) <==> AcyclicAt(Listing(c, step.chan), step.at)
  {
    if AcyclicAt(Listing(c, step.chan), step.at) {
      AcyclicTerminates(c, step);
    } else if Terminates(c, step) {
      var bound: nat :| ShorterThan(c, step, bound);
      CyclicDoesNotTerminate(c, step, bound);
    }
  }

  // -------------------------------------------- grids: it never even pauses

  ghost predicate AtLeastTwo(g: Graph, o: Addr) {
    forall v :: v in g && Reaches(g, o, v) ==> |g[v]| >= 2
  }

  ghost predicate CirculatingMsg(r: Round, x: Msg) {
    && !x.body.Join? && (x.body.Leave? ==> x.chan != r.chan)
    && (x.body.Say? ==> x.chan == r.chan && Reaches(r.Graph(), r.origin, x.dst))
  }

  ghost predicate Circulating(r: Round, c: Cluster) {
    && WellFormed(c) && Listing(c, r.chan) == r.Graph()
    && (forall m :: m in c.net ==> CirculatingMsg(r, m))
    && (exists m :: m in c.net && m.body.Say?)
  }

  lemma LeaveCirculates(r: Round, c: Cluster, m: Msg)
    requires Circulating(r, c) && Allowed(c, Deliver(m)) && m.body.Leave?
    ensures Circulating(r, After(c, Deliver(m)))
  {
    var c' := After(c, Deliver(m));
    StepKeepsWellFormed(c, Deliver(m));
    assert m in c.net;
    LeaveShape(c, m, c', r.chan);
    assert c'.net == c.net - multiset{m};
    var x :| x in c.net && x.body.Say?;
    assert x in c'.net;
    assert forall y :: y in c'.net ==> y in c.net;
  }

  lemma CopySends(r: Round, c: Cluster, m: Msg)
    requires AtLeastTwo(r.Graph(), r.origin) && Circulating(r, c) && Allowed(c, Deliver(m)) && m.body.Say?
    ensures
      var e := EffectOf(c, Deliver(m));
      && !Prunable(c.servers[m.dst].channels[r.chan])
      && (exists x :: x in e.msgs && x.body.Say?)
      && (forall x :: x in e.msgs ==> CirculatingMsg(r, x))
  {
    var g, n, sv := r.Graph(), m.dst, c.servers[m.dst];
    assert m in c.net && n in Listing(c, r.chan);
    assert WellFormedServer(c, n);
    var says := Broadcast(n, g[n] - {m.src}, r.chan, m.body);
    assert EffectOf(c, Deliver(m)).msgs == says + LeaveMsgs(n, sv.channels);
    var next := Another(g[n], m.src);
    assert Msg(n, next, r.chan, m.body) in says;
    forall x | x in says ensures Reaches(g, r.origin, x.dst) {
      ReachesSnoc(g, r.origin, n, x.dst);
    }
  }

  lemma CopyKeepsListing(r: Round, c: Cluster, m: Msg)
    requires AtLeastTwo(r.Graph(), r.origin) && Circulating(r, c) && Allowed(c, Deliver(m)) && m.body.Say?
    ensures Listing(After(c, Deliver(m)), r.chan) == Listing(c, r.chan)
  {
    hide Reaches;
    CopySends(r, c, m);
    assert m in c.net && m.dst in Listing(c, r.chan);
    assert WellFormedServer(c, m.dst);
    ListingUpdate(c, m.dst, Pruned(m.dst, c.servers[m.dst]).server, After(c, Deliver(m)), r.chan);
  }

  lemma CopyCirculates(r: Round, c: Cluster, m: Msg)
    requires AtLeastTwo(r.Graph(), r.origin) && Circulating(r, c) && Allowed(c, Deliver(m)) && m.body.Say?
    ensures Circulating(r, After(c, Deliver(m)))
  {
    hide EffectAt, SafeAt, Listing, WellFormed, CirculatingMsg;
    StepKeepsWellFormed(c, Deliver(m));
    CopySends(r, c, m);
    CopyKeepsListing(r, c, m);
    MergedNet(r, c.net - multiset{m}, EffectOf(c, Deliver(m)).msgs, After(c, Deliver(m)).net);
  }

  lemma MergedNet(r: Round, net: multiset<Msg>, msgs: set<Msg>, net': multiset<Msg>)
    requires net' == net + multiset(msgs)
    requires forall x :: x in net ==> CirculatingMsg(r, x)
    requires forall x :: x in msgs ==> CirculatingMsg(r, x)
    requires exists x :: x in msgs && x.body.Say?
    ensures forall x :: x in net' ==> CirculatingMsg(r, x)
    ensures exists x :: x in net' && x.body.Say?
  {
    var x :| x in msgs && x.body.Say?;
    assert x in net';
  }

  lemma {:induction false} RunCirculates(r: Round, c: Cluster, steps: seq<Step>)
    requires AtLeastTwo(r.Graph(), r.origin) && Circulating(r, c) && Run(c, steps) && AllDeliveries(steps)
    ensures Circulating(r, End(c, steps))
    decreases |steps|
  {
    if steps != [] {
      var n := |steps| - 1;
      RunCirculates(r, c, steps[..n]);
      var mid, m := End(c, steps[..n]), steps[n].msg;
      assert m in mid.net;
      if m.body.Say? {
        CopyCirculates(r, mid, m);
      } else {
        LeaveCirculates(r, mid, m);
      }
    }
  }

  /** Where every server of the component lists at least two others, as on the
      grid topology, no delivery order ever drains a say. */
  lemma GridNeverDrains(c: Cluster, step: Step, steps: seq<Step>)
    requires Settled(c) && Allowed(c, step) && step.ClientSay? && AtLeastTwo(Listing(c, step.chan), step.at)
    requires Run(After(c, step), steps) && AllDeliveries(steps)
    ensures !Drained(End(After(c, step), steps))
  {
    var r, g, o := Opened(c, step), Listing(c, step.chan), step.at;
    var c1 := After(c, step);
    StepKeepsWellFormed(c, step);
    LoginShape(c, step, step.chan);
    ReachesSelf(g, o);
    assert |g[o]| >= 2;
    assert g[o] != {};
    var next :| next in g[o];
    forall x | x in c1.net ensures x.body.Say? && x.chan == r.chan && Reaches(g, o, x.dst) {
      Posted(c.net, EffectOf(c, step).msgs, x);
      ReachesSnoc(g, o, o, x.dst);
    }
    Posted(c.net, EffectOf(c, step).msgs, Msg(o, next, r.chan, r.say));
    assert Msg(o, next, r.chan, r.say) in c1.net;
    RunCirculates(r, c1, steps);
  }
}
