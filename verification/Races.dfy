/**
 How many says may be in flight at once?

 A say prunes every channel of the servers it reaches, so a second say on its way
 to a server that drops its channel finds none there, and the handler follows a
 null pointer. From a settled cluster this can happen exactly when some server
 that has a client reaches a user-less leaf of a channel.
*/
module Races {
  import opened Addresses
  import opened Graphs
  import opened Membership
  import opened Protocol
  import opened Pruning
  import opened SayFlood
  import opened SayRound

  predicate Saying(step: Step) {
    step.ClientSay? || step.Deliver?
  }

  ghost predicate AllSaying(steps: seq<Step>) {
    forall i :: 0 <= i < |steps| ==> Saying(steps[i])
  }

  // A server still listed in a channel it would drop.
  predicate Abandoned(c: Cluster, s: Addr, chan: string)
    requires Holds(c, s, chan)
  {
    var ch := c.servers[s].channels[chan];
    Prunable(ch) && ch.servers != {}
  }

  // Somebody logged in can say something that reaches the server.
  ghost predicate Heard(c: Cluster, s: Addr, chan: string) {
    exists o :: o in c.servers && c.servers[o].users != {} && Reaches(Listing(c, chan), o, s)
  }

  ghost predicate NoneAbandoned(c: Cluster) {
    forall s, chan :: Holds(c, s, chan) && Heard(c, s, chan) ==> !Abandoned(c, s, chan)
  }

  // No run of says and deliveries gets a datagram to a server that cannot
  // handle it.
  ghost predicate RaceFree(c: Cluster) {
    forall steps, m :: Run(c, steps) && AllSaying(steps) && m in End(c, steps).net ==>
      Allowed(End(c, steps), Deliver(m))
  }

  // ---------------------------------------------- nobody abandoned: no race

  // Channels only lose servers, and what can be heard is as it was.
  ghost predicate SteadyServer(c0: Cluster, c: Cluster, s: Addr, chan: string) {
    && (Holds(c, s, chan) ==>
          && Holds(c0, s, chan)
          && c.servers[s].channels[chan].users == c0.servers[s].channels[chan].users
          && c.servers[s].channels[chan].servers <= c0.servers[s].channels[chan].servers)
    && (Holds(c0, s, chan) && Heard(c0, s, chan) && Listing(c0, chan)[s] != {} ==>
          Holds(c, s, chan) && c.servers[s].channels[chan] == c0.servers[s].channels[chan])
  }

  ghost predicate SteadyServers(c0: Cluster, c: Cluster) {
    && c.servers.Keys == c0.servers.Keys
    && (forall s :: s in c.servers ==> c.servers[s].users == c0.servers[s].users)
    && (forall s, chan {:trigger SteadyServer(c0, c, s, chan)} :: SteadyServer(c0, c, s, chan))
  }

  // Says travel where they can be heard, leaves where they cannot.
  ghost predicate SteadyMsg(c0: Cluster, m: Msg) {
    && !m.body.Join? && Edge(Listing(c0, m.chan), m.src, m.dst)
    && (m.body.Say? <==> Heard(c0, m.dst, m.chan))
  }

  ghost predicate Steady(c0: Cluster, c: Cluster) {
    WellFormed(c) && SteadyServers(c0, c) && forall m :: m in c.net ==> SteadyMsg(c0, m)
  }

  lemma HeardAcross(c: Cluster, s: Addr, t: Addr, chan: string)
    requires Symmetric(Listing(c, chan)) && Edge(Listing(c, chan), s, t)
    ensures Heard(c, s, chan) <==> Heard(c, t, chan)
  {
    var g := Listing(c, chan);
    assert Edge(g, t, s);
    if o :| o in c.servers && c.servers[o].users != {} && Reaches(g, o, s) {
      ReachesSnoc(g, o, s, t);
    }
    if o :| o in c.servers && c.servers[o].users != {} && Reaches(g, o, t) {
      ReachesSnoc(g, o, t, s);
    }
  }

  lemma HeardAtHome(c: Cluster, s: Addr, chan: string)
    requires s in c.servers && c.servers[s].users != {}
    ensures Heard(c, s, chan)
  {
    ReachesSelf(Listing(c, chan), s);
  }

  // What is pruned away at a server cannot be heard, or is listed nowhere.
  lemma PrunedSteady(c0: Cluster, c: Cluster, n: Addr, chan: string)
    requires NoneAbandoned(c0) && SteadyServers(c0, c) && Holds(c, n, chan) && Prunable(c.servers[n].channels[chan])
    ensures Holds(c0, n, chan)
    ensures Heard(c0, n, chan) ==> Listing(c0, chan)[n] == {}
  {
    hide Heard;
    assert SteadyServer(c0, c, n, chan);
  }

  lemma PruneKeepsSteady(c0: Cluster, c: Cluster, n: Addr, c': Cluster)
    requires NoneAbandoned(c0) && SteadyServers(c0, c) && n in c.servers
    requires c'.servers == c.servers[n := Pruned(n, c.servers[n]).server]
    ensures SteadyServers(c0, c')
  {
    hide Heard;
    forall s, chan ensures SteadyServer(c0, c', s, chan) {
      assert SteadyServer(c0, c, s, chan);
      if s == n && Holds(c, n, chan) && Prunable(c.servers[n].channels[chan]) {
        PrunedSteady(c0, c, n, chan);
      }
    }
  }

  lemma CopiesSteady(c0: Cluster, c: Cluster, n: Addr, to: set<Addr>, chan: string, say: Body)
    requires Settled(c0) && SteadyServers(c0, c) && Holds(c, n, chan) && Heard(c0, n, chan) && say.Say?
    requires to <= c.servers[n].channels[chan].servers
    ensures forall m :: m in Broadcast(n, to, chan, say) ==> SteadyMsg(c0, m)
  {
    hide Heard;
    forall t | t in to ensures SteadyMsg(c0, Msg(n, t, chan, say)) {
      assert SteadyServer(c0, c, n, chan);
      assert Edge(Listing(c0, chan), n, t);
      HeardAcross(c0, n, t, chan);
    }
  }

  lemma LeavesSteady(c0: Cluster, c: Cluster, n: Addr)
    requires Settled(c0) && NoneAbandoned(c0) && SteadyServers(c0, c) && n in c.servers
    ensures forall m :: m in LeaveMsgs(n, c.servers[n].channels) ==> SteadyMsg(c0, m)
  {
    hide Heard;
    forall m | m in LeaveMsgs(n, c.servers[n].channels) ensures SteadyMsg(c0, m) {
      assert Holds(c, n, m.chan);
      assert SteadyServer(c0, c, n, m.chan);
      PrunedSteady(c0, c, n, m.chan);
      assert Edge(Listing(c0, m.chan), n, m.dst);
      HeardAcross(c0, n, m.dst, m.chan);
    }
  }

  lemma MergedSteady(c0: Cluster, net: multiset<Msg>, msgs: set<Msg>)
    requires forall m :: m in net ==> SteadyMsg(c0, m)
    requires forall m :: m in msgs ==> SteadyMsg(c0, m)
    ensures forall m :: m in net + multiset(msgs) ==> SteadyMsg(c0, m)
  {
  }

  lemma SameServersSteady(c0: Cluster, c: Cluster, c': Cluster)
    requires SteadyServers(c0, c) && c'.servers == c.servers
    ensures SteadyServers(c0, c')
  {
    hide Heard;
    forall s, chan ensures SteadyServer(c0, c', s, chan) {
      assert SteadyServer(c0, c, s, chan);
    }
  }

  lemma ClientSayKeepsSteady(c0: Cluster, c: Cluster, step: Step)
    requires Settled(c0) && Steady(c0, c) && Allowed(c, step) && step.ClientSay?
    ensures Steady(c0, After(c, step))
  {
    hide Heard, SteadyServers, SteadyMsg, WellFormed, Symmetric;
    var n, to := step.at, c.servers[step.at].channels[step.chan].servers;
    StepKeepsWellFormed(c, step);
    HasClient(c0, c, n, step.addr);
    HeardAtHome(c0, n, step.chan);
    CopiesSteady(c0, c, n, to, step.chan, Opened(c, step).say);
    MergedSteady(c0, c.net, EffectOf(c, step).msgs);
    SameServersSteady(c0, c, After(c, step));
  }

  lemma HasClient(c0: Cluster, c: Cluster, n: Addr, a: Addr)
    requires SteadyServers(c0, c) && n in c.servers && LoggedIn(c.servers[n], a)
    ensures n in c0.servers && c0.servers[n].users != {}
  {
  }

  lemma CopyKeepsSteady(c0: Cluster, c: Cluster, m: Msg)
    requires Settled(c0) && NoneAbandoned(c0) && Steady(c0, c) && Allowed(c, Deliver(m)) && m.body.Say?
    ensures Steady(c0, After(c, Deliver(m)))
  {
    hide Heard;
    var n, c' := m.dst, After(c, Deliver(m));
    var sv := c.servers[n];
    StepKeepsWellFormed(c, Deliver(m));
    assert WellFormedServer(c, n);
    assert m in c.net && SteadyMsg(c0, m);
    var says := Broadcast(n, sv.channels[m.chan].servers - {m.src}, m.chan, m.body);
    assert EffectOf(c, Deliver(m)).msgs == says + LeaveMsgs(n, sv.channels);
    CopiesSteady(c0, c, n, sv.channels[m.chan].servers - {m.src}, m.chan, m.body);
    LeavesSteady(c0, c, n);
    MergedSteady(c0, c.net - multiset{m}, says + LeaveMsgs(n, sv.channels));
    PruneKeepsSteady(c0, c, n, c');
  }

  // A leave changes what cannot be heard.
  lemma UnlistKeepsSteady(c0: Cluster, c: Cluster, n: Addr, from: Addr, d: string, c': Cluster)
    requires SteadyServers(c0, c) && n in c.servers && !Heard(c0, n, d)
    requires c'.servers == c.servers[n := OnLeave(c.servers[n], from, d).server]
    ensures SteadyServers(c0, c')
  {
    hide Heard;
    forall s, chan ensures SteadyServer(c0, c', s, chan) {
      assert SteadyServer(c0, c, s, chan);
    }
  }

  lemma LeaveKeepsSteady(c0: Cluster, c: Cluster, m: Msg)
    requires Settled(c0) && Steady(c0, c) && Allowed(c, Deliver(m)) && m.body.Leave?
    ensures Steady(c0, After(c, Deliver(m)))
  {
    hide Heard, SteadyServers, WellFormed, Symmetric;
    StepKeepsWellFormed(c, Deliver(m));
    assert m in c.net && SteadyMsg(c0, m);
    assert After(c, Deliver(m)).net == c.net - multiset{m};
    UnlistKeepsSteady(c0, c, m.dst, m.src, m.chan, After(c, Deliver(m)));
  }

  lemma StepKeepsSteady(c0: Cluster, c: Cluster, step: Step)
    requires Settled(c0) && NoneAbandoned(c0) && Steady(c0, c) && Allowed(c, step) && Saying(step)
    ensures Steady(c0, After(c, step))
  {
    hide Heard, After, Allowed, SteadyServers, SteadyMsg;
    if step.ClientSay? {
      ClientSayKeepsSteady(c0, c, step);
    } else {
      OnlySaysAndLeaves(c0, c, step);
      if step.msg.body.Say? {
        CopyKeepsSteady(c0, c, step.msg);
      } else {
        LeaveKeepsSteady(c0, c, step.msg);
      }
    }
  }

  lemma {:induction false} SaysKeepSteady(c: Cluster, steps: seq<Step>)
    requires Settled(c) && NoneAbandoned(c) && Run(c, steps) && AllSaying(steps)
    ensures Steady(c, End(c, steps))
    decreases |steps|
  {
    hide Settled, NoneAbandoned, Steady, After, Allowed, Saying;
    if steps == [] {
      SteadyStart(c);
    } else {
      var n := |steps| - 1;
      SaysKeepSteady(c, steps[..n]);
      StepKeepsSteady(c, End(c, steps[..n]), steps[n]);
    }
  }

  lemma SteadyStart(c: Cluster)
    requires Settled(c)
    ensures Steady(c, c)
  {
    hide Heard;
    forall s, chan ensures SteadyServer(c, c, s, chan) {
    }
  }

  lemma OnlySaysAndLeaves(c0: Cluster, c: Cluster, step: Step)
    requires Steady(c0, c) && Allowed(c, step) && step.Deliver?
    ensures !step.msg.body.Join?
  {
    assert step.msg in c.net;
  }

  lemma SteadyIsHandled(c0: Cluster, c: Cluster, m: Msg)
    requires Settled(c0) && Steady(c0, c) && m in c.net
    ensures Allowed(c, Deliver(m))
  {
    hide Heard;
    assert SteadyMsg(c0, m) && SteadyServer(c0, c, m.dst, m.chan);
    assert Edge(Listing(c0, m.chan), m.dst, m.src);
    assert Edge(Topology(c), m.src, m.dst) && Edge(Topology(c), m.dst, m.src);
  }

  // ------------------------------------------------- somebody abandoned: race

  // Two copies wait for a server that drops the channel when the first arrives.
  lemma SecondCopyLost(c: Cluster, m1: Msg, m2: Msg)
    requires WellFormed(c) && m1 in c.net && m2 in c.net && m1 != m2
    requires m1.body.Say? && m2.body.Say? && m1.dst == m2.dst && m1.chan == m2.chan
    requires Holds(c, m1.dst, m1.chan) && Prunable(c.servers[m1.dst].channels[m1.chan])
    ensures Allowed(c, Deliver(m1))
    ensures m2 in After(c, Deliver(m1)).net && !Allowed(After(c, Deliver(m1)), Deliver(m2))
  {
    assert WellFormedServer(c, m1.dst);
    assert (c.net - multiset{m1})[m2] > 0;
  }

  lemma {:induction false} AlongSays(w: seq<Addr>, k: nat, chan: string, say: Body)
    requires k < |w|
    ensures AllSaying(Along(w, k, chan, say))
    ensures forall m :: Deliver(m) in Along(w, k, chan, say) ==> m.body == say
    decreases k
  {
    if k > 0 {
      AlongSays(w, k - 1, chan, say);
    }
  }

  // The steps that bring one say to the last hop of the walk.
  ghost function Brought(w: seq<Addr>, a: Addr, chan: string, uid: nat, say: Body): seq<Step>
    requires |w| > 1
  {
    [ClientSay(w[0], a, chan, uid, "")] + Along(w, |w| - 2, chan, say)
  }

  lemma OpenSay(c0: Cluster, c: Cluster, w: seq<Addr>, a: Addr, chan: string, uid: nat) returns (r: Round)
    requires Straight(Listing(c0, chan), w) && |w| > 1 && w[0] in c0.servers && LoggedIn(c0.servers[w[0]], a)
    requires WellFormed(c) && Intact(Round(c0, w[0], chan, Join), c)
    ensures r.start == c0 && r.chan == chan && r.say.Say? && r.say.uid == uid
    ensures Allowed(c, ClientSay(w[0], a, chan, uid, ""))
    ensures Riding(r, After(c, ClientSay(w[0], a, chan, uid, "")), w[0], w[1])
  {
    hide After, WellFormed, Straight;
    var step := ClientSay(w[0], a, chan, uid, "");
    FirstHop(c0, w, chan);
    IntactListing(Round(c0, w[0], chan, Join), c);
    r := Round(c0, w[0], chan, Opened(c, step).say);
    assert Intact(r, c);
    StartsRiding(r, c, step, w[1]);
  }

  lemma BringSay(c0: Cluster, c: Cluster, w: seq<Addr>, a: Addr, chan: string, uid: nat) returns (r: Round)
    requires Symmetric(Listing(c0, chan)) && Straight(Listing(c0, chan), w) && |w| > 1
    requires w[0] in c0.servers && LoggedIn(c0.servers[w[0]], a)
    requires WellFormed(c) && Intact(Round(c0, w[0], chan, Join), c)
    ensures r.start == c0 && r.chan == chan && r.say.Say? && r.say.uid == uid
    ensures
      var steps := Brought(w, a, chan, uid, r.say);
      && Run(c, steps) && AllSaying(steps) && (forall m :: Deliver(m) in steps ==> m.body == r.say)
      && Riding(r, End(c, steps), w[|w| - 2], w[|w| - 1])
  {
    hide After, Allowed, WellFormed, Straight, Symmetric, Intact, Riding, Along, LoggedIn;
    r := OpenSay(c0, c, w, a, chan, uid);
    var step := ClientSay(w[0], a, chan, uid, "");
    FollowWalk(r, After(c, step), w, |w| - 2);
    AlongSays(w, |w| - 2, chan, r.say);
    RunOne(c, step);
    RunConcat(c, [step], Along(w, |w| - 2, chan, r.say));
  }

  lemma FirstHop(c: Cluster, w: seq<Addr>, chan: string)
    requires Straight(Listing(c, chan), w) && |w| > 1
    ensures Edge(Listing(c, chan), w[0], w[1])
  {
    assert Hop(Listing(c, chan), w, 1);
  }

  // Two says follow each other along a walk to a server that would drop the channel.
  lemma RaceAlong(c: Cluster, w: seq<Addr>, a: Addr, chan: string)
    requires Settled(c) && Straight(Listing(c, chan), w) && |w| > 1
    requires w[0] in c.servers && LoggedIn(c.servers[w[0]], a)
    requires Holds(c, w[|w| - 1], chan) && Prunable(c.servers[w[|w| - 1]].channels[chan])
    ensures !RaceFree(c)
  {
    hide After, WellFormed, Allowed, Straight, Brought;
    var u, v := w[|w| - 2], w[|w| - 1];
    var r1 := BringSay(c, c, w, a, chan, 0);
    var s1 := Brought(w, a, chan, 0, r1.say);
    var c1 := End(c, s1);
    assert Intact(Round(c, w[0], chan, Join), c1);
    var r2 := BringSay(c, c1, w, a, chan, 1);
    var s2 := Brought(w, a, chan, 1, r2.say);
    var m1, m2 := Msg(u, v, chan, r1.say), Msg(u, v, chan, r2.say);
    OthersStay(c1, s2, m1);
    RunConcat(c, s1, s2);
    var c2 := End(c1, s2);
    SecondCopyLost(c2, m1, m2);
    RunOne(c2, Deliver(m1));
    RunConcat(c, s1 + s2, [Deliver(m1)]);
    assert AllSaying(s1 + s2 + [Deliver(m1)]);
  }

  // From an abandoned server that can be heard, a walk on which says race.
  lemma RacingWalk(c: Cluster, s: Addr, chan: string) returns (w: seq<Addr>)
    requires Settled(c) && AllKnown(c) && Holds(c, s, chan) && Abandoned(c, s, chan) && Heard(c, s, chan)
    ensures Straight(Listing(c, chan), w) && |w| > 1
    ensures w[0] in c.servers && c.servers[w[0]].users != {}
    ensures Holds(c, w[|w| - 1], chan) && Prunable(c.servers[w[|w| - 1]].channels[chan])
  {
    var g := Listing(c, chan);
    ListingShape(c, chan);
    var o :| o in c.servers && c.servers[o].users != {} && Reaches(g, o, s);
    if o != s {
      var w0 :| WalkBetween(g, o, w0, s);
      w := Straighten(g, o, w0, s);
    } else {
      w := FromLeaf(c, s, chan);
      var b := w[|w| - 1];
      if c.servers[b].channels[chan].users != {} {
        assert Known(c.servers[b]);
        StraightReversed(g, w);
        w := Reversed(w);
      }
    }
  }

  lemma FromLeaf(c: Cluster, s: Addr, chan: string) returns (w: seq<Addr>)
    requires Settled(c) && Holds(c, s, chan) && Abandoned(c, s, chan)
    ensures Straight(Listing(c, chan), w) && |w| > 1 && w[0] == s
    ensures Holds(c, w[|w| - 1], chan) && |c.servers[w[|w| - 1]].channels[chan].servers| <= 1
  {
    var g := Listing(c, chan);
    ListingShape(c, chan);
    var a :| a in c.servers[s].channels[chan].servers;
    assert Edge(g, s, a) && !Edge(g, s, s);
    StraightSnoc(g, [s], a);
    w := OutToLeaf(g, [s] + [a]);
  }

  /** While channel members are logged in, any number of says can be in flight
      together without a lost channel if and only if no user-less leaf of a
      channel can be reached from a server that has a client. */
  lemma RaceFreeIffNoneAbandoned(c: Cluster)
    requires Settled(c) && AllKnown(c)
    ensures RaceFree(c) <==> NoneAbandoned(c)
  {
    hide Allowed, Abandoned, Heard;
    if NoneAbandoned(c) {
      forall steps, m | Run(c, steps) && AllSaying(steps) && m in End(c, steps).net
        ensures Allowed(End(c, steps), Deliver(m))
      {
        SaysKeepSteady(c, steps);
        SteadyIsHandled(c, End(c, steps), m);
      }
    } else {
      var s, chan :| Holds(c, s, chan) && Heard(c, s, chan) && Abandoned(c, s, chan);
      var w := RacingWalk(c, s, chan);
      var u :| u in c.servers[w[0]].users;
      assert LoggedIn(c.servers[w[0]], u.addr);
      RaceAlong(c, w, u.addr, chan);
    }
  }
}
