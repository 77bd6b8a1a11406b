/**
 Who hears a say, told from the history of the run.

 A client is in a channel at its server exactly when it joined and has not left,
 logged out, timed out or been displaced since; nothing else any server does, no
 prune in particular, takes it out. A drained say is sent once to exactly those.
*/
module Subscriptions {
  import opened Addresses
  import opened Effects
  import opened Graphs
  import opened Membership
  import opened Protocol
  import opened Pruning
  import opened SayRound

  ghost predicate In(c: Cluster, s: Addr, chan: string, u: Client) {
    Holds(c, s, chan) && u in c.servers[s].channels[chan].users
  }

  // The step is the client's own join.
  ghost predicate Enters(c: Cluster, step: Step, s: Addr, chan: string, u: Client) {
    s in c.servers && step == ClientJoin(s, u.addr, chan) && u in c.servers[s].users
  }

  // The client leaves, logs out or times out, or another one with its name or
  // address joins.
  ghost predicate Exits(c: Cluster, step: Step, s: Addr, chan: string, u: Client) {
    s in c.servers &&
    match step
    case Logout(at, a) => at == s && At(c.servers[s], u, a)
    case ClientLeave(at, a, d) => at == s && d == chan && At(c.servers[s], u, a)
    case UserTimeout(at, idle) => at == s && u in idle
    case ClientJoin(at, a, d) =>
      at == s && d == chan &&
      exists v :: At(c.servers[s], v, a) && v != u && (v.name == u.name || v.addr == u.addr)
    case _ => false
  }

  ghost predicate AllSeparate(c: Cluster) {
    forall s :: s in c.servers ==> Separate(c.servers[s].users)
  }

  lemma StepKeepsSeparate(c: Cluster, step: Step)
    requires AllSeparate(c) && Allowed(c, step)
    ensures AllSeparate(After(c, step))
  {
    var n := Site(step);
    assert Separate(c.servers[n].users);
    assert Separate(EffectOf(c, step).server.users);
  }

  // ----------------------------------------------------------------- one step

  lemma Elsewhere(c: Cluster, step: Step, s: Addr, chan: string, u: Client)
    requires Allowed(c, step) && s != Site(step)
    ensures In(After(c, step), s, chan, u) <==> In(c, s, chan, u)
    ensures !Enters(c, step, s, chan, u) && !Exits(c, step, s, chan, u)
  {
  }

  lemma LogoutStep(c: Cluster, step: Step, chan: string, u: Client)
    requires AllSeparate(c) && Allowed(c, step) && step.Logout?
    ensures
      var s := step.at;
      In(After(c, step), s, chan, u) <==> In(c, s, chan, u) && !Exits(c, step, s, chan, u)
  {
    hide Separate, EffectAt, SafeAt;
    assert Separate(c.servers[step.at].users);
    LogoutChannels(step.at, c.servers[step.at], step.at, step.addr, chan);
  }

  lemma LeaveStep(c: Cluster, step: Step, chan: string, u: Client)
    requires AllSeparate(c) && Allowed(c, step) && step.ClientLeave?
    ensures
      var s := step.at;
      In(After(c, step), s, chan, u) <==> In(c, s, chan, u) && !Exits(c, step, s, chan, u)
  {
    hide Separate, EffectAt;
    var s, sv := step.at, c.servers[step.at];
    assert Separate(sv.users);
    AtMeans(sv, step.addr);
    var v := UserAt(sv, step.addr);
    ClientLeaveChannel(s, sv, s, v, step.chan);
    if chan != step.chan {
      ClientLeaveOthers(s, sv, s, step.addr, step.chan, chan);
    }
  }

  // Whom a join from this address displaces.
  lemma JoinDisplaces(c: Cluster, step: Step, v: Client, chan: string, u: Client)
    requires step.ClientJoin? && step.at in c.servers && Separate(c.servers[step.at].users)
    requires At(c.servers[step.at], v, step.addr)
    ensures Enters(c, step, step.at, chan, u) <==> chan == step.chan && u == v
    ensures Exits(c, step, step.at, chan, u) <==>
      chan == step.chan && u != v && (u.name == v.name || u.addr == v.addr)
  {
  }

  lemma JoinStep(c: Cluster, step: Step, chan: string, u: Client)
    requires AllSeparate(c) && Allowed(c, step) && step.ClientJoin?
    ensures
      var s := step.at;
      In(After(c, step), s, chan, u) <==>
        Enters(c, step, s, chan, u) || (In(c, s, chan, u) && !Exits(c, step, s, chan, u))
  {
    hide Separate, EffectAt, SafeAt, Enters, Exits, LoggedIn;
    var s, sv := step.at, c.servers[step.at];
    assert Separate(sv.users);
    AtMeans(sv, step.addr);
    if LoggedIn(sv, step.addr) {
      var v := UserAt(sv, step.addr);
      ClientJoinLaw(s, sv, s, v, step.chan);
      JoinDisplaces(c, step, v, chan, u);
    } else {
      NobodyAt(c, step, chan, u);
      StrangerJoinLaw(s, sv, s, step.addr, step.chan);
    }
  }

  lemma NobodyAt(c: Cluster, step: Step, chan: string, u: Client)
    requires step.ClientJoin? && step.at in c.servers && !LoggedIn(c.servers[step.at], step.addr)
    ensures !Enters(c, step, step.at, chan, u) && !Exits(c, step, step.at, chan, u)
    ensures forall x :: x in c.servers[step.at].users ==> x.addr != step.addr
  {
  }

  lemma ServerStep(c: Cluster, step: Step, chan: string, u: Client)
    requires Allowed(c, step) && !step.ClientJoin? && !step.ClientLeave? && !step.Logout?
    ensures
      var s := Site(step);
      In(After(c, step), s, chan, u) <==> In(c, s, chan, u) && !Exits(c, step, s, chan, u)
  {
  }

  /** The exact effect of any step on anybody's membership. */
  lemma MemberAfter(c: Cluster, step: Step, s: Addr, chan: string, u: Client)
    requires AllSeparate(c) && Allowed(c, step)
    ensures In(After(c, step), s, chan, u) <==>
      Enters(c, step, s, chan, u) || (In(c, s, chan, u) && !Exits(c, step, s, chan, u))
  {
    hide In, Exits, After, Allowed, AllSeparate;
    if s != Site(step) {
      Elsewhere(c, step, s, chan, u);
    } else if step.ClientJoin? {
      JoinStep(c, step, chan, u);
    } else if step.ClientLeave? {
      LeaveStep(c, step, chan, u);
    } else if step.Logout? {
      LogoutStep(c, step, chan, u);
    } else {
      ServerStep(c, step, chan, u);
    }
  }

  // --------------------------------------------------------------- whole runs

  ghost predicate EntersAt(c: Cluster, steps: seq<Step>, i: nat, s: Addr, chan: string, u: Client)
    requires Run(c, steps) && i < |steps|
  {
    RunPrefix(c, steps, i);
    Enters(End(c, steps[..i]), steps[i], s, chan, u)
  }

  ghost predicate ExitsAt(c: Cluster, steps: seq<Step>, i: nat, s: Addr, chan: string, u: Client)
    requires Run(c, steps) && i < |steps|
  {
    RunPrefix(c, steps, i);
    Exits(End(c, steps[..i]), steps[i], s, chan, u)
  }

  // Nothing takes the client out from step `i` on.
  ghost predicate StaysFrom(c: Cluster, steps: seq<Step>, i: nat, s: Addr, chan: string, u: Client)
    requires Run(c, steps)
  {
    forall j :: i <= j < |steps| ==> !ExitsAt(c, steps, j, s, chan, u)
  }

  // It joined during the run, or was a member before, and has stayed since.
  ghost predicate Subscribed(c: Cluster, steps: seq<Step>, s: Addr, chan: string, u: Client)
    requires Run(c, steps)
  {
    || (In(c, s, chan, u) && StaysFrom(c, steps, 0, s, chan, u))
    || (exists i :: 0 <= i < |steps| && EntersAt(c, steps, i, s, chan, u) && StaysFrom(c, steps, i + 1, s, chan, u))
  }

  lemma SubscribedSnoc(c: Cluster, steps: seq<Step>, s: Addr, chan: string, u: Client)
    requires Run(c, steps) && steps != []
    ensures
      var n := |steps| - 1;
      Subscribed(c, steps, s, chan, u) <==>
        Enters(End(c, steps[..n]), steps[n], s, chan, u)
        || (Subscribed(c, steps[..n], s, chan, u) && !Exits(End(c, steps[..n]), steps[n], s, chan, u))
  {
    hide Enters, Exits, In, Run, End;
    var n := |steps| - 1;
    LastRun(c, steps);
    forall i | 0 <= i < n
      ensures EntersAt(c, steps, i, s, chan, u) <==> EntersAt(c, steps[..n], i, s, chan, u)
      ensures ExitsAt(c, steps, i, s, chan, u) <==> ExitsAt(c, steps[..n], i, s, chan, u)
    {
      assert steps[..n][..i] == steps[..i];
    }
    forall i | 0 <= i <= n
      ensures StaysFrom(c, steps, i, s, chan, u) <==>
                StaysFrom(c, steps[..n], i, s, chan, u) && !ExitsAt(c, steps, n, s, chan, u)
    {
    }
    assert StaysFrom(c, steps, n + 1, s, chan, u);
    assert EntersAt(c, steps, n, s, chan, u) <==> Enters(End(c, steps[..n]), steps[n], s, chan, u);
    assert ExitsAt(c, steps, n, s, chan, u) <==> Exits(End(c, steps[..n]), steps[n], s, chan, u);
    if i :| 0 <= i < n && EntersAt(c, steps[..n], i, s, chan, u) && StaysFrom(c, steps[..n], i + 1, s, chan, u) {
      assert EntersAt(c, steps, i, s, chan, u);
      assert StaysFrom(c, steps, i + 1, s, chan, u) <==> !ExitsAt(c, steps, n, s, chan, u);
    }
    if i :| 0 <= i < |steps| && EntersAt(c, steps, i, s, chan, u) && StaysFrom(c, steps, i + 1, s, chan, u) {
      assert i < n ==> EntersAt(c, steps[..n], i, s, chan, u) && StaysFrom(c, steps[..n], i + 1, s, chan, u);
    }
  }

  lemma LastRun(c: Cluster, steps: seq<Step>)
    requires Run(c, steps) && steps != []
    ensures Run(c, steps[..|steps| - 1])
  {
  }

  /** At any moment of any run the members of a channel at a server are those that
      the history of its own clients says. */
  lemma {:induction false} MembersAreSubscribers(c: Cluster, steps: seq<Step>, s: Addr, chan: string, u: Client)
    requires AllSeparate(c) && Run(c, steps)
    ensures AllSeparate(End(c, steps))
    ensures In(End(c, steps), s, chan, u) <==> Subscribed(c, steps, s, chan, u)
    decreases |steps|
  {
    hide AllSeparate, Subscribed, In, Enters, Exits, Allowed, After;
    if steps == [] {
      AtFirst(c, s, chan, u);
    } else {
      var n := |steps| - 1;
      MembersAreSubscribers(c, steps[..n], s, chan, u);
      MemberAfter(End(c, steps[..n]), steps[n], s, chan, u);
      StepKeepsSeparate(End(c, steps[..n]), steps[n]);
      SubscribedSnoc(c, steps, s, chan, u);
    }
  }

  lemma AtFirst(c: Cluster, s: Addr, chan: string, u: Client)
    ensures Subscribed(c, [], s, chan, u) <==> In(c, s, chan, u)
  {
  }

  // -------------------------------------------------------------- who hears it

  /** Whatever happened before: a say on a settled channel without a cycle at its
      origin, once drained, has been sent exactly once to each client that is
      subscribed at a server of the origin's component, and no other text was. */
  lemma SubscribersHearOnce(c0: Cluster, before: seq<Step>, step: Step, steps: seq<Step>, t: Text)
    requires AllSeparate(c0) && Run(c0, before) && Settled(End(c0, before))
    requires step.ClientSay? && Allowed(End(c0, before), step)
    requires AcyclicAt(Listing(End(c0, before), step.chan), step.at)
    requires Run(After(End(c0, before), step), steps) && AllDeliveries(steps)
    requires Drained(End(After(End(c0, before), step), steps))
    ensures
      var c := End(c0, before);
      var who := UserAt(c.servers[step.at], step.addr).name;
      End(After(c, step), steps).texts[t] == c.texts[t] +
        if t.chan == step.chan && t.who == who && t.text == step.text
          && Reaches(Listing(c, step.chan), step.at, t.server)
          && Subscribed(c0, before, t.server, step.chan, t.client)
        then 1 else 0
  {
    hide AllSeparate, Settled, AcyclicAt, Allowed, After, Run, End, Subscribed, Reaches, AllDeliveries;
    var c := End(c0, before);
    MembersAreSubscribers(c0, before, t.server, step.chan, t.client);
    EachHearsOnce(c, step, steps, t);
  }
}
