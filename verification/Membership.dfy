/**
 Who is in a channel, against who is logged in.

 A user is taken out of a channel by pointer, which also erases its name and
 address from the channel's maps. That is right as long as the members of every
 channel are logged in; a login that evicts a member ends it.
*/
module Membership {
  import opened Addresses
  import opened Protocol

  ghost predicate Separate(users: set<Client>) {
    forall x, y :: x in users && y in users && (x.name == y.name || x.addr == y.addr) ==> x == y
  }

  ghost predicate Known(sv: Server) {
    Separate(sv.users) && forall c :: c in sv.channels ==> sv.channels[c].users <= sv.users
  }

  // Nobody else in a channel has this user's name or address.
  ghost predicate Unclaimed(sv: Server, u: Client) {
    forall c, x :: c in sv.channels && x in sv.channels[c].users && x != u ==> x.name != u.name && x.addr != u.addr
  }

  /** A login keeps channel membership within the logged-in users exactly when it
      evicts nobody who is in a channel. */
  lemma LoginKeepsKnownIff(sv: Server, u: Client)
    requires Known(sv)
    ensures Known(OnLogin(sv, u).server) <==> Unclaimed(sv, u)
  {
    var sv' := OnLogin(sv, u).server;
    assert Separate(sv'.users);
    if !Unclaimed(sv, u) {
      var c, x :| c in sv.channels && x in sv.channels[c].users && x != u && (x.name == u.name || x.addr == u.addr);
      assert x in sv'.channels[c].users && x !in sv'.users;
    } else {
      forall c | c in sv'.channels ensures sv'.channels[c].users <= sv'.users {
        assert sv.channels[c].users <= sv.users;
      }
    }
  }

  lemma KnownIsRemovable(sv: Server, u: Client)
    requires Known(sv) && u in sv.users
    ensures RemovableEverywhere(sv.channels, u)
  {
    forall c | c in sv.channels ensures Removable(sv.channels[c].users, u) {
      assert sv.channels[c].users <= sv.users;
    }
  }

  /** While every member is logged in, no logout, leave or timeout can erase the
      keys of somebody else. */
  lemma KnownIsSafe(sv: Server, step: Step)
    requires Known(sv)
    requires
      || step.Logout?
      || (step.ClientLeave? && LoggedIn(sv, step.addr))
      || (step.UserTimeout? && step.idle <= sv.users)
    ensures SafeAt(sv, step)
  {
    if step.UserTimeout? {
      forall u | u in step.idle ensures RemovableEverywhere(sv.channels, u) {
        KnownIsRemovable(sv, u);
      }
    } else if LoggedIn(sv, step.addr) {
      KnownIsRemovable(sv, UserAt(sv, step.addr));
    }
  }

  lemma StepKeepsKnown(me: Addr, sv: Server, step: Step)
    requires Known(sv) && SafeAt(sv, step) && (step.Login? ==> Unclaimed(sv, step.user))
    ensures Known(EffectAt(me, sv, step).server)
  {
    var sv' := EffectAt(me, sv, step).server;
    if step.Login? {
      LoginKeepsKnownIff(sv, step.user);
    } else {
      forall c | c in sv'.channels ensures sv'.channels[c].users <= sv'.users {
        assert c in sv.channels ==> sv.channels[c].users <= sv.users;
      }
    }
  }

  ghost predicate AllKnown(c: Cluster) {
    forall s :: s in c.servers ==> Known(c.servers[s])
  }

  // No login of the run evicts a member of a channel.
  ghost predicate PoliteRun(c: Cluster, steps: seq<Step>)
    requires Run(c, steps)
    decreases |steps|
  {
    steps == [] ||
    (var n := |steps| - 1;
     var step := steps[n];
     && PoliteRun(c, steps[..n])
     && (step.Login? ==> Unclaimed(End(c, steps[..n]).servers[step.at], step.user)))
  }

  lemma {:induction false} RunKeepsKnown(c: Cluster, steps: seq<Step>)
    requires AllKnown(c) && Run(c, steps) && PoliteRun(c, steps)
    ensures AllKnown(End(c, steps))
    decreases |steps|
  {
    if steps != [] {
      var n := |steps| - 1;
      RunKeepsKnown(c, steps[..n]);
      StepKeepsKnown(Site(steps[n]), End(c, steps[..n]).servers[Site(steps[n])], steps[n]);
    }
  }

  /** The logout that follows a login is safe if and only if the login evicted
      nobody who is in a channel. */
  lemma LogoutSafeIffUnclaimed(sv: Server, u: Client, at: Addr)
    requires Known(sv)
    ensures SafeAt(OnLogin(sv, u).server, Logout(at, u.addr)) <==> Unclaimed(sv, u)
  {
    var sv' := OnLogin(sv, u).server;
    assert u in sv'.users && UserAt(sv', u.addr) == u;
    if !Unclaimed(sv, u) {
      var c, x :| c in sv.channels && x in sv.channels[c].users && x != u && (x.name == u.name || x.addr == u.addr);
      assert sv.channels[c].users <= sv.users;
      assert !Removable(sv'.channels[c].users, u);
    }
  }
}
