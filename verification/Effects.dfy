/**
 What each step does, member by member.

 The laws speak of who is in the sets of a server before and after a step and of
 which datagrams and texts are sent, for every step of the protocol.
*/
module Effects {
  import opened Addresses
  import opened Membership
  import opened Protocol

  // The user is logged in from this address.
  predicate At(sv: Server, x: Client, a: Addr) {
    x in sv.users && x.addr == a
  }

  // Somebody who is not logged in from `a` is in the channel, or it has two servers.
  ghost predicate Needed(sv: Server, c: string, a: Addr) {
    c in sv.channels &&
    ((exists x :: x in sv.channels[c].users && !At(sv, x, a)) || |sv.channels[c].servers| >= 2)
  }

  lemma AtMeans(sv: Server, a: Addr)
    requires Separate(sv.users)
    ensures LoggedIn(sv, a) <==> exists x :: At(sv, x, a)
    ensures LoggedIn(sv, a) ==> forall x :: At(sv, x, a) <==> x == UserAt(sv, a)
  {
    if LoggedIn(sv, a) {
      assert At(sv, UserAt(sv, a), a);
    }
  }

  lemma LoginLaw(me: Addr, sv: Server, at: Addr, u: Client)
    ensures
      var e := EffectAt(me, sv, Login(at, u));
      && (forall x :: x in e.server.users <==> x == u || (x in sv.users && x.name != u.name && x.addr != u.addr))
      && e.server.channels == sv.channels && e.server.neighbours == sv.neighbours && e.msgs == {} && e.texts == {}
  {
  }

  // ----------------------------------------------------------------- logout

  lemma LogoutUsers(me: Addr, sv: Server, at: Addr, a: Addr)
    requires Separate(sv.users) && SafeAt(sv, Logout(at, a))
    ensures
      var e := EffectAt(me, sv, Logout(at, a));
      && (forall x :: x in e.server.users <==> x in sv.users && x.addr != a)
      && e.server.neighbours == sv.neighbours && e.texts == {}
  {
    AtMeans(sv, a);
  }

  lemma LogoutChannels(me: Addr, sv: Server, at: Addr, a: Addr, c: string)
    requires Separate(sv.users) && SafeAt(sv, Logout(at, a))
    ensures
      var after := EffectAt(me, sv, Logout(at, a)).server.channels;
      && (c in after <==> Needed(sv, c, a))
      && (c in after ==>
            && (forall x :: x in after[c].users <==> x in sv.channels[c].users && !At(sv, x, a))
            && after[c].servers == sv.channels[c].servers && after[c].seen == sv.channels[c].seen)
  {
    AtMeans(sv, a);
    if c in sv.channels && LoggedIn(sv, a) {
      var left := sv.channels[c].users - {UserAt(sv, a)};
      assert forall x :: x in left <==> x in sv.channels[c].users && !At(sv, x, a);
      assert left != {} ==> exists x :: x in left;
    } else if c in sv.channels {
      var all := sv.channels[c].users;
      assert all != {} ==> exists x :: x in all;
    }
  }

  lemma LogoutMsgs(me: Addr, sv: Server, at: Addr, a: Addr, m: Msg)
    requires Separate(sv.users) && SafeAt(sv, Logout(at, a))
    ensures m in EffectAt(me, sv, Logout(at, a)).msgs <==>
      m.src == me && m.body == Leave && m.chan in sv.channels && m.dst in sv.channels[m.chan].servers
      && !Needed(sv, m.chan, a)
  {
    LogoutChannels(me, sv, at, a, m.chan);
  }

  // ------------------------------------------------- clients join, leave, say

  /** A logged-in client that joins is a member afterwards, and so is every former
      member but holders of its name or address. */
  lemma ClientJoinLaw(me: Addr, sv: Server, at: Addr, u: Client, chan: string)
    requires Separate(sv.users) && u in sv.users
    ensures
      var e := EffectAt(me, sv, ClientJoin(at, u.addr, chan));
      var was := if chan in sv.channels then sv.channels[chan] else Channel({}, {}, {});
      && e.server.channels.Keys == sv.channels.Keys + {chan}
      && (forall x :: x in e.server.channels[chan].users <==>
            x == u || (x in was.users && x.name != u.name && x.addr != u.addr))
      && e.server.channels[chan].servers == was.servers && e.server.channels[chan].seen == was.seen
      && (forall c :: c in sv.channels && c != chan ==> e.server.channels[c] == sv.channels[c])
      && e.server.users == sv.users && e.server.neighbours == sv.neighbours
  {
    AtMeans(sv, u.addr);
    assert At(sv, u, u.addr);
  }

  lemma StrangerJoinLaw(me: Addr, sv: Server, at: Addr, a: Addr, chan: string)
    requires forall x :: x in sv.users ==> x.addr != a
    ensures EffectAt(me, sv, ClientJoin(at, a, chan)).server == sv
  {
  }

  lemma ClientJoinSends(me: Addr, sv: Server, at: Addr, a: Addr, chan: string)
    ensures
      var e := EffectAt(me, sv, ClientJoin(at, a, chan));
      && (forall m :: m in e.msgs <==> m.src == me && m.dst in sv.neighbours && m.chan == chan && m.body == Join)
      && e.texts == {}
  {
  }

  lemma ClientLeaveChannel(me: Addr, sv: Server, at: Addr, u: Client, chan: string)
    requires Separate(sv.users) && u in sv.users && SafeAt(sv, ClientLeave(at, u.addr, chan))
    ensures
      var e := EffectAt(me, sv, ClientLeave(at, u.addr, chan));
      && e.server.users == sv.users && e.server.neighbours == sv.neighbours && e.texts == {}
      && (chan in e.server.channels <==> Needed(sv, chan, u.addr))
      && (chan in e.server.channels ==>
            && (forall x :: x in e.server.channels[chan].users <==> x in sv.channels[chan].users && x != u)
            && e.server.channels[chan].servers == sv.channels[chan].servers
            && e.server.channels[chan].seen == sv.channels[chan].seen)
  {
    AtMeans(sv, u.addr);
    assert At(sv, u, u.addr);
    if chan in sv.channels {
      var left := sv.channels[chan].users - {u};
      assert forall x :: x in left <==> x in sv.channels[chan].users && !At(sv, x, u.addr);
      assert left != {} ==> exists x :: x in left;
    }
  }

  // The others are only pruned.
  lemma ClientLeaveOthers(me: Addr, sv: Server, at: Addr, a: Addr, chan: string, c: string)
    requires SafeAt(sv, ClientLeave(at, a, chan)) && c != chan
    ensures
      var after := EffectAt(me, sv, ClientLeave(at, a, chan)).server.channels;
      && (c in after <==> c in sv.channels && (sv.channels[c].users != {} || |sv.channels[c].servers| >= 2))
      && (c in after ==> after[c] == sv.channels[c])
  {
  }

  lemma ClientLeaveMsgs(me: Addr, sv: Server, at: Addr, u: Client, chan: string, m: Msg)
    requires Separate(sv.users) && u in sv.users && SafeAt(sv, ClientLeave(at, u.addr, chan))
    ensures
      var e := EffectAt(me, sv, ClientLeave(at, u.addr, chan));
      m in e.msgs <==>
        m.src == me && m.body == Leave && m.chan in sv.channels && m.dst in sv.channels[m.chan].servers
        && m.chan !in e.server.channels
  {
    AtMeans(sv, u.addr);
  }

  /** A client's say goes to every member and every listed server, and changes nothing. */
  lemma ClientSayLaw(me: Addr, sv: Server, at: Addr, u: Client, chan: string, uid: nat, text: string)
    requires Separate(sv.users) && u in sv.users && chan in sv.channels
    ensures
      var e := EffectAt(me, sv, ClientSay(at, u.addr, chan, uid, text));
      && e.server == sv
      && (forall m :: m in e.msgs <==>
            m.src == me && m.dst in sv.channels[chan].servers && m.chan == chan && m.body == Say(uid, u.name, text))
      && (forall t :: t in e.texts <==>
            && t.server == me && t.client in sv.channels[chan].users
            && t.chan == chan && t.who == u.name && t.text == text)
  {
    AtMeans(sv, u.addr);
    assert At(sv, u, u.addr);
  }

  // ------------------------------------------------------------- deliveries

  /** A join from a neighbour lists it and touches no user; it is passed on to every
      neighbour exactly when the channel is new. */
  lemma JoinLaw(me: Addr, sv: Server, m: Msg)
    requires m.body.Join? && SafeAt(sv, Deliver(m))
    ensures
      var e := EffectAt(me, sv, Deliver(m));
      var was := if m.chan in sv.channels then sv.channels[m.chan] else Channel({}, {}, {});
      && e.server.channels.Keys == sv.channels.Keys + {m.chan}
      && e.server.channels[m.chan].users == was.users && e.server.channels[m.chan].seen == was.seen
      && (forall a :: a in e.server.channels[m.chan].servers <==> a == m.src || a in was.servers)
      && (forall c :: c in sv.channels && c != m.chan ==> e.server.channels[c] == sv.channels[c])
      && e.server.users == sv.users && e.server.neighbours == sv.neighbours && e.texts == {}
      && (forall x :: x in e.msgs <==>
            m.chan !in sv.channels && x.src == me && x.dst in sv.neighbours && x.chan == m.chan && x.body == Join)
  {
  }

  lemma LeaveLaw(me: Addr, sv: Server, m: Msg)
    requires m.body.Leave? && SafeAt(sv, Deliver(m))
    ensures
      var e := EffectAt(me, sv, Deliver(m));
      && e.server.channels.Keys == sv.channels.Keys
      && (forall c :: c in sv.channels && c != m.chan ==> e.server.channels[c] == sv.channels[c])
      && (m.chan in sv.channels ==>
            && e.server.channels[m.chan].users == sv.channels[m.chan].users
            && e.server.channels[m.chan].seen == sv.channels[m.chan].seen
            && (forall a :: a in e.server.channels[m.chan].servers <==> a in sv.channels[m.chan].servers && a != m.src))
      && e.server.users == sv.users && e.server.neighbours == sv.neighbours && e.msgs == {} && e.texts == {}
  {
  }

  /** A say with a new id goes to every member and to every listed server but the
      sender, and then what nobody needs is pruned. */
  lemma SayLaw(me: Addr, sv: Server, m: Msg)
    requires m.body.Say? && SafeAt(sv, Deliver(m)) && m.body.uid !in sv.channels[m.chan].seen
    ensures
      var e := EffectAt(me, sv, Deliver(m));
      && e.server.users == sv.users && e.server.neighbours == sv.neighbours
      && (forall c :: c in e.server.channels <==>
            c in sv.channels && (sv.channels[c].users != {} || |sv.channels[c].servers| >= 2))
      && (forall c :: c in e.server.channels ==> e.server.channels[c] == sv.channels[c])
      && (forall x :: x in e.msgs <==>
            x.src == me && x.chan in sv.channels && x.dst in sv.channels[x.chan].servers &&
            ((x.body == m.body && x.chan == m.chan && x.dst != m.src) ||
             (x.body == Leave && x.chan !in e.server.channels)))
      && (forall t :: t in e.texts <==>
            && t.server == me && t.client in sv.channels[m.chan].users
            && t.chan == m.chan && t.who == m.body.who && t.text == m.body.text)
  {
  }

  lemma SeenSayLaw(me: Addr, sv: Server, m: Msg)
    requires m.body.Say? && SafeAt(sv, Deliver(m)) && m.body.uid in sv.channels[m.chan].seen
    ensures
      var e := EffectAt(me, sv, Deliver(m));
      && e.server == sv && e.texts == {}
      && (forall x :: x in e.msgs <==> x == Msg(me, m.src, m.chan, Leave))
  {
  }

  // ----------------------------------------------------------------- timers

  lemma HeartbeatLaw(me: Addr, sv: Server, at: Addr)
    ensures
      var e := EffectAt(me, sv, Heartbeat(at));
      && e.server == sv && e.texts == {}
      && (forall m :: m in e.msgs <==>
            m.src == me && m.body == Join && m.chan in sv.channels && m.dst in sv.channels[m.chan].servers)
  {
  }

  lemma UserTimeoutLaw(me: Addr, sv: Server, at: Addr, idle: set<Client>)
    requires SafeAt(sv, UserTimeout(at, idle))
    ensures
      var e := EffectAt(me, sv, UserTimeout(at, idle));
      && (forall x :: x in e.server.users <==> x in sv.users && x !in idle)
      && e.server.channels.Keys == sv.channels.Keys
      && (forall c :: c in sv.channels ==>
            && (forall x :: x in e.server.channels[c].users <==> x in sv.channels[c].users && x !in idle)
            && e.server.channels[c].servers == sv.channels[c].servers
            && e.server.channels[c].seen == sv.channels[c].seen)
      && e.server.neighbours == sv.neighbours && e.msgs == {} && e.texts == {}
  {
  }

  lemma ServerTimeoutLaw(me: Addr, sv: Server, at: Addr, silent: map<string, set<Addr>>)
    ensures
      var e := EffectAt(me, sv, ServerTimeout(at, silent));
      && e.server.channels.Keys == sv.channels.Keys
      && (forall c :: c in sv.channels ==>
            && (forall a :: a in e.server.channels[c].servers <==>
                  a in sv.channels[c].servers && !(c in silent && a in silent[c]))
            && e.server.channels[c].users == sv.channels[c].users
            && e.server.channels[c].seen == sv.channels[c].seen)
      && e.server.users == sv.users && e.server.neighbours == sv.neighbours && e.msgs == {} && e.texts == {}
  {
  }
}
