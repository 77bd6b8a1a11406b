/**
 One server's whole state and the operations the handlers call on it.

 `View` is the protocol's picture of the state; each operation is proved to
 change it as the protocol's handler functions say.
*/
module LocalState {
  import opened Addresses
  import opened Lists
  import opened ServerState
  import opened Users
  import M = Membership
  import P = Protocol

  class State {
    // The address the server's socket is bound to.
    const me: Addr
    var uset: UserSet
    var sset: ServerSet
    var cset: ChannelSet
    ghost var chans: map<string, P.Channel>

    // One channel: its own tables agree and `view` describes it.
    static ghost predicate Described(c: Channel, view: P.Channel)
      reads c
    {
      c.Valid() && c.View() == view
    }

    // Every table agrees with its copies, and `chans` describes the channels.
    ghost predicate Valid()
      reads this, cset.list
    {
      && uset.Valid() && sset.Valid() && cset.Valid() && chans.Keys == cset.byName.Keys
      && (forall c :: c in cset.list ==> c.name in chans && Described(c, chans[c.name]))
    }

    // The members of every channel are logged in.
    ghost predicate MembersKnown()
      reads this, cset.list
    {
      forall c, u :: c in cset.list && u in c.uset.list ==> u in uset.list
    }

    ghost function View(): P.Server
      reads this
    {
      P.Server(uset.Clients(), sset.index.Keys, chans)
    }

    constructor (me: Addr)
      ensures Valid() && this.me == me && View() == P.Server({}, {}, map[]) && cset.list == []
    {
      this.me := me;
      uset, sset, cset, chans := NO_USERS, NO_SERVERS, NO_CHANNELS, map[];
    }

    method AddServer(addr: Addr)
      requires Valid()
      modifies this`sset
      ensures Valid() && View() == old(View()).(neighbours := old(View()).neighbours + {addr})
    {
      hide Agree, Distinct, ToSet, Indexed;
      sset := sset.AddServer(addr);
    }

    // What the lookup by address finds is the logged-in user of the protocol.
    lemma LookupIsLogin(addr: Addr)
      requires Valid()
      ensures uset.GetByAddr(addr) != null <==> P.LoggedIn(View(), addr)
      ensures P.LoggedIn(View(), addr) ==>
        uset.GetByAddr(addr) in uset.list && uset.GetByAddr(addr).Key() == P.UserAt(View(), addr)
      ensures forall u :: u in uset.list ==> (u.addr == addr <==> u == uset.GetByAddr(addr))
    {
      uset.GetMember("", addr);
      KeyMembers(uset.list);
      if uset.GetByAddr(addr) != null {
        assert uset.GetByAddr(addr).Key() in View().users;
        var x := P.UserAt(View(), addr);
        var u :| u in uset.list && u.Key() == x;
        assert uset.byAddr[u.addr] == u;
      }
    }

    // Nobody in a channel has this name or this address.
    ghost predicate Unclaimed(name: string, addr: Addr)
      reads this, cset.list
    {
      forall c, u :: c in cset.list && u in c.uset.list ==> u.name != name && u.addr != addr
    }

    /** A login keeps channel membership within the logged-in users exactly when
        it evicts nobody who is in a channel. */
    method CliLogin(name: string, addr: Addr, now: nat)
      requires Valid()
      modifies this`uset
      ensures Valid() && View() == P.OnLogin(old(View()), P.Client(name, addr)).server
      ensures old(MembersKnown()) ==> (MembersKnown() <==> old(Unclaimed(name, addr)))
      ensures forall u :: u in uset.list ==>
        (u in old(uset.list) && u.lastSeen == old(u.lastSeen)) || (fresh(u) && u.lastSeen == now)
      ensures exists u :: u in uset.list && fresh(u) && u.Key() == P.Client(name, addr)
    {
      hide Agree, Distinct, ToSet, Indexed;
      var user := new User(name, addr, now);
      uset := uset.AddUser(user);
    }

    // The protocol's condition for taking a user out is the one each channel needs.
    lemma CanRemove(user: User)
      requires Valid() && P.RemovableEverywhere(chans, user.Key())
      ensures forall c :: c in cset.list ==> c.uset.Removable(user)
    {
      forall c | c in cset.list ensures c.uset.Removable(user) {
        assert Described(c, chans[c.name]);
        c.uset.RemovableMeans(user);
      }
    }

    lemma IsMember(user: User)
      requires Valid() && user in uset.list
      ensures user.Key() in uset.Clients() && uset.Removable(user) && Distinct(cset.list)
      ensures forall u :: u in uset.list ==> (u.Key() == user.Key() <==> u == user)
    {
      KeyMembers(uset.list);
      forall u | u in uset.list ensures u.Key() == user.Key() ==> u == user {
        assert uset.byName[u.name] == u;
      }
    }

    // A channel described by `view` before the user was taken out of it.
    static ghost predicate Cleared(c: Channel, view: P.Channel, user: User)
      reads c
    {
      c.Valid() && c.View() == view.(users := view.users - {user.Key()})
    }

    static method RemoveFromAll(channels: seq<Channel>, user: User, ghost views: map<string, P.Channel>)
      requires Distinct(channels)
      requires forall c :: c in channels ==> c.name in views && Described(c, views[c.name])
      requires forall c :: c in channels ==> c.uset.Removable(user)
      modifies channels
      ensures forall c :: c in channels ==> Cleared(c, views[c.name], user)
    {
      hide Agree, ToSet, UserSet.Removable;
      var i := 0;
      while i < |channels|
        invariant 0 <= i <= |channels|
        invariant forall k :: 0 <= k < i ==> Cleared(channels[k], views[channels[k].name], user)
        invariant forall k :: i <= k < |channels| ==> unchanged(channels[k])
      {
        assert Described(channels[i], views[channels[i].name]) && channels[i].uset.Removable(user);
        channels[i].RemoveUser(user);
        i := i + 1;
      }
    }

    lemma ClearedIsValid(user: User, views: map<string, P.Channel>)
      requires uset.Valid() && sset.Valid() && cset.Valid() && views.Keys == cset.byName.Keys
      requires chans == P.Forget(views, {user.Key()})
      requires forall c :: c in cset.list ==> c.name in views && Cleared(c, views[c.name], user)
      ensures Valid()
    {
    }

    method RemoveUser(user: User)
      requires Valid() && user in uset.list && P.RemovableEverywhere(chans, user.Key())
      modifies this, cset.list
      ensures Valid() && cset == old(cset) && sset == old(sset)
      ensures View().users == old(View()).users - {user.Key()}
      ensures View().channels == P.Forget(old(View()).channels, {user.Key()})
      ensures forall u :: u in uset.list <==> u in old(uset.list) && u != user
    {
      hide Cleared, Described, UserSet.Valid, ServerSet.Valid, ChannelSet.Valid, Distinct, UserSet.Removable, P.Forget,
        P.Removable, P.RemovableEverywhere;
      IsMember(user);
      CanRemove(user);
      ghost var views := chans;
      RemoveFromAll(cset.list, user, views);
      uset := uset.RemoveUser(user);
      chans := P.Forget(chans, {user.Key()});
      ClearedIsValid(user, views);
    }

    method CliLogout(addr: Addr)
      requires Valid() && P.SafeAt(View(), P.Logout(me, addr))
      modifies this, cset.list
      ensures Valid() && cset == old(cset) && sset == old(sset)
      ensures !P.LoggedIn(old(View()), addr) ==> View() == old(View())
      ensures P.LoggedIn(old(View()), addr) ==>
        var u := P.UserAt(old(View()), addr);
        View() == old(View()).(users := old(View()).users - {u}, channels := P.Forget(old(View()).channels, {u}))
      ensures forall u :: u in uset.list ==> u in old(uset.list)
    {
      hide Agree, Distinct, ToSet, Indexed, P.Forget, P.LoggedIn, P.RemovableEverywhere;
      LookupIsLogin(addr);
      var user := uset.GetByAddr(addr);
      if user != null {
        RemoveUser(user);
      }
    }

    lemma OtherNames(c: Channel)
      requires cset.Valid() && c in cset.list
      ensures c.name in cset.byName && forall d :: d in cset.list && d != c ==> d.name != c.name
    {
      assert forall d :: d in cset.list ==> cset.byName[d.name] == d;
    }

    // After a change to one of the channels, its description is brought up to date.
    ghost method Describe(c: Channel)
      requires uset.Valid() && sset.Valid() && cset.Valid() && chans.Keys == cset.byName.Keys && c in cset.list
      requires forall d :: d in cset.list && d != c ==> d.name in chans && Described(d, chans[d.name])
      requires Described(c, c.View())
      modifies this`chans
      ensures Valid() && chans == old(chans)[c.name := c.View()]
    {
      hide UserSet.Valid, ServerSet.Valid, ChannelSet.Valid, Described, Channel.View;
      OtherNames(c);
      chans := chans[c.name := c.View()];
    }

    // Adding a described channel that is not in the table yet.
    method Register(c: Channel)
      requires Valid() && c.name !in cset.byName && Described(c, c.View())
      modifies this`cset, this`chans
      ensures Valid() && chans == old(chans)[c.name := c.View()] && cset.list == old(cset.list) + [c]
    {
      hide UserSet.Valid, ServerSet.Valid, ChannelSet.Valid, Described, Channel.View;
      cset := cset.AddChannel(c);
      chans := chans[c.name := c.View()];
    }

    method Drop(c: Channel)
      requires Valid() && c.name in cset.byName && cset.byName[c.name] == c
      modifies this`cset, this`chans
      ensures Valid() && chans == old(chans) - {c.name} && cset.byName == old(cset.byName) - {c.name}
      ensures forall d :: d in cset.list ==> d in old(cset.list)
    {
      hide UserSet.Valid, ServerSet.Valid, ChannelSet.Valid, Described, Channel.View;
      cset := cset.RemoveChannel(c);
      chans := chans - {c.name};
    }

    static lemma AssertDescribed(c: Channel)
      requires c.Valid()
      ensures Described(c, c.View())
    {
    }

    function Find(chan: string): (c: Channel)
      requires Valid() && chan in cset.byName
      reads this, cset.list
      ensures c in cset.list && c.name == chan && c.Valid() && chans[chan] == c.View()
    {
      cset.byName[chan]
    }

    lemma FindSelf(c: Channel)
      requires Valid() && c in cset.list
      ensures c.name in cset.byName && Find(c.name) == c
    {
      assert cset.byName[c.name] == c;
    }

    method Enter(c: Channel, user: User)
      requires Valid() && c in cset.list && user in uset.list
      modifies this`chans, c`uset
      ensures Valid() && chans == old(chans)[c.name := c.View()]
      ensures c.View() == old(c.View()).(users := P.Admit(old(c.View()).users, user.Key()))
    {
      FindSelf(c);
      hide Described, Agree, Distinct, ToSet, Indexed;
      c.AddUser(user);
      Describe(c);
    }

    method ChannelWithUser(chan: string, user: User) returns (c: Channel)
      requires user in uset.list
      ensures fresh(c) && c.name == chan && Described(c, c.View())
      ensures c.View() == P.Channel(P.Admit({}, user.Key()), {}, {})
    {
      hide Agree, Distinct, ToSet;
      c := new Channel(chan);
      c.AddUser(user);
    }

    method AdmitTo(chan: string, user: User)
      requires Valid() && user in uset.list
      modifies this`cset, this`chans, cset.list
      ensures Valid()
      ensures chans == old(chans)[chan :=
        var ch := if chan in old(chans) then old(chans)[chan] else P.Channel({}, {}, {});
        ch.(users := P.Admit(ch.users, user.Key()))]
      ensures forall c :: c in cset.list ==> c in old(cset.list) || fresh(c)
    {
      hide Described, Agree, Distinct, ToSet, Indexed, P.Admit, Channel.View;
      if chan in cset.byName {
        var c := Find(chan);
        Enter(c, user);
      } else {
        var c := ChannelWithUser(chan, user);
        Register(c);
      }
    }

    method CliJoin(addr: Addr, chan: string, now: nat)
      requires Valid()
      modifies this`cset, this`chans, cset.list, uset.list
      ensures Valid() && View() == P.OnClientJoin(me, old(View()), addr, chan).server
      ensures forall c :: c in cset.list ==> c in old(cset.list) || fresh(c)
      ensures forall u :: u in old(uset.list) ==> u.lastSeen == if u.addr == addr then now else old(u.lastSeen)
    {
      hide UserSet.Valid, ServerSet.Valid, ChannelSet.Valid, Described, P.LoggedIn, P.Admit;
      LookupIsLogin(addr);
      var user := uset.GetByAddr(addr);
      if user != null {
        user.lastSeen := now;
        AdmitTo(chan, user);
      }
    }

    method Dismiss(chan: string, user: User)
      requires Valid() && user in uset.list
      requires chan in chans ==> P.Removable(chans[chan].users, user.Key())
      modifies this`chans, cset.list
      ensures Valid()
      ensures chans == if chan in old(chans) then
          old(chans)[chan := old(chans)[chan].(users := old(chans)[chan].users - {user.Key()})]
        else old(chans)
    {
      hide Described, Agree, Distinct, ToSet, Indexed, UserSet.Removable, P.Removable;
      if chan in cset.byName {
        var c := Find(chan);
        c.uset.RemovableMeans(user);
        c.RemoveUser(user);
        AssertDescribed(c);
        Describe(c);
      }
    }

    method CliLeave(addr: Addr, chan: string, now: nat)
      requires Valid() && P.SafeAt(View(), P.ClientLeave(me, addr, chan))
      modifies this`chans, cset.list, uset.list
      ensures Valid()
      ensures View() == old(View()).(channels :=
        if chan in old(View()).channels then
          var ch := old(View()).channels[chan];
          old(View()).channels[chan := ch.(users := ch.users - {P.UserAt(old(View()), addr)})]
        else old(View()).channels)
      ensures forall u :: u in old(uset.list) ==> u.lastSeen == if u.addr == addr then now else old(u.lastSeen)
    {
      hide UserSet.Valid, ServerSet.Valid, ChannelSet.Valid, Described, P.LoggedIn, P.Removable;
      LookupIsLogin(addr);
      var user := uset.GetByAddr(addr);
      user.lastSeen := now;
      Dismiss(chan, user);
    }

    static method Refresh(c: Channel, from: Addr, now: nat)
      requires c.Valid()
      modifies c`sset, c`lastSeen
      ensures c.Valid() && c.View() == old(c.View()).(servers := old(c.View()).servers + {from})
      ensures c.lastSeen == old(c.lastSeen)[from := now]
    {
      hide Agree, Distinct, ToSet;
      if from in c.sset.index {
        c.ServerHeartbeat(from, now);
      } else {
        c.AddServer(from, now);
        c.ServerHeartbeat(from, now);
      }
    }

    method Hear(c: Channel, from: Addr, now: nat)
      requires Valid() && c in cset.list
      modifies this`chans, c`sset, c`lastSeen
      ensures Valid() && chans == old(chans)[c.name := c.View()]
      ensures c.View() == old(c.View()).(servers := old(c.View()).servers + {from})
      ensures c.lastSeen == old(c.lastSeen)[from := now]
    {
      FindSelf(c);
      hide Described, Agree, Distinct, ToSet, Indexed;
      Refresh(c, from, now);
      Describe(c);
    }

    method ChannelWithServer(chan: string, from: Addr, now: nat) returns (c: Channel)
      ensures fresh(c) && c.name == chan && Described(c, c.View())
      ensures c.View() == P.Channel({}, {from}, {}) && c.lastSeen == map[from := now]
    {
      hide Agree, Distinct, ToSet;
      c := new Channel(chan);
      c.AddServer(from, now);
    }

    lemma NamesAreUnique(chan: string)
      requires cset.Valid()
      ensures forall c :: c in cset.list && c.name == chan ==> chan in cset.byName && cset.byName[chan] == c
    {
    }

    // Tells whether the channel was here already.
    method S2sJoin(from: Addr, chan: string, now: nat) returns (known: bool)
      requires Valid() && from in sset.index
      modifies this`cset, this`chans, cset.list
      ensures Valid() && View() == P.OnJoin(me, old(View()), from, chan).server
      ensures known <==> chan in old(View()).channels
      ensures forall c :: c in cset.list ==> c in old(cset.list) || fresh(c)
      ensures forall c :: c in cset.list && c.name == chan ==> from in c.lastSeen && c.lastSeen[from] == now
      ensures forall c :: c in old(cset.list) ==> c in cset.list
      ensures forall c, a :: c in old(cset.list) && a in old(c.lastSeen) && (c.name != chan || a != from) ==>
        a in c.lastSeen && c.lastSeen[a] == old(c.lastSeen[a])
    {
      hide Described, Agree, Distinct, ToSet, Indexed, Channel.View;
      NamesAreUnique(chan);
      known := chan in cset.byName;
      if known {
        var c := Find(chan);
        Hear(c, from, now);
      } else {
        var c := ChannelWithServer(chan, from, now);
        Register(c);
      }
    }

    method S2sLeave(from: Addr, chan: string)
      requires Valid() && from in sset.index
      modifies this`chans, cset.list
      ensures Valid() && View() == P.OnLeave(old(View()), from, chan).server
    {
      if chan in cset.byName {
        var c := Find(chan);
        hide Described, Agree, Distinct, ToSet, Indexed;
        c.RemoveServer(from);
        Describe(c);
      }
    }

    // ----------------------------------------------------------- timer bodies

    // The users not heard from within the limit.
    ghost function Idle(now: nat): set<User>
      reads this, uset.list
    {
      set u | u in uset.list && now - u.lastSeen > USER_TIMEOUT_LIMIT
    }

    // While channel members are logged in, a sweep can be done at any time.
    lemma SweepIsSafe(now: nat)
      requires Valid() && M.Known(View())
      ensures P.SafeAt(View(), P.UserTimeout(me, KeysOf(Idle(now))))
    {
      hide M.Known, Agree;
      KeyMembers(uset.list);
      M.KnownIsSafe(View(), P.UserTimeout(me, KeysOf(Idle(now))));
    }

    method Expire(user: User, ghost before: P.Server, ghost gone: set<User>, ghost idle: set<User>)
      requires Valid() && user in ToSet(uset.list) && user in idle && user !in gone
      requires P.SafeAt(before, P.UserTimeout(me, KeysOf(idle)))
      requires View() == P.OnUserTimeout(before, KeysOf(gone)).server && KeysApart(idle)
      requires gone <= idle
      modifies this, cset.list
      ensures Valid() && View() == P.OnUserTimeout(before, KeysOf(gone + {user})).server
      ensures cset == old(cset) && sset == old(sset) && ToSet(uset.list) == ToSet(old(uset.list)) - {user}
    {
      hide Described, Agree, Distinct, Indexed, UserSet.Clients, P.Forget;
      StillRemovable(before.channels, gone, idle, user);
      ForgetMore(before, gone, user);
      RemoveUser(user);
    }

    /** One pass of the user timeout loop: it walks a copy of the list while
        removing, and takes exactly the users idle for longer than the limit out of
        the list and of every channel. */
    method SweepUsers(now: nat)
      requires Valid() && P.SafeAt(View(), P.UserTimeout(me, KeysOf(Idle(now))))
      modifies this, cset.list
      ensures Valid() && cset == old(cset) && sset == old(sset)
      ensures ToSet(uset.list) == ToSet(old(uset.list)) - old(Idle(now))
      ensures View() == P.OnUserTimeout(old(View()), old(KeysOf(Idle(now)))).server
      ensures forall u :: u in old(uset.list) ==> (u in uset.list <==> now - old(u.lastSeen) <= 120)
      ensures forall u :: u in uset.list ==> u in old(uset.list)
    {
      hide Valid, View, Distinct, Idle, ToSet, P.OnUserTimeout, P.SafeAt, KeysOf, KeysApart;
      UsersDistinct();
      IdleMeans(now);
      var users := uset.list;
      ghost var idle, before := Idle(now), View();
      IdleApart(idle);
      NobodyGone(before);
      NoneGone(users, idle);
      var i := 0;
      while i < |users|
        invariant 0 <= i <= |users| && Valid() && cset == old(cset) && sset == old(sset)
        invariant ToSet(uset.list) == ToSet(users) - idle * ToSet(users[..i])
        invariant forall u :: u in users ==> (u in idle <==> now - u.lastSeen > USER_TIMEOUT_LIMIT)
        invariant View() == P.OnUserTimeout(before, KeysOf(idle * ToSet(users[..i]))).server
      {
        OneMoreSeen(users, idle, i);
        if now - users[i].lastSeen > USER_TIMEOUT_LIMIT {
          Expire(users[i], before, idle * ToSet(users[..i]), idle);
        }
        i := i + 1;
      }
      AllSeen(users, idle);
      StillThere(uset.list, users, idle);
    }

    lemma UsersDistinct()
      requires Valid()
      ensures Distinct(uset.list)
    {
      AgreeKeys(uset.list, uset.byName, uset.byAddr);
    }

    lemma IdleMeans(now: nat)
      ensures Idle(now) <= ToSet(uset.list)
      ensures forall u :: u in uset.list ==> (u in Idle(now) <==> now - u.lastSeen > USER_TIMEOUT_LIMIT)
    {
    }

    lemma IdleApart(some: set<User>)
      requires Valid() && some <= ToSet(uset.list)
      ensures KeysApart(some)
    {
      forall u, v | u in some && v in some && u.Key() == v.Key() ensures u == v {
        assert uset.byName[u.name] == u && uset.byName[v.name] == v;
      }
    }

    // The servers of each channel that were not heard from within the limit.
    ghost function Silent(now: nat): map<string, set<Addr>>
      requires Valid()
      reads this, cset.list
    {
      map n | n in chans :: Find(n).lastSeen.Keys - InTime(Find(n).lastSeen, now).Keys
    }

    // A channel described by `view` before its servers were swept.
    static ghost predicate Swept(c: Channel, view: P.Channel)
      reads c
    {
      Described(c, view.(servers := c.lastSeen.Keys))
    }

    static method SweepAll(channels: seq<Channel>, now: nat, ghost views: map<string, P.Channel>)
      requires Distinct(channels)
      requires forall c :: c in channels ==> c.name in views && Described(c, views[c.name])
      modifies channels
      ensures forall c :: c in channels ==> Swept(c, views[c.name])
      ensures forall c :: c in channels ==> c.lastSeen == InTime(old(c.lastSeen), now)
    {
      hide Agree, ToSet, InTime;
      var i := 0;
      while i < |channels|
        invariant 0 <= i <= |channels|
        invariant forall k :: 0 <= k < i ==> Swept(channels[k], views[channels[k].name])
        invariant forall k :: 0 <= k < i ==> channels[k].lastSeen == InTime(old(channels[k].lastSeen), now)
        invariant forall k :: i <= k < |channels| ==> unchanged(channels[k])
      {
        assert Described(channels[i], views[channels[i].name]);
        channels[i].SweepServers(now);
        i := i + 1;
      }
    }

    lemma SilentMeans(now: nat, c: Channel)
      requires Valid() && c in cset.list
      ensures c.name in chans && c.lastSeen.Keys == chans[c.name].servers
      ensures Silent(now)[c.name] == c.lastSeen.Keys - InTime(c.lastSeen, now).Keys
    {
      hide Agree, Distinct, ToSet, InTime;
      FindSelf(c);
    }

    // A swept channel is described by the protocol's silenced channel.
    static lemma SweptIsSilenced(c: Channel, view: P.Channel, was: map<Addr, nat>, now: nat,
                                 silent: map<string, set<Addr>>)
      requires Swept(c, view) && was.Keys == view.servers && c.lastSeen == InTime(was, now)
      requires c.name in silent && silent[c.name] == was.Keys - InTime(was, now).Keys
      ensures Described(c, P.Silenced(view, c.name, silent))
    {
      hide Agree, Distinct, ToSet;
      assert InTime(was, now).Keys <= was.Keys;
      assert view.servers - silent[c.name] == InTime(was, now).Keys;
    }

    /** One pass of the server timeout loop: in every channel exactly the servers
        heard from within the limit stay listed. */
    method SweepServers(now: nat)
      requires Valid()
      modifies this`chans, cset.list
      ensures Valid() && View() == P.OnServerTimeout(old(View()), old(Silent(now))).server
      ensures forall c :: c in cset.list ==> c.lastSeen == InTime(old(c.lastSeen), now)
      ensures cset == old(cset) && forall c :: c in cset.list ==> c.lastSeen.Keys == c.sset.index.Keys
      ensures now < 0x1_0000_0000 ==> forall c, a :: c in cset.list && a in old(c.lastSeen) ==>
        && (old(c.lastSeen[a]) <= now ==> (a in c.lastSeen <==> now - old(c.lastSeen[a]) <= 120))
        && (now < old(c.lastSeen[a]) < 0x1_0000_0000 ==>
              (a in c.lastSeen <==> now + 0x1_0000_0000 - old(c.lastSeen[a]) <= 120))
    {
      hide UserSet.Valid, ServerSet.Valid, ChannelSet.Valid, Distinct, InTime, Described, Swept, Silent, P.Silenced;
      ChannelsDistinct();
      SilentNames(now);
      forall c | c in cset.list
        ensures c.name in chans && c.lastSeen.Keys == chans[c.name].servers
        ensures Silent(now)[c.name] == c.lastSeen.Keys - InTime(c.lastSeen, now).Keys
      {
        SilentMeans(now, c);
      }
      ghost var silent := Silent(now);
      SweepAll(cset.list, now, chans);
      forall c | c in cset.list ensures Described(c, P.Silenced(chans[c.name], c.name, silent)) {
        SweptIsSilenced(c, chans[c.name], old(c.lastSeen), now, silent);
      }
      chans := P.OnServerTimeout(View(), silent).server.channels;
      forall c | c in cset.list ensures c.lastSeen.Keys == c.sset.index.Keys {
        DescribedLists(c, chans[c.name]);
      }
      forall c | c in cset.list && now < 0x1_0000_0000
        ensures forall a :: a in old(c.lastSeen) ==>
          && (old(c.lastSeen[a]) <= now ==> (a in c.lastSeen <==> now - old(c.lastSeen[a]) <= 120))
          && (now < old(c.lastSeen[a]) < 0x1_0000_0000 ==>
                (a in c.lastSeen <==> now + 0x1_0000_0000 - old(c.lastSeen[a]) <= 120))
      {
        InTimeMeans(old(c.lastSeen), now);
      }
    }

    static lemma DescribedLists(c: Channel, view: P.Channel)
      requires Described(c, view)
      ensures c.lastSeen.Keys == c.sset.index.Keys
    {
    }

    lemma SilentNames(now: nat)
      requires Valid()
      ensures Silent(now).Keys == chans.Keys
    {
    }

    lemma ChannelsDistinct()
      requires Valid()
      ensures Distinct(cset.list)
    {
    }
  }

  // The idle users among those a walk over `users` has come past.
  lemma NoneGone(users: seq<User>, idle: set<User>)
    ensures idle * ToSet(users[..0]) == {} && ToSet(users) - idle * ToSet(users[..0]) == ToSet(users)
  {
    assert ToSet(users[..0]) == {};
  }

  lemma OneMoreSeen(users: seq<User>, idle: set<User>, i: nat)
    requires Distinct(users) && i < |users|
    ensures users[i] in ToSet(users) && users[i] !in ToSet(users[..i])
    ensures idle * ToSet(users[..i + 1]) ==
      if users[i] in idle then idle * ToSet(users[..i]) + {users[i]} else idle * ToSet(users[..i])
  {
    hide ToSet, Distinct;
    PrefixSet(users, i);
    InPrefix(users, i);
  }

  lemma AllSeen(users: seq<User>, idle: set<User>)
    requires idle <= ToSet(users)
    ensures idle * ToSet(users[..|users|]) == idle
  {
    assert users[..|users|] == users;
  }

  lemma StillThere(list: seq<User>, users: seq<User>, gone: set<User>)
    requires ToSet(list) == ToSet(users) - gone
    ensures forall u :: u in list <==> u in users && u !in gone
  {
    assert forall u :: u in list <==> u in ToSet(list);
    assert forall u :: u in users <==> u in ToSet(users);
  }

  ghost function KeysOf(users: set<User>): set<P.Client> {
    set u | u in users :: u.Key()
  }

  ghost predicate KeysApart(users: set<User>) {
    forall u, v :: u in users && v in users && u.Key() == v.Key() ==> u == v
  }

  lemma NobodyGone(sv: P.Server)
    ensures KeysOf({}) == {} && P.OnUserTimeout(sv, {}).server == sv
  {
    forall c | c in sv.channels ensures sv.channels[c].users - {} == sv.channels[c].users {
    }
    assert P.Forget(sv.channels, {}) == sv.channels;
  }

  // Having taken others out does not stand in the way of taking this one out.
  lemma StillRemovable(channels: map<string, P.Channel>, gone: set<User>, idle: set<User>, user: User)
    requires user in idle && user !in gone && gone <= idle && KeysApart(idle)
    requires forall u :: u in KeysOf(idle) ==> P.RemovableEverywhere(channels, u)
    ensures P.RemovableEverywhere(P.Forget(channels, KeysOf(gone)), user.Key())
  {
    assert user.Key() in KeysOf(idle);
    assert user.Key() !in KeysOf(gone);
    forall c | c in channels ensures P.Removable(channels[c].users - KeysOf(gone), user.Key()) {
      assert P.Removable(channels[c].users, user.Key());
    }
  }

  lemma ForgetMore(sv: P.Server, gone: set<User>, user: User)
    ensures KeysOf(gone + {user}) == KeysOf(gone) + {user.Key()}
    ensures P.Forget(P.Forget(sv.channels, KeysOf(gone)), {user.Key()}) == P.Forget(sv.channels, KeysOf(gone + {user}))
    ensures sv.users - KeysOf(gone) - {user.Key()} == sv.users - KeysOf(gone + {user})
  {
    var all := KeysOf(gone) + {user.Key()};
    assert KeysOf(gone + {user}) == all;
    forall c | c in sv.channels
      ensures sv.channels[c].users - KeysOf(gone) - {user.Key()} == sv.channels[c].users - all {
    }
  }
}
