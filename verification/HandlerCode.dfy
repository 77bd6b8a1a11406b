/**
 The request handlers of one server, as loops over its tables, proved to compute
 the protocol's `On..` functions: the new state is the function's, and every
 datagram and text of the function's effect is sent exactly once.
*/
module HandlerCode {
  import opened Addresses
  import opened Lists
  import opened ServerState
  import opened LocalState
  import opened Users
  import E = Effects
  import M = Membership
  import P = Protocol

  // What is sent, in order, is each element of `wanted` once.
  ghost predicate Carries<T>(sent: seq<T>, wanted: set<T>) {
    multiset(sent) == multiset(wanted)
  }

  // -------------------------------------------------------------- sending

  method Broadcast(me: Addr, targets: seq<Addr>, chan: string, body: P.Body) returns (msgs: seq<P.Msg>)
    requires Distinct(targets)
    ensures Carries(msgs, P.Broadcast(me, ToSet(targets), chan, body))
  {
    msgs := [];
    var i := 0;
    while i < |targets|
      invariant 0 <= i <= |targets| && |msgs| == i
      invariant forall k :: 0 <= k < i ==> msgs[k] == P.Msg(me, targets[k], chan, body)
    {
      msgs := msgs + [P.Msg(me, targets[i], chan, body)];
      i := i + 1;
    }
    SentOnce(msgs, P.Broadcast(me, ToSet(targets), chan, body)) by {
      assert forall m :: m in msgs ==> m.dst in ToSet(targets);
      forall t | t in ToSet(targets) ensures P.Msg(me, t, chan, body) in msgs {
        var k :| 0 <= k < |targets| && targets[k] == t;
        assert msgs[k].dst == t;
      }
    }
  }

  lemma SentOnce<T>(sent: seq<T>, wanted: set<T>)
    requires Distinct(sent) && ToSet(sent) == wanted
    ensures Carries(sent, wanted)
  {
    DistinctBag(sent);
  }

  method BroadcastText(me: Addr, targets: seq<User>, chan: string, who: string, text: string)
    returns (texts: seq<P.Text>)
    requires Distinct(Keys(targets))
    ensures Carries(texts, P.Texts(me, ToSet(Keys(targets)), chan, who, text))
  {
    texts := [];
    var i := 0;
    while i < |targets|
      invariant 0 <= i <= |targets| && |texts| == i
      invariant forall k :: 0 <= k < i ==> texts[k] == P.Text(me, Keys(targets)[k], chan, who, text)
    {
      texts := texts + [P.Text(me, targets[i].Key(), chan, who, text)];
      i := i + 1;
    }
    SentOnce(texts, P.Texts(me, ToSet(Keys(targets)), chan, who, text)) by {
      assert forall x :: x in texts ==> x.client in ToSet(Keys(targets));
      forall u | u in ToSet(Keys(targets)) ensures P.Text(me, u, chan, who, text) in texts {
        var k :| 0 <= k < |targets| && Keys(targets)[k] == u;
        assert texts[k].client == u;
      }
    }
  }

  // -------------------------------------------------------------- pruning

  function Names(channels: seq<Channel>): (ns: seq<string>)
    ensures |ns| == |channels| && forall i :: 0 <= i < |channels| ==> ns[i] == channels[i].name
  {
    seq(|channels|, i requires 0 <= i < |channels| => channels[i].name)
  }

  ghost function PrunableAmong(chans: map<string, P.Channel>, names: set<string>): set<string> {
    set n | n in chans && n in names && P.Prunable(chans[n])
  }

  // The channels to drop: exactly the prunable ones, each once.
  ghost predicate ToDrop(byName: map<string, Channel>, chans: map<string, P.Channel>, dead: seq<Channel>) {
    ToDropOf(byName, chans, dead, chans.Keys)
  }

  lemma TableNames(s: State)
    requires s.Valid()
    ensures Distinct(Names(s.cset.list)) && ToSet(Names(s.cset.list)) == s.chans.Keys
  {
    forall n | n in s.chans ensures n in ToSet(Names(s.cset.list)) {
      var c := s.Find(n);
      var k :| 0 <= k < |s.cset.list| && s.cset.list[k] == c;
      assert Names(s.cset.list)[k] == c.name;
    }
    forall n | n in ToSet(Names(s.cset.list)) ensures n in s.chans {
      var k :| 0 <= k < |s.cset.list| && Names(s.cset.list)[k] == n;
      s.FindSelf(s.cset.list[k]);
    }
  }

  method Prunables(s: State) returns (dead: seq<Channel>)
    requires s.Valid()
    ensures ToDrop(s.cset.byName, s.chans, dead)
  {
    TableNames(s);
    ghost var names := Names(s.cset.list);
    dead := [];
    var i := 0;
    while i < |s.cset.list|
      invariant 0 <= i <= |s.cset.list|
      invariant ToDropOf(s.cset.byName, s.chans, dead, ToSet(names[..i]))
    {
      var c := s.cset.list[i];
      Verdict(s, c);
      PrefixSet(names, i);
      InPrefix(names, i);
      hide *;
      if c.ShouldPrune() {
        OneMoreToDrop(s.cset.byName, s.chans, dead, ToSet(names[..i]), c);
        dead := dead + [c];
      } else {
        NotToDrop(s.cset.byName, s.chans, dead, ToSet(names[..i]), c);
      }
      i := i + 1;
    }
    PrefixSet(names, i);
  }

  ghost predicate ToDropOf(byName: map<string, Channel>, chans: map<string, P.Channel>, dead: seq<Channel>,
                           names: set<string>) {
    && Distinct(Names(dead)) && ToSet(Names(dead)) == PrunableAmong(chans, names)
    && forall k :: 0 <= k < |dead| ==> dead[k].name in byName && byName[dead[k].name] == dead[k]
  }

  lemma OneMoreToDrop(byName: map<string, Channel>, chans: map<string, P.Channel>, dead: seq<Channel>,
                      names: set<string>, c: Channel)
    requires ToDropOf(byName, chans, dead, names) && c.name in chans && P.Prunable(chans[c.name])
    requires c.name in byName && byName[c.name] == c && c.name !in names
    ensures ToDropOf(byName, chans, dead + [c], names + {c.name})
  {
    var ns := Names(dead);
    assert c.name !in ToSet(ns);
    assert Names(dead + [c]) == ns + [c.name];
    assert ToSet(ns + [c.name]) == ToSet(ns) + {c.name};
    assert PrunableAmong(chans, names + {c.name}) == PrunableAmong(chans, names) + {c.name};
  }

  lemma NotToDrop(byName: map<string, Channel>, chans: map<string, P.Channel>, dead: seq<Channel>,
                  names: set<string>, c: Channel)
    requires ToDropOf(byName, chans, dead, names) && c.name in chans && !P.Prunable(chans[c.name])
    ensures ToDropOf(byName, chans, dead, names + {c.name})
  {
  }

  lemma Verdict(s: State, c: Channel)
    requires s.Valid() && c in s.cset.list
    ensures c.name in s.cset.byName && s.cset.byName[c.name] == c && c.name in s.chans
    ensures c.ShouldPrune() <==> P.Prunable(s.chans[c.name])
  {
    s.FindSelf(c);
    c.ShouldPruneIffPrunable();
  }

  // One message to every listed server of the named channels.
  ghost function Notices(me: Addr, chans: map<string, P.Channel>, names: set<string>, body: P.Body): set<P.Msg> {
    set n, t | n in names && n in chans && t in chans[n].servers :: P.Msg(me, t, n, body)
  }

  lemma PrunedByName(me: Addr, chans: map<string, P.Channel>, names: set<string>)
    requires names == PrunableAmong(chans, chans.Keys)
    ensures Notices(me, chans, names, P.Leave) == P.LeaveMsgs(me, chans)
    ensures chans - names == P.Kept(chans)
  {
  }

  lemma OneMoreNotices(me: Addr, chans: map<string, P.Channel>, names: set<string>, n: string, body: P.Body)
    requires n in chans.Keys - names
    ensures Notices(me, chans, names + {n}, body) ==
      Notices(me, chans, names, body) + P.Broadcast(me, chans[n].servers, n, body)
    ensures Notices(me, chans, names, body) !! P.Broadcast(me, chans[n].servers, n, body)
  {
  }

  lemma CarriesBoth<T>(a: seq<T>, b: seq<T>, x: set<T>, y: set<T>)
    requires Carries(a, x) && Carries(b, y) && x !! y
    ensures Carries(a + b, x + y)
  {
    assert multiset(x + y) == multiset(x) + multiset(y);
  }

  method SendLeaves(s: State, dead: seq<Channel>) returns (msgs: seq<P.Msg>)
    requires s.Valid() && ToDrop(s.cset.byName, s.chans, dead)
    ensures Carries(msgs, P.LeaveMsgs(s.me, s.chans))
  {
    ghost var names := Names(dead);
    msgs := [];
    var i := 0;
    while i < |dead|
      invariant 0 <= i <= |dead|
      invariant Carries(msgs, Notices(s.me, s.chans, ToSet(names[..i]), P.Leave))
    {
      var c := dead[i];
      PrefixSet(names, i);
      InPrefix(names, i);
      var sent := AnnounceLeaving(s, c);
      hide ToSet, P.Broadcast, Notices, Carries;
      OneMoreNotices(s.me, s.chans, ToSet(names[..i]), names[i], P.Leave);
      CarriesBoth(msgs, sent, Notices(s.me, s.chans, ToSet(names[..i]), P.Leave),
                  P.Broadcast(s.me, s.chans[names[i]].servers, names[i], P.Leave));
      msgs := msgs + sent;
      i := i + 1;
    }
    PrefixSet(names, i);
    PrunedByName(s.me, s.chans, ToSet(names));
  }

  method AnnounceLeaving(s: State, c: Channel) returns (msgs: seq<P.Msg>)
    requires s.Valid() && c.name in s.chans && s.cset.byName[c.name] == c
    ensures Carries(msgs, P.Broadcast(s.me, s.chans[c.name].servers, c.name, P.Leave))
  {
    assert s.Find(c.name) == c;
    msgs := Broadcast(s.me, c.sset.list, c.name, P.Leave);
  }

  method DropAll(s: State, dead: seq<Channel>)
    requires s.Valid() && ToDrop(s.cset.byName, s.chans, dead)
    modifies s`cset, s`chans
    ensures s.Valid() && s.chans == old(s.chans) - ToSet(Names(dead))
    ensures forall c :: c in s.cset.list ==> c in old(s.cset.list)
  {
    hide State.Valid, ToSet, Distinct;
    ghost var names := Names(dead);
    PrefixSet(names, 0);
    var i := 0;
    while i < |dead|
      invariant 0 <= i <= |dead| && s.Valid()
      invariant s.chans == old(s.chans) - ToSet(names[..i])
      invariant s.cset.byName == old(s.cset.byName) - ToSet(names[..i])
      invariant forall c :: c in s.cset.list ==> c in old(s.cset.list)
    {
      PrefixSet(names, i);
      InPrefix(names, i);
      s.Drop(dead[i]);
      i := i + 1;
    }
    PrefixSet(names, i);
  }

  /** The pruning procedure: collect, announce, delete. */
  method Prune(s: State) returns (msgs: seq<P.Msg>)
    requires s.Valid()
    modifies s`cset, s`chans
    ensures s.Valid() && s.View() == P.Pruned(s.me, old(s.View())).server
    ensures Carries(msgs, P.Pruned(s.me, old(s.View())).msgs)
    ensures forall c :: c in s.cset.list ==> c in old(s.cset.list)
  {
    hide State.Valid, P.Prunable;
    var dead := Prunables(s);
    msgs := SendLeaves(s, dead);
    DropAll(s, dead);
    PrunedByName(s.me, old(s.chans), ToSet(Names(dead)));
  }

  // ------------------------------------------------------- client requests

  // No two logged-in users share a name or an address.
  lemma SeparateUsers(s: State)
    requires s.Valid()
    ensures M.Separate(s.View().users)
  {
    KeyMembers(s.uset.list);
    forall x, y | x in s.View().users && y in s.View().users && (x.name == y.name || x.addr == y.addr) ensures x == y {
      var u :| u in s.uset.list && u.Key() == x;
      var v :| v in s.uset.list && v.Key() == y;
      assert s.uset.byName[u.name] == u && s.uset.byName[v.name] == v;
      assert s.uset.byAddr[u.addr] == u && s.uset.byAddr[v.addr] == v;
    }
  }

  method HandleLogin(s: State, name: string, addr: Addr, now: nat)
    requires s.Valid()
    modifies s
    ensures s.Valid() && s.View() == P.OnLogin(old(s.View()), P.Client(name, addr)).server
    ensures s.cset == old(s.cset)
    ensures forall u :: u in s.uset.list ==>
      (u in old(s.uset.list) && u.lastSeen == old(u.lastSeen)) || (fresh(u) && u.lastSeen == now)
  {
    hide State.Valid;
    s.CliLogin(name, addr, now);
  }

  method HandleLogout(s: State, addr: Addr) returns (msgs: seq<P.Msg>)
    requires s.Valid() && P.SafeAt(s.View(), P.Logout(s.me, addr))
    modifies s, s.cset.list
    ensures s.Valid()
    ensures forall c :: c in s.cset.list ==> c in old(s.cset.list)
    ensures forall u :: u in s.uset.list ==> u in old(s.uset.list)
    ensures
      var e := P.OnLogout(s.me, old(s.View()), addr);
      s.View() == e.server && Carries(msgs, e.msgs)
    ensures forall x :: x in s.View().users <==> x in old(s.View()).users && x.addr != addr
    ensures forall c, x :: c in s.View().channels && x in s.View().channels[c].users ==> !E.At(old(s.View()), x, addr)
    ensures forall c, x ::
      c in old(s.View()).channels && x in old(s.View()).channels[c].users && !E.At(old(s.View()), x, addr) ==>
        c in s.View().channels && x in s.View().channels[c].users
  {
    hide State.Valid, State.View, P.Forget, P.LoggedIn, P.Pruned, P.RemovableEverywhere;
    ghost var sv := s.View();
    SeparateUsers(s);
    E.LogoutUsers(s.me, sv, s.me, addr);
    forall c {
      E.LogoutChannels(s.me, sv, s.me, addr, c);
    }
    s.CliLogout(addr);
    msgs := Prune(s);
  }

  method HandleJoin(s: State, addr: Addr, chan: string, now: nat) returns (msgs: seq<P.Msg>)
    requires s.Valid()
    modifies s, s.cset.list, s.uset.list
    ensures s.Valid() && s.uset == old(s.uset)
    ensures forall c :: c in s.cset.list ==> c in old(s.cset.list) || fresh(c)
    ensures forall u :: u in old(s.uset.list) ==> u.lastSeen == if u.addr == addr then now else old(u.lastSeen)
    ensures
      var e := P.OnClientJoin(s.me, old(s.View()), addr, chan);
      s.View() == e.server && Carries(msgs, e.msgs)
    ensures forall x :: x in old(s.View()).users && x.addr == addr ==>
      chan in s.View().channels && x in s.View().channels[chan].users
  {
    hide State.Valid, State.View, Distinct, ToSet, P.LoggedIn, P.Admit, P.Broadcast;
    ghost var sv := s.View();
    SeparateUsers(s);
    forall x | x in sv.users && x.addr == addr {
      E.ClientJoinLaw(s.me, sv, s.me, x, chan);
    }
    s.CliJoin(addr, chan, now);
    Neighbours(s);
    ghost var channels := Existing(set c | c in s.cset.list);
    msgs := Broadcast(s.me, s.sset.list, chan, P.Join);
  }

  lemma Neighbours(s: State)
    requires s.Valid()
    ensures Distinct(s.sset.list) && ToSet(s.sset.list) == s.View().neighbours
  {
  }

  method HandleLeave(s: State, addr: Addr, chan: string, now: nat) returns (msgs: seq<P.Msg>)
    requires s.Valid() && P.SafeAt(s.View(), P.ClientLeave(s.me, addr, chan))
    modifies s, s.cset.list, s.uset.list
    ensures s.Valid() && s.uset == old(s.uset)
    ensures forall c :: c in s.cset.list ==> c in old(s.cset.list)
    ensures forall u :: u in old(s.uset.list) ==> u.lastSeen == if u.addr == addr then now else old(u.lastSeen)
    ensures
      var e := P.OnClientLeave(s.me, old(s.View()), addr, chan);
      s.View() == e.server && Carries(msgs, e.msgs)
    ensures forall x :: x in old(s.View()).users && x.addr == addr ==>
      !(chan in s.View().channels && x in s.View().channels[chan].users)
  {
    hide State.Valid, State.View, P.LoggedIn, P.Pruned, P.Removable;
    ghost var sv := s.View();
    SeparateUsers(s);
    forall x | x in sv.users && x.addr == addr {
      E.ClientLeaveChannel(s.me, sv, s.me, x, chan);
    }
    s.CliLeave(addr, chan, now);
    msgs := Prune(s);
  }

  // The lists a handler reads off a channel are the channel's sets, each member once.
  lemma ChannelLists(s: State, chan: string)
    requires s.Valid() && chan in s.View().channels
    ensures chan in s.cset.byName
    ensures
      var c := s.Find(chan);
      && c in s.cset.list && c.seen == s.View().channels[chan].seen
      && Distinct(c.sset.list) && ToSet(c.sset.list) == s.View().channels[chan].servers
      && Distinct(Keys(c.uset.list)) && ToSet(Keys(c.uset.list)) == s.View().channels[chan].users
  {
    var c := s.Find(chan);
    AgreeKeys(c.uset.list, c.uset.byName, c.uset.byAddr);
  }

  method HandleSay(s: State, addr: Addr, chan: string, uid: nat, text: string, now: nat)
    returns (msgs: seq<P.Msg>, texts: seq<P.Text>)
    requires s.Valid() && P.LoggedIn(s.View(), addr) && chan in s.View().channels
    modifies s.uset.list
    ensures s.Valid()
    ensures forall u :: u in old(s.uset.list) ==> u.lastSeen == if u.addr == addr then now else old(u.lastSeen)
    ensures
      var e := P.OnClientSay(s.me, old(s.View()), addr, chan, uid, text);
      s.View() == e.server && Carries(msgs, e.msgs) && Carries(texts, e.texts)
  {
    hide State.Valid, Distinct, ToSet, P.LoggedIn, P.Broadcast, P.Texts;
    s.LookupIsLogin(addr);
    ChannelLists(s, chan);
    var user := s.uset.GetByAddr(addr);
    user.lastSeen := now;
    var c := s.Find(chan);
    texts := BroadcastText(s.me, c.uset.list, chan, user.name, text);
    msgs := Broadcast(s.me, c.sset.list, chan, P.Say(uid, user.name, text));
  }

  // ------------------------------------------------------- server messages

  lemma ListedServers(s: State)
    requires s.Valid()
    ensures s.sset.index.Keys == s.View().neighbours
  {
  }

  lemma NoneSent(me: Addr, sv: P.Server, from: Addr, chan: string)
    ensures chan in sv.channels ==> Carries([], P.OnJoin(me, sv, from, chan).msgs)
  {
  }

  method HandleS2sJoin(s: State, from: Addr, chan: string, now: nat) returns (msgs: seq<P.Msg>)
    requires s.Valid() && from in s.View().neighbours
    modifies s, s.cset.list
    ensures s.Valid() && s.uset == old(s.uset)
    ensures forall c :: c in s.cset.list ==> c in old(s.cset.list) || fresh(c)
    ensures forall c :: c in s.cset.list && c.name == chan ==> from in c.lastSeen && c.lastSeen[from] == now
    ensures
      var e := P.OnJoin(s.me, old(s.View()), from, chan);
      s.View() == e.server && Carries(msgs, e.msgs)
  {
    hide State.Valid, Distinct, ToSet, P.Broadcast, Carries;
    msgs := [];
    Neighbours(s);
    NoneSent(s.me, s.View(), from, chan);
    ListedServers(s);
    var terminal := s.S2sJoin(from, chan, now);
    if !terminal {
      Neighbours(s);
      ghost var channels := Existing(set c | c in s.cset.list);
      msgs := Broadcast(s.me, s.sset.list, chan, P.Join);
    }
  }

  method HandleS2sLeave(s: State, from: Addr, chan: string)
    requires s.Valid() && from in s.View().neighbours
    modifies s, s.cset.list
    ensures s.Valid() && s.View() == P.OnLeave(old(s.View()), from, chan).server
    ensures s.uset == old(s.uset) && s.cset == old(s.cset)
  {
    hide State.Valid;
    Neighbours(s);
    s.S2sLeave(from, chan);
  }

  method AllBut(servers: seq<Addr>, from: Addr) returns (targets: seq<Addr>)
    requires Distinct(servers)
    ensures Distinct(targets) && ToSet(targets) == ToSet(servers) - {from}
  {
    targets := [];
    var i := 0;
    while i < |servers|
      invariant 0 <= i <= |servers| && Distinct(targets)
      invariant ToSet(targets) == ToSet(servers[..i]) - {from}
    {
      PrefixSet(servers, i);
      InPrefix(servers, i);
      if servers[i] != from {
        assert servers[i] !in ToSet(targets);
        assert ToSet(targets + [servers[i]]) == ToSet(targets) + {servers[i]};
        targets := targets + [servers[i]];
      }
      i := i + 1;
    }
    PrefixSet(servers, i);
  }

  method HandleS2sSay(s: State, from: Addr, chan: string, say: P.Body)
    returns (msgs: seq<P.Msg>, texts: seq<P.Text>)
    requires s.Valid() && say.Say? && chan in s.View().channels
    modifies s`cset, s`chans
    ensures s.Valid()
    ensures forall c :: c in s.cset.list ==> c in old(s.cset.list)
    ensures
      var e := P.OnSay(s.me, old(s.View()), from, chan, say);
      s.View() == e.server && Carries(msgs, e.msgs) && Carries(texts, e.texts)
  {
    ChannelLists(s, chan);
    var c := s.Find(chan);
    if say.uid in c.seen {
      msgs := Broadcast(s.me, [from], chan, P.Leave);
      assert P.Broadcast(s.me, ToSet([from]), chan, P.Leave) == {P.Msg(s.me, from, chan, P.Leave)};
      texts := [];
      return;
    }
    hide State.Valid, Distinct, ToSet, Carries, P.Broadcast, P.Texts, P.Pruned;
    var targets := AllBut(c.sset.list, from);
    var copies := Broadcast(s.me, targets, chan, say);
    texts := BroadcastText(s.me, c.uset.list, chan, say.who, say.text);
    var leaves := Prune(s);
    CopiesAndLeaves(s.me, old(s.View()), chan, say, copies, leaves, old(s.View()).channels[chan].servers - {from});
    msgs := copies + leaves;
  }

  lemma CopiesAndLeaves(me: Addr, sv: P.Server, chan: string, say: P.Body, copies: seq<P.Msg>, leaves: seq<P.Msg>,
                        to: set<Addr>)
    requires say.Say? && Carries(copies, P.Broadcast(me, to, chan, say)) && Carries(leaves, P.Pruned(me, sv).msgs)
    ensures Carries(copies + leaves, P.Broadcast(me, to, chan, say) + P.Pruned(me, sv).msgs)
  {
    CarriesBoth(copies, leaves, P.Broadcast(me, to, chan, say), P.Pruned(me, sv).msgs);
  }

  // ---------------------------------------------------------- join sender

  /** One pass of the periodic join sender. */
  method SendJoins(s: State) returns (msgs: seq<P.Msg>)
    requires s.Valid()
    ensures Carries(msgs, P.OnHeartbeat(s.me, s.View()).msgs)
  {
    TableNames(s);
    ghost var names := Names(s.cset.list);
    msgs := [];
    var i := 0;
    while i < |s.cset.list|
      invariant 0 <= i <= |s.cset.list|
      invariant Carries(msgs, Notices(s.me, s.chans, ToSet(names[..i]), P.Join))
    {
      var c := s.cset.list[i];
      s.FindSelf(c);
      ChannelLists(s, c.name);
      PrefixSet(names, i);
      InPrefix(names, i);
      hide State.Valid, ToSet, P.Broadcast, Notices, Carries, Distinct;
      var sent := Broadcast(s.me, c.sset.list, c.name, P.Join);
      OneMoreNotices(s.me, s.chans, ToSet(names[..i]), c.name, P.Join);
      CarriesBoth(msgs, sent, Notices(s.me, s.chans, ToSet(names[..i]), P.Join),
                  P.Broadcast(s.me, s.chans[c.name].servers, c.name, P.Join));
      msgs := msgs + sent;
      i := i + 1;
    }
    PrefixSet(names, i);
    assert Notices(s.me, s.chans, s.chans.Keys, P.Join) == P.OnHeartbeat(s.me, s.View()).msgs;
  }

  // ------------------------------------------------------------- dispatch

  // A step that a packet causes; the others are timer bodies.
  predicate Packet(step: P.Step) {
    !step.Heartbeat? && !step.UserTimeout? && !step.ServerTimeout?
  }

  /** Whatever the packet, its handler does what the protocol's step does. */
  method Handle(s: State, step: P.Step, now: nat) returns (msgs: seq<P.Msg>, texts: seq<P.Text>)
    requires s.Valid() && Packet(step) && P.SafeAt(s.View(), step)
    modifies s, s.cset.list, s.uset.list
    ensures s.Valid()
    ensures forall c :: c in s.cset.list ==> c in old(s.cset.list) || fresh(c)
    ensures forall u :: u in s.uset.list ==> u in old(s.uset.list) || fresh(u)
    ensures
      var e := P.EffectAt(s.me, old(s.View()), step);
      s.View() == e.server && Carries(msgs, e.msgs) && Carries(texts, e.texts)
  {
    hide State.Valid, State.View, P.OnLogin, P.OnLogout, P.OnClientJoin, P.OnClientLeave, P.OnClientSay, P.OnJoin,
      P.OnLeave, P.OnSay, P.LoggedIn, P.Removable, P.RemovableEverywhere;
    msgs, texts := [], [];
    ghost var sv := s.View();
    NothingSent(s.me, sv, step);
    match step
    case Login(_, u) => HandleLogin(s, u.name, u.addr, now);
    case Logout(_, a) => msgs := HandleLogout(s, a);
    case ClientJoin(_, a, chan) => msgs := HandleJoin(s, a, chan, now);
    case ClientLeave(_, a, chan) => msgs := HandleLeave(s, a, chan, now);
    case ClientSay(_, a, chan, uid, text) => msgs, texts := HandleSay(s, a, chan, uid, text, now);
    case Deliver(m) =>
      match m.body
      case Join => msgs := HandleS2sJoin(s, m.src, m.chan, now);
      case Leave => HandleS2sLeave(s, m.src, m.chan);
      case Say(_, _, _) => msgs, texts := HandleS2sSay(s, m.src, m.chan, m.body);
  }

  lemma NothingSent(me: Addr, sv: P.Server, step: P.Step)
    requires P.SafeAt(sv, step)
    ensures Carries<P.Msg>([], {}) && Carries<P.Text>([], {})
    ensures step.Login? || (step.Deliver? && step.msg.body.Leave?) ==> P.EffectAt(me, sv, step).msgs == {}
    ensures !step.ClientSay? && !(step.Deliver? && step.msg.body.Say?) ==> P.EffectAt(me, sv, step).texts == {}
  {
  }

  // A run of one server, as the protocol describes it.
  ghost predicate LocalRun(me: Addr, sv: P.Server, steps: seq<P.Step>)
    decreases |steps|, 0
  {
    steps == [] ||
    (var n := |steps| - 1;
     && LocalRun(me, sv, steps[..n]) && Packet(steps[n])
     && P.SafeAt(LocalEnd(me, sv, steps[..n]), steps[n]))
  }

  ghost function LocalEnd(me: Addr, sv: P.Server, steps: seq<P.Step>): P.Server
    requires LocalRun(me, sv, steps)
    decreases |steps|, 1
  {
    if steps == [] then sv
    else
      var n := |steps| - 1;
      P.EffectAt(me, LocalEnd(me, sv, steps[..n]), steps[n]).server
  }

  ghost function LocalMsgs(me: Addr, sv: P.Server, steps: seq<P.Step>): multiset<P.Msg>
    requires LocalRun(me, sv, steps)
    decreases |steps|
  {
    if steps == [] then multiset{}
    else
      var n := |steps| - 1;
      LocalMsgs(me, sv, steps[..n]) + multiset(P.EffectAt(me, LocalEnd(me, sv, steps[..n]), steps[n]).msgs)
  }

  ghost function LocalTexts(me: Addr, sv: P.Server, steps: seq<P.Step>): multiset<P.Text>
    requires LocalRun(me, sv, steps)
    decreases |steps|
  {
    if steps == [] then multiset{}
    else
      var n := |steps| - 1;
      LocalTexts(me, sv, steps[..n]) + multiset(P.EffectAt(me, LocalEnd(me, sv, steps[..n]), steps[n]).texts)
  }

  lemma {:induction false} LocalPrefix(me: Addr, sv: P.Server, steps: seq<P.Step>, n: nat)
    requires LocalRun(me, sv, steps) && n <= |steps|
    ensures LocalRun(me, sv, steps[..n])
    decreases |steps|
  {
    if n < |steps| {
      LocalPrefix(me, sv, steps[..|steps| - 1], n);
      assert steps[..|steps| - 1][..n] == steps[..n];
    } else {
      assert steps[..n] == steps;
    }
  }

  lemma LocalNext(me: Addr, sv: P.Server, steps: seq<P.Step>, n: nat)
    requires LocalRun(me, sv, steps) && n < |steps|
    ensures LocalRun(me, sv, steps[..n]) && LocalRun(me, sv, steps[..n + 1])
    ensures Packet(steps[n]) && P.SafeAt(LocalEnd(me, sv, steps[..n]), steps[n])
    ensures
      var e := P.EffectAt(me, LocalEnd(me, sv, steps[..n]), steps[n]);
      && LocalEnd(me, sv, steps[..n + 1]) == e.server
      && LocalMsgs(me, sv, steps[..n + 1]) == LocalMsgs(me, sv, steps[..n]) + multiset(e.msgs)
      && LocalTexts(me, sv, steps[..n + 1]) == LocalTexts(me, sv, steps[..n]) + multiset(e.texts)
  {
    hide P.EffectAt, P.SafeAt;
    LocalPrefix(me, sv, steps, n);
    LocalPrefix(me, sv, steps, n + 1);
    assert steps[..n + 1][..n] == steps[..n];
  }

  /** The server loop: over any run of packets that can be handled, the state and
      everything sent are those of the protocol's steps. */
  method Serve(s: State, steps: seq<P.Step>, now: nat) returns (msgs: seq<P.Msg>, texts: seq<P.Text>)
    requires s.Valid() && LocalRun(s.me, s.View(), steps)
    modifies s, s.cset.list, s.uset.list
    ensures s.Valid() && s.View() == LocalEnd(s.me, old(s.View()), steps)
    ensures multiset(msgs) == LocalMsgs(s.me, old(s.View()), steps)
    ensures multiset(texts) == LocalTexts(s.me, old(s.View()), steps)
  {
    hide State.Valid, State.View, P.EffectAt, P.SafeAt, Packet;
    ghost var sv := s.View();
    msgs, texts := [], [];
    var i := 0;
    while i < |steps|
      invariant 0 <= i <= |steps| && s.Valid() && LocalRun(s.me, sv, steps[..i])
      invariant s.View() == LocalEnd(s.me, sv, steps[..i])
      invariant multiset(msgs) == LocalMsgs(s.me, sv, steps[..i])
      invariant multiset(texts) == LocalTexts(s.me, sv, steps[..i])
      invariant forall c :: c in s.cset.list ==> c in old(s.cset.list) || fresh(c)
      invariant forall u :: u in s.uset.list ==> u in old(s.uset.list) || fresh(u)
    {
      LocalNext(s.me, sv, steps, i);
      assert forall k :: 0 <= k < |s.cset.list| ==> s.cset.list[k] in old(s.cset.list) || fresh(s.cset.list[k]);
      assert forall k :: 0 <= k < |s.uset.list| ==> s.uset.list[k] in old(s.uset.list) || fresh(s.uset.list[k]);
      var sent, told := Handle(s, steps[i], now);
      msgs, texts := msgs + sent, texts + told;
      i := i + 1;
    }
    assert steps[..i] == steps;
  }
}
