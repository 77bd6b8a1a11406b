/**
 The single chat server's request handlers, over its user list with two indexes
 and its table of channels.

 Channels hold user names, not users, and are not touched when users log in or
 out: a name stays subscribed while its user is away.
*/
module ChatServer {
  import opened Addresses
  import opened AddressKeys
  import opened ChannelTables
  import opened Lists
  import opened UserIndexes
  import opened Users
  import P = Protocol

  const IDLE_LIMIT: nat := 120

  // A text sent to the address of a user.
  datatype Delivery = Delivery(to: Addr, chan: string, who: string, text: string)

  datatype Reply =
    | Done
    | Sent(texts: seq<Delivery>)
    | Members(names: seq<string>)
    | NotLoggedIn
    | NoSuchChannel
    | NotAMember
    | InternalError

  // Who is logged in from where.
  ghost predicate LoggedIn(clients: set<P.Client>, addr: Addr) {
    exists x :: x in clients && x.addr == addr
  }

  ghost function NameAt(clients: set<P.Client>, addr: Addr): (name: string)
    requires LoggedIn(clients, addr)
    ensures P.Client(name, addr) in clients
  {
    var x :| x in clients && x.addr == addr;
    x.name
  }

  lemma FoundName(list: seq<User>, byName: map<string, User>, byAddr: map<Addr, User>, addr: Addr)
    requires Agree(list, byName, byAddr)
    ensures addr in byAddr <==> LoggedIn(ToSet(Keys(list)), addr)
    ensures LoggedIn(ToSet(Keys(list)), addr) ==> byAddr[addr].name == NameAt(ToSet(Keys(list)), addr)
  {
    Found(list, byName, byAddr, "", addr);
    KeyMembers(list);
    if addr in byAddr {
      assert byAddr[addr].Key() in ToSet(Keys(list));
    }
    if LoggedIn(ToSet(Keys(list)), addr) {
      var u :| u in list && u.Key() == P.Client(NameAt(ToSet(Keys(list)), addr), addr);
      assert byAddr[u.addr] == u;
    }
  }

  // What a text to the members of a channel is delivered to.
  ghost function Deliveries(clients: set<P.Client>, names: set<string>, chan: string, who: string, text: string)
    : set<Delivery>
  {
    set x | x in clients && x.name in names :: Delivery(x.addr, chan, who, text)
  }

  lemma OneMoreName(list: seq<User>, byName: map<string, User>, byAddr: map<Addr, User>, name: string,
                    names: set<string>, chan: string, who: string, text: string)
    requires Agree(list, byName, byAddr) && name !in names
    ensures
      var clients := ToSet(Keys(list));
      var before := Deliveries(clients, names, chan, who, text);
      var after := Deliveries(clients, names + {name}, chan, who, text);
      if name in byName then
        var to := Delivery(byName[name].addr, chan, who, text);
        to !in before && after == before + {to}
      else after == before
  {
    Found(list, byName, byAddr, name, Addr("", 0));
    KeyMembers(list);
    var clients := ToSet(Keys(list));
    if name in byName {
      var user := byName[name];
      WithoutName(list, byName, byAddr, user);
      OneMoreDelivery(clients, user.Key(), names, chan, who, text);
    } else {
      NoMoreDelivery(clients, name, names, chan, who, text);
    }
  }

  lemma OneMoreDelivery(clients: set<P.Client>, to: P.Client, names: set<string>, chan: string,
                        who: string, text: string)
    requires to in clients && to.name !in names
    requires clients - {to} == set x | x in clients && x.name != to.name
    requires clients - {to} == set x | x in clients && x.addr != to.addr
    ensures Delivery(to.addr, chan, who, text) !in Deliveries(clients, names, chan, who, text)
    ensures Deliveries(clients, names + {to.name}, chan, who, text) ==
      Deliveries(clients, names, chan, who, text) + {Delivery(to.addr, chan, who, text)}
  {
    assert forall x :: x in clients && (x.name == to.name || x.addr == to.addr) ==> x == to by {
      assert forall x :: x in clients - {to} ==> x.name != to.name && x.addr != to.addr;
    }
  }

  lemma NoMoreDelivery(clients: set<P.Client>, name: string, names: set<string>, chan: string,
                       who: string, text: string)
    requires forall x :: x in clients ==> x.name != name
    ensures Deliveries(clients, names + {name}, chan, who, text) == Deliveries(clients, names, chan, who, text)
  {
  }

  lemma AppendDistinct<T>(s: seq<T>, x: T)
    requires Distinct(s) && x !in ToSet(s)
    ensures Distinct(s + [x]) && ToSet(s + [x]) == ToSet(s) + {x}
  {
  }

  function Joined(subs: map<string, set<string>>, chan: string, name: string): map<string, set<string>> {
    subs[chan := (if chan in subs then subs[chan] else {}) + {name}]
  }

  // A name leaves a channel; the last one to leave takes the channel with it.
  function Left(subs: map<string, set<string>>, chan: string, name: string): map<string, set<string>> {
    if chan !in subs then subs
    else if subs[chan] <= {name} then subs - {chan}
    else subs[chan := subs[chan] - {name}]
  }

  predicate HasMember(subs: map<string, set<string>>, chan: string, name: string) {
    chan in subs && name in subs[chan]
  }

  lemma JoinedMeans(subs: map<string, set<string>>, chan: string, name: string)
    ensures
      var after := Joined(subs, chan, name);
      && after.Keys == subs.Keys + {chan}
      && (forall c, n :: HasMember(after, c, n) <==> HasMember(subs, c, n) || (c == chan && n == name))
  {
  }

  // Where no stored channel is empty a leave takes out the name, and the channel
  // with its last name, and nothing else.
  lemma LeftMeans(subs: map<string, set<string>>, chan: string, name: string)
    requires forall c :: c in subs ==> subs[c] != {}
    ensures
      var after := Left(subs, chan, name);
      && (forall c, n :: HasMember(after, c, n) <==> HasMember(subs, c, n) && !(c == chan && n == name))
      && (forall c :: c in after <==> exists n :: HasMember(after, c, n))
  {
    var after := Left(subs, chan, name);
    forall c | c in after ensures exists n :: HasMember(after, c, n) {
      if c == chan {
        assert !(subs[chan] <= {name});
        var n :| n in subs[chan] && n != name;
        assert HasMember(after, c, n);
      } else {
        var n :| n in subs[c];
        assert HasMember(after, c, n);
      }
    }
  }

  datatype Request =
    | Login(addr: Addr, name: string)
    | Logout(addr: Addr)
    | JoinChannel(addr: Addr, chan: string)
    | LeaveChannel(addr: Addr, chan: string)
    | SayIn(addr: Addr, chan: string, text: string)
    | Who(addr: Addr, chan: string)

  // What clients can know of the server: who is logged in, who is in which channel.
  datatype Roster = Roster(clients: set<P.Client>, subs: map<string, set<string>>)

  // The request comes from a real address, and the code does not walk a null array.
  predicate Servable(r: Roster, q: Request) {
    IsAddress(q.addr.ip, q.addr.port) && (q.JoinChannel? || q.LeaveChannel? ==> r.clients != {})
  }

  ghost function Served(r: Roster, q: Request): Roster {
    match q
    case Login(addr, name) => r.(clients := P.Admit(r.clients, P.Client(name, addr)))
    case Logout(addr) => r.(clients := set x | x in r.clients && x.addr != addr)
    case JoinChannel(addr, chan) =>
      if LoggedIn(r.clients, addr) then r.(subs := Joined(r.subs, chan, NameAt(r.clients, addr))) else r
    case LeaveChannel(addr, chan) =>
      if LoggedIn(r.clients, addr) then r.(subs := Left(r.subs, chan, NameAt(r.clients, addr))) else r
    case SayIn(_, _, _) => r
    case Who(_, _) => r
  }

  ghost predicate Member(r: Roster, chan: string, name: string) {
    HasMember(r.subs, chan, name)
  }

  // The reply to a request in this roster.
  ghost predicate Answers(r: Roster, q: Request, reply: Reply) {
    match q
    case Login(_, _) => reply == Done
    case Logout(_) => reply == Done
    case JoinChannel(addr, _) => reply == if LoggedIn(r.clients, addr) then Done else NotLoggedIn
    case LeaveChannel(addr, _) => reply == if LoggedIn(r.clients, addr) then Done else NotLoggedIn
    case SayIn(addr, chan, text) =>
      if !LoggedIn(r.clients, addr) then reply == NotLoggedIn
      else if chan !in r.subs then reply == NoSuchChannel
      else if NameAt(r.clients, addr) !in r.subs[chan] then reply == NotAMember
      else reply.Sent? && multiset(reply.texts) ==
        multiset(Deliveries(r.clients, r.subs[chan], chan, NameAt(r.clients, addr), text))
    case Who(_, chan) =>
      if chan !in r.subs then reply == NoSuchChannel
      else reply.Members? && multiset(reply.names) == multiset(r.subs[chan])
  }

  ghost predicate ServableAll(r: Roster, qs: seq<Request>)
    decreases |qs|, 0
  {
    qs == [] ||
    (var n := |qs| - 1;
     ServableAll(r, qs[..n]) && Servable(ServedAll(r, qs[..n]), qs[n]))
  }

  ghost function ServedAll(r: Roster, qs: seq<Request>): Roster
    requires ServableAll(r, qs)
    decreases |qs|, 1
  {
    if qs == [] then r
    else
      var n := |qs| - 1;
      Served(ServedAll(r, qs[..n]), qs[n])
  }

  lemma {:induction false} ServablePrefix(r: Roster, qs: seq<Request>, n: nat)
    requires ServableAll(r, qs) && n <= |qs|
    ensures ServableAll(r, qs[..n])
    decreases |qs|
  {
    if n < |qs| {
      ServablePrefix(r, qs[..|qs| - 1], n);
      assert qs[..|qs| - 1][..n] == qs[..n];
    } else {
      assert qs[..n] == qs;
    }
  }

  lemma ServedNext(r: Roster, qs: seq<Request>, n: nat)
    requires ServableAll(r, qs) && n < |qs|
    ensures ServableAll(r, qs[..n]) && ServableAll(r, qs[..n + 1])
    ensures Servable(ServedAll(r, qs[..n]), qs[n])
    ensures ServedAll(r, qs[..n + 1]) == Served(ServedAll(r, qs[..n]), qs[n])
  {
    hide Servable, Served;
    ServablePrefix(r, qs, n);
    ServablePrefix(r, qs, n + 1);
    assert qs[..n + 1][..n] == qs[..n];
  }

  class State {
    const users: UserIndex
    const channels: ChannelTable

    ghost predicate Valid()
      reads users, users.Footprint(), channels, channels.Footprint()
    {
      users.Valid() && channels.Valid() && users.Footprint() !! channels.Footprint()
    }

    // What holds between two requests.
    ghost predicate AtRest()
      reads users, users.Footprint(), channels, channels.Footprint()
    {
      Valid() && forall n :: n in channels.subs ==> channels.subs[n] != {}
    }

    constructor ()
      ensures AtRest() && users.list.contents == [] && channels.subs == map[]
      ensures fresh(users.Footprint()) && fresh(channels.Footprint())
    {
      hide UserIndex.Valid, ChannelTable.Valid, UserIndex.Footprint, ChannelTable.Footprint;
      var index := new UserIndex();
      ghost var mine := Existing(index.Footprint());
      var table := new ChannelTable();
      ghost var others := Existing(table.Footprint());
      users, channels := index, table;
    }

    // ----------------------------------------------------------- logging in

    method HandleLogin(name: string, addr: Addr, now: nat) returns (user: User)
      requires AtRest() && IsAddress(addr.ip, addr.port)
      modifies users.Footprint()
      ensures AtRest() && channels.subs == old(channels.subs)
      ensures users.Clients() == P.Admit(old(users.Clients()), P.Client(name, addr))
      ensures fresh(user) && user.Key() == P.Client(name, addr) && user.lastSeen == now
      ensures ToSet(users.list.contents) ==
        (set u | u in ToSet(old(users.list.contents)) && u.name != name && u.addr != addr) + {user}
      ensures forall u :: u in old(users.list.contents) ==> u.lastSeen == old(u.lastSeen)
      ensures forall o :: o in users.Footprint() ==> o in old(users.Footprint()) || fresh(o)
      ensures channels.Footprint() == old(channels.Footprint())
    {
      hide UserIndex.Valid, ChannelTable.Valid, UserIndex.Clients, UserIndex.Footprint, ChannelTable.Footprint,
        ToSet;
      users.UsersApart();
      ghost var others := Existing(channels.Footprint());
      user := users.AddUser(name, addr, now);
    }

    method HandleLogout(addr: Addr)
      requires AtRest() && IsAddress(addr.ip, addr.port)
      modifies users.Footprint()
      ensures AtRest() && channels.subs == old(channels.subs)
      ensures users.Clients() == set x | x in old(users.Clients()) && x.addr != addr
      ensures ToSet(users.list.contents) == set u | u in ToSet(old(users.list.contents)) && u.addr != addr
      ensures forall u :: u in old(users.list.contents) ==> u.lastSeen == old(u.lastSeen)
      ensures forall o :: o in users.Footprint() ==> o in old(users.Footprint()) || fresh(o)
      ensures channels.Footprint() == old(channels.Footprint())
    {
      hide UserIndex.Valid, ChannelTable.Valid, UserIndex.Clients, UserIndex.Footprint, ChannelTable.Footprint, ToSet;
      users.UsersApart();
      ghost var others := Existing(channels.Footprint());
      users.RemoveByIp(addr);
    }

    /** One pass of the inactivity check leaves exactly the users idle for at most
        120 seconds, and no channel is touched. */
    method RemoveInactive(now: nat)
      requires AtRest() && users.list.contents != []
      modifies users.Footprint()
      ensures AtRest() && channels.subs == old(channels.subs)
      ensures ToSet(users.list.contents) ==
        set u | u in old(users.list.contents) && now - old(u.lastSeen) <= 120
      ensures forall u :: u in old(users.list.contents) ==> u.lastSeen == old(u.lastSeen)
      ensures forall o :: o in users.Footprint() ==> o in old(users.Footprint()) || fresh(o)
      ensures channels.Footprint() == old(channels.Footprint())
    {
      hide UserIndex.Valid, ChannelTable.Valid, UserIndex.Footprint, ChannelTable.Footprint, ToSet;
      users.UsersApart();
      ghost var others := Existing(channels.Footprint());
      users.RemoveInactive(now, IDLE_LIMIT);
    }

    // ------------------------------------------------------------- channels

    // The user logged in from the address, whose name is the one the protocol
    // speaks of. The user with that name has its timestamp refreshed, which is
    // the same user.
    method Sender(addr: Addr, now: nat) returns (user: User?)
      requires AtRest() && IsAddress(addr.ip, addr.port)
      modifies users.list.contents
      ensures AtRest() && channels.subs == old(channels.subs)
      ensures users.Footprint() == old(users.Footprint()) && channels.Footprint() == old(channels.Footprint())
      ensures users.list.contents == old(users.list.contents)
      ensures user != null <==> LoggedIn(users.Clients(), addr)
      ensures user != null ==> user.name == NameAt(users.Clients(), addr)
      ensures forall u :: u in old(users.list.contents) ==>
        u.lastSeen == if u.addr == addr then now else old(u.lastSeen)
    {
      hide UserIndex.Valid, ChannelTable.Valid, UserIndex.Footprint, ChannelTable.Footprint, LoggedIn, NameAt;
      Known(addr);
      ghost var mine := Existing(users.Footprint());
      ghost var others := Existing(channels.Footprint());
      user := users.FindByIp(addr);
      if user != null {
        var named := users.FindByName(user.name);
        if named != null {
          Refresh(named, now);
        }
      }
    }

    method Refresh(user: User, now: nat)
      requires AtRest() && user in users.list.contents
      modifies user
      ensures AtRest() && user.lastSeen == now && channels.subs == old(channels.subs)
      ensures users.Footprint() == old(users.Footprint()) && channels.Footprint() == old(channels.Footprint())
      ensures users.list.contents == old(users.list.contents)
    {
      hide UserIndex.Valid, ChannelTable.Valid, UserIndex.Footprint, ChannelTable.Footprint;
      users.UsersApart();
      channels.UsersApart();
      ghost var mine := Existing(users.Footprint());
      ghost var others := Existing(channels.Footprint());
      user.lastSeen := now;
    }

    lemma Known(addr: Addr)
      requires users.Valid()
      ensures addr in users.byAddr <==> LoggedIn(users.Clients(), addr)
      ensures addr in users.byAddr ==>
        users.byAddr[addr] in users.list.contents && users.byAddr[addr].name == NameAt(users.Clients(), addr)
      ensures addr in users.byAddr ==>
        users.byAddr[addr].name in users.Names() && users.Names()[users.byAddr[addr].name] == users.byAddr[addr]
      ensures forall u :: u in users.list.contents ==>
        (u.addr == addr <==> addr in users.byAddr && u == users.byAddr[addr])
    {
      hide LoggedIn, NameAt, UserIndex.Footprint, UserIndex.Built, UserIndex.Names;
      FoundName(users.list.contents, users.Names(), users.byAddr, addr);
      Found(users.list.contents, users.Names(), users.byAddr, "", addr);
    }

    // Nobody is logged in exactly when the list of users is empty.
    lemma NobodyLoggedIn()
      ensures users.list.contents == [] <==> users.Clients() == {}
      ensures users.list.contents == [] ==> forall addr :: !LoggedIn(users.Clients(), addr)
    {
      KeyMembers(users.list.contents);
      if users.list.contents != [] {
        assert users.list.contents[0].Key() in users.Clients();
      }
    }

    method HandleJoin(addr: Addr, chan: string, now: nat) returns (reply: Reply, shown: seq<P.Client>)
      requires AtRest() && IsAddress(addr.ip, addr.port) && users.list.contents != []
      modifies channels.Footprint(), users.list.contents
      ensures AtRest() && users.list.contents == old(users.list.contents)
      ensures forall u :: u in old(users.list.contents) ==>
        u.lastSeen == if u.addr == addr then now else old(u.lastSeen)
      ensures LoggedIn(users.Clients(), addr) ==>
        reply == Done && channels.subs == Joined(old(channels.subs), chan, NameAt(users.Clients(), addr))
      ensures LoggedIn(users.Clients(), addr) ==> channels.subs.Keys == old(channels.subs.Keys) + {chan}
      ensures LoggedIn(users.Clients(), addr) ==> forall c, n :: HasMember(channels.subs, c, n) <==>
        HasMember(old(channels.subs), c, n) || (c == chan && n == NameAt(users.Clients(), addr))
      ensures !LoggedIn(users.Clients(), addr) ==>
        reply == NotLoggedIn && shown == Keys(users.list.contents) && channels.subs == old(channels.subs)
      ensures users.Footprint() == old(users.Footprint())
      ensures forall o :: o in channels.Footprint() ==> o in old(channels.Footprint()) || fresh(o)
    {
      hide UserIndex.Valid, ChannelTable.Valid, UserIndex.Footprint, ChannelTable.Footprint, LoggedIn, NameAt,
        HasMember;
      shown := [];
      var user := Sender(addr, now);
      if user == null {
        ghost var mine := Existing(users.Footprint());
        ghost var theirs := Existing(channels.Footprint());
        reply := NotLoggedIn;
        shown := users.Shown();
        return;
      }
      channels.UsersApart();
      ghost var others := Existing(users.Footprint());
      JoinedMeans(channels.subs, chan, user.name);
      channels.ChannelAddUser(chan, user.name);
      reply := Done;
    }

    method HandleLeave(addr: Addr, chan: string, now: nat) returns (reply: Reply, shown: seq<P.Client>)
      requires AtRest() && IsAddress(addr.ip, addr.port) && users.list.contents != []
      modifies channels.Footprint(), users.list.contents
      ensures AtRest() && users.list.contents == old(users.list.contents)
      ensures forall u :: u in old(users.list.contents) ==>
        u.lastSeen == if u.addr == addr then now else old(u.lastSeen)
      ensures LoggedIn(users.Clients(), addr) ==>
        reply == Done && channels.subs == Left(old(channels.subs), chan, NameAt(users.Clients(), addr))
      ensures LoggedIn(users.Clients(), addr) ==> forall c, n :: HasMember(channels.subs, c, n) <==>
        HasMember(old(channels.subs), c, n) && !(c == chan && n == NameAt(users.Clients(), addr))
      ensures LoggedIn(users.Clients(), addr) ==> forall c :: c in channels.subs <==>
        exists n :: HasMember(channels.subs, c, n)
      ensures !LoggedIn(users.Clients(), addr) ==>
        reply == NotLoggedIn && shown == Keys(users.list.contents) && channels.subs == old(channels.subs)
      ensures users.Footprint() == old(users.Footprint())
      ensures forall o :: o in channels.Footprint() ==> o in old(channels.Footprint()) || fresh(o)
    {
      hide UserIndex.Valid, ChannelTable.Valid, UserIndex.Footprint, ChannelTable.Footprint, LoggedIn, NameAt,
        HasMember;
      shown := [];
      var user := Sender(addr, now);
      if user == null {
        ghost var mine := Existing(users.Footprint());
        ghost var theirs := Existing(channels.Footprint());
        reply := NotLoggedIn;
        shown := users.Shown();
        return;
      }
      channels.UsersApart();
      ghost var others := Existing(users.Footprint());
      LeftMeans(channels.subs, chan, user.name);
      channels.ChannelRemoveUser(chan, user.name);
      var released := channels.RemoveChannelIfEmpty(chan);
      reply := Done;
    }

    // The texts to the members that are logged in.
    method Recipients(names: array<Option<string>>, ghost members: seq<string>, chan: string, who: string, text: string)
      returns (texts: seq<Delivery>)
      requires users.Valid() && Distinct(members) && names.Length == |members|
      requires forall i :: 0 <= i < |members| ==> names[i] == Some(members[i])
      ensures multiset(texts) == multiset(Deliveries(users.Clients(), ToSet(members), chan, who, text))
    {
      hide UserIndex.Built, UserIndex.Names, UserIndex.Footprint, Keyed, Agree, Distinct, Deliveries, ToSet;
      PrefixSet(members, 0);
      NoDeliveries(users.Clients(), chan, who, text);
      ghost var mine := Existing(users.Footprint());
      texts := [];
      var i := 0;
      while i < names.Length
        invariant 0 <= i <= |members| && Distinct(texts) && users.Valid()
        invariant ToSet(texts) == Deliveries(users.Clients(), ToSet(members[..i]), chan, who, text)
      {
        PrefixSet(members, i);
        InPrefix(members, i);
        OneMoreName(users.list.contents, users.Names(), users.byAddr, members[i], ToSet(members[..i]), chan, who, text);
        var user := users.FindByName(names[i].value);
        if user != null {
          AppendDistinct(texts, Delivery(user.addr, chan, who, text));
          texts := texts + [Delivery(user.addr, chan, who, text)];
        }
        i := i + 1;
      }
      PrefixSet(members, i);
      DistinctBag(texts);
    }

    method Tell(c: Subscribers, chan: string, who: string, text: string) returns (reply: Reply)
      requires AtRest() && chan in channels.records && c == channels.records[chan]
      ensures AtRest() && chan in channels.subs && reply.Sent?
      ensures multiset(reply.texts) ==
        multiset(Deliveries(users.Clients(), channels.subs[chan], chan, who, text))
    {
      hide UserIndex.Valid, UserIndex.Footprint, ChannelTable.Valid, ChannelTable.Footprint, Deliveries, Distinct;
      ghost var mine := Existing(users.Footprint());
      ghost var others := Existing(channels.Footprint());
      channels.Record(chan);
      var names := c.members.ToArray();
      if names == null {
        return InternalError;
      }
      var texts := Recipients(names, c.members.contents, chan, who, text);
      reply := Sent(texts);
    }

    // What a logged-in client's say is answered.
    method Answer(who: string, chan: string, text: string) returns (reply: Reply)
      requires AtRest()
      ensures AtRest() && users.list.contents == old(users.list.contents) && channels.subs == old(channels.subs)
      ensures users.Footprint() == old(users.Footprint()) && channels.Footprint() == old(channels.Footprint())
      ensures
        if chan !in channels.subs then reply == NoSuchChannel
        else if who !in channels.subs[chan] then reply == NotAMember
        else reply.Sent? && multiset(reply.texts) ==
          multiset(Deliveries(users.Clients(), channels.subs[chan], chan, who, text))
    {
      hide UserIndex.Valid, UserIndex.Footprint, UserIndex.Clients, ChannelTable.Valid, ChannelTable.Footprint,
        Deliveries;
      ghost var mine := Existing(users.Footprint());
      ghost var others := Existing(channels.Footprint());
      channels.Record(chan);
      var c := channels.Find(chan);
      if c == null {
        return NoSuchChannel;
      }
      var index := MemberIndex(c, who);
      if index == -1 {
        return NotAMember;
      }
      reply := Tell(c, chan, who, text);
    }

    /** A text goes once to the current address of every member of the channel who
        is logged in, and to nobody else. */
    method HandleSay(addr: Addr, chan: string, text: string, now: nat) returns (reply: Reply)
      requires AtRest() && IsAddress(addr.ip, addr.port)
      modifies users.list.contents
      ensures AtRest() && users.list.contents == old(users.list.contents) && channels.subs == old(channels.subs)
      ensures forall u :: u in old(users.list.contents) ==>
        u.lastSeen == if u.addr == addr then now else old(u.lastSeen)
      ensures
        var clients := users.Clients();
        if !LoggedIn(clients, addr) then reply == NotLoggedIn
        else if chan !in channels.subs then reply == NoSuchChannel
        else if NameAt(clients, addr) !in channels.subs[chan] then reply == NotAMember
        else reply.Sent? && multiset(reply.texts) ==
          multiset(Deliveries(clients, channels.subs[chan], chan, NameAt(clients, addr), text))
      ensures users.Footprint() == old(users.Footprint()) && channels.Footprint() == old(channels.Footprint())
    {
      hide UserIndex.Valid, UserIndex.Footprint, ChannelTable.Valid, ChannelTable.Footprint, LoggedIn, NameAt,
        Deliveries;
      var user := Sender(addr, now);
      if user == null {
        return NotLoggedIn;
      }
      reply := Answer(user.name, chan, text);
    }

    method HandleWho(addr: Addr, chan: string, now: nat) returns (reply: Reply)
      requires AtRest() && IsAddress(addr.ip, addr.port)
      modifies users.list.contents
      ensures AtRest() && users.list.contents == old(users.list.contents) && channels.subs == old(channels.subs)
      ensures forall u :: u in old(users.list.contents) ==>
        u.lastSeen == if u.addr == addr then now else old(u.lastSeen)
      ensures chan !in channels.subs ==> reply == NoSuchChannel
      ensures chan in channels.subs ==> reply.Members? && multiset(reply.names) == multiset(channels.subs[chan])
      ensures users.Footprint() == old(users.Footprint()) && channels.Footprint() == old(channels.Footprint())
    {
      hide UserIndex.Valid, UserIndex.Footprint, ChannelTable.Valid, ChannelTable.Footprint, LoggedIn, NameAt;
      var user := Sender(addr, now);
      ghost var mine := Existing(users.Footprint());
      ghost var others := Existing(channels.Footprint());
      channels.Record(chan);
      var c := channels.Find(chan);
      if c == null {
        return NoSuchChannel;
      }
      var names := c.members.ToArray();
      if names == null {
        return InternalError;
      }
      var listed := Copied(names, c.members.contents);
      DistinctBag(listed);
      reply := Members(listed);
    }

    ghost function View(): Roster
      reads users.list, channels
    {
      Roster(users.Clients(), channels.subs)
    }

    /** Any one request, as its handler answers it. */
    method Handle(q: Request, now: nat) returns (reply: Reply)
      requires AtRest() && Servable(View(), q)
      modifies users.Footprint(), channels.Footprint(), users.list.contents
      ensures AtRest() && View() == Served(old(View()), q) && Answers(old(View()), q, reply)
      ensures forall o :: o in users.Footprint() ==> o in old(users.Footprint()) || fresh(o)
      ensures forall o :: o in channels.Footprint() ==> o in old(channels.Footprint()) || fresh(o)
      ensures forall u :: u in users.list.contents ==> u in old(users.list.contents) || fresh(u)
    {
      hide UserIndex.Valid, UserIndex.Footprint, ChannelTable.Valid, ChannelTable.Footprint, LoggedIn, NameAt,
        Joined, Left, P.Admit, Deliveries;
      NobodyLoggedIn();
      reply := Done;
      match q
      case Login(addr, name) =>
        var user := HandleLogin(name, addr, now);
        StaysOrNew(users.list.contents, old(users.list.contents), user);
      case Logout(addr) =>
        HandleLogout(addr);
        Stays(users.list.contents, old(users.list.contents));
      case JoinChannel(addr, chan) =>
        var answer, shown := HandleJoin(addr, chan, now);
        reply := answer;
      case LeaveChannel(addr, chan) =>
        var answer, shown := HandleLeave(addr, chan, now);
        reply := answer;
      case SayIn(addr, chan, text) => reply := HandleSay(addr, chan, text, now);
      case Who(addr, chan) => reply := HandleWho(addr, chan, now);
    }

    /** Over any run of requests the server is at rest after each, who is logged in and
        who is in which channel is as the requests say, and each reply is the answer
        to its request in the roster reached before it. */
    method Serve(qs: seq<Request>, now: nat) returns (replies: seq<Reply>)
      requires AtRest() && ServableAll(View(), qs)
      modifies users.Footprint(), channels.Footprint(), users.list.contents
      ensures AtRest() && View() == ServedAll(old(View()), qs)
      ensures |replies| == |qs|
      ensures forall i :: 0 <= i < |qs| ==>
        ServableAll(old(View()), qs[..i]) && Answers(ServedAll(old(View()), qs[..i]), qs[i], replies[i])
    {
      hide View, AtRest, Servable, Served, Answers, UserIndex.Footprint, ChannelTable.Footprint;
      ghost var r := View();
      replies := [];
      var i := 0;
      while i < |qs|
        invariant 0 <= i <= |qs| && AtRest() && ServableAll(r, qs[..i]) && View() == ServedAll(r, qs[..i])
        invariant |replies| == i
        invariant forall j :: 0 <= j < i ==>
          ServableAll(r, qs[..j]) && Answers(ServedAll(r, qs[..j]), qs[j], replies[j])
        invariant forall o :: o in users.Footprint() ==> o in old(users.Footprint()) || fresh(o)
        invariant forall o :: o in channels.Footprint() ==> o in old(channels.Footprint()) || fresh(o)
        invariant forall u :: u in users.list.contents ==> u in old(users.list.contents) || fresh(u)
      {
        ServedNext(r, qs, i);
        assert forall k :: 0 <= k < |users.list.contents| ==>
          users.list.contents[k] in old(users.list.contents) || fresh(users.list.contents[k]);
        var reply := Handle(qs[i], now);
        replies := replies + [reply];
        i := i + 1;
      }
      assert qs[..i] == qs;
    }

    static method Copied(names: array<Option<string>>, ghost members: seq<string>) returns (listed: seq<string>)
      requires names.Length == |members| && forall i :: 0 <= i < |members| ==> names[i] == Some(members[i])
      ensures listed == members
    {
      listed := [];
      var i := 0;
      while i < names.Length
        invariant 0 <= i <= |members| && listed == members[..i]
      {
        listed := listed + [names[i].value];
        i := i + 1;
      }
    }
  }

  /** The input on which a join or a leave fails: any request to a new server. The
      client is unknown, and the array of users to print is null. */
  method FirstRequest(addr: Addr) returns (s: State, listed: array?<Option<User>>)
    ensures fresh(s) && s.AtRest() && !LoggedIn(s.users.Clients(), addr) && listed == null
  {
    hide UserIndex.Valid, ChannelTable.Valid, UserIndex.Footprint, ChannelTable.Footprint;
    s := new State();
    ghost var mine := Existing(s.users.Footprint());
    ghost var others := Existing(s.channels.Footprint());
    s.NobodyLoggedIn();
    listed := s.users.ListUsers();
  }

  lemma StaysOrNew(list: seq<User>, was: seq<User>, user: User)
    requires ToSet(list) <= ToSet(was) + {user}
    ensures forall u :: u in list ==> u in was || u == user
  {
    assert forall u :: u in list ==> u in ToSet(list);
  }

  lemma Stays(list: seq<User>, was: seq<User>)
    requires ToSet(list) <= ToSet(was)
    ensures forall u :: u in list ==> u in was
  {
    assert forall u :: u in list ==> u in ToSet(list);
  }

  lemma NoDeliveries(clients: set<P.Client>, chan: string, who: string, text: string)
    ensures Deliveries(clients, {}, chan, who, text) == {} && ToSet<Delivery>([]) == {} && Distinct<Delivery>([])
  {
  }
}
