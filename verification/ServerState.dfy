/**
 The state of one distributed server, as the code keeps it: vectors and hash
 maps that repeat each other.

 Users and channels are shared through pointers, so they are objects. The user
 and server sets are members by value of a channel and of the server state, so
 they are values, held in fields that the methods update.
*/
module ServerState {
  import opened Addresses
  import opened Lists
  import opened Users
  import P = Protocol

  // `unordered_map::insert` leaves an existing entry alone.
  function Insert<K, V>(m: map<K, V>, k: K, v: V): map<K, V> {
    if k in m then m else m[k := v]
  }

  // ------------------------------------------------------------- user sets

  datatype UserSet = UserSet(list: seq<User>, byName: map<string, User>, byAddr: map<Addr, User>) {

    ghost predicate Valid() {
      Agree(list, byName, byAddr)
    }

    ghost function Clients(): set<P.Client> {
      ToSet(Keys(list))
    }

    // A member, or somebody whose name and address are both unknown here.
    ghost predicate Removable(user: User) {
      user.Key() in Clients() || (user.name !in byName && user.addr !in byAddr)
    }

    // The maps know exactly the names and addresses of the members.
    lemma RemovableMeans(user: User)
      requires Valid()
      ensures Removable(user) <==> P.Removable(Clients(), user.Key())
    {
      GetMember(user.name, user.addr);
    }

    method RemoveUser(user: User?) returns (r: UserSet)
      requires Valid()
      ensures user == null ==> r == this
      ensures user != null ==>
        && r.list == Erase(list, IndexOf(Keys(list), user.Key()))
        && r.byName == byName - {user.name} && r.byAddr == byAddr - {user.addr}
        && (r.Valid() <==> Removable(user))
      ensures forall u :: u in r.list <==> u in list && (user != null ==> u.Key() != user.Key())
      ensures r.Clients() == Clients() - if user != null then {user.Key()} else {}
    {
      hide Agree, Distinct, Erase, IndexOf;
      if user == null {
        return this;
      }
      r := UserSet(list, byName - {user.name}, byAddr - {user.addr});
      var rest := SearchAndErase(list, user);
      r := r.(list := rest);
      RemoveAgreesIff(list, byName, byAddr, user);
      AgreeKeys(list, byName, byAddr);
      EraseUsers(list, user.Key());
    }

    static method SearchAndErase(list: seq<User>, user: User) returns (r: seq<User>)
      ensures r == Erase(list, IndexOf(Keys(list), user.Key()))
    {
      r := list;
      var i := 0;
      while i < |r|
        invariant 0 <= i <= |r| && r == list && user.Key() !in Keys(list)[..i]
      {
        if r[i].name == user.name && r[i].addr == user.addr {
          assert Keys(list)[i] == user.Key();
          return r[..i] + r[i + 1..];
        }
        i := i + 1;
      }
    }

    function GetByName(name: string): (u: User?) {
      if name in byName then byName[name] else null
    }

    function GetByAddr(addr: Addr): (u: User?) {
      if addr in byAddr then byAddr[addr] else null
    }

    lemma GetMember(name: string, addr: Addr)
      requires Valid()
      ensures GetByName(name) == null <==> forall u :: u in list ==> u.name != name
      ensures GetByAddr(addr) == null <==> forall u :: u in list ==> u.addr != addr
      ensures GetByName(name) != null ==> GetByName(name) in list && GetByName(name).name == name
      ensures GetByAddr(addr) != null ==> GetByAddr(addr) in list && GetByAddr(addr).addr == addr
      ensures GetByName(name) == null <==> forall x :: x in Clients() ==> x.name != name
      ensures GetByAddr(addr) == null <==> forall x :: x in Clients() ==> x.addr != addr
    {
      KeyMembers(list);
      if GetByName(name) != null {
        assert GetByName(name).Key() in Clients();
      }
      if GetByAddr(addr) != null {
        assert GetByAddr(addr).Key() in Clients();
      }
    }

    method RemoveByName(name: string) returns (r: UserSet)
      requires Valid()
      ensures r.Valid() && name !in r.byName && r.byAddr.Keys <= byAddr.Keys
      ensures forall u :: u in r.list <==> u in list && u.name != name
      ensures r.Clients() == set x | x in Clients() && x.name != name
    {
      GetMember(name, Addr("", 0));
      var user := GetByName(name);
      if user != null {
        KeyMembers(list);
        WithoutName(list, byName, byAddr, user);
      }
      r := RemoveUser(user);
    }

    method RemoveByAddr(addr: Addr) returns (r: UserSet)
      requires Valid()
      ensures r.Valid() && addr !in r.byAddr && r.byName.Keys <= byName.Keys
      ensures forall u :: u in r.list <==> u in list && u.addr != addr
      ensures r.Clients() == set x | x in Clients() && x.addr != addr
    {
      GetMember("", addr);
      var user := GetByAddr(addr);
      if user != null {
        KeyMembers(list);
        WithoutName(list, byName, byAddr, user);
      }
      r := RemoveUser(user);
    }

    // Evicts the holders of the name and of the address.
    method AddUser(user: User) returns (r: UserSet)
      requires Valid()
      ensures r.Valid()
      ensures forall u :: u in r.list <==> u == user || (u in list && u.name != user.name && u.addr != user.addr)
      ensures r.Clients() == P.Admit(Clients(), user.Key())
    {
      r := RemoveByName(user.name);
      r := r.RemoveByAddr(user.addr);
      AppendAgrees(r.list, r.byName, r.byAddr, user);
      r := UserSet(r.list + [user], Insert(r.byName, user.name, user), Insert(r.byAddr, user.addr, user));
    }
  }

  const NO_USERS: UserSet := UserSet([], map[], map[])

  // ----------------------------------------------------------- server sets

  // A `Server` is immutable and is its address.
  datatype ServerSet = ServerSet(list: seq<Addr>, index: map<Addr, Addr>) {

    ghost predicate Valid() {
      && Distinct(list) && index.Keys == ToSet(list)
      && (forall a :: a in index ==> index[a] == a)
    }

    // The linear scan over the vector finds what the map finds.
    method GetByScan(addr: Addr) returns (found: bool)
      requires Valid()
      ensures found <==> addr in index
    {
      var i := 0;
      while i < |list|
        invariant 0 <= i <= |list| && addr !in list[..i]
      {
        if list[i] == addr {
          return true;
        }
        i := i + 1;
      }
      found := false;
    }

    method RemoveServer(addr: Addr) returns (r: ServerSet)
      requires Valid()
      ensures r.Valid() && r.list == Erase(list, IndexOf(list, addr)) && r.index == index - {addr}
    {
      r := this.(index := index - {addr});
      var i := 0;
      while i < |r.list|
        invariant 0 <= i <= |r.list| && addr !in list[..i] && r == this.(index := index - {addr})
      {
        if list[i] == addr {
          r := r.(list := list[..i] + list[i + 1..]);
          break;
        }
        i := i + 1;
      }
      EraseDistinct(list, IndexOf(list, addr));
    }

    method RemoveScanned(addr: Addr) returns (r: ServerSet)
      requires Valid()
      ensures r.Valid() && r.list == Erase(list, IndexOf(list, addr)) && r.index == index - {addr}
    {
      r := this;
      var known := GetByScan(addr);
      if known {
        r := RemoveServer(addr);
      }
    }

    method RemoveIndexed(addr: Addr) returns (r: ServerSet)
      requires Valid()
      ensures r.Valid() && r.list == Erase(list, IndexOf(list, addr)) && r.index == index - {addr}
    {
      r := this;
      if addr in index {
        r := RemoveServer(addr);
      }
    }

    method AddServer(addr: Addr) returns (r: ServerSet)
      requires Valid()
      ensures r.Valid() && r.list == Erase(list, IndexOf(list, addr)) + [addr] && r.index == index[addr := addr]
    {
      hide Distinct, ToSet, IndexOf, Erase;
      r := RemoveScanned(addr);
      AppendValid(r, addr);
      r := r.RemoveIndexed(addr);
      r := ServerSet(r.list + [addr], Insert(r.index, addr, addr));
    }

    static lemma AppendValid(s: ServerSet, addr: Addr)
      requires s.Valid() && addr !in s.index
      ensures ServerSet(s.list + [addr], Insert(s.index, addr, addr)).Valid()
      ensures Insert(s.index, addr, addr) == s.index[addr := addr]
      ensures Erase(s.list, IndexOf(s.list, addr)) == s.list && s.index - {addr} == s.index
    {
      assert addr !in ToSet(s.list);
    }
  }

  const NO_SERVERS: ServerSet := ServerSet([], map[])

  // -------------------------------------------------------------- channels

  const JOIN_TIMEOUT: nat := 120

  const USER_TIMEOUT_LIMIT: nat := 120

  // Unsigned 32-bit subtraction of two timestamps.
  function Elapsed(now: nat, earlier: nat): nat {
    (now - earlier) % 0x1_0000_0000
  }

  /** On 32-bit clocks this is the time that has passed, also when the clock has
      come round in between. */
  lemma ElapsedMeans(now: nat, earlier: nat)
    requires now < 0x1_0000_0000 && earlier < 0x1_0000_0000
    ensures earlier <= now ==> Elapsed(now, earlier) == now - earlier
    ensures earlier > now ==> Elapsed(now, earlier) == now + 0x1_0000_0000 - earlier
  {
  }

  lemma InTimeMeans(lastSeen: map<Addr, nat>, now: nat)
    requires now < 0x1_0000_0000
    ensures InTime(lastSeen, now).Keys <= lastSeen.Keys
    ensures forall a :: a in InTime(lastSeen, now) ==> InTime(lastSeen, now)[a] == lastSeen[a]
    ensures forall a :: a in lastSeen && lastSeen[a] <= now ==>
      (a in InTime(lastSeen, now) <==> now - lastSeen[a] <= 120)
    ensures forall a :: a in lastSeen && now < lastSeen[a] < 0x1_0000_0000 ==>
      (a in InTime(lastSeen, now) <==> now + 0x1_0000_0000 - lastSeen[a] <= 120)
  {
    forall a | a in lastSeen && lastSeen[a] < 0x1_0000_0000
      ensures Elapsed(now, lastSeen[a]) ==
        if lastSeen[a] <= now then now - lastSeen[a] else now + 0x1_0000_0000 - lastSeen[a]
    {
      ElapsedMeans(now, lastSeen[a]);
    }
  }

  // The servers heard from recently enough, with their timestamps.
  function InTime(lastSeen: map<Addr, nat>, now: nat): map<Addr, nat> {
    map a | a in lastSeen && Elapsed(now, lastSeen[a]) <= JOIN_TIMEOUT :: lastSeen[a]
  }

  class Channel {
    const name: string
    var uset: UserSet
    var sset: ServerSet
    var seen: set<nat>
    var lastSeen: map<Addr, nat>

    // Exactly the listed servers have a timestamp.
    ghost predicate Valid()
      reads this
    {
      uset.Valid() && sset.Valid() && lastSeen.Keys == sset.index.Keys
    }

    ghost function View(): P.Channel
      reads this
    {
      P.Channel(uset.Clients(), sset.index.Keys, seen)
    }

    constructor (name: string)
      ensures Valid() && this.name == name
      ensures View() == P.Channel({}, {}, {}) && uset.list == [] && lastSeen == map[]
    {
      this.name := name;
      uset, sset, seen, lastSeen := NO_USERS, NO_SERVERS, {}, map[];
    }

    method AddUser(user: User)
      requires Valid()
      modifies this`uset
      ensures Valid() && View() == old(View()).(users := P.Admit(old(View()).users, user.Key()))
      ensures forall u :: u in uset.list ==> u == user || u in old(uset).list
    {
      hide Agree, Distinct, ToSet;
      uset := uset.RemoveByName(user.name);
      uset := uset.RemoveByAddr(user.addr);
      uset := uset.AddUser(user);
    }

    method RemoveUser(user: User)
      requires Valid() && uset.Removable(user)
      modifies this`uset
      ensures Valid() && View() == old(View()).(users := old(View()).users - {user.Key()})
      ensures forall u :: u in uset.list <==> u in old(uset).list && u.Key() != user.Key()
    {
      uset := uset.RemoveUser(user);
    }

    method RemoveServer(addr: Addr)
      requires Valid()
      modifies this`sset, this`lastSeen
      ensures Valid() && View() == old(View()).(servers := old(View()).servers - {addr})
      ensures lastSeen == old(lastSeen) - {addr}
    {
      sset := sset.RemoveIndexed(addr);
      lastSeen := lastSeen - {addr};
    }

    method AddServer(addr: Addr, now: nat)
      requires Valid()
      modifies this`sset, this`lastSeen
      ensures Valid() && View() == old(View()).(servers := old(View()).servers + {addr})
      ensures lastSeen == old(lastSeen)[addr := now]
    {
      hide Agree, Distinct, ToSet;
      RemoveServer(addr);
      sset := sset.AddServer(addr);
      lastSeen := Insert(lastSeen, addr, now);
      assert lastSeen == old(lastSeen)[addr := now];
      assert sset.index.Keys == old(sset).index.Keys + {addr};
    }

    method ServerHeartbeat(addr: Addr, now: nat)
      requires Valid()
      modifies this`lastSeen
      ensures Valid() && View() == old(View())
      ensures lastSeen == if addr in old(lastSeen) then old(lastSeen)[addr := now] else old(lastSeen)
    {
      if addr in sset.index {
        lastSeen := lastSeen[addr := now];
      }
    }

    predicate ShouldPrune()
      reads this
    {
      |uset.list| == 0 && |sset.list| <= 1
    }

    lemma ShouldPruneIffPrunable()
      requires Valid()
      ensures ShouldPrune() <==> P.Prunable(View())
    {
      if |uset.list| > 0 {
        assert Keys(uset.list)[0] in uset.Clients();
      }
      DistinctSize(sset.list);
    }

    // The servers that have not sent a join for too long; every listed server
    // has a timestamp to look up.
    method DeadServers(now: nat, timeout: nat) returns (dead: seq<Addr>)
      requires Valid()
      ensures forall a :: a in dead <==> a in lastSeen && Elapsed(now, lastSeen[a]) > timeout
      ensures forall a :: a in lastSeen && lastSeen[a] <= now < 0x1_0000_0000 ==>
        (a in dead <==> now - lastSeen[a] > timeout)
    {
      dead := [];
      var i := 0;
      while i < |sset.list|
        invariant 0 <= i <= |sset.list|
        invariant forall a :: a in dead <==> a in sset.list[..i] && a in lastSeen && Elapsed(now, lastSeen[a]) > timeout
      {
        var s := sset.list[i];
        PrefixSet(sset.list, i);
        assert s in ToSet(sset.list);
        if Elapsed(now, lastSeen[s]) > timeout {
          dead := dead + [s];
        }
        i := i + 1;
      }
      assert sset.list[..i] == sset.list;
      assert forall a :: a in lastSeen ==> a in ToSet(sset.list);
      forall a | a in lastSeen && lastSeen[a] <= now < 0x1_0000_0000
        ensures Elapsed(now, lastSeen[a]) == now - lastSeen[a]
      {
        ElapsedMeans(now, lastSeen[a]);
      }
    }

    // One pass of the timeout loop removes exactly the timed-out servers.
    method SweepServers(now: nat)
      requires Valid()
      modifies this`sset, this`lastSeen
      ensures Valid()
      ensures lastSeen == InTime(old(lastSeen), now)
    {
      hide Agree, Distinct;
      var dead := DeadServers(now, JOIN_TIMEOUT);
      var i := 0;
      while i < |dead|
        invariant 0 <= i <= |dead| && Valid()
        invariant lastSeen == old(lastSeen) - ToSet(dead[..i])
      {
        PrefixSet(dead, i);
        RemoveServer(dead[i]);
        i := i + 1;
      }
      PrefixSet(dead, i);
    }
  }

  // ---------------------------------------------------------- channel sets

  ghost predicate Indexed(list: seq<Channel>, byName: map<string, Channel>) {
    && (forall i, j :: 0 <= i < j < |list| ==> list[i].name != list[j].name)
    && (forall c :: c in list ==> c.name in byName && byName[c.name] == c)
    && (forall n :: n in byName ==> byName[n] in list && byName[n].name == n)
  }

  datatype ChannelSet = ChannelSet(list: seq<Channel>, byName: map<string, Channel>) {

    ghost predicate Valid() {
      Indexed(list, byName)
    }

    method AddChannel(channel: Channel) returns (r: ChannelSet)
      requires Valid()
      ensures r.Valid() && r.byName == Insert(byName, channel.name, channel)
      ensures r.list == if channel.name in byName then list else list + [channel]
    {
      if channel.name in byName {
        return this;
      }
      r := ChannelSet(list + [channel], Insert(byName, channel.name, channel));
    }

    method RemoveChannel(channel: Channel) returns (r: ChannelSet)
      requires Valid()
      ensures r.Valid() && r.byName == byName - {channel.name}
      ensures forall c :: c in r.list <==> c in list && c.name != channel.name
    {
      r := this.(byName := byName - {channel.name});
      var i := 0;
      while i < |r.list|
        invariant 0 <= i <= |r.list| && r == this.(byName := byName - {channel.name})
        invariant forall k :: 0 <= k < i ==> list[k].name != channel.name
      {
        if list[i].name == channel.name {
          EraseIndexed(list, byName, i);
          return r.(list := list[..i] + list[i + 1..]);
        }
        i := i + 1;
      }
    }
  }

  const NO_CHANNELS: ChannelSet := ChannelSet([], map[])

  lemma EraseIndexed(list: seq<Channel>, byName: map<string, Channel>, i: nat)
    requires Indexed(list, byName) && i < |list|
    ensures Indexed(Erase(list, i), byName - {list[i].name})
    ensures forall c :: c in Erase(list, i) <==> c in list && c.name != list[i].name
  {
    var list', byName' := Erase(list, i), byName - {list[i].name};
    EraseDistinct(list, i);
    forall c | c in list ensures c == list[i] <==> c.name == list[i].name {
      assert byName[c.name] == c;
    }
    forall k, l | 0 <= k < l < |list'| ensures list'[k].name != list'[l].name {
      EraseAt(list, i, k);
      EraseAt(list, i, l);
    }
    assert forall c :: c in list' ==> c.name in byName' && byName'[c.name] == c;
    assert forall n :: n in byName' ==> byName'[n] in list' && byName'[n].name == n;
  }
}
