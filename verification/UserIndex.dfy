/**
 The chat server's users: a linked list and two hash tables over the same
 objects, one keyed by user name and one by the text of the address.
*/
module UserIndexes {
  import opened Addresses
  import opened AddressKeys
  import opened Hashing
  import opened HashMaps
  import opened LinkedLists
  import opened Lists
  import opened Users
  import P = Protocol

  // The table keyed by text is the map keyed by address.
  ghost predicate Keyed(table: map<string, User>, byAddr: map<Addr, User>) {
    && (forall a :: a in byAddr ==> IsAddress(a.ip, a.port) && KeyOf(a) in table && table[KeyOf(a)] == byAddr[a])
    && (forall k :: k in table ==> table[k].addr in byAddr && KeyOf(table[k].addr) == k)
  }

  function KeyOf(a: Addr): string
    requires a.port < 0x1_0000
  {
    Key(a.ip, a.port)
  }

  lemma KeyedLookup(table: map<string, User>, byAddr: map<Addr, User>, a: Addr)
    requires Keyed(table, byAddr) && IsAddress(a.ip, a.port)
    ensures KeyOf(a) in table <==> a in byAddr
    ensures a in byAddr ==> table[KeyOf(a)] == byAddr[a]
  {
    if KeyOf(a) in table {
      var b := table[KeyOf(a)].addr;
      KeyInjective(a.ip, a.port, b.ip, b.port);
    }
  }

  lemma KeyedRemove(table: map<string, User>, byAddr: map<Addr, User>, a: Addr)
    requires Keyed(table, byAddr) && IsAddress(a.ip, a.port)
    ensures Keyed(table - {KeyOf(a)}, byAddr - {a})
  {
    forall b | b in byAddr && KeyOf(b) == KeyOf(a) ensures a == b {
      KeyInjective(a.ip, a.port, b.ip, b.port);
    }
  }

  lemma KeyedAdd(table: map<string, User>, byAddr: map<Addr, User>, user: User)
    requires Keyed(table, byAddr) && IsAddress(user.addr.ip, user.addr.port) && user.addr !in byAddr
    ensures KeyOf(user.addr) !in table
    ensures Keyed(table[KeyOf(user.addr) := user], byAddr[user.addr := user])
  {
    KeyedLookup(table, byAddr, user.addr);
  }

  lemma NobodyFiled()
    ensures Keyed(map[], map[]) && Agree([], map[], map[])
  {
  }

  lemma AbsentErase(list: seq<User>, key: P.Client)
    requires key !in Keys(list)
    ensures Erase(list, IndexOf(Keys(list), key)) == list
  {
  }

  class UserIndex {
    const list: LinkedList<User>
    const byIp: HashMap<User>
    const byName: HashMap<User>
    ghost var byAddr: map<Addr, User>

    ghost function Footprint(): (objects: set<object>)
      reads this, list, byIp, byName
      ensures {this, list, byIp, byName} <= objects
    {
      {this} + list.Footprint() + byIp.Footprint() + byName.Footprint()
    }

    // The three containers are in order and share no object.
    ghost predicate Built()
      reads this, Footprint()
    {
      && list.Valid() && byIp.Valid() && byName.Valid()
      && byIp.Footprint() !! byName.Footprint()
      && byIp.initial == byName.initial == 32 && byIp.loadFactor == byName.loadFactor == 0.5
    }

    ghost function Names(): map<string, User>
      requires Built()
      reads this, Footprint()
    {
      byName.Model()
    }

    ghost function Texts(): map<string, User>
      requires Built()
      reads this, Footprint()
    {
      byIp.Model()
    }

    ghost predicate Valid()
      reads this, Footprint()
    {
      && Built() && Keyed(Texts(), byAddr)
      && Agree(list.contents, Names(), byAddr)
    }

    ghost function Clients(): set<P.Client>
      reads list
    {
      ToSet(Keys(list.contents))
    }

    constructor ()
      ensures Valid() && list.contents == [] && fresh(Footprint())
    {
      hide LinkedList.Valid, LinkedList.Footprint, HashMap.Valid, HashMap.Sound, HashMap.Model, HashMap.Footprint,
        Keyed, Agree;
      NobodyFiled();
      var users := new LinkedList<User>();
      ghost var objects := Existing(users.Footprint());
      var texts := new HashMap<User>(32, 0.5);
      ghost var others := Existing(texts.Footprint());
      var names := new HashMap<User>(32, 0.5);
      ghost var rest := Existing(names.Footprint());
      list, byIp, byName, byAddr := users, texts, names, map[];
    }

    // The position of the user with this name and address, or -1.
    method IndexOfUser(target: User) returns (index: int)
      requires list.Valid()
      ensures index ==
        if target.Key() in Keys(list.contents) then IndexOf(Keys(list.contents), target.Key()) else -1
    {
      hide LinkedList.Valid, IndexOf;
      index := 0;
      var n := list.Size();
      while index < n
        invariant 0 <= index <= n && target.Key() !in Keys(list.contents)[..index]
      {
        var r := list.Get(index);
        var u := r.value;
        if u.name == target.name && u.addr == target.addr {
          assert Keys(list.contents)[index] == target.Key();
          FirstAt(Keys(list.contents), target.Key(), index);
          return;
        }
        index := index + 1;
      }
      assert Keys(list.contents)[..index] == Keys(list.contents);
      index := -1;
    }

    // ------------------------------------------- one container at a time

    method TakeName(name: string) returns (r: Option<User>)
      requires Built()
      modifies Footprint()
      ensures Built() && (forall o :: o in Footprint() ==> o in old(Footprint()) || fresh(o))
      ensures Names() == old(Names()) - {name}
      ensures r == if name in old(Names()) then Some(old(Names())[name]) else None
      ensures list.contents == old(list.contents) && Texts() == old(Texts()) && byAddr == old(byAddr)
    {
      hide LinkedList.Valid, HashMap.Valid, HashMap.Sound, HashMap.Model;
      r := byName.Remove(name);
    }

    method TakeIp(addr: Addr) returns (r: Option<User>)
      requires Built() && Keyed(Texts(), byAddr) && IsAddress(addr.ip, addr.port)
      modifies Footprint()
      ensures Built() && (forall o :: o in Footprint() ==> o in old(Footprint()) || fresh(o))
      ensures Keyed(Texts(), byAddr) && byAddr == old(byAddr) - {addr}
      ensures r == if addr in old(byAddr) then Some(old(byAddr)[addr]) else None
      ensures list.contents == old(list.contents) && Names() == old(Names())
    {
      hide LinkedList.Valid, HashMap.Valid, HashMap.Sound, HashMap.Model, Keyed;
      KeyedLookup(Texts(), byAddr, addr);
      KeyedRemove(Texts(), byAddr, addr);
      r := byIp.Remove(KeyOf(addr));
      byAddr := byAddr - {addr};
    }

    method FileName(user: User)
      requires Built() && user.name !in Names()
      modifies Footprint()
      ensures Built() && (forall o :: o in Footprint() ==> o in old(Footprint()) || fresh(o))
      ensures Names() == old(Names())[user.name := user]
      ensures list.contents == old(list.contents) && Texts() == old(Texts()) && byAddr == old(byAddr)
    {
      hide LinkedList.Valid, HashMap.Valid, HashMap.Sound, HashMap.Model;
      var added := byName.PutUnique(user.name, user);
    }

    method FileIp(user: User)
      requires Built() && Keyed(Texts(), byAddr)
      requires IsAddress(user.addr.ip, user.addr.port) && user.addr !in byAddr
      modifies Footprint()
      ensures Built() && (forall o :: o in Footprint() ==> o in old(Footprint()) || fresh(o))
      ensures Keyed(Texts(), byAddr) && byAddr == old(byAddr)[user.addr := user]
      ensures list.contents == old(list.contents) && Names() == old(Names())
    {
      hide LinkedList.Valid, HashMap.Valid, HashMap.Sound, HashMap.Model, Keyed;
      KeyedAdd(Texts(), byAddr, user);
      var added := byIp.PutUnique(KeyOf(user.addr), user);
      byAddr := byAddr[user.addr := user];
    }

    // Takes the first equal user out of the list.
    method Unlist(user: User)
      requires Built()
      modifies Footprint()
      ensures Built() && (forall o :: o in Footprint() ==> o in old(Footprint()) || fresh(o))
      ensures list.contents == Erase(old(list.contents), IndexOf(Keys(old(list.contents)), user.Key()))
      ensures Texts() == old(Texts()) && Names() == old(Names()) && byAddr == old(byAddr)
    {
      hide LinkedList.Valid, HashMap.Valid, HashMap.Sound, HashMap.Model, IndexOf;
      var index := IndexOfUser(user);
      if index != -1 {
        var r := list.RemoveAt(index);
      } else {
        AbsentErase(list.contents, user.Key());
      }
    }

    // Adds the user to the list unless an equal one is there.
    method List(user: User)
      requires Built()
      modifies Footprint()
      ensures Built() && (forall o :: o in Footprint() ==> o in old(Footprint()) || fresh(o))
      ensures list.contents == old(list.contents) + if user.Key() in Keys(old(list.contents)) then [] else [user]
      ensures Names() == old(Names()) && Texts() == old(Texts()) && byAddr == old(byAddr)
    {
      hide LinkedList.Valid, HashMap.Valid, HashMap.Sound, HashMap.Model, IndexOf;
      var index := IndexOfUser(user);
      if index == -1 {
        Append(user);
      }
    }

    method Append(user: User)
      requires Built()
      modifies Footprint()
      ensures Built() && (forall o :: o in Footprint() ==> o in old(Footprint()) || fresh(o))
      ensures list.contents == old(list.contents) + [user]
      ensures Names() == old(Names()) && Texts() == old(Texts()) && byAddr == old(byAddr)
    {
      hide LinkedList.Valid, HashMap.Valid, HashMap.Sound, HashMap.Model;
      list.Add(user);
    }

    // ---------------------------------------------------- all three together

    method RemoveByName(name: string)
      requires Valid()
      modifies Footprint()
      ensures Valid() && (forall o :: o in Footprint() ==> o in old(Footprint()) || fresh(o))
      ensures Clients() == set x | x in old(Clients()) && x.name != name
      ensures ToSet(list.contents) == set u | u in ToSet(old(list.contents)) && u.name != name
    {
      hide Built, Names, Texts, Keyed, Agree, Footprint, Erase, IndexOf, ToSet;
      ghost var users, names, addrs, f0 := list.contents, Names(), byAddr, Footprint();
      Found(users, names, addrs, name, Addr("", 0));
      var got := TakeName(name);
      if got.Some? {
        var user := got.value;
        Forgotten(users, names, addrs, user);
        RealAddress(Texts(), addrs, users, names, user);
        var copy := TakeIp(user.addr);
        Unlist(user);
      } else {
        assert names - {name} == names;
        Everyone(users, name);
      }
    }

    method RemoveByIp(addr: Addr)
      requires Valid() && IsAddress(addr.ip, addr.port)
      modifies Footprint()
      ensures Valid() && (forall o :: o in Footprint() ==> o in old(Footprint()) || fresh(o))
      ensures Clients() == set x | x in old(Clients()) && x.addr != addr
      ensures ToSet(list.contents) == set u | u in ToSet(old(list.contents)) && u.addr != addr
    {
      hide Built, Names, Texts, Keyed, Agree, Footprint, Erase, IndexOf, ToSet;
      ghost var users, names, addrs := list.contents, Names(), byAddr;
      Found(users, names, addrs, "", addr);
      var got := TakeIp(addr);
      if got.Some? {
        var user := got.value;
        Forgotten(users, names, addrs, user);
        var copy := TakeName(user.name);
        Unlist(user);
      } else {
        assert addrs - {addr} == addrs;
        Everywhere(users, addr);
      }
    }

    method Evict(name: string, addr: Addr)
      requires Valid() && IsAddress(addr.ip, addr.port)
      modifies Footprint()
      ensures Valid() && (forall o :: o in Footprint() ==> o in old(Footprint()) || fresh(o))
      ensures Clients() == set x | x in old(Clients()) && x.name != name && x.addr != addr
      ensures ToSet(list.contents) == set u | u in ToSet(old(list.contents)) && u.name != name && u.addr != addr
    {
      hide Valid, Footprint, Clients, ToSet;
      RemoveByName(name);
      ghost var named, left := Clients(), ToSet(list.contents);
      RemoveByIp(addr);
      assert forall x :: x in Clients() <==> x in named && x.addr != addr;
      assert forall u :: u in ToSet(list.contents) <==> u in left && u.addr != addr;
    }

    // Adds a user whose name and address are free to all three containers.
    method Enrol(user: User)
      requires Valid() && IsAddress(user.addr.ip, user.addr.port)
      requires forall x :: x in Clients() ==> x.name != user.name && x.addr != user.addr
      modifies Footprint()
      ensures Valid() && (forall o :: o in Footprint() ==> o in old(Footprint()) || fresh(o))
      ensures list.contents == old(list.contents) + [user]
      ensures Clients() == old(Clients()) + {user.Key()}
    {
      hide Built, Names, Texts, Keyed, Agree, Footprint, ToSet, Distinct;
      Vacant(list.contents, Names(), byAddr, user);
      AppendAgrees(list.contents, Names(), byAddr, user);
      List(user);
      FileIp(user);
      FileName(user);
    }

    method EnrolNew(name: string, addr: Addr, now: nat) returns (user: User)
      requires Valid() && IsAddress(addr.ip, addr.port)
      requires forall x :: x in Clients() ==> x.name != name && x.addr != addr
      modifies Footprint()
      ensures Valid() && (forall o :: o in Footprint() ==> o in old(Footprint()) || fresh(o))
      ensures fresh(user) && user.Key() == P.Client(name, addr) && user.lastSeen == now
      ensures list.contents == old(list.contents) + [user]
      ensures Clients() == old(Clients()) + {P.Client(name, addr)}
    {
      hide Valid, Footprint, Clients;
      ghost var mine := Existing(Footprint());
      user := new User(name, addr, now);
      Enrol(user);
    }

    /** Evicts exactly the holders of the name and of the address, and then adds
        the new user. */
    method AddUser(name: string, addr: Addr, now: nat) returns (user: User)
      requires Valid() && IsAddress(addr.ip, addr.port)
      modifies Footprint()
      ensures Valid() && (forall o :: o in Footprint() ==> o in old(Footprint()) || fresh(o))
      ensures Clients() == P.Admit(old(Clients()), P.Client(name, addr))
      ensures fresh(user) && user.Key() == P.Client(name, addr) && user.lastSeen == now
      ensures ToSet(list.contents) ==
        (set u | u in ToSet(old(list.contents)) && u.name != name && u.addr != addr) + {user}
    {
      hide Valid, Footprint, Clients, ToSet;
      Evict(name, addr);
      ghost var left := list.contents;
      user := EnrolNew(name, addr, now);
      OneMoreUser(left, user);
    }

    method FindByIp(addr: Addr) returns (user: User?)
      requires Valid() && IsAddress(addr.ip, addr.port)
      ensures Valid() && Names() == old(Names())
      ensures user == if addr in byAddr then byAddr[addr] else null
    {
      hide LinkedList.Valid, HashMap.Valid, HashMap.Sound, HashMap.Model, Keyed, Agree;
      ghost var mine := Existing(Footprint());
      KeyedLookup(Texts(), byAddr, addr);
      var r := byIp.Get(KeyOf(addr));
      user := if r.Some? then r.value else null;
    }

    method FindByName(name: string) returns (user: User?)
      requires Valid()
      ensures Valid() && Names() == old(Names())
      ensures user == if name in Names() then Names()[name] else null
    {
      hide LinkedList.Valid, HashMap.Valid, HashMap.Sound, HashMap.Model, Keyed, Agree;
      ghost var mine := Existing(Footprint());
      var r := byName.Get(name);
      user := if r.Some? then r.value else null;
    }

    // Removing a user by its name removes that user only.
    method RemoveIdle(user: User)
      requires Valid() && user in ToSet(list.contents)
      modifies Footprint()
      ensures Valid() && (forall o :: o in Footprint() ==> o in old(Footprint()) || fresh(o))
      ensures ToSet(list.contents) == ToSet(old(list.contents)) - {user}
    {
      hide Built, Names, Texts, Keyed, Agree, Footprint, IndexOf, Erase;
      Forgotten(list.contents, Names(), byAddr, user);
      RemoveByName(user.name);
    }

    /** One pass of the inactivity check: it walks a copy of the list while
        removing, every user it looks at is still logged in, and exactly the users
        idle for no longer than the limit stay. */
    method RemoveInactive(now: nat, limit: nat)
      requires Valid() && list.contents != []
      modifies Footprint()
      ensures Valid() && (forall o :: o in Footprint() ==> o in old(Footprint()) || fresh(o))
      ensures ToSet(list.contents) == set u | u in old(list.contents) && now - u.lastSeen <= limit
    {
      hide Valid, Footprint, Distinct, ToSet;
      ghost var users := list.contents;
      AllDifferent();
      UsersApart();
      PrefixSet(users, 0);
      ghost var stale := set u | u in users && now - u.lastSeen > limit;
      var tmp := ListUsers();
      var i := 0;
      while i < tmp.Length
        invariant 0 <= i <= tmp.Length == |users| && Valid() && tmp !in Footprint()
        invariant forall o :: o in Footprint() ==> o in old(Footprint()) || fresh(o)
        invariant forall k :: 0 <= k < |users| ==> tmp[k].Some? && tmp[k].value == users[k]
        invariant ToSet(list.contents) == ToSet(users) - stale * ToSet(users[..i])
      {
        PrefixSet(users, i);
        InPrefix(users, i);
        var user := tmp[i].value;
        assert user in ToSet(list.contents) && user in users;
        if now - user.lastSeen > limit {
          RemoveIdle(user);
        }
        i := i + 1;
      }
      PrefixSet(users, i);
      Stayed(users, list.contents, stale);
    }

    /** However many requests were served, while a table has not reached the maximum
        capacity its chains hold fewer than four entries on average. */
    lemma TablesSpread()
      requires Valid()
      ensures byIp.buckets.Length < MAX_CAPACITY ==> 32 * byIp.size <= 117 * byIp.buckets.Length
      ensures byName.buckets.Length < MAX_CAPACITY ==> 32 * byName.size <= 117 * byName.buckets.Length
    {
      hide LinkedList.Valid, LinkedList.Footprint, HashMap.Sound, HashMap.Model, HashMap.Footprint, Keyed, Agree,
        Reached;
      if byIp.buckets.Length < MAX_CAPACITY {
        ChatTableBound(byIp.ops, byIp.Meter());
      }
      if byName.buckets.Length < MAX_CAPACITY {
        ChatTableBound(byName.ops, byName.Meter());
      }
    }

    // No user is one of the containers' own objects.
    lemma UsersApart()
      requires Valid()
      ensures forall u: User :: u !in Footprint()
    {
      hide LinkedList.Valid, HashMap.Valid, HashMap.Sound, HashMap.Model, Keyed, Agree;
    }

    lemma AllDifferent()
      requires Valid()
      ensures Distinct(list.contents)
    {
      AgreeKeys(list.contents, Names(), byAddr);
    }

    // The users in an array, or null when there are none; then the caller's count
    // is not set either.
    method ListUsers() returns (tmp: array?<Option<User>>)
      requires Valid()
      ensures Valid() && (tmp == null <==> list.contents == [])
      ensures tmp != null ==> fresh(tmp) && tmp.Length == |list.contents| && tmp !in Footprint()
      ensures tmp != null ==> forall k :: 0 <= k < |list.contents| ==> tmp[k] == Some(list.contents[k])
    {
      hide LinkedList.Valid, HashMap.Valid, HashMap.Sound, HashMap.Model, Keyed, Agree;
      tmp := list.ToArray();
    }

    // What is printed when an unknown client asks for something.
    method Shown() returns (shown: seq<P.Client>)
      requires Valid() && list.contents != []
      ensures Valid() && shown == Keys(list.contents)
    {
      hide LinkedList.Valid, HashMap.Valid, HashMap.Sound, HashMap.Model, Keyed, Agree;
      ghost var mine := Existing(Footprint());
      var users := ListUsers();
      shown := [];
      var i := 0;
      while i < users.Length
        invariant 0 <= i <= users.Length == |list.contents| && shown == Keys(list.contents)[..i]
      {
        shown := shown + [users[i].value.Key()];
        i := i + 1;
      }
    }
  }

  lemma Stayed(users: seq<User>, list: seq<User>, stale: set<User>)
    requires ToSet(list) == ToSet(users) - stale * ToSet(users)
    ensures ToSet(list) == set u | u in users && u !in stale
  {
  }

  lemma OneMoreUser(list: seq<User>, user: User)
    ensures ToSet(list + [user]) == ToSet(list) + {user}
  {
  }

  lemma Vacant(list: seq<User>, byName: map<string, User>, byAddr: map<Addr, User>, user: User)
    requires Agree(list, byName, byAddr)
    requires forall x :: x in ToSet(Keys(list)) ==> x.name != user.name && x.addr != user.addr
    ensures user.name !in byName && user.addr !in byAddr && user.Key() !in Keys(list)
  {
    Found(list, byName, byAddr, user.name, user.addr);
    KeyMembers(list);
    assert user.Key() !in ToSet(Keys(list));
  }

  lemma Everywhere(list: seq<User>, addr: Addr)
    requires forall u :: u in list ==> u.addr != addr
    ensures ToSet(list) == set u | u in ToSet(list) && u.addr != addr
    ensures ToSet(Keys(list)) == set x | x in ToSet(Keys(list)) && x.addr != addr
  {
    KeyMembers(list);
  }

  // The addresses of filed users are real addresses.
  lemma RealAddress(table: map<string, User>, byAddr: map<Addr, User>, list: seq<User>, byName: map<string, User>,
                    user: User)
    requires Keyed(table, byAddr) && Agree(list, byName, byAddr) && user in list
    ensures IsAddress(user.addr.ip, user.addr.port)
  {
    assert byAddr[user.addr] == user;
  }

  lemma Everyone(list: seq<User>, name: string)
    requires forall u :: u in list ==> u.name != name
    ensures ToSet(list) == set u | u in ToSet(list) && u.name != name
    ensures ToSet(Keys(list)) == set x | x in ToSet(Keys(list)) && x.name != name
  {
    KeyMembers(list);
  }
}
