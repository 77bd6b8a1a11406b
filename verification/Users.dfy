/**
 Users, and the vector and two hash maps in which both servers keep them: by
 name, and by the address they log in from.
*/
module Users {
  import opened Addresses
  import opened Lists
  import P = Protocol

  class User {
    const name: string
    const addr: Addr
    var lastSeen: nat

    constructor (name: string, addr: Addr, now: nat)
      ensures this.name == name && this.addr == addr && lastSeen == now
    {
      this.name, this.addr, this.lastSeen := name, addr, now;
    }

    function Key(): P.Client {
      P.Client(name, addr)
    }
  }

  function Keys(users: seq<User>): (ks: seq<P.Client>)
    ensures |ks| == |users|
    ensures forall i :: 0 <= i < |users| ==> ks[i] == users[i].Key()
  {
    seq(|users|, i requires 0 <= i < |users| => users[i].Key())
  }

  ghost predicate Separate(list: seq<User>) {
    forall i, j :: 0 <= i < j < |list| ==> list[i].name != list[j].name && list[i].addr != list[j].addr
  }

  // The vector and the two maps hold the same users, no two with the same name
  // or address.
  ghost predicate Agree(list: seq<User>, byName: map<string, User>, byAddr: map<Addr, User>) {
    && Separate(list)
    && (forall u :: u in list ==> u.name in byName && byName[u.name] == u && u.addr in byAddr && byAddr[u.addr] == u)
    && (forall n :: n in byName ==> byName[n] in list && byName[n].name == n)
    && (forall a :: a in byAddr ==> byAddr[a] in list && byAddr[a].addr == a)
  }

  lemma AgreeKeys(list: seq<User>, byName: map<string, User>, byAddr: map<Addr, User>)
    requires Agree(list, byName, byAddr)
    ensures Distinct(list) && Distinct(Keys(list))
  {
  }

  /** Erasing a user by pointer keeps the three structures in agreement exactly
      when it is a member, or when neither its name nor its address is in use. */
  lemma RemoveAgreesIff(list: seq<User>, byName: map<string, User>, byAddr: map<Addr, User>, user: User)
    requires Agree(list, byName, byAddr)
    ensures
      Agree(Erase(list, IndexOf(Keys(list), user.Key())), byName - {user.name}, byAddr - {user.addr}) <==>
      (user.Key() in Keys(list) || (user.name !in byName && user.addr !in byAddr))
  {
    var i := IndexOf(Keys(list), user.Key());
    if i < |list| {
      EraseAgrees(list, byName, byAddr, i);
      assert list[i].Key() == user.Key();
    } else {
      assert Erase(list, i) == list;
      if user.name in byName {
        assert byName[user.name] in list;
      }
      if user.addr in byAddr {
        assert byAddr[user.addr] in list;
      }
      if user.name !in byName && user.addr !in byAddr {
        assert byName - {user.name} == byName && byAddr - {user.addr} == byAddr;
      }
    }
  }

  lemma EraseAgrees(list: seq<User>, byName: map<string, User>, byAddr: map<Addr, User>, i: nat)
    requires Agree(list, byName, byAddr) && i < |list|
    ensures Agree(Erase(list, i), byName - {list[i].name}, byAddr - {list[i].addr})
  {
    AgreeKeys(list, byName, byAddr);
    EraseSeparate(list, i);
    EraseDistinct(list, i);
    AgreeWithout(list, byName, byAddr, Erase(list, i), list[i]);
  }

  lemma EraseSeparate(list: seq<User>, i: nat)
    requires Separate(list) && i < |list|
    ensures Separate(Erase(list, i))
  {
    var list' := Erase(list, i);
    forall k, l | 0 <= k < l < |list'| ensures list'[k].name != list'[l].name && list'[k].addr != list'[l].addr {
      EraseAt(list, i, k);
      EraseAt(list, i, l);
    }
  }

  lemma AgreeWithout(list: seq<User>, byName: map<string, User>, byAddr: map<Addr, User>, list': seq<User>, gone: User)
    requires Agree(list, byName, byAddr) && gone in list && Separate(list')
    requires forall u :: u in list' <==> u in list && u != gone
    ensures Agree(list', byName - {gone.name}, byAddr - {gone.addr})
  {
    hide Separate;
    forall u | u in list' ensures u.name != gone.name && u.addr != gone.addr {
      assert byName[u.name] == u && byAddr[u.addr] == u;
    }
  }

  lemma KeyHolder(list: seq<User>, key: P.Client)
    requires Distinct(Keys(list))
    ensures Distinct(list)
    ensures
      var i := IndexOf(Keys(list), key);
      forall u :: u in list ==> (u.Key() == key <==> i < |list| && u == list[i])
  {
    var i := IndexOf(Keys(list), key);
    forall u | u in list ensures u.Key() == key <==> i < |list| && u == list[i] {
      var k :| 0 <= k < |list| && list[k] == u;
      assert Keys(list)[k] == u.Key();
    }
    forall k, l | 0 <= k < l < |list| ensures list[k] != list[l] {
      assert Keys(list)[k] != Keys(list)[l];
    }
  }

  lemma EraseUsers(list: seq<User>, key: P.Client)
    requires Distinct(Keys(list))
    ensures
      var list' := Erase(list, IndexOf(Keys(list), key));
      && (forall u :: u in list' <==> u in list && u.Key() != key)
      && ToSet(Keys(list')) == ToSet(Keys(list)) - {key}
  {
    hide Distinct, IndexOf;
    var i := IndexOf(Keys(list), key);
    KeyHolder(list, key);
    assert Keys(Erase(list, i)) == Erase(Keys(list), i);
    EraseDistinct(list, i);
    EraseDistinct(Keys(list), i);
  }

  // Taking out the only holder of a name, or of an address.
  lemma WithoutName(list: seq<User>, byName: map<string, User>, byAddr: map<Addr, User>, user: User)
    requires Agree(list, byName, byAddr) && user in list
    ensures forall u :: u in list ==> (u.Key() != user.Key() <==> u.name != user.name)
    ensures forall u :: u in list ==> (u.Key() != user.Key() <==> u.addr != user.addr)
    ensures ToSet(Keys(list)) - {user.Key()} == set x | x in ToSet(Keys(list)) && x.name != user.name
    ensures ToSet(Keys(list)) - {user.Key()} == set x | x in ToSet(Keys(list)) && x.addr != user.addr
  {
    forall u | u in list ensures u.name == user.name ==> u == user {
      assert byName[u.name] == u && byName[user.name] == user;
    }
    forall u | u in list ensures u.addr == user.addr ==> u == user {
      assert byAddr[u.addr] == u && byAddr[user.addr] == user;
    }
    forall x | x in ToSet(Keys(list)) ensures x == user.Key() <==> x.name == user.name
      ensures x == user.Key() <==> x.addr == user.addr {
      var k :| 0 <= k < |list| && Keys(list)[k] == x;
      assert list[k] in list;
    }
  }

  lemma KeyMembers(list: seq<User>)
    ensures forall u :: u in list ==> u.Key() in ToSet(Keys(list))
    ensures forall x :: x in ToSet(Keys(list)) ==> exists u :: u in list && u.Key() == x
  {
    forall u | u in list ensures u.Key() in ToSet(Keys(list)) {
      var k :| 0 <= k < |list| && list[k] == u;
      assert Keys(list)[k] == u.Key();
    }
    forall x | x in ToSet(Keys(list)) ensures exists u :: u in list && u.Key() == x {
      var k :| 0 <= k < |list| && Keys(list)[k] == x;
      assert list[k] in list;
    }
  }

  lemma AppendAgrees(list: seq<User>, byName: map<string, User>, byAddr: map<Addr, User>, user: User)
    requires Agree(list, byName, byAddr) && user.name !in byName && user.addr !in byAddr
    ensures Agree(list + [user], byName[user.name := user], byAddr[user.addr := user])
    ensures ToSet(Keys(list + [user])) == ToSet(Keys(list)) + {user.Key()}
  {
    assert Keys(list + [user]) == Keys(list) + [user.Key()];
  }

  /** Taking one user out of all three structures takes out exactly the holder of
      its name, which is the holder of its address. */
  lemma Forgotten(list: seq<User>, byName: map<string, User>, byAddr: map<Addr, User>, user: User)
    requires Agree(list, byName, byAddr) && user in list
    ensures
      var list' := Erase(list, IndexOf(Keys(list), user.Key()));
      && Agree(list', byName - {user.name}, byAddr - {user.addr})
      && ToSet(list') == ToSet(list) - {user}
      && ToSet(Keys(list')) == ToSet(Keys(list)) - {user.Key()}
    ensures ToSet(list) - {user} == set u | u in ToSet(list) && u.name != user.name
    ensures ToSet(list) - {user} == set u | u in ToSet(list) && u.addr != user.addr
    ensures ToSet(Keys(list)) - {user.Key()} == set x | x in ToSet(Keys(list)) && x.name != user.name
    ensures ToSet(Keys(list)) - {user.Key()} == set x | x in ToSet(Keys(list)) && x.addr != user.addr
  {
    hide Agree, IndexOf, Erase, Distinct;
    KeyMembers(list);
    WithoutName(list, byName, byAddr, user);
    RemoveAgreesIff(list, byName, byAddr, user);
    AgreeKeys(list, byName, byAddr);
    EraseUsers(list, user.Key());
    KeyHolder(list, user.Key());
    EraseDistinct(list, IndexOf(Keys(list), user.Key()));
  }

  // What the two maps find are the users of the list.
  lemma Found(list: seq<User>, byName: map<string, User>, byAddr: map<Addr, User>, name: string, addr: Addr)
    requires Agree(list, byName, byAddr)
    ensures name in byName ==> byName[name] in list && byName[name].name == name
    ensures addr in byAddr ==> byAddr[addr] in list && byAddr[addr].addr == addr
    ensures name !in byName ==> forall u :: u in list ==> u.name != name
    ensures addr !in byAddr ==> forall u :: u in list ==> u.addr != addr
    ensures name !in byName ==> forall x :: x in ToSet(Keys(list)) ==> x.name != name
    ensures addr !in byAddr ==> forall x :: x in ToSet(Keys(list)) ==> x.addr != addr
  {
    KeyMembers(list);
  }
}
