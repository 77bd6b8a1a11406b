/**
 The chat server's channels: a hash table of records, each with a linked list of
 the names that are subscribed.
*/
module ChannelTables {
  import opened HashMaps
  import opened LinkedLists
  import opened Lists
  import opened Users

  class Subscribers {
    const name: string
    const members: LinkedList<string>

    constructor (name: string)
      ensures this.name == name && members.Valid() && members.contents == [] && fresh(members.Footprint())
    {
      this.name := name;
      members := new LinkedList();
    }
  }

  // The list is in order, is made of the objects `own`, and holds each of
  // `names` once.
  ghost predicate Kept(c: Subscribers, own: set<object>, names: set<string>)
    reads own
  {
    && c.members in own && c.members.Footprint() == own && c.members.Valid()
    && Distinct(c.members.contents) && names == ToSet(c.members.contents)
  }

  // The position of the name in the list, or -1.
  method MemberIndex(c: Subscribers, name: string) returns (index: int)
    requires c.members.Valid()
    ensures index == if name in c.members.contents then IndexOf(c.members.contents, name) else -1
  {
    hide LinkedList.Valid, IndexOf;
    index := 0;
    var n := c.members.Size();
    while index < n
      invariant 0 <= index <= n && name !in c.members.contents[..index]
    {
      var r := c.members.Get(index);
      if r.value == name {
        FirstAt(c.members.contents, name, index);
        return;
      }
      index := index + 1;
    }
    assert c.members.contents[..index] == c.members.contents;
    index := -1;
  }

  method Subscribe(c: Subscribers, name: string, ghost own: set<object>, ghost names: set<string>)
    requires Kept(c, own, names)
    modifies own
    ensures Kept(c, c.members.Footprint(), names + {name})
    ensures forall o :: o in c.members.Footprint() ==> o in own || fresh(o)
  {
    hide LinkedList.Valid, IndexOf;
    var index := MemberIndex(c, name);
    if index == -1 {
      ghost var contents := c.members.contents;
      c.members.Add(name);
      assert ToSet(contents + [name]) == ToSet(contents) + {name};
    }
  }

  method Unsubscribe(c: Subscribers, name: string, ghost own: set<object>, ghost names: set<string>)
    requires Kept(c, own, names)
    modifies own
    ensures Kept(c, c.members.Footprint(), names - {name})
    ensures forall o :: o in c.members.Footprint() ==> o in own || fresh(o)
  {
    hide LinkedList.Valid, IndexOf;
    var index := MemberIndex(c, name);
    if index != -1 {
      EraseDistinct(c.members.contents, index);
      var r := c.members.RemoveAt(index);
    }
  }

  class ChannelTable {
    const table: HashMap<Subscribers>
    ghost var subs: map<string, set<string>>
    ghost var records: map<string, Subscribers>
    ghost var own: map<string, set<object>>

    ghost function Footprint(): (objects: set<object>)
      reads this, table
      ensures {this, table} <= objects
    {
      {this} + table.Footprint() + Union(own)
    }

    static ghost function Union(own: map<string, set<object>>): set<object> {
      set n, o | n in own && o in own[n] :: o
    }

    // Every record is stored under its own name and its list is in order.
    static ghost predicate AllKept(records: map<string, Subscribers>, own: map<string, set<object>>,
                                   subs: map<string, set<string>>)
      reads Union(own)
    {
      && own.Keys == records.Keys == subs.Keys
      && forall n :: n in records ==> records[n].name == n && Kept(records[n], own[n], subs[n])
    }

    // No two of the sets share an object with each other or with `rest`.
    static ghost predicate Apart(own: map<string, set<object>>, rest: set<object>) {
      && (forall n, m :: n in own && m in own && n != m ==> own[n] !! own[m])
      && (forall n :: n in own ==> own[n] !! rest)
    }

    ghost predicate Valid()
      reads this, Footprint()
    {
      && table.Valid() && table.Model() == records
      && AllKept(records, own, subs) && Apart(own, {this} + table.Footprint())
    }

    static lemma ApartUpdate(own: map<string, set<object>>, rest: set<object>, n: string, grown: set<object>)
      requires Apart(own, rest) && grown !! rest
      requires forall m :: m in own && m != n ==> grown !! own[m]
      ensures Apart(own[n := grown], rest)
    {
    }

    static lemma UnionUpdate(own: map<string, set<object>>, n: string, grown: set<object>)
      ensures Union(own[n := grown]) <= Union(own) + grown
    {
    }

    static lemma InUnion(own: map<string, set<object>>, rest: set<object>, n: string)
      requires n in own && Apart(own, rest)
      ensures own[n] <= Union(own) && Union(own) !! rest && Union(own - {n}) !! own[n]
      ensures Union(own - {n}) <= Union(own) && Apart(own - {n}, rest) && Apart(own, {})
    {
    }

    static lemma NoRecords(rest: set<object>)
      ensures AllKept(map[], map[], map[]) && Apart(map[], rest) && Union(map[]) == {}
    {
    }

    static lemma ApartFromAll(own: map<string, set<object>>, objects: set<object>)
      requires objects !! Union(own)
      ensures forall m :: m in own ==> objects !! own[m]
    {
      forall m, o | m in own && o in own[m] ensures o in Union(own) {
      }
    }

    constructor ()
      ensures Valid() && subs == map[] && fresh(Footprint())
    {
      hide HashMap.Valid, HashMap.Sound, HashMap.Model, HashMap.Footprint, AllKept, Apart, Union;
      var empty := new HashMap(32, 0.5);
      ghost var objects := Existing(empty.Footprint());
      table := empty;
      subs, records, own := map[], map[], map[];
      new;
      NoRecords({this} + table.Footprint());
    }

    // No user is one of the table's own objects.
    lemma UsersApart()
      requires Valid()
      ensures forall o :: o in Footprint() ==> !(o is User)
    {
      hide Valid, Footprint;
      forall o | o in Footprint() && o is User ensures false {
        UserApart(o);
      }
    }

    lemma UserApart(u: User)
      requires Valid()
      ensures u !in Footprint()
    {
      hide HashMap.Valid, HashMap.Sound, HashMap.Model, HashMap.Footprint, Kept, Apart;
      forall n | n in own ensures u !in own[n] {
        assert Kept(records[n], own[n], subs[n]);
        ListApart(records[n], own[n], subs[n], u);
      }
      TableApart(table, u);
    }

    static lemma ListApart(c: Subscribers, own: set<object>, names: set<string>, u: User)
      requires Kept(c, own, names)
      ensures u !in own
    {
      hide LinkedList.Valid;
    }

    static lemma TableApart(table: HashMap<Subscribers>, u: User)
      ensures u !in table.Footprint()
    {
    }

    // The record of a channel, and what its list says.
    lemma Record(chan: string)
      requires Valid()
      ensures chan in records <==> chan in subs
      ensures chan in records ==>
        var members := records[chan].members;
        members.Valid() && Distinct(members.contents) && ToSet(members.contents) == subs[chan]
    {
      hide HashMap.Valid, HashMap.Sound, HashMap.Model, LinkedList.Valid, LinkedList.Footprint, Apart;
      assert chan in records ==> Kept(records[chan], own[chan], subs[chan]);
    }

    method Find(chan: string) returns (c: Subscribers?)
      requires Valid()
      ensures c == if chan in records then records[chan] else null
    {
      hide HashMap.Valid, HashMap.Sound, HashMap.Model, Kept;
      var r := table.Get(chan);
      c := if r.Some? then r.value else null;
    }

    method AddChannel(chan: string)
      requires Valid()
      modifies Footprint()
      ensures Valid() && (forall o :: o in Footprint() ==> o in old(Footprint()) || fresh(o))
      ensures chan in subs && subs == if chan in old(subs) then old(subs) else old(subs)[chan := {}]
    {
      hide HashMap.Valid, HashMap.Sound, HashMap.Model, Kept, LinkedList.Valid, LinkedList.Footprint;
      var found := table.ContainsKey(chan);
      if found {
        return;
      }
      AddRecord(chan);
    }

    method AddRecord(chan: string)
      requires Valid() && chan !in records
      modifies Footprint()
      ensures Valid() && (forall o :: o in Footprint() ==> o in old(Footprint()) || fresh(o))
      ensures subs == old(subs)[chan := {}]
    {
      hide HashMap.Valid, HashMap.Sound, HashMap.Model, AllKept, Kept, LinkedList.Valid, LinkedList.Footprint,
        Apart, Union;
      UnionApart(own, {this} + table.Footprint());
      ghost var others := Existing(Union(own));
      ghost var mine := Existing({this} + table.Footprint());
      var c, objects := NewRecord(chan);
      assert objects !! {this} + table.Footprint() && objects !! Union(own);
      File(chan, c);
      assert objects !! {this} + table.Footprint() && Union(own) !! {this} + table.Footprint();
      ApartAgain(own, {this} + table.Footprint());
      ApartFromAll(own, objects);
      AllKeptAdd(records, own, subs, chan, c, objects);
      ApartUpdate(own, {this} + table.Footprint(), chan, objects);
      UnionUpdate(own, chan, objects);
      records, own, subs := records[chan := c], own[chan := objects], subs[chan := {}];
    }

    method File(chan: string, c: Subscribers)
      requires table.Valid() && chan !in table.Model()
      modifies table.Footprint()
      ensures table.Valid() && table.Model() == old(table.Model())[chan := c]
      ensures forall o :: o in table.Footprint() ==> o in old(table.Footprint()) || fresh(o)
    {
      hide HashMap.Valid, HashMap.Sound, HashMap.Model;
      var added := table.PutUnique(chan, c);
    }

    static lemma ApartAgain(own: map<string, set<object>>, rest: set<object>)
      requires Apart(own, {}) && Union(own) !! rest
      ensures Apart(own, rest)
    {
      forall n | n in own ensures own[n] <= Union(own) {
      }
    }

    static lemma UnionApart(own: map<string, set<object>>, rest: set<object>)
      requires Apart(own, rest)
      ensures Union(own) !! rest && Apart(own, {})
    {
    }

    static lemma AllKeptAdd(records: map<string, Subscribers>, own: map<string, set<object>>,
                            subs: map<string, set<string>>, chan: string, c: Subscribers, objects: set<object>)
      requires AllKept(records, own, subs) && chan !in records && c.name == chan && Kept(c, objects, {})
      ensures AllKept(records[chan := c], own[chan := objects], subs[chan := {}])
    {
      hide Kept;
    }

    static lemma AllKeptRemove(records: map<string, Subscribers>, own: map<string, set<object>>,
                               subs: map<string, set<string>>, chan: string)
      requires AllKept(records, own, subs)
      ensures AllKept(records - {chan}, own - {chan}, subs - {chan})
    {
      hide Kept;
    }

    static method NewRecord(chan: string) returns (c: Subscribers, ghost objects: set<object>)
      ensures fresh(c) && c.name == chan && Kept(c, objects, {}) && fresh(objects)
    {
      hide LinkedList.Valid;
      c := new Subscribers(chan);
      objects := c.members.Footprint();
    }

    method ChannelAddUser(chan: string, name: string)
      requires Valid()
      modifies Footprint()
      ensures Valid() && (forall o :: o in Footprint() ==> o in old(Footprint()) || fresh(o))
      ensures subs == old(subs)[chan := (if chan in old(subs) then old(subs)[chan] else {}) + {name}]
    {
      hide Valid, Footprint;
      AddChannel(chan);
      SubscribeTo(chan, name);
    }

    // A change to one of the lists, seen from all the records.
    static method SubscribeIn(c: Subscribers, name: string, ghost records: map<string, Subscribers>,
                              ghost own: map<string, set<object>>, ghost subs: map<string, set<string>>)
      requires AllKept(records, own, subs) && Apart(own, {}) && c.name in records && records[c.name] == c
      modifies own[c.name]
      ensures AllKept(records, own[c.name := c.members.Footprint()], subs[c.name := subs[c.name] + {name}])
      ensures forall o :: o in c.members.Footprint() ==> o in own[c.name] || fresh(o)
    {
      hide Kept, LinkedList.Valid, LinkedList.Footprint;
      Subscribe(c, name, own[c.name], subs[c.name]);
    }

    static method UnsubscribeIn(c: Subscribers, name: string, ghost records: map<string, Subscribers>,
                                ghost own: map<string, set<object>>, ghost subs: map<string, set<string>>)
      requires AllKept(records, own, subs) && Apart(own, {}) && c.name in records && records[c.name] == c
      modifies own[c.name]
      ensures AllKept(records, own[c.name := c.members.Footprint()], subs[c.name := subs[c.name] - {name}])
      ensures forall o :: o in c.members.Footprint() ==> o in own[c.name] || fresh(o)
    {
      hide Kept, LinkedList.Valid, LinkedList.Footprint;
      Unsubscribe(c, name, own[c.name], subs[c.name]);
    }

    static lemma RecordNamed(records: map<string, Subscribers>, own: map<string, set<object>>,
                             subs: map<string, set<string>>, chan: string)
      requires AllKept(records, own, subs)
      ensures chan in records <==> chan in subs
      ensures chan in records ==>
        records[chan].name == chan && chan in own && Kept(records[chan], own[chan], subs[chan])
    {
    }

    method SubscribeTo(chan: string, name: string)
      requires Valid() && chan in subs
      modifies Footprint()
      ensures Valid() && (forall o :: o in Footprint() ==> o in old(Footprint()) || fresh(o))
      ensures subs == old(subs)[chan := old(subs)[chan] + {name}]
    {
      hide HashMap.Valid, HashMap.Sound, HashMap.Model, AllKept, LinkedList.Valid, LinkedList.Footprint;
      RecordNamed(records, own, subs, chan);
      InUnion(own, {this} + table.Footprint(), chan);
      var c := Find(chan);
      SubscribeIn(c, name, records, own, subs);
      Adopt(chan, c.members.Footprint(), subs[chan] + {name});
    }

    // The descriptions after a change to the objects of one channel.
    ghost method Adopt(chan: string, grown: set<object>, names: set<string>)
      requires table.Valid() && table.Model() == records && Apart(own, {this} + table.Footprint()) && chan in own
      requires AllKept(records, own[chan := grown], subs[chan := names])
      requires grown !! {this} + table.Footprint() && forall m :: m in own && m != chan ==> grown !! own[m]
      modifies this`own, this`subs
      ensures Valid() && subs == old(subs)[chan := names] && own == old(own)[chan := grown]
      ensures Footprint() <= old(Footprint()) + grown
    {
      hide HashMap.Valid, HashMap.Sound, HashMap.Model, AllKept, Union;
      ApartUpdate(own, {this} + table.Footprint(), chan, grown);
      UnionUpdate(own, chan, grown);
      UnionApart(own[chan := grown], {this} + table.Footprint());
      own, subs := own[chan := grown], subs[chan := names];
    }

    method ChannelRemoveUser(chan: string, name: string)
      requires Valid()
      modifies Footprint()
      ensures Valid() && (forall o :: o in Footprint() ==> o in old(Footprint()) || fresh(o))
      ensures subs == if chan in old(subs) then old(subs)[chan := old(subs)[chan] - {name}] else old(subs)
    {
      hide HashMap.Valid, HashMap.Sound, HashMap.Model, AllKept, LinkedList.Valid, LinkedList.Footprint;
      RecordNamed(records, own, subs, chan);
      var c := Find(chan);
      if c != null {
        InUnion(own, {this} + table.Footprint(), chan);
        UnsubscribeIn(c, name, records, own, subs);
        Adopt(chan, c.members.Footprint(), subs[chan] - {name});
      }
    }

    // Releases every node of an emptied channel's list and drops its record.
    method RemoveChannelIfEmpty(chan: string) returns (released: seq<Node<string>>)
      requires Valid()
      modifies Footprint()
      ensures Valid() && (forall o :: o in Footprint() ==> o in old(Footprint()) || fresh(o))
      ensures subs == if chan in old(subs) && old(subs)[chan] == {} then old(subs) - {chan} else old(subs)
      ensures chan in old(records) && old(subs).Keys != subs.Keys ==>
        multiset(released) == multiset(old(records[chan].members.nodes))
      ensures old(subs).Keys == subs.Keys ==> released == []
    {
      hide HashMap.Valid, HashMap.Sound, HashMap.Model, AllKept, LinkedList.Valid, LinkedList.Footprint;
      RecordNamed(records, own, subs, chan);
      released := [];
      var c := Find(chan);
      if c != null {
        EmptyExactly(records, own, subs, chan);
        var n := c.members.Size();
        if n == 0 {
          released := RemoveRecord(chan);
        }
      }
    }

    static lemma EmptyExactly(records: map<string, Subscribers>, own: map<string, set<object>>,
                              subs: map<string, set<string>>, chan: string)
      requires AllKept(records, own, subs) && chan in records
      ensures records[chan].members.Valid()
      ensures records[chan].members.contents == [] <==> subs[chan] == {}
    {
      hide LinkedList.Valid, LinkedList.Footprint;
      var c := records[chan];
      assert Kept(c, own[chan], subs[chan]);
      if c.members.contents != [] {
        assert c.members.contents[0] in subs[chan];
      }
    }

    method RemoveRecord(chan: string) returns (released: seq<Node<string>>)
      requires Valid() && chan in records
      modifies Footprint()
      ensures Valid() && (forall o :: o in Footprint() ==> o in old(Footprint()) || fresh(o))
      ensures subs == old(subs) - {chan}
      ensures multiset(released) == multiset(old(records[chan].members.nodes))
    {
      hide HashMap.Valid, HashMap.Sound, HashMap.Model, AllKept, Kept, LinkedList.Valid, LinkedList.Footprint;
      RecordNamed(records, own, subs, chan);
      InUnion(own, {this} + table.Footprint(), chan);
      var r := table.Remove(chan);
      AllKeptRemove(records, own, subs, chan);
      ghost var objects, names := own[chan], subs[chan];
      records, own, subs := records - {chan}, own - {chan}, subs - {chan};
      released := DestroyList(r.value, objects, names);
    }

    static method DestroyList(c: Subscribers, ghost own: set<object>, ghost names: set<string>)
      returns (released: seq<Node<string>>)
      requires Kept(c, own, names)
      modifies own
      ensures multiset(released) == multiset(old(c.members.nodes))
    {
      hide LinkedList.Valid;
      var handed, nodes := c.members.Destroy();
      released := nodes;
    }
  }
}
