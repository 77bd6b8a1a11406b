/**
 The chained hash table: an array of buckets, each the head of a null-terminated
 chain of entries.

 Ghost fields describe the heap: `chains` lists the entries of every bucket in
 order, `index` gives the entry of every key. The table refines `Model()`, a
 finite map from keys to elements, and its bookkeeping refines `Meter()`.
*/
module HashMaps {
  import opened Chains
  import opened Hashing
  import opened Lists

  class HashMap<V> {
    var size: nat
    var changes: nat
    var load: real
    const loadFactor: real
    var increment: real
    var buckets: array<Entry?<V>>
    ghost var chains: seq<seq<Entry<V>>>
    ghost var index: map<string, Entry<V>>
    ghost var repr: set<Entry<V>>
    // The capacity the table began with, and what was done to it since.
    ghost const initial: nat
    ghost var ops: seq<Op>

    ghost function Footprint(): set<object>
      reads this
    {
      {this, buckets} + repr
    }

    ghost predicate Sound()
      reads this, buckets, repr
    {
      && 0 < buckets.Length == |chains| && Placed(chains, index) && size == |index|
      && increment == 1.0 / buckets.Length as real
      && (forall key :: key in index ==> index[key] in repr)
      && (forall i :: 0 <= i < |chains| ==> Owned(chains[i], repr) && Linked(buckets[i], chains[i]))
    }

    // The bookkeeping is what the operations so far make of it.
    ghost predicate Valid()
      reads this, buckets, repr
      ensures Valid() ==> Sound()
    {
      && Sound() && loadFactor > 0.0
      && 0 < initial <= MAX_CAPACITY && Reached(initial, loadFactor, ops, Meter())
    }

    ghost function Model(): map<string, V>
      requires Sound()
      reads this, buckets, repr
    {
      map k | k in index :: index[k].element
    }

    function Meter(): Meter
      reads this, buckets
    {
      Hashing.Meter(size, buckets.Length, changes, load)
    }

    constructor (capacity: int, loadFactor: real)
      ensures Valid() && Model() == map[] && fresh(Footprint())
      ensures Meter() == Start(if capacity <= 0 then 16 else if capacity > MAX_CAPACITY then MAX_CAPACITY else capacity)
      ensures this.loadFactor == if loadFactor > 0.000001 then loadFactor else 0.75
      ensures initial == Meter().capacity
    {
      hide Placed, Owned, Linked, NoChains, Hash;
      var n := if capacity > 0 then capacity else 16;
      if n > MAX_CAPACITY {
        n := MAX_CAPACITY;
      }
      this.loadFactor := if loadFactor > 0.000001 then loadFactor else 0.75;
      size, changes, load, increment := 0, 0, 0.0, 1.0 / n as real;
      buckets := new Entry?<V>[n](_ => null);
      chains, index, repr := NoChains(n), map[], {};
      initial, ops := n, [];
      NoChainsFit<V>(n, {});
    }

    // The entry of the key, or null; and the key's bucket.
    method FindKey(key: string) returns (p: Entry?<V>, i: nat)
      requires Sound()
      ensures i == Hash(key, buckets.Length)
      ensures p == if key in index then index[key] else null
      ensures p != null ==> p.key == key
    {
      i := ComputeHash(key, buckets.Length);
      p := buckets[i];
      ghost var chain, k := chains[i], 0;
      assert Housed(chain, i, |chains|, index) && Linked(buckets[i], chain);
      while p != null
        invariant 0 <= k <= |chain| && p == At(chain, k)
        invariant forall l :: 0 <= l < k ==> chain[l].key != key
        decreases |chain| - k
      {
        if p.key == key {
          break;
        }
        p := p.next;
        k := k + 1;
      }
    }

    method ContainsKey(key: string) returns (found: bool)
      requires Valid()
      ensures found <==> key in Model()
    {
      var p, _ := FindKey(key);
      found := p != null;
    }

    method Get(key: string) returns (r: Option<V>)
      requires Valid()
      ensures r == if key in Model() then Some(Model()[key]) else None
    {
      var p, _ := FindKey(key);
      r := if p != null then Some(p.element) else None;
    }

    // Makes `p`, which points to the head of bucket `i`, its new head.
    method PushFront(p: Entry<V>, i: nat)
      requires Sound() && p.key !in index && i == Hash(p.key, buckets.Length) && p.next == buckets[i]
      modifies this, buckets
      ensures Sound() && buckets == old(buckets) && index == old(index)[p.key := p] && repr == old(repr) + {p}
      ensures Meter() == Inserted(old(Meter()))
      ensures ops == old(ops)
    {
      hide Placed, Owned, Linked, Hash;
      PlacedInsert(chains, index, p, i);
      SizeInsert(index, p.key, p);
      LinkedPush(p, chains[i]);
      OwnedPush(p, chains[i], repr);
      OwnedMore(chains, repr, p);
      buckets[i] := p;
      size, load, changes := size + 1, load + increment, changes + 1;
      chains := chains[i := [p] + chains[i]];
      index, repr := index[p.key := p], repr + {p};
    }

    method InsertEntry(key: string, element: V, i: nat)
      requires Sound() && key !in index && i == Hash(key, buckets.Length)
      modifies this, buckets
      ensures Sound() && buckets == old(buckets) && fresh(repr - old(repr))
      ensures Model() == old(Model())[key := element]
      ensures Meter() == Inserted(old(Meter()))
      ensures ops == old(ops)
    {
      hide Placed, Owned, Linked, Hash, Inserted;
      var p := new Entry(buckets[i], key, element);
      PushFront(p, i);
    }

    // ------------------------------------------------------------- resizing

    static ghost predicate AllLinked(heads: array<Entry?<V>>, chains: seq<seq<Entry<V>>>, repr: set<Entry<V>>)
      reads heads, repr
    {
      && heads.Length == |chains|
      && forall j :: 0 <= j < |chains| ==> Owned(chains[j], repr) && Linked(heads[j], chains[j])
    }

    static method MoveEntry(p: Entry<V>, heads: array<Entry?<V>>,
                            ghost chains: seq<seq<Entry<V>>>, ghost repr: set<Entry<V>>)
      requires 0 < heads.Length == |chains| && AllLinked(heads, chains, repr)
      requires p in repr && forall j :: 0 <= j < |chains| ==> p !in chains[j]
      modifies heads, p`next
      ensures AllLinked(heads, PushTo(chains, p), repr)
    {
      hide Hash;
      var j := ComputeHash(p.key, heads.Length);
      p.next := heads[j];
      assert Linked(p.next, chains[j]);
      heads[j] := p;
      LinkedPush(p, chains[j]);
    }

    // Moves the entries of one old chain, front to back, to their new chains.
    static method MoveChain(head: Entry?<V>, heads: array<Entry?<V>>,
                            ghost chain: seq<Entry<V>>, ghost chains: seq<seq<Entry<V>>>, ghost repr: set<Entry<V>>)
      requires 0 < heads.Length == |chains| && AllLinked(heads, chains, repr)
      requires Linked(head, chain) && Owned(chain, repr) && Distinct(chain)
      requires forall e, j :: e in chain && 0 <= j < |chains| ==> e !in chains[j]
      modifies heads, chain
      ensures AllLinked(heads, Moved(chains, chain), repr)
      ensures forall e :: e in chain ==> e.element == old(e.element)
    {
      hide AllLinked, Hash, PushTo;
      var p := head;
      ghost var k := 0;
      assert chain[..0] == [];
      while p != null
        invariant 0 <= k <= |chain| && p == At(chain, k)
        invariant forall l :: k <= l < |chain| ==> chain[l].next == At(chain, l + 1)
        invariant AllLinked(heads, Moved(chains, chain[..k]), repr)
        invariant forall e :: e in chain ==> e.element == old(e.element)
        decreases |chain| - k
      {
        var q := p.next;
        NotMovedYet(chains, chain, k);
        MoveEntry(p, heads, Moved(chains, chain[..k]), repr);
        p := q;
        k := k + 1;
      }
      assert chain[..k] == chain;
    }

    // Relinks the entries of bucket `i`; the later buckets are still as they were.
    method RehashBucket(i: nat, n: nat, heads: array<Entry?<V>>)
      requires i < buckets.Length == |chains| && heads.Length == n > 0 && heads != buckets && Placed(chains, index)
      requires AllLinked(heads, Rehashed(chains, i, n), repr) && Owned(chains[i], repr)
      requires forall j :: i <= j < buckets.Length ==> Linked(buckets[j], chains[j])
      modifies heads, repr
      ensures AllLinked(heads, Rehashed(chains, i + 1, n), repr)
      ensures forall j :: i < j < buckets.Length ==> Linked(buckets[j], chains[j])
      ensures forall e :: e in repr ==> e.element == old(e.element)
    {
      hide Placed, Hash, Moved, Rehashed, AllLinked, Housed;
      NotRehashedYet(chains, index, i, n);
      MoveChain(buckets[i], heads, chains[i], Rehashed(chains, i, n), repr);
      forall j | i < j < buckets.Length ensures Linked(buckets[j], chains[j]) {
        assert old(Linked(buckets[j], chains[j]));
        forall k | 0 <= k < |chains[j]| ensures chains[j][k].next == At(chains[j], k + 1) {
          var e := chains[j][k];
          assert e in chains[j];
          assert e !in chains[i];
          assert e.next == old(e.next);
        }
      }
    }

    // Relinks every entry into a new array of `n` buckets.
    method Rehash(n: nat) returns (heads: array<Entry?<V>>)
      requires Sound() && n > 0
      modifies repr
      ensures fresh(heads) && heads.Length == n
      ensures AllLinked(heads, Rehashed(chains, |chains|, n), repr)
      ensures forall e :: e in repr ==> e.element == old(e.element)
    {
      hide Placed, Hash, Moved, Rehashed, AllLinked, Housed, Linked;
      heads := new Entry?<V>[n](_ => null);
      NoneLinked(heads, chains, repr);
      var i := 0;
      while i < buckets.Length
        invariant 0 <= i <= buckets.Length
        invariant AllLinked(heads, Rehashed(chains, i, n), repr)
        invariant forall j :: i <= j < buckets.Length ==> Linked(buckets[j], chains[j])
        invariant forall e :: e in repr ==> e.element == old(e.element)
      {
        RehashBucket(i, n, heads);
        i := i + 1;
      }
    }

    static lemma NoneLinked(heads: array<Entry?<V>>, chains: seq<seq<Entry<V>>>, repr: set<Entry<V>>)
      requires heads.Length > 0
      requires forall j :: 0 <= j < heads.Length ==> heads[j] == null
      ensures AllLinked(heads, Rehashed(chains, 0, heads.Length), repr)
    {
    }

    method Resize()
      requires Sound()
      modifies this, repr
      ensures Sound() && Model() == old(Model()) && index == old(index) && repr == old(repr)
      ensures Meter() == Grown(old(Meter()))
      ensures buckets == old(buckets) || fresh(buckets)
      ensures ops == old(ops)
    {
      hide Placed, Hash, Rehashed;
      var n := 2 * buckets.Length;
      if n > MAX_CAPACITY {
        n := MAX_CAPACITY;
      }
      if n == buckets.Length {
        return;
      }
      PlacedRehashed(chains, index, n);
      var heads := Rehash(n);
      chains := Rehashed(chains, |chains|, n);
      buckets := heads;
      load := load / 2.0;
      changes := 0;
      increment := 1.0 / n as real;
    }

    // ------------------------------------------------------- map operations

    method CheckLoad()
      requires Sound()
      modifies this, repr
      ensures Sound() && Model() == old(Model()) && index == old(index) && repr == old(repr)
      ensures Meter() == Checked(old(Meter()), loadFactor)
      ensures buckets == old(buckets) || fresh(buckets)
      ensures ops == old(ops)
    {
      hide Placed, Owned, Linked, Hash, Grown;
      if changes > TRIGGER {
        changes := 0;
        if load > loadFactor {
          Resize();
        }
      }
    }

    lemma KeyCounted(key: string)
      requires Sound() && key in index
      ensures size > 0
    {
      hide Placed, Owned, Linked;
      assert |index - {key}| >= 0 && index.Keys == (index - {key}).Keys + {key};
    }

    // Notes the operation that is about to be done.
    ghost method Record(op: Op)
      requires Valid() && (op.Remove? ==> size > 0)
      modifies this`ops
      ensures Sound() && Meter() == old(Meter()) && Reached(initial, loadFactor, ops, Apply(Meter(), op, loadFactor))
      ensures Model() == old(Model())
    {
      hide Placed, Owned, Linked, Reached, Apply;
      ReachedNext(initial, loadFactor, ops, Meter(), op);
      ops := ops + [op];
    }

    // Without a place for the previous element an entry is always added, so then
    // the key must be new.
    method Put(key: string, element: V, wantPrevious: bool) returns (previous: Option<V>)
      requires Valid() && (wantPrevious || key !in Model())
      modifies this, buckets, repr
      ensures Valid() && Model() == old(Model())[key := element]
      ensures previous == if key in old(Model()) then Some(old(Model())[key]) else None
      ensures Meter() == Apply(old(Meter()), if key in old(Model()) then PutOld else PutNew, loadFactor)
      ensures fresh(repr - old(repr)) && (buckets == old(buckets) || fresh(buckets))
    {
      hide Placed, Owned, Linked, Hash, Checked, Inserted, Reached;
      Record(if key in Model() then PutOld else PutNew);
      CheckLoad();
      var p, i := FindKey(key);
      if p != null && wantPrevious {
        previous := Some(p.element);
        Replace(p, element);
      } else {
        previous := None;
        InsertEntry(key, element, i);
      }
    }

    method Replace(p: Entry<V>, element: V)
      requires Sound() && p.key in index && index[p.key] == p
      modifies p`element
      ensures Sound() && Model() == old(Model())[p.key := element]
    {
      hide Placed, Owned, Linked, Hash;
      KeysTold(chains, index);
      p.element := element;
    }

    method PutUnique(key: string, element: V) returns (added: bool)
      requires Valid()
      modifies this, buckets, repr
      ensures Valid() && added == (key !in old(Model()))
      ensures Model() == if added then old(Model())[key := element] else old(Model())
      ensures Meter() == Apply(old(Meter()), if added then PutNew else PutOld, loadFactor)
      ensures fresh(repr - old(repr)) && (buckets == old(buckets) || fresh(buckets))
    {
      hide Placed, Owned, Linked, Hash, Checked, Inserted, Reached;
      Record(if key in Model() then PutOld else PutNew);
      CheckLoad();
      var p, i := FindKey(key);
      added := p == null;
      if added {
        InsertEntry(key, element, i);
      }
    }

    // The entry before `entry` in its chain, or null at the head.
    method Predecessor(entry: Entry<V>, i: nat) returns (p: Entry?<V>, ghost k: nat)
      requires i < buckets.Length == |chains| && Linked(buckets[i], chains[i]) && entry in chains[i]
      ensures k < |chains[i]| && chains[i][k] == entry && p == if k == 0 then null else chains[i][k - 1]
    {
      ghost var chain := chains[i];
      var c := buckets[i];
      p, k := null, 0;
      while c != entry
        invariant 0 <= k < |chain| && c == chain[k] && entry in chain[k..]
        invariant p == if k == 0 then null else chain[k - 1]
        decreases |chain| - k
      {
        assert chain[k..] == [chain[k]] + chain[k + 1..];
        p, c := c, c.next;
        k := k + 1;
      }
    }

    method Unlink(p: Entry?<V>, entry: Entry<V>, i: nat, ghost k: nat)
      requires i < buckets.Length == |chains| && Linked(buckets[i], chains[i]) && Distinct(chains[i])
      requires k < |chains[i]| && chains[i][k] == entry && p == if k == 0 then null else chains[i][k - 1]
      modifies buckets, if p == null then {} else {p}
      ensures Linked(buckets[i], Erase(chains[i], k))
      ensures p != null ==> p.element == old(p.element)
      ensures forall j :: 0 <= j < |chains| && j != i ==> buckets[j] == old(buckets[j])
    {
      ghost var chain, rest := chains[i], Erase(chains[i], k);
      if p == null {
        buckets[i] := entry.next;
      } else {
        p.next := entry.next;
      }
      forall l | 0 <= l < |rest| ensures rest[l].next == At(rest, l + 1) {
        assert rest[l] == if l < k then chain[l] else chain[l + 1];
      }
    }

    method RemoveEntry(entry: Entry<V>, i: nat)
      requires Sound() && entry.key in index && index[entry.key] == entry && i == Hash(entry.key, buckets.Length)
      modifies buckets, repr, this`chains
      ensures |chains| == buckets.Length && Placed(chains, index - {entry.key})
      ensures forall j :: 0 <= j < |chains| ==> Owned(chains[j], repr) && Linked(buckets[j], chains[j])
      ensures forall e :: e in repr ==> e.element == old(e.element)
    {
      hide Placed, Owned, Linked, Hash;
      InItsChain(chains, index, entry, i);
      var p, k := Predecessor(entry, i);
      PlacedRemove(chains, index, entry.key, i, k);
      OwnedErase(chains[i], repr, k);
      assert p != null ==> p in chains[i];
      Unlink(p, entry, i, k);
      chains := chains[i := Erase(chains[i], k)];
    }

    method Discard(entry: Entry<V>, i: nat)
      requires Sound() && entry.key in index && index[entry.key] == entry && i == Hash(entry.key, buckets.Length)
      modifies this, buckets, repr
      ensures Sound() && repr == old(repr) && buckets == old(buckets)
      ensures Model() == old(Model()) - {entry.key}
      ensures old(size) > 0 && Meter() == Removed(old(Meter()))
      ensures ops == old(ops)
    {
      hide Placed, Owned, Linked, Hash, Checked, Inserted, Cleared;
      KeysTold(chains, index);
      SizeRemove(index, entry.key);
      RemoveEntry(entry, i);
      index := index - {entry.key};
      size, load, changes := size - 1, load - increment, changes + 1;
    }

    method Remove(key: string) returns (r: Option<V>)
      requires Valid()
      modifies this, buckets, repr
      ensures Valid() && repr == old(repr) && buckets == old(buckets)
      ensures Model() == old(Model()) - {key}
      ensures r == if key in old(Model()) then Some(old(Model())[key]) else None
      ensures Meter() == if key in old(Model()) then Apply(old(Meter()), Hashing.Remove, loadFactor) else old(Meter())
    {
      hide Placed, Owned, Linked, Hash, Checked, Inserted, Cleared, Reached;
      r := None;
      var entry, i := FindKey(key);
      if entry != null {
        r := Some(entry.element);
        KeyCounted(key);
        Record(Hashing.Remove);
        Discard(entry, i);
      }
    }

    // ------------------------------------------------------ whole-table walks

    method CopyChain(tmp: array<Entry?<V>>, n: nat, i: nat) returns (m: nat)
      requires i < buckets.Length == |chains| && Linked(buckets[i], chains[i]) && n + |chains[i]| <= tmp.Length
      modifies tmp
      ensures m == n + |chains[i]| && tmp[..m] == old(tmp[..n]) + chains[i]
    {
      ghost var chain, k := chains[i], 0;
      var p := buckets[i];
      m := n;
      while p != null
        modifies tmp
        invariant 0 <= k <= |chain| && p == At(chain, k) && m == n + k
        invariant tmp[..m] == old(tmp[..n]) + chain[..k]
        decreases |chain| - k
      {
        tmp[m] := p;
        m, p, k := m + 1, p.next, k + 1;
      }
    }

    /** An array with the entry of every key once, or null for an empty table. */
    method EntryArray() returns (tmp: array?<Entry?<V>>)
      requires Valid()
      ensures tmp == null <==> Model() == map[]
      ensures tmp != null ==> fresh(tmp) && tmp[..] == Flat(chains, |chains|)
    {
      hide Placed, Hash, Linked, Owned, KeySeq, Distinct, ToSet;
      FlatLength(chains, index);
      assert Model().Keys == index.Keys;
      if size == 0 {
        return null;
      }
      tmp := new Entry?<V>[size](_ => null);
      var n, i := 0, 0;
      while i < buckets.Length
        modifies tmp
        invariant 0 <= i <= buckets.Length && n == |Flat(chains, i)|
        invariant n <= tmp.Length && tmp[..n] == Flat(chains, i)
      {
        FlatPrefix(chains, i + 1);
        n := CopyChain(tmp, n, i);
        i := i + 1;
      }
    }

    // Frees the entries of one bucket, front to back.
    method FreeChain(i: nat) returns (released: seq<Entry<V>>)
      requires i < buckets.Length == |chains| && Linked(buckets[i], chains[i])
      ensures released == chains[i]
    {
      ghost var chain, k := chains[i], 0;
      var p := buckets[i];
      released := [];
      while p != null
        invariant 0 <= k <= |chain| && p == At(chain, k) && released == chain[..k]
        decreases |chain| - k
      {
        var q := p.next;
        released := released + [p];
        p, k := q, k + 1;
      }
    }

    method Purge() returns (released: seq<Entry<V>>)
      requires buckets.Length == |chains|
      requires forall j :: 0 <= j < |chains| ==> Linked(buckets[j], chains[j])
      modifies buckets
      ensures released == Flat(chains, |chains|)
      ensures forall j :: 0 <= j < |chains| ==> buckets[j] == null
    {
      hide Linked;
      released := [];
      var i := 0;
      while i < buckets.Length
        modifies buckets
        invariant 0 <= i <= buckets.Length && released == Flat(chains, i)
        invariant forall j :: 0 <= j < i ==> buckets[j] == null
        invariant forall j :: i <= j < buckets.Length ==> Linked(buckets[j], chains[j])
      {
        var freed := FreeChain(i);
        released := released + freed;
        buckets[i] := null;
        i := i + 1;
      }
    }

    /** Empties the table; `released` is what was handed to the free function and
        freed, in order. */
    method Clear() returns (released: seq<Entry<V>>)
      requires Valid()
      modifies this, buckets
      ensures Valid() && Model() == map[] && buckets == old(buckets)
      ensures released == Flat(old(chains), |old(chains)|)
      ensures Meter() == Cleared(old(Meter()))
    {
      hide Flat, Placed, Owned, Linked, NoChains, Reached, Hash;
      Record(Hashing.Clear);
      released := Purge();
      size, load, changes := 0, 0.0, 0;
      chains, index := NoChains(buckets.Length), map[];
      NoChainsFit(buckets.Length, repr);
    }

    /** The load bound of every table there is. */
    lemma LoadIsBounded()
      requires Valid() && buckets.Length < MAX_CAPACITY
      ensures load == size as real / buckets.Length as real
      ensures size as real * initial as real <= (loadFactor * initial as real + 101.0) * buckets.Length as real
    {
      hide Sound, Reached;
      LoadBound(initial, loadFactor, ops, Meter());
    }
  }
}
