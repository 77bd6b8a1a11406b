/**
 The chains of a hash table as sequences of entries: what inserting, removing,
 rehashing and walking do to them, apart from the pointers that link them.
*/
module Chains {
  import opened Hashing
  import opened Lists

  class Entry<V> {
    var next: Entry?<V>
    const key: string
    var element: V

    constructor (next: Entry?<V>, key: string, element: V)
      ensures this.next == next && this.key == key && this.element == element
    {
      this.next, this.key, this.element := next, key, element;
    }
  }

  function At<V>(chain: seq<Entry<V>>, k: nat): Entry?<V> {
    if k < |chain| then chain[k] else null
  }

  // `head` points to the first entry, every entry to the one after it.
  ghost predicate Linked<V>(head: Entry?<V>, chain: seq<Entry<V>>)
    reads chain`next
  {
    head == At(chain, 0) && forall k :: 0 <= k < |chain| ==> chain[k].next == At(chain, k + 1)
  }

  // Every entry of the chains sits where its key hashes to, and is the entry of
  // its key; every key has its entry in a chain.
  ghost predicate Placed<V>(chains: seq<seq<Entry<V>>>, index: map<string, Entry<V>>)
    requires |chains| > 0
  {
    AllHoused(chains, index) && AllFound(chains, index)
  }

  ghost predicate AllHoused<V>(chains: seq<seq<Entry<V>>>, index: map<string, Entry<V>>)
    requires |chains| > 0
  {
    forall i :: 0 <= i < |chains| ==> Housed(chains[i], i, |chains|, index)
  }

  ghost predicate AllFound<V>(chains: seq<seq<Entry<V>>>, index: map<string, Entry<V>>)
    requires |chains| > 0
  {
    forall key :: key in index ==> index[key].key == key && index[key] in chains[Hash(key, |chains|)]
  }

  ghost predicate Housed<V>(chain: seq<Entry<V>>, i: nat, n: nat, index: map<string, Entry<V>>)
    requires n > 0
  {
    && Distinct(chain)
    && forall e :: e in chain ==> e.key in index && index[e.key] == e && Hash(e.key, n) == i
  }

  ghost predicate Owned<V>(chain: seq<Entry<V>>, repr: set<Entry<V>>) {
    forall e :: e in chain ==> e in repr
  }

  // ------------------------------------------------- chains as mere sequences

  lemma KeysTold<V>(chains: seq<seq<Entry<V>>>, index: map<string, Entry<V>>)
    requires |chains| > 0 && Placed(chains, index)
    ensures forall key :: key in index ==> index[key].key == key
  {
  }

  ghost function NoChains<V>(n: nat): seq<seq<Entry<V>>> {
    seq(n, _ => [])
  }

  lemma NoChainsFit<V>(n: nat, repr: set<Entry<V>>)
    requires n > 0
    ensures |NoChains<V>(n)| == n && Placed(NoChains<V>(n), map[])
    ensures forall j :: 0 <= j < n ==> Owned(NoChains(n)[j], repr) && Linked(null, NoChains<V>(n)[j])
  {
  }

  lemma ApartFrom<V>(chains: seq<seq<Entry<V>>>, index: map<string, Entry<V>>, i: nat, j: nat)
    requires |chains| > 0 && Placed(chains, index) && i < |chains| && j < |chains| && i != j
    ensures forall e :: e in chains[i] ==> e !in chains[j]
  {
    assert Housed(chains[i], i, |chains|, index) && Housed(chains[j], j, |chains|, index);
  }

  lemma InItsHouse<V>(chains: seq<seq<Entry<V>>>, index: map<string, Entry<V>>, i: nat)
    requires i < |chains| && Placed(chains, index)
    ensures Distinct(chains[i])
    ensures forall e, j :: e in chains[i] && 0 <= j < |chains| && j != i ==> e !in chains[j]
  {
    hide Hash;
    assert Housed(chains[i], i, |chains|, index);
    forall e, j | e in chains[i] && 0 <= j < |chains| && j != i ensures e !in chains[j] {
      ApartFrom(chains, index, i, j);
    }
  }

  lemma InItsChain<V>(chains: seq<seq<Entry<V>>>, index: map<string, Entry<V>>, entry: Entry<V>, i: nat)
    requires |chains| > 0 && Placed(chains, index) && entry.key in index && index[entry.key] == entry
    requires i == Hash(entry.key, |chains|)
    ensures entry in chains[i] && Distinct(chains[i])
    ensures forall e, j :: e in chains[i] && 0 <= j < |chains| && j != i ==> e !in chains[j]
  {
    InItsHouse(chains, index, i);
  }

  lemma OwnedPush<V>(p: Entry<V>, chain: seq<Entry<V>>, repr: set<Entry<V>>)
    requires Owned(chain, repr)
    ensures Owned([p] + chain, repr + {p})
  {
  }

  lemma OwnedErase<V>(chain: seq<Entry<V>>, repr: set<Entry<V>>, k: nat)
    requires Owned(chain, repr)
    ensures Owned(Erase(chain, k), repr) && forall e :: e in chain ==> e in repr
  {
  }

  lemma OwnedMore<V>(chains: seq<seq<Entry<V>>>, repr: set<Entry<V>>, p: Entry<V>)
    requires forall j :: 0 <= j < |chains| ==> Owned(chains[j], repr)
    ensures forall j :: 0 <= j < |chains| ==> Owned(chains[j], repr + {p})
  {
  }

  lemma LinkedPush<V>(p: Entry<V>, chain: seq<Entry<V>>)
    requires Linked(p.next, chain)
    ensures Linked(p, [p] + chain)
  {
  }

  lemma PlacedInsert<V>(chains: seq<seq<Entry<V>>>, index: map<string, Entry<V>>, e: Entry<V>, i: nat)
    requires |chains| > 0 && Placed(chains, index) && e.key !in index && i == Hash(e.key, |chains|)
    ensures Placed(chains[i := [e] + chains[i]], index[e.key := e])
    ensures forall j :: 0 <= j < |chains| ==> e !in chains[j]
  {
    FoundInsert(chains, index, e, i);
    hide Housed, Hash, AllFound;
    var index' := index[e.key := e];
    var chains' := chains[i := [e] + chains[i]];
    forall j | 0 <= j < |chains| ensures e !in chains[j] && Housed(chains'[j], j, |chains|, index') {
      HousedInsert(chains[j], j, |chains|, index, e);
    }
  }

  lemma FoundInsert<V>(chains: seq<seq<Entry<V>>>, index: map<string, Entry<V>>, e: Entry<V>, i: nat)
    requires |chains| > 0 && AllFound(chains, index) && e.key !in index && i == Hash(e.key, |chains|)
    ensures AllFound(chains[i := [e] + chains[i]], index[e.key := e])
  {
    hide Hash;
    var index' := index[e.key := e];
    var chains' := chains[i := [e] + chains[i]];
    forall key | key in index' ensures index'[key].key == key && index'[key] in chains'[Hash(key, |chains|)] {
      if key != e.key {
        assert index[key] in chains[Hash(key, |chains|)];
      }
    }
  }

  /** Adding an entry in front of a bucket, which is all a put without a place for
      the previous element does, leaves a table with one entry for every key
      exactly when the key was not there yet. */
  lemma PushPlacedIff<V>(chains: seq<seq<Entry<V>>>, index: map<string, Entry<V>>, e: Entry<V>, i: nat,
                         chains': seq<seq<Entry<V>>>)
    requires |chains| > 0 && Placed(chains, index) && i == Hash(e.key, |chains|) && e !in chains[i]
    requires chains' == chains[i := [e] + chains[i]]
    ensures (exists index' :: Placed(chains', index')) <==> e.key !in index
  {
    if e.key !in index {
      PlacedInsert(chains, index, e, i);
    } else {
      assert index[e.key] in chains[i] && index[e.key] in chains'[i] && e in chains'[i];
      if index' :| Placed(chains', index') {
        OneEntryPerKey(chains', index', i, index[e.key], e);
      }
    }
  }

  lemma OneEntryPerKey<V>(chains: seq<seq<Entry<V>>>, index: map<string, Entry<V>>, i: nat, d: Entry<V>, e: Entry<V>)
    requires |chains| > 0 && Placed(chains, index) && i < |chains|
    requires d in chains[i] && e in chains[i] && d.key == e.key
    ensures d == e
  {
    assert Housed(chains[i], i, |chains|, index);
  }

  lemma SizeInsert<K, V>(m: map<K, V>, k: K, v: V)
    requires k !in m
    ensures |m[k := v]| == |m| + 1
  {
    assert m[k := v].Keys == m.Keys + {k};
  }

  lemma HousedInsert<V>(chain: seq<Entry<V>>, j: nat, n: nat, index: map<string, Entry<V>>, e: Entry<V>)
    requires n > 0 && Housed(chain, j, n, index) && e.key !in index
    ensures e !in chain && Housed(chain, j, n, index[e.key := e])
    ensures j == Hash(e.key, n) ==> Housed([e] + chain, j, n, index[e.key := e])
  {
  }

  lemma PlacedRemove<V>(chains: seq<seq<Entry<V>>>, index: map<string, Entry<V>>, key: string, i: nat, k: nat)
    requires |chains| > 0 && Placed(chains, index) && key in index
    requires i == Hash(key, |chains|) && k < |chains[i]| && chains[i][k] == index[key]
    ensures Placed(chains[i := Erase(chains[i], k)], index - {key})
  {
    EraseDistinct(chains[i], k) by {
      assert Housed(chains[i], i, |chains|, index);
    }
    FoundRemove(chains, index, key, i, k);
    hide AllFound, Erase;
    var chains', index' := chains[i := Erase(chains[i], k)], index - {key};
    forall j | 0 <= j < |chains| ensures Housed(chains'[j], j, |chains|, index') {
      assert Housed(chains[j], j, |chains|, index);
    }
  }

  lemma FoundRemove<V>(chains: seq<seq<Entry<V>>>, index: map<string, Entry<V>>, key: string, i: nat, k: nat)
    requires |chains| > 0 && AllFound(chains, index) && key in index && i == Hash(key, |chains|)
    requires k < |chains[i]| && chains[i][k] == index[key] && Distinct(chains[i])
    ensures AllFound(chains[i := Erase(chains[i], k)], index - {key})
  {
    EraseDistinct(chains[i], k);
    hide Hash, Erase, Distinct;
    var chains', index' := chains[i := Erase(chains[i], k)], index - {key};
    forall x | x in index' ensures index'[x].key == x && index'[x] in chains'[Hash(x, |chains|)] {
      assert index[x] in chains[Hash(x, |chains|)];
    }
  }

  lemma SizeRemove<K, V>(m: map<K, V>, k: K)
    requires k in m
    ensures |m - {k}| == |m| - 1
  {
    assert (m - {k}).Keys == m.Keys - {k};
  }

  // ------------------------------------------------------------ rehashing

  // `p` on the front of the chain its key hashes to.
  ghost function PushTo<V>(chains: seq<seq<Entry<V>>>, p: Entry<V>): (r: seq<seq<Entry<V>>>)
    requires |chains| > 0
    ensures |r| == |chains|
  {
    var j := Hash(p.key, |chains|);
    chains[j := [p] + chains[j]]
  }

  ghost function Moved<V>(chains: seq<seq<Entry<V>>>, chain: seq<Entry<V>>): (r: seq<seq<Entry<V>>>)
    requires |chains| > 0
    ensures |r| == |chains|
    decreases |chain|
  {
    if chain == [] then chains
    else PushTo(Moved(chains, chain[..|chain| - 1]), chain[|chain| - 1])
  }

  // The first `m` chains, rehashed into `n` new ones.
  ghost function Rehashed<V>(chains: seq<seq<Entry<V>>>, m: nat, n: nat): (r: seq<seq<Entry<V>>>)
    requires m <= |chains| && n > 0
    ensures |r| == n
  {
    if m == 0 then NoChains(n)
    else Moved(Rehashed(chains, m - 1, n), chains[m - 1])
  }

  lemma {:induction false} MovedMembers<V>(chains: seq<seq<Entry<V>>>, chain: seq<Entry<V>>, e: Entry<V>, j: nat)
    requires j < |chains|
    ensures e in Moved(chains, chain)[j] <==> e in chains[j] || (e in chain && Hash(e.key, |chains|) == j)
    decreases |chain|
  {
    hide Hash;
    if chain != [] {
      var k := |chain| - 1;
      MovedMembers(chains, chain[..k], e, j);
      assert chain == chain[..k] + [chain[k]];
    }
  }

  lemma {:induction false} MovedDistinct<V>(chains: seq<seq<Entry<V>>>, chain: seq<Entry<V>>, j: nat)
    requires j < |chains| && Distinct(chain) && Distinct(chains[j])
    requires forall e :: e in chain ==> e !in chains[j]
    ensures Distinct(Moved(chains, chain)[j])
    decreases |chain|
  {
    hide Hash;
    if chain != [] {
      var k := |chain| - 1;
      assert chain == chain[..k] + [chain[k]];
      MovedDistinct(chains, chain[..k], j);
      MovedMembers(chains, chain[..k], chain[k], j);
    }
  }

  lemma NotMovedYet<V>(chains: seq<seq<Entry<V>>>, chain: seq<Entry<V>>, k: nat)
    requires |chains| > 0 && k < |chain| && Distinct(chain)
    requires forall e, j :: e in chain && 0 <= j < |chains| ==> e !in chains[j]
    ensures forall j :: 0 <= j < |chains| ==> chain[k] !in Moved(chains, chain[..k])[j]
    ensures Moved(chains, chain[..k + 1]) == PushTo(Moved(chains, chain[..k]), chain[k])
  {
    hide Hash;
    assert chain[..k + 1][..k] == chain[..k];
    assert chain[k] !in chain[..k] && chain[k] in chain;
    forall j | 0 <= j < |chains| ensures chain[k] !in Moved(chains, chain[..k])[j] {
      MovedMembers(chains, chain[..k], chain[k], j);
    }
  }

  ghost predicate InFirst<V>(chains: seq<seq<Entry<V>>>, m: nat, e: Entry<V>) {
    exists i :: 0 <= i < m && i < |chains| && e in chains[i]
  }

  lemma NotInFirst<V>(chains: seq<seq<Entry<V>>>, index: map<string, Entry<V>>, i: nat, e: Entry<V>)
    requires i < |chains| && Placed(chains, index) && e in chains[i]
    ensures !InFirst(chains, i, e)
  {
    forall k: nat | k < i ensures e !in chains[k] {
      ApartFrom(chains, index, i, k);
    }
  }

  lemma {:induction false} RehashedMembers<V>(chains: seq<seq<Entry<V>>>, m: nat, n: nat, e: Entry<V>, j: nat)
    requires m <= |chains| && n > 0 && j < n
    ensures e in Rehashed(chains, m, n)[j] <==> InFirst(chains, m, e) && Hash(e.key, n) == j
    decreases m
  {
    hide Hash;
    if m > 0 {
      RehashedMembers(chains, m - 1, n, e, j);
      MovedMembers(Rehashed(chains, m - 1, n), chains[m - 1], e, j);
      assert InFirst(chains, m, e) <==> InFirst(chains, m - 1, e) || e in chains[m - 1];
    }
  }

  lemma NotRehashedYet<V>(chains: seq<seq<Entry<V>>>, index: map<string, Entry<V>>, i: nat, n: nat)
    requires i < |chains| && n > 0 && Placed(chains, index)
    ensures forall e, j :: e in chains[i] && 0 <= j < n ==> e !in Rehashed(chains, i, n)[j]
    ensures forall e, j :: e in chains[i] && i < j < |chains| ==> e !in chains[j]
    ensures Distinct(chains[i])
    ensures Rehashed(chains, i + 1, n) == Moved(Rehashed(chains, i, n), chains[i])
  {
    hide Hash;
    forall e, j | e in chains[i] && 0 <= j < n ensures e !in Rehashed(chains, i, n)[j] {
      RehashedMembers(chains, i, n, e, j);
      NotInFirst(chains, index, i, e);
    }
    forall e, j | e in chains[i] && i < j < |chains| ensures e !in chains[j] {
      ApartFrom(chains, index, i, j);
    }
    assert Housed(chains[i], i, |chains|, index);
  }

  lemma {:induction false} RehashedDistinct<V>(
      chains: seq<seq<Entry<V>>>, index: map<string, Entry<V>>, m: nat, n: nat, j: nat)
    requires m <= |chains| && n > 0 && j < n && |chains| > 0 && Placed(chains, index)
    ensures Distinct(Rehashed(chains, m, n)[j])
    decreases m
  {
    hide Hash;
    if m > 0 {
      RehashedDistinct(chains, index, m - 1, n, j);
      NotRehashedYet(chains, index, m - 1, n);
      MovedDistinct(Rehashed(chains, m - 1, n), chains[m - 1], j);
    }
  }

  /** Rehashing loses no entry and puts every entry where its key now hashes to. */
  lemma PlacedRehashed<V>(chains: seq<seq<Entry<V>>>, index: map<string, Entry<V>>, n: nat)
    requires |chains| > 0 && n > 0 && Placed(chains, index)
    ensures Placed(Rehashed(chains, |chains|, n), index)
  {
    hide Hash;
    var r := Rehashed(chains, |chains|, n);
    forall j | 0 <= j < n ensures Housed(r[j], j, n, index) {
      RehashedDistinct(chains, index, |chains|, n, j);
      forall e: Entry<V> | e in r[j] ensures e.key in index && index[e.key] == e && Hash(e.key, n) == j {
        RehashedMembers(chains, |chains|, n, e, j);
        var i :| 0 <= i < |chains| && e in chains[i];
        assert Housed(chains[i], i, |chains|, index);
      }
    }
    forall key | key in index ensures index[key].key == key && index[key] in r[Hash(key, n)] {
      assert index[key] in chains[Hash(key, |chains|)];
      RehashedMembers(chains, |chains|, n, index[key], Hash(key, n));
    }
  }

  /** After an exact doubling the chain of bucket `i` has gone to buckets `i` and
      `i + n` only. */
  lemma DoublingSplits<V>(chains: seq<seq<Entry<V>>>, index: map<string, Entry<V>>, i: nat, j: nat, e: Entry<V>)
    requires i < |chains| && Placed(chains, index) && e in chains[i] && j < 2 * |chains|
    ensures e in Rehashed(chains, |chains|, 2 * |chains|)[j] ==> j == i || j == i + |chains|
  {
    RehashedMembers(chains, |chains|, 2 * |chains|, e, j);
    HashSplits(e.key, |chains|);
    assert Housed(chains[i], i, |chains|, index);
  }

  // ------------------------------------------------------ whole-table walks

  // The entries of the first `m` buckets in the order of a walk.
  ghost function Flat<V>(chains: seq<seq<Entry<V>>>, m: nat): seq<Entry<V>>
    requires m <= |chains|
  {
    if m == 0 then [] else Flat(chains, m - 1) + chains[m - 1]
  }

  ghost function KeySeq<V>(chain: seq<Entry<V>>): (keys: seq<string>)
    ensures |keys| == |chain| && forall k :: 0 <= k < |chain| ==> keys[k] == chain[k].key
  {
    seq(|chain|, k requires 0 <= k < |chain| => chain[k].key)
  }

  lemma {:induction false} FlatPrefix<V>(chains: seq<seq<Entry<V>>>, m: nat)
    requires m <= |chains|
    ensures |Flat(chains, m)| <= |Flat(chains, |chains|)|
    decreases |chains| - m
  {
    if m < |chains| {
      FlatPrefix(chains, m + 1);
    }
  }

  lemma {:induction false} FlatMembers<V>(chains: seq<seq<Entry<V>>>, m: nat, e: Entry<V>)
    requires m <= |chains|
    ensures e in Flat(chains, m) <==> InFirst(chains, m, e)
    decreases m
  {
    if m > 0 {
      FlatMembers(chains, m - 1, e);
      assert InFirst(chains, m, e) <==> InFirst(chains, m - 1, e) || e in chains[m - 1];
    }
  }

  lemma {:induction false} FlatDistinct<V>(chains: seq<seq<Entry<V>>>, index: map<string, Entry<V>>, m: nat)
    requires m <= |chains| && |chains| > 0 && Placed(chains, index)
    ensures Distinct(Flat(chains, m))
    decreases m
  {
    hide Hash;
    if m > 0 {
      FlatDistinct(chains, index, m - 1);
      assert Housed(chains[m - 1], m - 1, |chains|, index);
      var last := chains[m - 1];
      forall e | e in last ensures e !in Flat(chains, m - 1) {
        FlatMembers(chains, m - 1, e);
        NotInFirst(chains, index, m - 1, e);
      }
      ConcatDistinct(Flat(chains, m - 1), last);
    }
  }

  lemma FlatIsIndex<V>(chains: seq<seq<Entry<V>>>, index: map<string, Entry<V>>)
    requires |chains| > 0 && Placed(chains, index)
    ensures
      var flat := Flat(chains, |chains|);
      && (forall e :: e in flat ==> e.key in index && index[e.key] == e)
      && (forall key :: key in index ==> index[key] in flat && index[key].key == key)
  {
    hide Hash, Flat;
    var flat := Flat(chains, |chains|);
    forall e: Entry<V> | e in flat ensures e.key in index && index[e.key] == e {
      FlatMembers(chains, |chains|, e);
      var i :| 0 <= i < |chains| && e in chains[i];
      assert Housed(chains[i], i, |chains|, index);
    }
    forall key | key in index ensures index[key] in flat && index[key].key == key {
      FlatMembers(chains, |chains|, index[key]);
      assert index[key] in chains[Hash(key, |chains|)];
    }
  }

  /** The chains together hold one entry for every key: their total length is the
      number of keys, and a walk meets every key exactly once. */
  lemma FlatLength<V>(chains: seq<seq<Entry<V>>>, index: map<string, Entry<V>>)
    requires |chains| > 0 && Placed(chains, index)
    ensures
      var flat := Flat(chains, |chains|);
      |flat| == |index| && Distinct(KeySeq(flat)) && ToSet(KeySeq(flat)) == index.Keys
  {
    hide Placed, Flat;
    var flat := Flat(chains, |chains|);
    FlatDistinct(chains, index, |chains|);
    FlatIsIndex(chains, index);
    var keys := KeySeq(flat);
    forall k, l | 0 <= k < l < |keys| ensures keys[k] != keys[l] {
      assert flat[k] in flat && flat[l] in flat;
    }
    forall key | key in index ensures key in ToSet(keys) {
      var k :| 0 <= k < |flat| && flat[k] == index[key];
      assert keys[k] == key;
    }
    forall key | key in ToSet(keys) ensures key in index {
      var k :| 0 <= k < |keys| && keys[k] == key;
      assert flat[k] in flat;
    }
    DistinctSize(keys);
    assert ToSet(keys) == index.Keys && |index.Keys| == |index|;
  }
}
