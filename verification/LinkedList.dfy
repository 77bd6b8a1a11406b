/**
 The doubly linked list: a ring of nodes through a sentinel, and a private free
 list of spare nodes.

 `ring` lists the nodes in order, the sentinel first; `free` lists the spare
 ones; `nodes` is every node ever allocated for the list. The list refines the
 sequence `contents`.
*/
module LinkedLists {
  import opened Lists

  class Node<V> {
    var next: Node?<V>
    var prev: Node?<V>
    var element: Option<V>

    constructor ()
      ensures element == None
    {
      next, prev, element := null, null, None;
    }
  }

  const FL_INCREMENT: nat := 128

  function Succ(i: nat, n: nat): (r: nat)
    ensures i < n ==> r < n
  {
    if i + 1 == n then 0 else i + 1
  }

  function Pred(i: nat, n: nat): (r: nat)
    requires n > 0
    ensures i < n ==> r < n
  {
    if i == 0 then n - 1 else i - 1
  }

  ghost predicate Ring<V>(ring: seq<Node<V>>)
    reads ring
  {
    && (forall i {:trigger ring[i].next} :: 0 <= i < |ring| ==> ring[i].next == ring[Succ(i, |ring|)])
    && (forall i {:trigger ring[i].prev} :: 0 <= i < |ring| ==> ring[i].prev == ring[Pred(i, |ring|)])
  }

  ghost predicate Holds<V>(ring: seq<Node<V>>, contents: seq<V>)
    reads ring
  {
    |ring| == |contents| + 1 && forall i :: 0 <= i < |contents| ==> ring[i + 1].element == Some(contents[i])
  }

  function At<V>(s: seq<Node<V>>, k: nat): Node?<V> {
    if k < |s| then s[k] else null
  }

  ghost predicate Spare<V>(head: Node?<V>, free: seq<Node<V>>)
    reads free
  {
    && head == At(free, 0)
    && forall k :: 0 <= k < |free| ==> free[k].next == At(free, k + 1) && free[k].element == None
  }

  // Puts `p` between two neighbours, which may be one node.
  method Link<V>(before: Node<V>, p: Node<V>, after: Node<V>, ghost ring: seq<Node<V>>, ghost k: nat)
    requires k < |ring| && Ring(ring) && Distinct(ring) && p !in ring
    requires before == ring[k] && after == ring[Succ(k, |ring|)]
    modifies p, before, after
    ensures Ring(With(ring, k + 1, p))
    ensures p.element == old(p.element)
    ensures before.element == old(before.element) && after.element == old(after.element)
  {
    p.next := after;
    p.prev := before;
    after.prev := p;
    before.next := p;
    ghost var n := |ring|;
    forall i {:trigger ring[i].next} | 0 <= i < n && i != k ensures ring[i].next == ring[Succ(i, n)] {
      assert ring[i] != ring[k] && ring[i] != p;
    }
    forall i {:trigger ring[i].prev} | 0 <= i < n && i != Succ(k, n) ensures ring[i].prev == ring[Pred(i, n)] {
      assert ring[i] != ring[Succ(k, n)] && ring[i] != p;
    }
    LinkedRing(ring, k, p);
  }

  lemma LinkedRing<V>(ring: seq<Node<V>>, k: nat, p: Node<V>)
    requires k < |ring| && p.next == ring[Succ(k, |ring|)] && p.prev == ring[k]
    requires ring[k].next == p && ring[Succ(k, |ring|)].prev == p
    requires forall i {:trigger ring[i].next} :: 0 <= i < |ring| && i != k ==> ring[i].next == ring[Succ(i, |ring|)]
    requires forall i {:trigger ring[i].prev} :: 0 <= i < |ring| && i != Succ(k, |ring|) ==>
      ring[i].prev == ring[Pred(i, |ring|)]
    ensures Ring(With(ring, k + 1, p))
  {
    hide With;
    var ring', n := With(ring, k + 1, p), |ring|;
    WithAt(ring, k + 1, p, 0);
    forall i {:trigger ring'[i].next} | 0 <= i < n + 1 ensures ring'[i].next == ring'[Succ(i, n + 1)] {
      WithAt(ring, k + 1, p, i);
      WithAt(ring, k + 1, p, Succ(i, n + 1));
    }
    forall i {:trigger ring'[i].prev} | 0 <= i < n + 1 ensures ring'[i].prev == ring'[Pred(i, n + 1)] {
      WithAt(ring, k + 1, p, i);
      WithAt(ring, k + 1, p, Pred(i, n + 1));
    }
  }

  method Unlink<V>(p: Node<V>, ghost ring: seq<Node<V>>, ghost k: nat)
    requires 0 < k < |ring| && Ring(ring) && Distinct(ring) && p == ring[k]
    modifies ring[k - 1], ring[Succ(k, |ring|)]
    ensures Ring(Erase(ring, k))
    ensures ring[k - 1].element == old(ring[k - 1].element)
    ensures ring[Succ(k, |ring|)].element == old(ring[Succ(k, |ring|)].element)
  {
    hide Erase, Succ, Pred, Distinct;
    ghost var n := |ring|;
    ghost var before, after := k - 1, Succ(k, n);
    Neighbours(ring, k);
    p.prev.next := p.next;
    p.next.prev := p.prev;
    UnlinkedRing(ring, k);
  }

  // The nodes on either side of the one at `k`, and that nobody else is one of them.
  lemma Neighbours<V>(ring: seq<Node<V>>, k: nat)
    requires 0 < k < |ring| && Ring(ring) && Distinct(ring)
    ensures ring[k].prev == ring[k - 1] && ring[k].next == ring[Succ(k, |ring|)]
    ensures forall i {:trigger ring[i]} :: 0 <= i < |ring| && i != k - 1 ==> ring[i] != ring[k - 1]
    ensures forall i {:trigger ring[i]} :: 0 <= i < |ring| && i != Succ(k, |ring|) ==> ring[i] != ring[Succ(k, |ring|)]
  {
  }

  lemma UnlinkedRing<V>(ring: seq<Node<V>>, k: nat)
    requires 0 < k < |ring| && ring[k - 1].next == ring[Succ(k, |ring|)] && ring[Succ(k, |ring|)].prev == ring[k - 1]
    requires forall i {:trigger ring[i].next} :: 0 <= i < |ring| && i != k - 1 ==> ring[i].next == ring[Succ(i, |ring|)]
    requires forall i {:trigger ring[i].prev} :: 0 <= i < |ring| && i != Succ(k, |ring|) ==>
      ring[i].prev == ring[Pred(i, |ring|)]
    ensures Ring(Erase(ring, k))
  {
    hide Erase;
    var ring', n := Erase(ring, k), |ring|;
    EraseAt(ring, k, 0);
    forall i {:trigger ring'[i].next} | 0 <= i < n - 1 ensures ring'[i].next == ring'[Succ(i, n - 1)] {
      EraseAt(ring, k, i);
      EraseAt(ring, k, Succ(i, n - 1));
    }
    forall i {:trigger ring'[i].prev} | 0 <= i < n - 1 ensures ring'[i].prev == ring'[Pred(i, n - 1)] {
      EraseAt(ring, k, i);
      EraseAt(ring, k, Pred(i, n - 1));
    }
  }

  /** Going forward and then back, or back and then forward, from any node of the
      ring stays at that node. */
  lemma NextPrevInverse<V>(ring: seq<Node<V>>, i: nat)
    requires Ring(ring) && i < |ring|
    ensures ring[i].next != null && ring[i].next.prev == ring[i]
    ensures ring[i].prev != null && ring[i].prev.next == ring[i]
  {
    assert ring[Succ(i, |ring|)].prev == ring[i] && ring[Pred(i, |ring|)].next == ring[i];
  }

  class LinkedList<V> {
    var size: nat
    var freel: Node?<V>
    const sentinel: Node<V>
    ghost var ring: seq<Node<V>>
    ghost var free: seq<Node<V>>
    ghost var nodes: set<Node<V>>
    ghost var contents: seq<V>

    ghost function Footprint(): set<object>
      reads this
    {
      {this} + ToSet(ring) + ToSet(free)
    }

    // The ring holds the contents and the spare nodes hang off `freel`.
    ghost predicate Linked()
      reads this, ring, free
    {
      && Ring(ring) && Holds(ring, contents) && Spare(freel, free)
      && ring[0] == sentinel && size == |contents|
    }

    ghost predicate Valid()
      reads this, ring, free
    {
      Linked() && Accounted(ring, free, nodes) && |nodes| % FL_INCREMENT == 0
    }

    constructor ()
      ensures Valid() && contents == [] && nodes == {} && fresh(Footprint())
    {
      sentinel := new Node();
      size, freel := 0, null;
      free, nodes, contents := [], {}, [];
      ring := [sentinel];
      new;
      sentinel.next := sentinel;
      sentinel.prev := sentinel;
    }

    // ------------------------------------------------------------ free list

    method PutEntry(p: Node<V>)
      requires Spare(freel, free) && p !in free
      modifies this`freel, this`free, p
      ensures Spare(freel, free) && free == [p] + old(free)
    {
      p.element := None;
      p.next := freel;
      freel := p;
      free := [p] + free;
    }

    method AddSpare()
      requires Linked() && Accounted(ring, free, nodes)
      modifies this`freel, this`free, this`nodes
      ensures Linked() && Accounted(ring, free, nodes) && |free| == |old(free)| + 1
      ensures nodes >= old(nodes) && fresh(nodes - old(nodes)) && |nodes| == |old(nodes)| + 1
      ensures fresh(free[0]) && free == [free[0]] + old(free)
    {
      hide Ring, Holds, Accounted;
      var p := new Node();
      MoreAccounted(ring, free, nodes, p);
      PutEntry(p);
      nodes := nodes + {p};
    }

    method Refill()
      requires Linked() && Accounted(ring, free, nodes) && free == []
      modifies this`freel, this`free, this`nodes
      ensures Linked() && Accounted(ring, free, nodes) && |free| == FL_INCREMENT && fresh(free)
      ensures nodes >= old(nodes) && fresh(nodes - old(nodes)) && |nodes| == |old(nodes)| + FL_INCREMENT
    {
      hide Ring, Holds, Accounted, Spare;
      var i := 0;
      while i < FL_INCREMENT
        invariant 0 <= i <= FL_INCREMENT && Linked() && Accounted(ring, free, nodes) && |free| == i
        invariant nodes >= old(nodes) && fresh(nodes - old(nodes)) && |nodes| == |old(nodes)| + i
        invariant fresh(free)
      {
        AddSpare();
        i := i + 1;
      }
    }

    // The node handed out stands in front of the spare nodes in the account.
    method GetEntry() returns (p: Node<V>)
      requires Valid()
      modifies this`freel, this`free, this`nodes
      ensures Linked() && Accounted(ring, [p] + free, nodes) && |nodes| % FL_INCREMENT == 0
      ensures p in old(free) || fresh(p)
      ensures if old(free) != [] then nodes == old(nodes)
        else nodes >= old(nodes) && fresh(nodes - old(nodes)) && |nodes| == |old(nodes)| + FL_INCREMENT
    {
      hide Ring, Holds, Accounted;
      if freel == null {
        Refill();
      }
      p := freel;
      assert free == [p] + free[1..];
      freel := p.next;
      free := free[1..];
    }

    // The list's objects are its nodes and the sentinel.
    lemma Objects()
      requires Valid()
      ensures Footprint() == {this, sentinel} + nodes
    {
      hide Ring, Holds, Spare;
      AccountedObjects(ring, free, nodes);
    }

    // --------------------------------------------------- sequence operations

    // What an insertion may do to the allocated nodes: none is lost, and 128 are
    // added when none was spare.
    ghost predicate Grew(before: set<Node<V>>, spare: seq<Node<V>>)
      reads this
    {
      before <= nodes && |nodes| == |before| + if spare == [] then FL_INCREMENT else 0
    }

    method Attach(before: Node<V>, p: Node<V>, after: Node<V>, element: V, ghost k: nat)
      requires Linked() && Accounted(ring, [p] + free, nodes) && |nodes| % FL_INCREMENT == 0
      requires k <= size && before == ring[k] && after == ring[Succ(k, |ring|)]
      modifies this`size, this`ring, this`contents, p, before, after
      ensures Valid() && contents == With(old(contents), k, element)
    {
      hide Ring, Accounted, With, Spare;
      HandedOut(ring, free, nodes, p);
      assert before in ring && after in ring;
      WithAccounted(ring, free, nodes, p, k);
      p.element := Some(element);
      Link(before, p, after, ring, k);
      HoldsWith(ring, contents, p, k, element);
      ring, contents, size := With(ring, k + 1, p), With(contents, k, element), size + 1;
      WithAt(old(ring), k + 1, p, 0);
      WithAt(old(contents), k, element, 0);
    }

    // Follows `next` for a number of steps.
    method Walk(start: Node<V>, steps: nat, ghost from: nat) returns (p: Node<V>)
      requires Ring(ring) && from + steps < |ring| && start == ring[from]
      ensures p == ring[from + steps]
    {
      hide Ring;
      var n := 0;
      p := start;
      while n < steps
        invariant 0 <= n <= steps && p == ring[from + n]
      {
        p := Next(p, from + n);
        n := n + 1;
      }
    }

    method Next(b: Node<V>, ghost n: nat) returns (q: Node<V>)
      requires n < |ring| && b == ring[n] && Ring(ring)
      ensures q == ring[Succ(n, |ring|)]
    {
      assert ring[n].next == ring[Succ(n, |ring|)];
      q := b.next;
    }

    method Insert(index: nat, element: V) returns (ok: bool)
      requires Valid()
      modifies this, ring, free
      ensures Valid() && ok == (index <= old(size))
      ensures contents == if ok then With(old(contents), index, element) else old(contents)
      ensures if ok then Grew(old(nodes), old(free)) else nodes == old(nodes)
      ensures fresh(nodes - old(nodes))
    {
      hide Ring, Accounted, Spare, With;
      ok := index <= size;
      if ok {
        var p := GetEntry();
        var b := Walk(sentinel, index, 0);
        var after := Next(b, index);
        Attach(b, p, after, element, index);
      }
    }

    method AddFirst(element: V)
      requires Valid()
      modifies this, ring, free
      ensures Valid() && contents == [element] + old(contents)
      ensures Grew(old(nodes), old(free)) && fresh(nodes - old(nodes))
    {
      hide Ring, Accounted, Spare;
      var p := GetEntry();
      var after := Next(sentinel, 0);
      Attach(sentinel, p, after, element, 0);
    }

    method AddLast(element: V)
      requires Valid()
      modifies this, ring, free
      ensures Valid() && contents == old(contents) + [element]
      ensures Grew(old(nodes), old(free)) && fresh(nodes - old(nodes))
    {
      hide Accounted;
      var p := GetEntry();
      assert ring[0].prev == ring[Pred(0, |ring|)];
      Attach(sentinel.prev, p, sentinel, element, size);
    }

    method Add(element: V)
      requires Valid()
      modifies Footprint()
      ensures Valid() && contents == old(contents) + [element]
      ensures Grew(old(nodes), old(free))
      ensures forall o :: o in Footprint() ==> o in old(Footprint()) || fresh(o)
    {
      hide Linked, Accounted;
      Objects();
      AddLast(element);
      Objects();
    }

    method Detach(p: Node<V>, ghost k: nat) returns (element: V)
      requires Valid() && 0 < k <= size && p == ring[k]
      modifies this`size, this`freel, this`free, this`ring, this`contents, ring
      ensures Valid() && contents == Erase(old(contents), k - 1) && element == old(contents)[k - 1]
    {
      hide Ring, Spare, Erase, Accounted;
      AccountedApart(ring, free, nodes);
      EraseAccounted(ring, free, nodes, k);
      EraseSize(contents, k - 1);
      assert p.element == Some(contents[k - 1]) && p in ring;
      assert ring[k - 1] in ring && ring[Succ(k, |ring|)] in ring;
      element := p.element.value;
      Unlink(p, ring, k);
      HoldsErase(ring, contents, k);
      ring, contents := Erase(ring, k), Erase(contents, k - 1);
      HandedOut(ring, free, nodes, p);
      PutEntry(p);
      size := size - 1;
    }

    method RemoveAt(index: nat) returns (r: Option<V>)
      requires Valid()
      modifies Footprint()
      ensures Valid() && nodes == old(nodes) && Footprint() == old(Footprint())
      ensures contents == Erase(old(contents), index)
      ensures r == if index < |old(contents)| then Some(old(contents)[index]) else None
    {
      hide Ring, Spare, Accounted;
      r := None;
      Objects();
      if index < size {
        var first := Next(sentinel, 0);
        var p := Walk(first, index, 1);
        var e := Detach(p, index + 1);
        r := Some(e);
        Objects();
      }
    }

    method RemoveFirst() returns (r: Option<V>)
      requires Valid()
      modifies this, ring
      ensures Valid() && nodes == old(nodes)
      ensures if old(contents) == [] then r == None && contents == []
        else r == Some(old(contents)[0]) && contents == old(contents)[1..]
    {
      hide Ring, Spare, Accounted;
      r := None;
      var p := Next(sentinel, 0);
      SentinelOnce();
      if p != sentinel {
        var e := Detach(p, 1);
        r := Some(e);
      }
    }

    method RemoveLast() returns (r: Option<V>)
      requires Valid()
      modifies this, ring
      ensures Valid() && nodes == old(nodes)
      ensures if old(contents) == [] then r == None && contents == []
        else r == Some(old(contents)[|old(contents)| - 1]) && contents == old(contents)[..|old(contents)| - 1]
    {
      hide Spare, Accounted;
      r := None;
      assert ring[0].prev == ring[Pred(0, |ring|)];
      SentinelOnce();
      if sentinel.prev != sentinel {
        var e := Detach(sentinel.prev, size);
        r := Some(e);
      }
    }

    lemma SentinelOnce()
      requires Valid()
      ensures forall i :: 0 < i < |ring| ==> ring[i] != sentinel
    {
      AccountedApart(ring, free, nodes);
    }

    method Size() returns (n: nat)
      requires Valid()
      ensures n == |contents|
    {
      n := size;
    }

    method Get(index: nat) returns (r: Option<V>)
      requires Valid()
      ensures r == if index < |contents| then Some(contents[index]) else None
    {
      hide Ring, Spare, Accounted;
      r := None;
      if index < size {
        var first := Next(sentinel, 0);
        var p := Walk(first, index, 1);
        r := p.element;
      }
    }

    method Set(index: nat, element: V) returns (previous: Option<V>)
      requires Valid()
      modifies this`contents, ring
      ensures Valid() && nodes == old(nodes)
      ensures contents == if index < |old(contents)| then old(contents)[index := element] else old(contents)
      ensures previous == if index < |old(contents)| then Some(old(contents)[index]) else None
    {
      hide Spare, Accounted;
      previous := None;
      if index < size {
        var first := Next(sentinel, 0);
        var p := Walk(first, index, 1);
        previous := p.element;
        Overwrite(p, index, element);
      }
    }

    method Overwrite(p: Node<V>, index: nat, element: V)
      requires Valid() && index < size && p == ring[index + 1]
      modifies this`contents, p`element
      ensures Valid() && contents == old(contents)[index := element]
    {
      AccountedApart(ring, free, nodes);
      hide Accounted;
      assert p in ring;
      p.element := Some(element);
      contents := contents[index := element];
      assert forall i :: 0 <= i < |ring| && i != index + 1 ==> ring[i] != p;
    }

    /** The elements in order, or null when there are none. */
    method ToArray() returns (tmp: array?<Option<V>>)
      requires Valid()
      ensures tmp == null <==> contents == []
      ensures tmp != null ==> fresh(tmp) && tmp.Length == |contents|
      ensures tmp != null ==> forall i :: 0 <= i < |contents| ==> tmp[i] == Some(contents[i])
    {
      hide Ring, Spare, Accounted;
      if size == 0 {
        return null;
      }
      tmp := new Option<V>[size](_ => None);
      var i := 0;
      var p := Next(sentinel, 0);
      while i < size
        modifies tmp
        invariant 0 <= i <= size && p == ring[if i == size then 0 else i + 1]
        invariant forall j :: 0 <= j < i ==> tmp[j] == Some(contents[j])
      {
        tmp[i] := p.element;
        p := Next(p, i + 1);
        i := i + 1;
      }
    }

    // ------------------------------------------------------ clearing, freeing

    // From position `k` on the ring is linked and filled as it was.
    ghost predicate Left(k: nat)
      reads this, ring
    {
      && |ring| == |contents| + 1
      && (forall i {:trigger ring[i].next} :: k <= i < |ring| ==> ring[i].next == ring[Succ(i, |ring|)])
      && (forall i {:trigger ring[i].element} :: 1 <= k <= i < |ring| ==> ring[i].element == Some(contents[i - 1]))
    }

    method PurgeOne(cur: Node<V>, ghost k: nat) returns (next: Node<V>, element: V)
      requires 1 <= k < |ring| && cur == ring[k] && Distinct(ring)
      requires Left(k) && Spare(freel, free) && cur !in free
      modifies this`freel, this`free, cur
      ensures Left(k + 1) && Spare(freel, free) && free == [cur] + old(free)
      ensures element == contents[k - 1] && next == ring[Succ(k, |ring|)]
    {
      hide Spare;
      assert ring[k].next == ring[Succ(k, |ring|)] && ring[k].element == Some(contents[k - 1]);
      element := cur.element.value;
      next := cur.next;
      PutEntry(cur);
    }

    lemma Unpurged()
      requires Linked()
      ensures Left(1) && |ring| == |contents| + 1
    {
    }

    // Moves every ring node to the free list; `handed` is what was passed to the
    // free function, in order.
    method Purge() returns (handed: seq<V>)
      requires Valid()
      modifies this`freel, this`free, ring
      ensures Spare(freel, free) && handed == contents
      ensures multiset(free) == multiset(ring[1..]) + multiset(old(free))
    {
      hide Ring, Holds, Accounted, Spare, Distinct, Left, Aside, Bag, Starts;
      Unpurged();
      AllAside(ring, free, nodes);
      NoneYet(ring, contents);
      handed := [];
      var cur := Next(sentinel, 0);
      SentinelOnce();
      ghost var k := 1;
      while cur != sentinel
        invariant 1 <= k <= |ring| == |contents| + 1 && cur == ring[if k == |ring| then 0 else k]
        invariant Left(k) && Spare(freel, free) && Starts(contents, handed, k - 1)
        invariant Aside(ring, k, free) && multiset(free) == Bag(ring, k) + multiset(old(free))
        decreases |ring| - k
      {
        OneMoreAside(ring, k, free);
        var next, element := PurgeOne(cur, k);
        OneMoreStarts(contents, handed, k - 1);
        handed := handed + [element];
        cur := next;
        k := k + 1;
      }
      AllOfIt(ring, contents, handed);
    }

    method Clear() returns (handed: seq<V>)
      requires Valid()
      modifies this, ring, free
      ensures Valid() && contents == [] && nodes == old(nodes) && handed == old(contents)
    {
      hide Spare, Accounted, Ring;
      handed := Purge();
      EmptiedAccount(ring, old(free), free, nodes);
      sentinel.next := sentinel;
      sentinel.prev := sentinel;
      size, ring, contents := 0, [sentinel], [];
      Alone(sentinel);
    }

    /** Releases every node ever allocated for the list exactly once. */
    method Destroy() returns (handed: seq<V>, released: seq<Node<V>>)
      requires Valid()
      modifies this`freel, this`free, ring
      ensures handed == contents && multiset(released) == multiset(nodes)
    {
      hide Accounted, Ring, Holds;
      handed := Purge();
      EmptiedAccount(ring, old(free), free, nodes);
      released := [];
      var p := freel;
      ghost var k := 0;
      while p != null
        modifies {}
        invariant 0 <= k <= |free| && p == At(free, k) && released == free[..k]
        decreases |free| - k
      {
        var q := p.next;
        released := released + [p];
        p, k := q, k + 1;
      }
      assert free[..k] == free;
    }
  }

  // Every node was allocated for this list and is in one place only.
  ghost predicate Accounted<V>(ring: seq<Node<V>>, free: seq<Node<V>>, nodes: set<Node<V>>) {
    && |ring| > 0 && ring[0] !in nodes
    && multiset(ring) + multiset(free) == multiset(nodes + {ring[0]})
  }

  lemma MoreAccounted<V>(ring: seq<Node<V>>, free: seq<Node<V>>, nodes: set<Node<V>>, p: Node<V>)
    requires Accounted(ring, free, nodes) && p !in nodes && p != ring[0]
    ensures Accounted(ring, [p] + free, nodes + {p})
    ensures p !in free && p !in ring && |nodes + {p}| == |nodes| + 1
  {
    var all: set<Node<V>> := nodes + {ring[0]};
    assert multiset(all)[p] == 0;
    assert p !in multiset(ring) && p !in multiset(free);
    assert multiset([p] + free) == multiset{p} + multiset(free);
    assert nodes + {p} + {ring[0]} == all + {p} && multiset(all + {p}) == multiset(all) + multiset{p};
  }

  lemma WithAccounted<V>(ring: seq<Node<V>>, free: seq<Node<V>>, nodes: set<Node<V>>, p: Node<V>, k: nat)
    requires k < |ring| && Accounted(ring, [p] + free, nodes)
    ensures Accounted(With(ring, k + 1, p), free, nodes)
  {
    WithBag(ring, k + 1, p);
    WithAt(ring, k + 1, p, 0);
    assert multiset([p] + free) == multiset{p} + multiset(free);
  }

  lemma EraseAccounted<V>(ring: seq<Node<V>>, free: seq<Node<V>>, nodes: set<Node<V>>, k: nat)
    requires 0 < k < |ring| && Accounted(ring, free, nodes)
    ensures Accounted(Erase(ring, k), [ring[k]] + free, nodes)
  {
    EraseBag(ring, k);
    EraseAt(ring, k, 0);
    assert multiset([ring[k]] + free) == multiset{ring[k]} + multiset(free);
  }

  lemma HandedOut<V>(ring: seq<Node<V>>, free: seq<Node<V>>, nodes: set<Node<V>>, p: Node<V>)
    requires Accounted(ring, [p] + free, nodes)
    ensures Distinct(ring) && p !in ring && p !in free && forall q :: q in ring ==> q !in free
  {
    hide Accounted;
    AccountedApart(ring, [p] + free, nodes);
    var spare := [p] + free;
    assert spare[0] == p && free == spare[1..];
    assert forall q :: q in free ==> q in spare;
    forall i | 0 <= i < |free| ensures free[i] != p {
      assert spare[i + 1] == free[i] && spare[0] != spare[i + 1];
    }
  }

  /** Ring and free list share no node, repeat none, and hold every allocated node. */
  lemma AccountedApart<V>(ring: seq<Node<V>>, free: seq<Node<V>>, nodes: set<Node<V>>)
    requires Accounted(ring, free, nodes)
    ensures Distinct(ring) && Distinct(free) && (forall p :: p in ring ==> p !in free)
    ensures |ring| - 1 + |free| == |nodes|
  {
    var all: set<Node<V>> := nodes + {ring[0]};
    BagDistinct(ring, all);
    BagDistinct(free, all);
    forall p | p in ring ensures p !in free {
      assert multiset(all)[p] <= 1;
      assert multiset(ring)[p] > 0;
    }
    assert |multiset(ring) + multiset(free)| == |ring| + |free|;
    assert |multiset(all)| == |all| == |nodes| + 1;
  }

  lemma AccountedObjects<V>(ring: seq<Node<V>>, free: seq<Node<V>>, nodes: set<Node<V>>)
    requires Accounted(ring, free, nodes)
    ensures ToSet(ring) + ToSet(free) == nodes + {ring[0]}
  {
    var all: set<Node<V>> := nodes + {ring[0]};
    forall p: Node<V> ensures p in ToSet(ring) + ToSet(free) <==> p in all {
      assert p in all <==> multiset(all)[p] > 0;
      assert p in ring <==> multiset(ring)[p] > 0;
      assert p in free <==> multiset(free)[p] > 0;
    }
  }

  lemma HoldsWith<V>(ring: seq<Node<V>>, contents: seq<V>, p: Node<V>, k: nat, element: V)
    requires Holds(ring, contents) && k <= |contents| && p.element == Some(element)
    ensures Holds(With(ring, k + 1, p), With(contents, k, element))
  {
    hide With;
    WithAt(ring, k + 1, p, 0);
    WithAt(contents, k, element, 0);
    forall i | 0 <= i < |contents| + 1
      ensures With(ring, k + 1, p)[i + 1].element == Some(With(contents, k, element)[i]) {
      WithAt(ring, k + 1, p, i + 1);
      WithAt(contents, k, element, i);
    }
  }

  lemma HoldsErase<V>(ring: seq<Node<V>>, contents: seq<V>, k: nat)
    requires Holds(ring, contents) && 0 < k <= |contents|
    ensures Holds(Erase(ring, k), Erase(contents, k - 1)) && Erase(ring, k)[0] == ring[0]
  {
    hide Erase;
    var ring', contents' := Erase(ring, k), Erase(contents, k - 1);
    EraseSize(contents, k - 1);
    EraseAt(ring, k, 0);
    forall i | 0 <= i < |contents| - 1 ensures ring'[i + 1].element == Some(contents'[i]) {
      EraseAt(ring, k, i + 1);
      EraseAt(contents, k - 1, i);
    }
  }

  lemma EmptiedAccount<V>(ring: seq<Node<V>>, free: seq<Node<V>>, free': seq<Node<V>>, nodes: set<Node<V>>)
    requires Accounted(ring, free, nodes) && multiset(free') == multiset(ring[1..]) + multiset(free)
    ensures Accounted([ring[0]], free', nodes) && multiset(free') == multiset(nodes)
    ensures ring[0] !in free'
  {
    assert ring == [ring[0]] + ring[1..];
    assert multiset(nodes + {ring[0]}) == multiset(nodes) + multiset{ring[0]};
    assert multiset(nodes)[ring[0]] == 0;
    assert multiset(free') + multiset{ring[0]} == multiset(nodes) + multiset{ring[0]};
    BagCancel(multiset(free'), multiset(nodes), ring[0]);
    assert ring[0] !in multiset(free');
  }

  lemma BagCancel<T>(a: multiset<T>, b: multiset<T>, x: T)
    requires a + multiset{x} == b + multiset{x}
    ensures a == b
  {
    forall y ensures a[y] == b[y] {
      assert (a + multiset{x})[y] == (b + multiset{x})[y];
    }
  }

  lemma Alone<V>(sentinel: Node<V>)
    requires sentinel.next == sentinel && sentinel.prev == sentinel
    ensures Ring([sentinel])
  {
  }

  // No node of the ring from position `k` on is spare.
  ghost predicate Aside<V>(ring: seq<Node<V>>, k: nat, free: seq<Node<V>>) {
    forall i :: k <= i < |ring| ==> ring[i] !in free
  }

  lemma OneMoreAside<V>(ring: seq<Node<V>>, k: nat, free: seq<Node<V>>)
    requires Distinct(ring) && 1 <= k < |ring| && Aside(ring, k, free)
    ensures ring[k] !in free && Aside(ring, k + 1, [ring[k]] + free)
    ensures Bag(ring, k + 1) == Bag(ring, k) + multiset{ring[k]}
    ensures multiset([ring[k]] + free) == multiset(free) + multiset{ring[k]}
  {
    assert ring[1..k + 1] == ring[1..k] + [ring[k]];
  }

  // The nodes after the sentinel and before position `k`.
  ghost function Bag<V>(ring: seq<Node<V>>, k: nat): multiset<Node<V>>
    requires 1 <= k <= |ring|
  {
    multiset(ring[1..k])
  }

  ghost predicate Starts<V>(contents: seq<V>, handed: seq<V>, k: nat) {
    k <= |contents| && handed == contents[..k]
  }

  lemma OneMoreStarts<V>(contents: seq<V>, handed: seq<V>, k: nat)
    requires Starts(contents, handed, k) && k < |contents|
    ensures Starts(contents, handed + [contents[k]], k + 1)
  {
  }

  lemma NoneYet<V>(ring: seq<Node<V>>, contents: seq<V>)
    requires |ring| > 0
    ensures Bag(ring, 1) == multiset{} && Starts(contents, [], 0)
  {
  }

  lemma AllOfIt<V>(ring: seq<Node<V>>, contents: seq<V>, handed: seq<V>)
    requires |ring| > 0 && Starts(contents, handed, |contents|)
    ensures Bag(ring, |ring|) == multiset(ring[1..]) && handed == contents
  {
    assert ring[1..|ring|] == ring[1..];
  }

  lemma AllAside<V>(ring: seq<Node<V>>, free: seq<Node<V>>, nodes: set<Node<V>>)
    requires Accounted(ring, free, nodes)
    ensures Distinct(ring) && Aside(ring, 1, free)
  {
    AccountedApart(ring, free, nodes);
  }
}
