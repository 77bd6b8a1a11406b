/** Options, and sequences as the code uses vectors: search, erase, prefixes. */
module Lists {

  datatype Option<T> = None | Some(value: T)

  predicate Distinct<T(==)>(s: seq<T>) {
    forall i, j :: 0 <= i < j < |s| ==> s[i] != s[j]
  }

  function ToSet<T>(s: seq<T>): set<T> {
    set x | x in s
  }

  // What exists now is not among what is allocated later.
  lemma Existing(objects: set<object>) returns (same: set<object>)
    ensures same == objects
  {
    same := objects;
  }

  // The first position of `x`, or the length when there is none.
  function IndexOf<T(==)>(s: seq<T>, x: T): (i: nat)
    ensures i <= |s| && x !in s[..i]
    ensures i < |s| ==> s[i] == x
    ensures i == |s| <==> x !in s
  {
    if s == [] then 0
    else if s[0] == x then 0
    else
      assert forall k :: 0 < k <= |s| ==> s[..k] == [s[0]] + s[1..][..k - 1];
      1 + IndexOf(s[1..], x)
  }

  lemma FirstAt<T>(s: seq<T>, x: T, i: nat)
    requires i < |s| && s[i] == x && x !in s[..i]
    ensures IndexOf(s, x) == i
  {
    var k := IndexOf(s, x);
    forall l | 0 <= l < i ensures s[l] != x {
      assert s[..i][l] == s[l];
    }
    forall l | 0 <= l < k ensures s[l] != x {
      assert s[..k][l] == s[l];
    }
  }

  function Erase<T>(s: seq<T>, i: nat): seq<T> {
    if i < |s| then s[..i] + s[i + 1..] else s
  }

  lemma EraseAt<T>(s: seq<T>, i: nat, k: nat)
    requires i < |s| && k < |s| - 1
    ensures |Erase(s, i)| == |s| - 1 && Erase(s, i)[k] == s[if k < i then k else k + 1]
  {
  }

  lemma EraseSize<T>(s: seq<T>, i: nat)
    requires i < |s|
    ensures |Erase(s, i)| == |s| - 1
  {
  }

  // `s` with `x` at position `k`.
  function With<T>(s: seq<T>, k: nat, x: T): seq<T>
    requires k <= |s|
  {
    s[..k] + [x] + s[k..]
  }

  lemma WithAt<T>(s: seq<T>, k: nat, x: T, i: nat)
    requires k <= |s| && i <= |s|
    ensures |With(s, k, x)| == |s| + 1
    ensures With(s, k, x)[i] == if i < k then s[i] else if i == k then x else s[i - 1]
  {
  }

  lemma EraseMembers<T>(s: seq<T>, i: nat)
    requires Distinct(s)
    ensures forall x :: x in Erase(s, i) <==> x in s && (i < |s| ==> x != s[i])
  {
    if i < |s| {
      forall x | x in s && x != s[i] ensures x in Erase(s, i) {
        var k :| 0 <= k < |s| && s[k] == x;
        EraseAt(s, i, if k < i then k else k - 1);
      }
      forall x | x in Erase(s, i) ensures x in s && x != s[i] {
        var k :| 0 <= k < |Erase(s, i)| && Erase(s, i)[k] == x;
        EraseAt(s, i, k);
      }
    }
  }

  lemma EraseDistinct<T>(s: seq<T>, i: nat)
    requires Distinct(s)
    ensures Distinct(Erase(s, i))
    ensures forall x :: x in Erase(s, i) <==> x in s && (i < |s| ==> x != s[i])
    ensures ToSet(Erase(s, i)) == if i < |s| then ToSet(s) - {s[i]} else ToSet(s)
  {
    EraseMembers(s, i);
    if i < |s| {
      forall k, l | 0 <= k < l < |Erase(s, i)| ensures Erase(s, i)[k] != Erase(s, i)[l] {
        EraseAt(s, i, k);
        EraseAt(s, i, l);
      }
    }
  }

  lemma ConcatDistinct<T>(a: seq<T>, b: seq<T>)
    requires Distinct(a) && Distinct(b) && forall x :: x in b ==> x !in a
    ensures Distinct(a + b)
  {
    forall i, j | 0 <= i < j < |a + b| ensures (a + b)[i] != (a + b)[j] {
      if i < |a| <= j {
        assert b[j - |a|] in b && a[i] in a;
      }
    }
  }

  lemma PrefixSet<T>(s: seq<T>, i: nat)
    requires i <= |s|
    ensures s[..|s|] == s && ToSet(s[..0]) == {}
    ensures i < |s| ==> s[..i + 1] == s[..i] + [s[i]] && ToSet(s[..i + 1]) == ToSet(s[..i]) + {s[i]}
  {
  }

  lemma InPrefix<T>(s: seq<T>, i: nat)
    requires Distinct(s) && i < |s|
    ensures s[i] in ToSet(s) - ToSet(s[..i])
  {
  }

  lemma DistinctSize<T>(s: seq<T>)
    requires Distinct(s)
    ensures |ToSet(s)| == |s|
  {
    DistinctBag(s);
    assert |multiset(s)| == |s|;
    assert |multiset(ToSet(s))| == |ToSet(s)|;
  }

  lemma {:induction false} DistinctBag<T>(s: seq<T>)
    requires Distinct(s)
    ensures multiset(s) == multiset(ToSet(s))
    decreases |s|
  {
    if s == [] {
    } else {
      var n := |s| - 1;
      var r := s[..n];
      DistinctBag(r);
      assert s == r + [s[n]];
      assert ToSet(s) == ToSet(r) + {s[n]};
      assert s[n] !in r;
    }
  }

  lemma WithBag<T>(s: seq<T>, k: nat, x: T)
    requires k <= |s|
    ensures multiset(With(s, k, x)) == multiset(s) + multiset{x}
  {
    assert s == s[..k] + s[k..];
  }

  lemma EraseBag<T>(s: seq<T>, k: nat)
    requires k < |s|
    ensures multiset(Erase(s, k)) + multiset{s[k]} == multiset(s)
  {
    assert s == s[..k] + [s[k]] + s[k + 1..];
  }

  lemma BagDistinct<T>(s: seq<T>, wanted: set<T>)
    requires multiset(s) <= multiset(wanted)
    ensures Distinct(s)
  {
    forall i, j | 0 <= i < j < |s| ensures s[i] != s[j] {
      EraseBag(s, i);
      EraseAt(s, i, j - 1);
      assert s[j] in Erase(s, i);
      assert multiset(wanted)[s[j]] <= 1;
    }
  }
}
