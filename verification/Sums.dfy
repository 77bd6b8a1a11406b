/** Sums over finite sets. */
module Sums {

  ghost function Sum<T>(s: set<T>, f: map<T, nat>): nat
    requires s <= f.Keys
  {
    if s == {} then 0
    else
      var x :| x in s;
      f[x] + Sum(s - {x}, f)
  }

  lemma {:induction false} SumMinus<T>(s: set<T>, f: map<T, nat>, x: T)
    requires s <= f.Keys && x in s
    ensures Sum(s, f) == f[x] + Sum(s - {x}, f)
    decreases |s|
  {
    var y :| y in s && Sum(s, f) == f[y] + Sum(s - {y}, f);
    if x != y {
      SumMinus(s - {y}, f, x);
      SumMinus(s - {x}, f, y);
      assert s - {y} - {x} == s - {x} - {y};
    }
  }

  lemma {:induction false} SumAgrees<T>(s: set<T>, f: map<T, nat>, g: map<T, nat>)
    requires s <= f.Keys && s <= g.Keys && forall x :: x in s ==> f[x] == g[x]
    ensures Sum(s, f) == Sum(s, g)
    decreases |s|
  {
    if x :| x in s {
      SumMinus(s, f, x);
      SumMinus(s, g, x);
      SumAgrees(s - {x}, f, g);
    }
  }

  // Where only the value at `x` differs, so does the sum.
  lemma SumChanges<T>(s: set<T>, f: map<T, nat>, g: map<T, nat>, x: T)
    requires s <= f.Keys && s <= g.Keys && x in s && forall y :: y in s && y != x ==> f[y] == g[y]
    ensures Sum(s, f) + g[x] == Sum(s, g) + f[x]
  {
    SumMinus(s, f, x);
    SumMinus(s, g, x);
    SumAgrees(s - {x}, f, g);
  }
}
