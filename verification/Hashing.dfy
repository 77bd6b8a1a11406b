/**
 The arithmetic of the chained hash table: the key hash, and the bookkeeping of
 its size, capacity, load and count of changes.
*/
module Hashing {

  const SHIFT: nat := 7

  // --------------------------------------------------------------- key hash

  // The hash as it is accumulated, character by character.
  function Hash(key: string, n: nat): (h: nat)
    requires n > 0
    ensures h < n
    decreases |key|
  {
    if key == "" then 0
    else (SHIFT * Hash(key[..|key| - 1], n) + key[|key| - 1] as int) % n
  }

  method ComputeHash(key: string, n: nat) returns (ans: nat)
    requires n > 0
    ensures ans == Hash(key, n)
  {
    ans := 0;
    var i := 0;
    while i < |key|
      invariant 0 <= i <= |key| && ans == Hash(key[..i], n)
    {
      assert key[..i + 1][..i] == key[..i];
      ans := (SHIFT * ans + key[i] as int) % n;
      i := i + 1;
    }
    assert key[..i] == key;
  }

  // The key read as a number in base seven.
  function Polynomial(key: string): nat
    decreases |key|
  {
    if key == "" then 0
    else SHIFT * Polynomial(key[..|key| - 1]) + key[|key| - 1] as int
  }

  lemma PolynomialStep(key: string, c: char)
    ensures Polynomial("") == 0 && Polynomial(key + [c]) == 7 * Polynomial(key) + c as int
  {
    assert (key + [c])[..|key|] == key;
  }

  lemma {:induction false} HashIsPolynomial(key: string, n: nat)
    requires n > 0
    ensures Hash(key, n) == Polynomial(key) % n
    decreases |key|
  {
    if key != "" {
      HashIsPolynomial(key[..|key| - 1], n);
      ModStep(Polynomial(key[..|key| - 1]), key[|key| - 1] as int, n);
    }
  }

  lemma ModStep(p: nat, c: nat, n: nat)
    requires n > 0
    ensures (SHIFT * (p % n) + c) % n == (SHIFT * p + c) % n
  {
    DivMod(p, n);
    var q := p / n;
    assert SHIFT * (q * n) == (SHIFT * q) * n;
    var k: nat := SHIFT * q;
    assert SHIFT * p + c == SHIFT * (p % n) + c + k * n;
    ModMultiple(SHIFT * (p % n) + c, k, n);
  }

  lemma DivMod(x: nat, n: nat)
    requires n > 0
    ensures x == (x / n) * n + x % n && x % n < n && x / n >= 0
  {
  }

  lemma MultipleBounds(d: int, n: int)
    requires n > 0
    ensures d >= 1 ==> d * n >= n
    ensures d <= -1 ==> d * n <= -n
  {
    if d >= 1 {
      assert (d - 1) * n >= 0;
    } else {
      assert (-1 - d) * n >= 0 || d == 0;
    }
  }

  lemma NoMultipleBetween(d: int, n: int)
    requires n > 0 && -n < d * n < n
    ensures d == 0
  {
    MultipleBounds(d, n);
  }

  lemma ModUnique(x: nat, q: nat, r: nat, n: nat)
    requires r < n && x == q * n + r
    ensures x % n == r && x / n == q
  {
    DivMod(x, n);
    var d := q - x / n;
    assert d * n == q * n - (x / n) * n;
    NoMultipleBetween(d, n);
  }

  lemma ModMultiple(x: nat, k: nat, n: nat)
    requires n > 0
    ensures (x + k * n) % n == x % n
  {
    DivMod(x, n);
    assert (x / n + k) * n == (x / n) * n + k * n;
    ModUnique(x + k * n, x / n + k, x % n, n);
  }

  lemma ModDouble(p: nat, n: nat)
    requires n > 0
    ensures p % n == (p % (2 * n)) % n
    ensures p % (2 * n) == p % n || p % (2 * n) == p % n + n
  {
    var h, q := p % (2 * n), p / (2 * n);
    DivMod(p, 2 * n);
    assert q * (2 * n) == (2 * q) * n;
    ModMultiple(h, 2 * q, n);
    if h < n {
      ModUnique(h, 0, h, n);
    } else {
      ModUnique(h, 1, h - n, n);
    }
  }

  /** Doubling the number of buckets splits bucket `h` into `h` and `h + n`. */
  lemma HashSplits(key: string, n: nat)
    requires n > 0
    ensures Hash(key, n) == Hash(key, 2 * n) % n
    ensures Hash(key, 2 * n) == Hash(key, n) || Hash(key, 2 * n) == Hash(key, n) + n
  {
    HashIsPolynomial(key, n);
    HashIsPolynomial(key, 2 * n);
    ModDouble(Polynomial(key), n);
  }

  /** With at most 2^27 buckets and seven-bit characters no partial result
      leaves 32 bits. */
  lemma HashFits(key: string, n: nat, i: nat)
    requires 0 < n <= MAX_CAPACITY && i < |key| && key[i] as int < 128
    ensures SHIFT * Hash(key[..i], n) + key[i] as int < 0x8000_0000
  {
    assert Hash(key[..i], n) < n;
  }

  // ------------------------------------------------------------ bookkeeping

  const MAX_CAPACITY: nat := 134217728

  const TRIGGER: nat := 100

  datatype Meter = Meter(size: nat, capacity: nat, changes: nat, load: real)

  function Start(capacity: nat): Meter {
    Meter(0, capacity, 0, 0.0)
  }

  // A doubling is cut off at the maximum; at the maximum nothing happens.
  function Grown(m: Meter): Meter {
    var n := if 2 * m.capacity > MAX_CAPACITY then MAX_CAPACITY else 2 * m.capacity;
    if n == m.capacity then m
    else Meter(m.size, n, 0, m.load / 2.0)
  }

  // The load is only looked at once more than `TRIGGER` changes were made.
  function Checked(m: Meter, factor: real): Meter {
    if m.changes > TRIGGER then
      var m' := m.(changes := 0);
      if m.load > factor then Grown(m') else m'
    else m
  }

  function Inserted(m: Meter): Meter
    requires m.capacity > 0
  {
    Meter(m.size + 1, m.capacity, m.changes + 1, m.load + 1.0 / m.capacity as real)
  }

  function Removed(m: Meter): Meter
    requires m.capacity > 0 && m.size > 0
  {
    Meter(m.size - 1, m.capacity, m.changes + 1, m.load - 1.0 / m.capacity as real)
  }

  function Cleared(m: Meter): Meter {
    Meter(0, m.capacity, 0, 0.0)
  }

  datatype Op = PutNew | PutOld | Remove | Clear

  // What an operation on the table does to its bookkeeping.
  function Apply(m: Meter, op: Op, factor: real): Meter
    requires m.capacity > 0 && (op.Remove? ==> m.size > 0)
    ensures Apply(m, op, factor).capacity >= m.capacity || m.capacity > MAX_CAPACITY
  {
    match op
    case PutNew => Inserted(Checked(m, factor))
    case PutOld => Checked(m, factor)
    case Remove => Removed(m)
    case Clear => Cleared(m)
  }

  /** The table grows only in a put that finds more than a hundred changes and too
      high a load; then it doubles, up to the maximum, and counts changes afresh. */
  lemma GrowthLaw(m: Meter, op: Op, factor: real)
    requires 0 < m.capacity <= 134217728 && (op.Remove? ==> m.size > 0)
    ensures
      var after, looked := Apply(m, op, factor), (op.PutNew? || op.PutOld?) && m.changes > 100;
      && after.capacity == (if looked && m.load > factor
                            then if 2 * m.capacity <= 134217728 then 2 * m.capacity else 134217728
                            else m.capacity)
      && after.changes == (if op.Clear? then 0 else if looked then 0 else m.changes)
                          + (if op.PutNew? || op.Remove? then 1 else 0)
      && after.size == (match op case PutNew => m.size + 1 case PutOld => m.size
                        case Remove => m.size - 1 case Clear => 0)
  {
  }

  // `m` is what some sequence of operations makes of a fresh table.
  ghost predicate Reached(initial: nat, factor: real, ops: seq<Op>, m: Meter)
    requires 0 < initial <= MAX_CAPACITY
    decreases |ops|
  {
    if ops == [] then m == Start(initial)
    else
      var n := |ops| - 1;
      var before, last := ops[..n], ops[n];
      exists p: Meter :: Reached(initial, factor, before, p) && Leads(p, last, factor, m)
  }

  predicate Leads(p: Meter, op: Op, factor: real, m: Meter) {
    p.capacity > 0 && (op.Remove? ==> p.size > 0) && m == Apply(p, op, factor)
  }

  lemma ReachedNext(initial: nat, factor: real, ops: seq<Op>, m: Meter, op: Op)
    requires 0 < initial <= MAX_CAPACITY && Reached(initial, factor, ops, m) && m.capacity > 0
    requires op.Remove? ==> m.size > 0
    ensures Reached(initial, factor, ops + [op], Apply(m, op, factor))
  {
    hide Apply;
    assert (ops + [op])[..|ops|] == ops;
    assert Leads(m, op, factor, Apply(m, op, factor));
  }

  // The tracked load is the true load, and the size is within what the check of
  // a hundred changes ago allowed plus the changes since.
  ghost predicate Balanced(m: Meter, initial: nat, factor: real, scale: nat)
    requires initial > 0
  {
    && scale >= 1 && m.capacity == initial * scale && m.capacity <= MAX_CAPACITY
    && m.load == m.size as real / m.capacity as real
    && m.size as real <=
       factor * m.capacity as real + (101 * (scale - 1) + if m.changes > 101 then 101 else m.changes) as real
  }

  lemma DoubledBound(f: real, c: real, s: real, e: real, e': real)
    requires f >= 0.0 && c >= 0.0 && s <= f * c + e && e <= e'
    ensures s <= f * (2.0 * c) + e'
  {
    assert f * c >= 0.0;
    assert f * (2.0 * c) == f * c + f * c;
  }

  lemma DoubleScale(initial: nat, scale: nat)
    ensures 2 * (initial * scale) == initial * (2 * scale)
  {
  }

  // A doubling that stays below the maximum is whole.
  lemma GrownShape(m: Meter)
    requires 0 < m.capacity < MAX_CAPACITY && Grown(m).capacity < MAX_CAPACITY
    ensures Grown(m) == Meter(m.size, 2 * m.capacity, 0, m.load / 2.0)
  {
  }

  lemma GrownIsBalanced(m: Meter, initial: nat, factor: real, scale: nat)
    requires initial > 0 && factor > 0.0 && Balanced(m, initial, factor, scale)
    requires m.changes > TRIGGER && m.capacity < MAX_CAPACITY && Grown(m.(changes := 0)).capacity < MAX_CAPACITY
    ensures Balanced(Grown(m.(changes := 0)), initial, factor, 2 * scale)
  {
    hide Grown;
    var c := m.capacity as real;
    var extra := (101 * (scale - 1) + if m.changes > 101 then 101 else m.changes) as real;
    BalancedCapacity(m, initial, factor, scale);
    GrownShape(m.(changes := 0));
    DoubleScale(initial, scale);
    HalfLoad(m.size as real, c);
    DoubledBound(factor, c, m.size as real, extra, (101 * (2 * scale - 1)) as real);
  }

  lemma HalfLoad(s: real, c: real)
    requires c > 0.0
    ensures (s / c) / 2.0 == s / (2.0 * c)
  {
    var q := s / c;
    assert s == q * c;
    assert (q / 2.0) * (2.0 * c) == s;
  }

  lemma QuotientBound(s: real, c: real, q: real, f: real)
    requires c > 0.0 && q == s / c && q <= f
    ensures s <= f * c
  {
    assert s == q * c;
    assert (f - q) * c >= 0.0;
  }

  // A check that finds the load low enough starts counting again.
  lemma LookedIsBalanced(m: Meter, initial: nat, factor: real, scale: nat)
    requires initial > 0 && Balanced(m, initial, factor, scale) && m.capacity > 0 && m.load <= factor
    ensures Balanced(m.(changes := 0), initial, factor, scale)
  {
    QuotientBound(m.size as real, m.capacity as real, m.load, factor);
    assert 101 * (scale - 1) >= 0;
  }

  lemma BalancedCapacity(m: Meter, initial: nat, factor: real, scale: nat)
    requires initial > 0 && Balanced(m, initial, factor, scale)
    ensures 0 < m.capacity <= MAX_CAPACITY
  {
  }

  lemma CheckedIsBalanced(m: Meter, initial: nat, factor: real, scale: nat) returns (scale': nat)
    requires initial > 0 && factor > 0.0 && Balanced(m, initial, factor, scale)
    requires Checked(m, factor).capacity < MAX_CAPACITY
    ensures Balanced(Checked(m, factor), initial, factor, scale') && Checked(m, factor).changes <= TRIGGER
  {
    hide Balanced;
    scale' := scale;
    BalancedCapacity(m, initial, factor, scale);
    if m.changes > TRIGGER {
      if m.load > factor {
        GrownIsBalanced(m, initial, factor, scale);
        scale' := 2 * scale;
      } else {
        LookedIsBalanced(m, initial, factor, scale);
      }
    }
  }

  lemma LoadSteps(s: real, c: real)
    requires c > 0.0
    ensures s / c + 1.0 / c == (s + 1.0) / c && s / c - 1.0 / c == (s - 1.0) / c
  {
  }

  lemma InsertedIsBalanced(m: Meter, initial: nat, factor: real, scale: nat)
    requires initial > 0 && Balanced(m, initial, factor, scale) && m.capacity > 0 && m.changes <= TRIGGER
    ensures Balanced(Inserted(m), initial, factor, scale)
  {
    LoadSteps(m.size as real, m.capacity as real);
  }

  lemma RemovedIsBalanced(m: Meter, initial: nat, factor: real, scale: nat)
    requires initial > 0 && Balanced(m, initial, factor, scale) && m.capacity > 0 && m.size > 0
    ensures Balanced(Removed(m), initial, factor, scale)
  {
    LoadSteps(m.size as real, m.capacity as real);
  }

  lemma ApplyIsBalanced(m: Meter, op: Op, initial: nat, factor: real, scale: nat) returns (scale': nat)
    requires initial > 0 && factor > 0.0 && Balanced(m, initial, factor, scale) && m.capacity > 0
    requires op.Remove? ==> m.size > 0
    requires Apply(m, op, factor).capacity < MAX_CAPACITY
    ensures Balanced(Apply(m, op, factor), initial, factor, scale')
  {
    scale' := scale;
    match op
    case PutNew =>
      scale' := CheckedIsBalanced(m, initial, factor, scale);
      hide Balanced;
      InsertedIsBalanced(Checked(m, factor), initial, factor, scale');
    case PutOld =>
      scale' := CheckedIsBalanced(m, initial, factor, scale);
      hide Balanced;
    case Remove =>
      hide Balanced;
      RemovedIsBalanced(m, initial, factor, scale);
    case Clear =>
      assert factor * m.capacity as real >= 0.0;
  }

  lemma {:induction false} ReachedIsBalanced(initial: nat, factor: real, ops: seq<Op>, m: Meter) returns (scale: nat)
    requires 0 < initial <= MAX_CAPACITY && factor > 0.0
    requires Reached(initial, factor, ops, m) && m.capacity < MAX_CAPACITY
    ensures Balanced(m, initial, factor, scale)
    decreases |ops|
  {
    if ops == [] {
      scale := 1;
    } else {
      var p: Meter :|
        Reached(initial, factor, ops[..|ops| - 1], p) && Leads(p, ops[|ops| - 1], factor, m);
      scale := ReachedIsBalanced(initial, factor, ops[..|ops| - 1], p);
      scale := ApplyIsBalanced(p, ops[|ops| - 1], initial, factor, scale);
    }
  }

  /** The load bound, although the load is checked lazily: after any operations,
      as long as no doubling was cut off, the tracked load is exact and the size
      is at most (factor + 101 / initial) * capacity. */
  lemma LoadBound(initial: nat, factor: real, ops: seq<Op>, m: Meter)
    requires 0 < initial <= MAX_CAPACITY && factor > 0.0
    requires Reached(initial, factor, ops, m) && m.capacity < MAX_CAPACITY
    ensures m.capacity > 0 && m.load == m.size as real / m.capacity as real
    ensures m.size as real * initial as real <= (factor * initial as real + 101.0) * m.capacity as real
  {
    hide *;
    var scale := ReachedIsBalanced(initial, factor, ops, m);
    BalancedSize(m, initial, factor, scale);
    BoundInProduct(m.size as real, initial as real, scale as real, m.capacity as real, factor);
  }

  lemma BalancedSize(m: Meter, initial: nat, factor: real, scale: nat)
    requires initial > 0 && Balanced(m, initial, factor, scale)
    ensures m.capacity > 0 && m.load == m.size as real / m.capacity as real
    ensures m.capacity as real == initial as real * scale as real
    ensures m.size as real <= factor * m.capacity as real + 101.0 * scale as real
  {
    CastProduct(initial, scale);
    var extra := 101 * (scale - 1) + if m.changes > 101 then 101 else m.changes;
    assert extra <= 101 * scale;
    assert initial * scale > 0;
  }

  lemma {:induction false} CastProduct(a: nat, b: nat)
    ensures (a * b) as real == a as real * b as real
    decreases b
  {
    if b == 0 {
    } else {
      CastProduct(a, b - 1);
      assert a * b == a * (b - 1) + a;
      assert a as real * b as real == a as real * (b - 1) as real + a as real;
    }
  }

  lemma BoundInProduct(s: real, i: real, k: real, c: real, f: real)
    requires i > 0.0 && c == i * k && s <= f * c + 101.0 * k
    ensures s * i <= (f * i + 101.0) * c
  {
    var b := f * c + 101.0 * k;
    assert s * i <= b * i;
    assert (f * c) * i == (f * i) * c;
    assert (101.0 * k) * i == 101.0 * c;
  }

  // Doubling this capacity again and again meets the maximum exactly.
  predicate Doubles(capacity: nat)
    decreases MAX_CAPACITY - capacity
  {
    capacity == MAX_CAPACITY || (0 < capacity && 2 * capacity <= MAX_CAPACITY && Doubles(2 * capacity))
  }

  ghost predicate Exact(m: Meter) {
    m.capacity > 0 && Doubles(m.capacity) && m.load == m.size as real / m.capacity as real
  }

  lemma ApplyKeepsExact(m: Meter, op: Op, factor: real)
    requires Exact(m) && (op.Remove? ==> m.size > 0)
    ensures Exact(Apply(m, op, factor))
  {
    HalfLoad(m.size as real, m.capacity as real);
    var c := if op.PutNew? then Checked(m, factor) else m;
    assert Exact(Checked(m, factor));
    LoadSteps(c.size as real, c.capacity as real);
  }

  /** From a capacity that doubles to the maximum exactly, as 32 does, the tracked
      load is right for ever, also at the maximum. */
  lemma {:induction false} LoadStaysExact(initial: nat, factor: real, ops: seq<Op>, m: Meter)
    requires 0 < initial <= MAX_CAPACITY && Doubles(initial) && Reached(initial, factor, ops, m)
    ensures Exact(m)
    decreases |ops|
  {
    hide Exact, Apply;
    if ops == [] {
      StartExact(initial);
    } else {
      var p: Meter :|
        Reached(initial, factor, ops[..|ops| - 1], p) && Leads(p, ops[|ops| - 1], factor, m);
      LoadStaysExact(initial, factor, ops[..|ops| - 1], p);
      ApplyKeepsExact(p, ops[|ops| - 1], factor);
    }
  }

  lemma StartExact(initial: nat)
    requires 0 < initial && Doubles(initial)
    ensures Exact(Start(initial))
  {
    assert 0.0 == 0 as real / initial as real;
  }

  /** The tables of the chat server start with 32 buckets and a factor of one half. */
  lemma ChatTableBound(ops: seq<Op>, m: Meter)
    requires Reached(32, 0.5, ops, m) && m.capacity < MAX_CAPACITY
    ensures 32 * m.size <= 117 * m.capacity
  {
    LoadBound(32, 0.5, ops, m);
  }

  /** Growing keeps the tracked load exact unless the doubling is cut off short
      of the double with entries in the table. */
  lemma GrownLoadExactIff(m: Meter)
    requires 0 < m.capacity < MAX_CAPACITY && m.load == m.size as real / m.capacity as real
    ensures
      Grown(m).load == m.size as real / Grown(m).capacity as real <==>
      (2 * m.capacity <= MAX_CAPACITY || m.size == 0)
  {
    var s, c, g := m.size as real, m.capacity as real, Grown(m).capacity as real;
    HalfLoad(s, c);
    if 2 * m.capacity > MAX_CAPACITY && m.size > 0 {
      SmallerDivisor(s, g, 2.0 * c);
    }
  }

  lemma SmallerDivisor(s: real, c: real, d: real)
    requires s > 0.0 && 0.0 < c < d
    ensures s / d < s / c
  {
    var p, q := s / c, s / d;
    assert p * c == s == q * d && p > 0.0;
    assert p * (d - c) > 0.0;
    assert (p - q) * d > 0.0;
  }

  lemma {:induction false} NoBoundAtMaximum(factor: real, n: nat)
    ensures exists ops, m: Meter ::
      Reached(MAX_CAPACITY, factor, ops, m) && m.size == n && m.capacity == MAX_CAPACITY
    decreases n
  {
    if n == 0 {
      assert Reached(MAX_CAPACITY, factor, [], Start(MAX_CAPACITY));
    } else {
      NoBoundAtMaximum(factor, n - 1);
      var ops, p: Meter :|
        Reached(MAX_CAPACITY, factor, ops, p) && p.size == n - 1 && p.capacity == MAX_CAPACITY;
      var ops' := ops + [PutNew];
      assert ops'[..|ops'| - 1] == ops;
      assert Reached(MAX_CAPACITY, factor, ops', Apply(p, PutNew, factor));
    }
  }
}
