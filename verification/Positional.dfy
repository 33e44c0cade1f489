/** Numbers written in a base, most significant digit first. */
module Positional {
  import opened Prelude

  predicate AreDigits(base: nat, ds: seq<nat>) {
    forall i | 0 <= i < |ds| :: ds[i] < base
  }

  function Value(base: nat, ds: seq<nat>): nat {
    if ds == [] then 0 else Value(base, ds[..|ds| - 1]) * base + ds[|ds| - 1]
  }

  /** The shortest digits of a number: none for zero, otherwise no leading zero. */
  function Shortest(base: nat, n: nat): (ds: seq<nat>)
    requires base >= 2
    ensures AreDigits(base, ds)
    ensures ds == [] <==> n == 0
    ensures ds != [] ==> ds[0] != 0
  {
    if n == 0 then []
    else
      QuotientShrinks(base, n);
      Shortest(base, n / base) + [n % base]
  }

  lemma {:induction false} NonNegative(a: int, b: int)
    requires a >= 0 && b >= 0
    ensures a * b >= 0
  {
  }

  lemma {:induction false} Quotient(base: nat, n: nat)
    requires base > 0
    ensures n == n / base * base + n % base && 0 <= n % base < base
  {
  }

  lemma {:induction false} QuotientShrinks(base: nat, n: nat)
    requires base >= 2 && n > 0
    ensures n / base < n
  {
    Quotient(base, n);
    NonNegative(base - 2, n / base);
  }

  /** A multiple of the base strictly between -base and base is zero. */
  lemma {:induction false} SmallMultiple(base: int, k: int)
    requires -base < k * base < base
    ensures k == 0
  {
    if k >= 1 {
      NonNegative(k - 1, base);
    } else if k <= -1 {
      NonNegative(-k - 1, base);
    }
  }

  lemma {:induction false} DivideBack(base: nat, q: nat, d: nat, n: nat)
    requires d < base && n == q * base + d
    ensures n / base == q && n % base == d
  {
    Quotient(base, n);
    assert (n / base - q) * base == n / base * base - q * base;
    SmallMultiple(base, n / base - q);
  }

  lemma {:induction false} ValueOfShortest(base: nat, n: nat)
    requires base >= 2
    ensures Value(base, Shortest(base, n)) == n
  {
    if n > 0 {
      QuotientShrinks(base, n);
      var q, ds := n / base, Shortest(base, n / base);
      assert Shortest(base, n) == ds + [n % base];
      assert (ds + [n % base])[..|ds|] == ds;
      ValueOfShortest(base, q);
      Quotient(base, n);
    }
  }

  /** The digits of `q * base + d`, unless that is zero, are those of `q` followed by `d`. */
  lemma {:induction false} ShortestOfNext(base: nat, q: nat, d: nat, n: nat)
    requires base >= 2 && d < base && n == q * base + d && n > 0
    ensures Shortest(base, n) == Shortest(base, q) + [d]
  {
    DivideBack(base, q, d, n);
  }

  lemma {:induction false} ShortestOfValue(base: nat, ds: seq<nat>)
    requires base >= 2 && AreDigits(base, ds)
    requires ds != [] ==> ds[0] != 0
    ensures Shortest(base, Value(base, ds)) == ds
    ensures ds != [] ==> Value(base, ds) > 0
  {
    if ds != [] {
      var front, d := ds[..|ds| - 1], ds[|ds| - 1];
      ShortestOfValue(base, front);
      NextIsPositive(base, Value(base, front), d, front == []);
      ShortestOfNext(base, Value(base, front), d, Value(base, ds));
    }
  }

  lemma {:induction false} NextIsPositive(base: nat, q: nat, d: nat, first: bool)
    requires base >= 2
    requires if first then d > 0 else q > 0
    ensures q * base + d > 0
  {
    if first {
      NonNegative(q, base);
    } else {
      NonNegative(q - 1, base);
      assert q * base == (q - 1) * base + base;
    }
  }

  /** Writing one number after the other shifts the first by the length of the second. */
  lemma {:induction false} ValueConcat(base: nat, a: seq<nat>, b: seq<nat>)
    ensures Value(base, a + b) == Value(base, a) * Power(base, |b|) + Value(base, b)
    decreases |b|
  {
    if b == [] {
      assert a + b == a;
    } else {
      var n := |b| - 1;
      assert (a + b)[..|a + b| - 1] == a + b[..n];
      assert Value(base, a + b) == Value(base, a + b[..n]) * base + b[n];
      ValueConcat(base, a, b[..n]);
      Shift(base, Value(base, a), Power(base, n), Value(base, b[..n]), b[n]);
    }
  }

  lemma {:induction false} Shift(base: nat, x: nat, p: nat, y: nat, d: nat)
    ensures (x * p + y) * base + d == x * (base * p) + (y * base + d)
  {
  }

  //// Leading zeros

  lemma {:induction false} ZerosAddNothing(base: nat, n: nat, ds: seq<nat>)
    ensures Value(base, Copies(0, n) + ds) == Value(base, ds)
    decreases n + |ds|
  {
    if ds != [] {
      assert (Copies(0, n) + ds)[..n + |ds| - 1] == Copies(0, n) + ds[..|ds| - 1];
      ZerosAddNothing(base, n, ds[..|ds| - 1]);
    } else if n > 0 {
      var all := Copies(0, n) + ds;
      assert all[..|all| - 1] == Copies(0, n - 1) + ds && all[|all| - 1] == 0;
      ZerosAddNothing(base, n - 1, ds);
    } else {
      assert Copies(0, n) + ds == [];
    }
  }

  lemma {:induction false} LeadingZerosOf(n: nat, ds: seq<nat>)
    requires ds != [] ==> ds[0] != 0
    ensures Leading(0, Copies(0, n) + ds) == n
  {
    if n > 0 {
      assert (Copies(0, n) + ds)[1..] == Copies(0, n - 1) + ds;
      LeadingZerosOf(n - 1, ds);
    } else {
      assert Copies(0, 0) + ds == ds;
    }
  }

  //// Changing the base

  /** The same number in another base, with as many leading zeros as before. */
  function Recode(from: nat, to: nat, ds: seq<nat>): (r: seq<nat>)
    requires to >= 2
    ensures AreDigits(to, r)
  {
    Copies(0, Leading(0, ds)) + Shortest(to, Value(from, ds))
  }

  /** Changing the base and back is the identity, leading zeros included. */
  lemma {:induction false} RecodeUndone(from: nat, to: nat, ds: seq<nat>)
    requires from >= 2 && to >= 2 && AreDigits(from, ds)
    ensures Recode(to, from, Recode(from, to, ds)) == ds
  {
    var z := Leading(0, ds);
    var body, n := ds[z..], Value(from, ds);
    assert ds == Copies(0, z) + body;
    ZerosAddNothing(from, z, body);
    ZerosAddNothing(to, z, Shortest(to, n));
    LeadingZerosOf(z, Shortest(to, n));
    ValueOfShortest(to, n);
    ShortestOfValue(from, body);
  }
}
