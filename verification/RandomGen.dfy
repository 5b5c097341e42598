/** The multiplicative random generator, computed without leaving signed 32-bit integers. */
module RandomGenerator {
  import opened Common

  newtype long = x: int | -0x8000_0000_0000_0000 <= x < 0x8000_0000_0000_0000

  const A: long := 16807
  const M: long := 2147483647
  const Q: long := 127773
  const R: long := 2836

  /** Within a signed 32-bit integer. */
  predicate Fits(x: int)
  {
    -0x8000_0000 <= x < 0x8000_0000
  }

  /** States whose correction R * (x / Q) stays below M, so that adding M once is enough. */
  predicate Reduces(x: int)
  {
    -757222 * Q as int <= x <= 757222 * Q as int
  }

  /** The inverse of A modulo M. */
  const B: int := 1407677000

  /** Division by Q, and its remainder. */
  function Quotient(x: long): long {
    TruncDiv(x as int, Q as int) as long
  }

  function Remainder(x: long): long {
    (x as int - Quotient(x) as int * Q as int) as long
  }

  /** The next state of a generator modulo M. */
  function Next(x: int): int {
    A as int * x % M as int
  }

  function Power(n: nat): int {
    if n == 0 then 1 else A as int * Power(n - 1)
  }

  lemma RemainderUnique(x: int, k: int, r: int)
    requires x == k * M as int + r && 0 <= r < M as int
    ensures x % M as int == r
  {}

  /** Multiplying modulo M may be done before or after reducing. */
  lemma ReduceFirst(a: int, x: int)
    ensures a * (x % M as int) % M as int == a * x % M as int
  {
    var m := M as int;
    var k, r := x / m, a * (x % m) % m;
    assert a * x == a * (k * m) + a * (x % m);
    RemainderUnique(a * x, a * k + a * (x % m) / m, r);
  }

  /** Each state can be recovered from the next: sampling permutes the states. */
  lemma Undo(x: int)
    requires 0 <= x < M as int
    ensures B * Next(x) % M as int == x
  {
    ReduceFirst(B, A as int * x);
    assert B * (A as int * x) == 11017 * x * M as int + x;
    RemainderUnique(B * (A as int * x), 11017 * x, x);
  }

  /** A generator that does not start at a multiple of M never reaches one. */
  lemma {:induction false} NeverSticks(n: nat, seed: int)
    ensures Power(n) * seed % M as int == 0 <==> seed % M as int == 0
  {
    if n > 0 {
      NeverSticks(n - 1, seed);
      var x := Power(n - 1) * seed;
      assert Power(n) * seed == A as int * x;
      ReduceFirst(A as int, x);
      Undo(x % M as int);
    }
  }

  /** The difference of the products is A * x modulo M, and adding M once if it is negative brings it
      below M whenever the state reduces. For a 32-bit state both products and their difference fit
      32 bits. */
  lemma Decomposed(x: long)
    ensures var product, correction := A as int * Remainder(x) as int, R as int * Quotient(x) as int;
            var next := product - correction + (if product < correction then M as int else 0);
            && Next(x as int) == next % M as int
            && (Reduces(x as int) ==> Next(x as int) == next)
            && (Fits(x as int) ==> Fits(product) && Fits(correction) && Fits(product - correction) && Fits(next))
  {
    var q := Quotient(x) as int;
    var v := A as int * Remainder(x) as int - R as int * q;
    assert A as int * x as int == q * M as int + v;
    SameRemainder(A as int * x as int, q, v);
    SameRemainder(v + M as int, 1, v);
  }

  lemma SameRemainder(x: int, k: int, y: int)
    requires x == k * M as int + y
    ensures x % M as int == y % M as int
  {
    var m := M as int;
    assert x == (k + y / m) * m + y % m;
    RemainderUnique(x, k + y / m, y % m);
  }

  class RandomGen {
    var seed: long
    var xn: long
    ghost var drawn: nat

    /** The state is, modulo M, the seed's multiple by the power of A for the samples drawn. */
    ghost predicate Valid()
      reads this
    {
      if drawn == 0 then xn == seed
      else xn as int % M as int == Power(drawn) * seed as int % M as int && (Reduces(seed as int) ==> 0 <= xn < M)
    }

    constructor (s: long)
      ensures Valid() && seed == s && drawn == 0
    {
      seed, xn, drawn := s, s, 0;
    }

    method Init(s: long)
      modifies this
      ensures Valid() && seed == s && drawn == 0
    {
      seed, xn, drawn := s, s, 0;
    }

    /** From any seed the samples are congruent to the powers of A times the seed; from one that
        reduces, so from any 32-bit seed, they are these powers modulo M. */
    method Sample() returns (x: long)
      requires Valid()
      modifies this`xn, this`drawn
      ensures Valid() && drawn == old(drawn) + 1 && x == xn
      ensures x as int % M as int == Power(drawn) * seed as int % M as int
      ensures Reduces(seed as int) ==> x as int == Power(drawn) * seed as int % M as int
      ensures Reduces(seed as int) ==> 0 <= x < M && (x == 0 <==> seed as int % M as int == 0)
    {
      hide Quotient, Remainder, Next, Power;
      Decomposed(xn);
      NextPower(seed as int, drawn, xn as int);
      NeverSticks(drawn + 1, seed as int);
      var xq := Quotient(xn);
      var xr := Remainder(xn);
      Bounds(xn);
      xn := A * xr - R * xq;
      if xn < 0 {
        xn := xn + M;
      }
      drawn := drawn + 1;
      x := xn;
    }
  }

  /** No 64-bit state overflows. */
  lemma Bounds(x: long)
    ensures -(Q as int) < Remainder(x) as int < Q as int
    ensures -0x8000_0000_0000_0000 <= R as int * Quotient(x) as int * 2 < 0x8000_0000_0000_0000
    ensures 0 <= Next(x as int) < M as int
  {}

  lemma NextPower(seed: int, n: nat, x: int)
    requires (x == seed && n == 0) || x % M as int == Power(n) * seed % M as int
    ensures Next(x) == Power(n + 1) * seed % M as int
  {
    ReduceFirst(A as int, x);
    assert Power(n + 1) * seed == A as int * (Power(n) * seed);
    ReduceFirst(A as int, Power(n) * seed);
  }
}
