/**
 Integers as IEEE 754 binary64 numbers: what encoding/json makes of an integer literal decoded into
 an interface value (round to nearest, ties to even, section 4.3.1 of IEEE 754-2019).
 */
module Float64 {
  import opened Powers

  const TWO_53: nat := 0x20_0000_0000_0000
  const TWO_52: nat := 0x10_0000_0000_0000

  // n as q units of size 2^e plus a remainder r below one unit.
  datatype Split = Split(q: nat, e: nat, r: nat)

  // Drops low bits until 53 significant ones are left.
  function Normalize(q: nat, e: nat, r: nat): Split {
    if q < TWO_53 then Split(q, e, r) else Normalize(q / 2, e + 1, r + q % 2 * Pow2(e))
  }

  // The nearest number with 53 significant bits; of two equally near, the one with even q.
  function Round(n: nat): nat {
    var s := Normalize(n, 0, 0);
    var u := Pow2(s.e);
    if 2 * s.r < u || (2 * s.r == u && s.q % 2 == 0) then s.q * u else (s.q + 1) * u
  }

  function RoundSigned(n: int): int {
    var magnitude: int := Round(if n < 0 then -n else n);
    if n < 0 then -magnitude else magnitude
  }

  // Whether binary64 has this integer, exponent range aside.
  ghost predicate Representable(y: nat) {
    exists m: nat, e: nat :: m < TWO_53 && y == Scaled(m, e)
  }

  function Scaled(m: nat, e: nat): nat {
    m * Pow2(e)
  }

  // n is split exactly, in units as fine as 53 bits allow.
  predicate Splits(s: Split, n: nat) {
    n == s.q * Pow2(s.e) + s.r && s.r < Pow2(s.e) && s.q < TWO_53 && (s.e > 0 ==> s.q >= TWO_52)
  }

  lemma Halve(h: nat, b: nat, u: nat)
    requires b <= 1
    ensures (2 * h + b) * u == h * (2 * u) + b * u && b * u <= u
  {
  }

  lemma Succ(q: nat, u: nat)
    ensures (q + 1) * u == q * u + u
  {
  }

  lemma {:induction false} NormalizeSplits(n: nat, q: nat, e: nat, u: nat, r: nat)
    requires u == Pow2(e) && n == q * u + r && r < u && (e > 0 ==> q >= TWO_52)
    ensures Splits(Normalize(q, e, r), n)
  {
    if q >= TWO_53 {
      var h, b := q / 2, q % 2;
      Halve(h, b, u);
      NormalizeSplits(n, h, e + 1, 2 * u, r + b * u);
    }
  }

  // Rounding moves a number by at most half a unit, to one of the two neighbouring multiples.
  lemma RoundBetween(n: nat)
    ensures var s := Normalize(n, 0, 0);
            var u := Pow2(s.e);
            && Splits(s, n)
            && (Round(n) == s.q * u || Round(n) == s.q * u + u)
            && s.q * u <= n < s.q * u + u
            && 2 * (n - Round(n)) <= u && 2 * (Round(n) - n) <= u
  {
    NormalizeSplits(n, n, 0, 1, 0);
    var s := Normalize(n, 0, 0);
    Succ(s.q, Pow2(s.e));
  }

  // A representable number is a multiple of n's unit, or lies below all of n's binade.
  lemma RepresentableGrid(s: Split, n: nat, m: nat, e: nat)
    requires Splits(s, n) && m < TWO_53
    ensures Scaled(m, e) <= s.q * Pow2(s.e) || Scaled(m, e) >= s.q * Pow2(s.e) + Pow2(s.e)
  {
    var u := Pow2(s.e);
    if e >= s.e {
      var j := m * Pow2(e - s.e);
      Pow2Adds(s.e, e - s.e);
      Regroup(m, u, Pow2(e - s.e));
      OnGrid(j, s.q, u);
    } else {
      Pow2Monotone(e, s.e - 1);
      Times2(m, Pow2(e), Pow2(s.e - 1));
      Times(m, TWO_53, Pow2(s.e - 1));
      Times(TWO_52, s.q, u);
    }
  }

  lemma Regroup(m: nat, u: nat, p: nat)
    ensures m * (u * p) == (m * p) * u
  {
  }

  lemma OnGrid(j: nat, q: nat, u: nat)
    ensures j * u <= q * u || j * u >= q * u + u
  {
    if j <= q {
      Times(j, q, u);
    } else {
      Times(q + 1, j, u);
      Succ(q, u);
    }
  }

  lemma Times(a: nat, b: nat, u: nat)
    requires a <= b
    ensures a * u <= b * u
  {
  }

  lemma Times2(m: nat, a: nat, b: nat)
    requires a <= b
    ensures m * a <= m * b
  {
  }

  /**
   Round is IEEE rounding: its result is representable, nothing representable is nearer, and of
   two equally near candidates the one with an even significand is taken.
   */
  lemma RoundIsNearest(n: nat, y: nat)
    requires Representable(y)
    ensures var d := if n >= Round(n) then n - Round(n) else Round(n) - n;
            d <= if n >= y then n - y else y - n
  {
    RoundBetween(n);
    var m: nat, e: nat :| m < TWO_53 && y == Scaled(m, e);
    RepresentableGrid(Normalize(n, 0, 0), n, m, e);
  }

  lemma RoundIsRepresentable(n: nat)
    ensures Representable(Round(n))
    ensures var s := Normalize(n, 0, 0);
            2 * s.r == Pow2(s.e) ==> exists k: nat :: Round(n) == Scaled(2 * k, s.e)
  {
    RoundBetween(n);
    var s := Normalize(n, 0, 0);
    var k := if Round(n) == s.q * Pow2(s.e) then s.q else s.q + 1;
    assert Round(n) == Scaled(k, s.e);
    if k == TWO_53 {
      assert Round(n) == Scaled(TWO_52, s.e + 1);
    }
    if 2 * s.r == Pow2(s.e) {
      assert k % 2 == 0 && Round(n) == Scaled(2 * (k / 2), s.e);
    }
  }

  // Numbers up to 2^53 are exact.
  lemma RoundExact(n: nat)
    requires n <= TWO_53
    ensures Round(n) == n
  {
    if n < TWO_53 {
      assert Round(n) == n * 1;
    } else {
      Pow2Of53();
      assert n == Scaled(1, 53);
      assert Representable(n);
      RoundIsNearest(n, n);
    }
  }

  lemma Pow2Of53()
    ensures Pow2(53) == TWO_53 && Pow2(63) == 0x8000_0000_0000_0000
  {
    assert Pow2(10) == 1024 && Pow2(13) == 8192;
    Pow2Adds(10, 10);
    assert Pow2(20) == 0x10_0000;
    Pow2Adds(20, 20);
    assert Pow2(40) == 0x100_0000_0000;
    Pow2Adds(40, 13);
    assert Pow2(53) == TWO_53;
    Pow2Adds(53, 10);
  }

  // Rounding keeps order; it follows from nearness alone.
  lemma RoundMonotone(a: nat, b: nat)
    requires a <= b
    ensures Round(a) <= Round(b)
  {
    if a < b {
      RoundIsRepresentable(a);
      RoundIsRepresentable(b);
      RoundIsNearest(a, Round(b));
      RoundIsNearest(b, Round(a));
    }
  }

  // How large a number with this unit can be.
  lemma UnitBounds(n: nat)
    ensures var u := Pow2(Normalize(n, 0, 0).e); n < TWO_53 * u && (u > 1 ==> TWO_52 * u <= n)
  {
    RoundBetween(n);
    var s := Normalize(n, 0, 0);
    Times(s.q + 1, TWO_53, Pow2(s.e));
    Succ(s.q, Pow2(s.e));
    if s.e > 0 { Times(TWO_52, s.q, Pow2(s.e)); }
  }

  lemma PowerBetween(e: nat)
    ensures Pow2(e) < 2048 ==> Pow2(e) <= 1024
    ensures 512 < Pow2(e) < 2048 ==> Pow2(e) == 1024
  {
    assert Pow2(9) == 512 && Pow2(10) == 1024 && Pow2(11) == 2048;
    if e <= 9 { Pow2Monotone(e, 9); }
    if e >= 11 { Pow2Monotone(11, e); }
  }

  const TOP: nat := 0x8000_0000_0000_0000

  // From 2^63 - 512 on the nearest representable number is 2^63 itself; at the start of the range by the tie rule.
  lemma TopTie(n: nat)
    requires TOP - 512 <= n < TOP
    ensures Round(n) == TOP
  {
    RoundBetween(n);
    UnitBounds(n);
    var s := Normalize(n, 0, 0);
    PowerBetween(s.e);
    assert Pow2(s.e) == 1024;
    assert s.q == TWO_53 - 1;
  }

  /**
   Below 2^63 rounding is off by at most 512, and it stays an int64 exactly up to 2^63 - 513: from
   2^63 - 512 on it reaches 2^63.
   */
  lemma RoundBelow2To63(n: nat)
    requires n < TOP
    ensures -512 <= Round(n) - n <= 512
    ensures Round(n) < TOP <==> n <= TOP - 513
  {
    RoundBetween(n);
    UnitBounds(n);
    PowerBetween(Normalize(n, 0, 0).e);
    if n <= TOP - 513 {
      StaysBelow(n);
    } else {
      TopTie(n);
    }
  }

  lemma StaysBelow(n: nat)
    requires n <= TOP - 513
    ensures Round(n) <= TOP - 1024
  {
    assert Pow2(10) == 1024;
    assert Scaled(TWO_53 - 1, 10) == TOP - 1024;
    assert Representable(TOP - 1024);
    if n <= TOP - 1024 {
      RoundIsNearest(n, TOP - 1024);
      RoundMonotone(n, TOP - 1024);
      RoundIsNearest(TOP - 1024, TOP - 1024);
    } else {
      RoundIsNearest(n, TOP - 1024);
      RoundBetween(n);
      UnitBounds(n);
      PowerBetween(Normalize(n, 0, 0).e);
    }
  }
}
