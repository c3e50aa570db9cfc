/**
 Integer text as Go's fmt and strconv packages treat it: %d and %x printing, and
 strconv.ParseInt with its sign, base prefix, underscores and 64-bit overflow cutoff.
 */
module Strconv {
  import opened Wrappers

  const TWO_63: int := 0x8000_0000_0000_0000
  const TWO_64: int := 0x1_0000_0000_0000_0000

  type int64 = n: int | -0x8000_0000_0000_0000 <= n < 0x8000_0000_0000_0000
  type uint64 = n: int | 0 <= n < 0x1_0000_0000_0000_0000

  datatype NumError = Syntax | Range

  // Go's conversion int64(u): two's complement reinterpretation of the low 64 bits.
  function WrapInt64(u: int): (n: int64)
    ensures (n - u) % TWO_64 == 0
    ensures -TWO_63 <= u < TWO_63 ==> n == u
  {
    var low := u % TWO_64;
    if low < TWO_63 then low else low - TWO_64
  }

  // ---------------------------------------------------------------- printing

  function DigitChar(d: nat): (c: char)
    requires d < 16
    ensures DigitOf(c) == Some(d)
  {
    if d < 10 then (d + '0' as int) as char else (d - 10 + 'a' as int) as char
  }

  function DigitOf(c: char): Option<nat> {
    if '0' <= c <= '9' then Some(c as int - '0' as int)
    else if 'a' <= c <= 'z' then Some(c as int - 'a' as int + 10)
    else if 'A' <= c <= 'Z' then Some(c as int - 'A' as int + 10)
    else None
  }

  // The two bases that %d and %x print in.
  predicate PrintBase(base: nat) {
    base == 10 || base == 16
  }

  function Quot(n: nat, base: nat): (q: nat)
    requires PrintBase(base)
    ensures n >= base ==> 0 < q < n
    ensures n < base ==> q == 0
  {
    if base == 10 then n / 10 else n / 16
  }

  function Rem(n: nat, base: nat): (r: nat)
    requires PrintBase(base)
    ensures r < base && Quot(n, base) * base + r == n
  {
    if base == 10 then n % 10 else n % 16
  }

  // Digits of n, most significant first, lower-case, without leading zeros.
  function Digits(n: nat, base: nat): string
    requires PrintBase(base)
  {
    if n < base then [DigitChar(n)] else Digits(Quot(n, base), base) + [DigitChar(Rem(n, base))]
  }

  // %d (base 10) and %x (base 16) of a signed number.
  function FormatInt(n: int, base: nat): string
    requires PrintBase(base)
  {
    if n < 0 then "-" + Digits(-n, base) else Digits(n, base)
  }

  // ----------------------------------------------------------------- parsing

  // The bases ParseUint can settle on when asked for base 0 or 10.
  predicate Parsable(base: nat) {
    base == 2 || base == 8 || base == 10 || base == 16
  }

  // The smallest n with n * base >= 2^64.
  function Cutoff(base: nat): nat
    requires Parsable(base)
  {
    if base == 10 then (TWO_64 - 1) / 10 + 1
    else if base == 16 then (TWO_64 - 1) / 16 + 1
    else if base == 8 then (TWO_64 - 1) / 8 + 1
    else (TWO_64 - 1) / 2 + 1
  }

  // acc * base + d, spelled out per base.
  function Shift(acc: nat, base: nat, d: nat): (n: nat)
    requires Parsable(base)
    ensures n == acc * base + d && n >= acc
  {
    if base == 10 then acc * 10 + d
    else if base == 16 then acc * 16 + d
    else if base == 8 then acc * 8 + d
    else acc * 2 + d
  }

  // The digit loop of strconv.ParseUint, with its accumulator n.
  function ScanDigits(s: string, base: nat, base0: bool, n: uint64): Result<uint64, NumError>
    requires Parsable(base)
  {
    if s == [] then Ok(n)
    else if s[0] == '_' && base0 then ScanDigits(s[1..], base, base0, n)
    else match DigitOf(s[0])
      case None => Err(Syntax)
      case Some(d) =>
        if d >= base then Err(Syntax)
        else if n >= Cutoff(base) then Err(Range)
        else
          var scaled := Shift(n, base, 0) % TWO_64;
          var next := (scaled + d) % TWO_64;
          if next < scaled then Err(Range) else ScanDigits(s[1..], base, base0, next)
  }

  // strconv.underscoreOK: underscores only between digits or after a base prefix.
  predicate UnderscoreScan(s: string, hex: bool, saw: char) {
    if s == [] then saw != '_'
    else if '0' <= s[0] <= '9' || (hex && ('a' <= s[0] <= 'f' || 'A' <= s[0] <= 'F')) then
      UnderscoreScan(s[1..], hex, '0')
    else if s[0] == '_' then saw == '0' && UnderscoreScan(s[1..], hex, '_')
    else saw != '_' && UnderscoreScan(s[1..], hex, '!')
  }

  predicate UnderscoreOk(s: string) {
    if |s| >= 2 && s[0] == '0' && s[1] in "bBoOxX" then UnderscoreScan(s[2..], s[1] in "xX", '0')
    else UnderscoreScan(s, false, '^')
  }

  // The base ParseUint settles on and the text left after the prefix.
  function SplitBase(s: string, base0: bool): (nat, string)
    requires s != []
    ensures Parsable(SplitBase(s, base0).0)
  {
    if !base0 || s[0] != '0' then (10, s)
    else if |s| >= 3 && s[1] in "bB" then (2, s[2..])
    else if |s| >= 3 && s[1] in "oO" then (8, s[2..])
    else if |s| >= 3 && s[1] in "xX" then (16, s[2..])
    else (8, s[1..])
  }

  // strconv.ParseUint(s, 0, 64) when base0, strconv.ParseUint(s, 10, 64) otherwise.
  function ParseUint(s: string, base0: bool): Result<uint64, NumError> {
    if s == [] then Err(Syntax)
    else
      var (base, digits) := SplitBase(s, base0);
      match ScanDigits(digits, base, base0, 0)
      case Err(e) => Err(e)
      case Ok(n) => if '_' in digits && !UnderscoreOk(s) then Err(Syntax) else Ok(n)
  }

  // The second half of strconv.ParseInt: fitting an unsigned result and a sign into an int64.
  function Signed(neg: bool, unsigned: Result<uint64, NumError>): Result<int64, NumError> {
    match unsigned
    case Err(e) => Err(e)
    case Ok(un) =>
      if !neg && un >= TWO_63 then Err(Range)
      else if neg && un > TWO_63 then Err(Range)
      else
        var n: int := WrapInt64(un);
        Ok(if neg then WrapInt64(-n) else n)
  }

  // strconv.ParseInt(s, 0, 64) when base0, strconv.ParseInt(s, 10, 64) otherwise.
  function ParseInt(s: string, base0: bool): Result<int64, NumError> {
    if s == [] then Err(Syntax)
    else if s[0] == '+' then Signed(false, ParseUint(s[1..], base0))
    else if s[0] == '-' then Signed(true, ParseUint(s[1..], base0))
    else Signed(false, ParseUint(s, base0))
  }

  // ------------------------------------------- what a digit string is worth

  predicate AllDigits(s: string, base: nat) {
    forall i | 0 <= i < |s| :: DigitOf(s[i]).Some? && DigitOf(s[i]).value < base
  }

  // The unbounded value of a digit string read after the digits worth acc.
  function Worth(acc: nat, s: string, base: nat): nat
    requires Parsable(base) && AllDigits(s, base)
    decreases s
  {
    if s == [] then acc else Worth(Shift(acc, base, DigitOf(s[0]).value), s[1..], base)
  }

  function Strip(s: string, base0: bool): string {
    if s == [] then []
    else if s[0] == '_' && base0 then Strip(s[1..], base0)
    else [s[0]] + Strip(s[1..], base0)
  }

  lemma {:induction false} WorthGrows(acc: nat, s: string, base: nat)
    requires Parsable(base) && AllDigits(s, base)
    ensures Worth(acc, s, base) >= acc
    decreases s
  {
    if s != [] {
      WorthGrows(Shift(acc, base, DigitOf(s[0]).value), s[1..], base);
    }
  }

  lemma {:induction false} WorthSnoc(acc: nat, s: string, c: char, base: nat)
    requires Parsable(base) && AllDigits(s, base) && DigitOf(c).Some? && DigitOf(c).value < base
    ensures AllDigits(s + [c], base)
    ensures Worth(acc, s + [c], base) == Shift(Worth(acc, s, base), base, DigitOf(c).value)
    decreases s
  {
    if s == [] {
      assert [] + [c] == [c];
      assert [c][1..] == [];
    } else {
      assert (s + [c])[1..] == s[1..] + [c];
      WorthSnoc(Shift(acc, base, DigitOf(s[0]).value), s[1..], c, base);
    }
  }

  /**
   One turn of the digit loop: the cutoff and the wrap-around test together reject exactly the
   turns whose true result needs more than 64 bits; otherwise the loop goes on with that result.
   */
  lemma ScanTurn(s: string, base: nat, base0: bool, n: uint64, d: nat)
    requires Parsable(base) && d < base
    requires s != [] && DigitOf(s[0]) == Some(d)
    ensures ScanDigits(s, base, base0, n) ==
              if Shift(n, base, d) < TWO_64 then ScanDigits(s[1..], base, base0, Shift(n, base, d)) else Err(Range)
  {
    CutoffExact(n, base, d);
  }

  lemma CutoffExact(n: uint64, base: nat, d: nat)
    requires Parsable(base) && d < base
    ensures n >= Cutoff(base) ==> Shift(n, base, d) >= TWO_64
    ensures n < Cutoff(base) ==>
              var scaled := Shift(n, base, 0) % TWO_64;
              && scaled == Shift(n, base, 0)
              && ((scaled + d) % TWO_64 < scaled <==> Shift(n, base, d) >= TWO_64)
              && (Shift(n, base, d) < TWO_64 ==> (scaled + d) % TWO_64 == Shift(n, base, d))
  {
    if base == 10 {
    } else if base == 16 {
    } else if base == 8 {
    } else {
    }
  }

  lemma WorthCons(acc: nat, c: char, t: string, base: nat)
    requires Parsable(base)
    ensures AllDigits([c] + t, base) <==> AllDigits(t, base) && DigitOf(c).Some? && DigitOf(c).value < base
    ensures AllDigits([c] + t, base) ==> Worth(acc, [c] + t, base) == Worth(Shift(acc, base, DigitOf(c).value), t, base)
  {
    var s := [c] + t;
    assert s[0] == c && s[1..] == t;
    assert forall i | 0 <= i < |t| :: t[i] == s[i + 1];
  }

  /**
   The digit loop is exact: it succeeds precisely when, underscores aside, every
   character is a digit of the base and the true value fits 64 bits, and then
   returns that value. No other input is accepted and nothing wraps.
   */
  lemma {:induction false} ScanDigitsExact(s: string, base: nat, base0: bool, n: uint64)
    requires Parsable(base)
    ensures ScanDigits(s, base, base0, n).Ok? <==>
              AllDigits(Strip(s, base0), base) && Worth(n, Strip(s, base0), base) < TWO_64
    ensures ScanDigits(s, base, base0, n).Ok? ==>
              ScanDigits(s, base, base0, n).value == Worth(n, Strip(s, base0), base)
  {
    if s != [] {
      if s[0] == '_' && base0 {
        ScanDigitsExact(s[1..], base, base0, n);
      } else {
        var t := Strip(s[1..], base0);
        WorthCons(n, s[0], t, base);
        if DigitOf(s[0]).Some? && DigitOf(s[0]).value < base {
          var d := DigitOf(s[0]).value;
          ScanTurn(s, base, base0, n, d);
          var next := Shift(n, base, d);
          if next < TWO_64 {
            ScanDigitsExact(s[1..], base, base0, next);
          } else if AllDigits(t, base) {
            WorthGrows(next, t, base);
          }
        }
      }
    }
  }

  // Printed digits: never empty, lower-case, and without leading zeros.
  lemma {:induction false} DigitsShape(n: nat, base: nat)
    requires PrintBase(base)
    ensures Digits(n, base) != []
    ensures Digits(n, base)[0] == '0' <==> n == 0
    ensures forall i | 0 <= i < |Digits(n, base)| ::
              '0' <= Digits(n, base)[i] <= '9' || (base == 16 && 'a' <= Digits(n, base)[i] <= 'f')
  {
    if n >= base {
      DigitsShape(Quot(n, base), base);
    }
  }

  // Printed digits are digits of the base and worth the number printed.
  lemma {:induction false} DigitsWorth(n: nat, base: nat)
    requires PrintBase(base)
    ensures AllDigits(Digits(n, base), base)
    ensures Worth(0, Digits(n, base), base) == n
  {
    if n < base {
      WorthCons(0, DigitChar(n), [], base);
      assert [DigitChar(n)] + [] == Digits(n, base);
    } else {
      DigitsWorth(Quot(n, base), base);
      WorthSnoc(0, Digits(Quot(n, base), base), DigitChar(Rem(n, base)), base);
    }
  }

  lemma {:induction false} StripPlain(s: string, base0: bool)
    requires '_' !in s
    ensures Strip(s, base0) == s
  {
    if s != [] {
      StripPlain(s[1..], base0);
    }
  }

  // Plain decimal digits of any length, in either base mode: read exactly, or too wide for 64 bits.
  lemma ParseUintReadsDigits(n: nat, base0: bool)
    ensures ParseUint(Digits(n, 10), base0).Ok? <==> n < TWO_64
    ensures n < TWO_64 ==> ParseUint(Digits(n, 10), base0) == Ok(n)
  {
    var text := Digits(n, 10);
    DigitsShape(n, 10);
    if base0 && n == 0 {
      assert ScanDigits("", 8, true, 0) == Ok(0);
    } else {
      DigitsWorth(n, 10);
      StripPlain(text, base0);
      ScanDigitsExact(text, 10, base0, 0);
    }
  }

  lemma ParseIntReadsDigits(n: nat, base0: bool)
    ensures ParseInt(Digits(n, 10), base0) == Signed(false, ParseUint(Digits(n, 10), base0))
    ensures ParseInt("-" + Digits(n, 10), base0) == Signed(true, ParseUint(Digits(n, 10), base0))
  {
    DigitsShape(n, 10);
    assert ("-" + Digits(n, 10))[1..] == Digits(n, 10);
  }

  lemma SignedExact(n: nat, unsigned: Result<uint64, NumError>)
    requires unsigned.Ok? <==> n < TWO_64
    requires n < TWO_64 ==> unsigned == Ok(n)
    ensures Signed(false, unsigned).Ok? <==> n < TWO_63
    ensures n < TWO_63 ==> Signed(false, unsigned) == Ok(n)
    ensures Signed(true, unsigned).Ok? <==> n <= TWO_63
    ensures n <= TWO_63 ==> Signed(true, unsigned) == Ok(0 - n)
  {
  }

  /**
   Parsing inverts decimal printing on every int64 in both base modes, and refuses the text of
   every other number, of whatever size.
   */
  lemma ParseIntInvertsDecimal(n: int, base0: bool)
    ensures ParseInt(FormatInt(n, 10), base0).Ok? <==> -TWO_63 <= n < TWO_63
    ensures -TWO_63 <= n < TWO_63 ==> ParseInt(FormatInt(n, 10), base0) == Ok(n)
  {
    var m: nat := if n < 0 then -n else n;
    ParseUintReadsDigits(m, base0);
    ParseIntReadsDigits(m, base0);
    SignedExact(m, ParseUint(Digits(m, 10), base0));
  }

  // t is s with some of its upper-case ASCII letters, or all of them, put in lower case.
  predicate LowersTo(s: string, t: string) {
    |s| == |t| && forall i | 0 <= i < |s| :: s[i] == t[i] || ('A' <= s[i] <= 'Z' && t[i] as int == s[i] as int + 32)
  }

  lemma LowersRest(s: string, t: string, n: nat)
    requires LowersTo(s, t) && n <= |s|
    ensures LowersTo(s[n..], t[n..]) && ('_' in s <==> '_' in t)
  {
    forall i | 0 <= i < |s| ensures s[i] == '_' <==> t[i] == '_' {
    }
  }

  lemma {:induction false} ScanIgnoresCase(s: string, t: string, base: nat, base0: bool, n: uint64)
    requires LowersTo(s, t) && Parsable(base)
    ensures ScanDigits(s, base, base0, n) == ScanDigits(t, base, base0, n)
  {
    if s != [] {
      LowersRest(s, t, 1);
      assert DigitOf(s[0]) == DigitOf(t[0]);
      forall m: uint64 ensures ScanDigits(s[1..], base, base0, m) == ScanDigits(t[1..], base, base0, m) {
        ScanIgnoresCase(s[1..], t[1..], base, base0, m);
      }
    }
  }

  lemma {:induction false} UnderscoresIgnoreCase(s: string, t: string, hex: bool, saw: char)
    requires LowersTo(s, t)
    ensures UnderscoreScan(s, hex, saw) == UnderscoreScan(t, hex, saw)
  {
    if s != [] {
      LowersRest(s, t, 1);
      forall c: char ensures UnderscoreScan(s[1..], hex, c) == UnderscoreScan(t[1..], hex, c) {
        UnderscoresIgnoreCase(s[1..], t[1..], hex, c);
      }
    }
  }

  lemma UnderscoreOkIgnoresCase(s: string, t: string)
    requires LowersTo(s, t)
    ensures UnderscoreOk(s) == UnderscoreOk(t)
  {
    hide UnderscoreScan;
    UnderscoresIgnoreCase(s, t, false, '^');
    if |s| >= 2 {
      LowersRest(s, t, 2);
      UnderscoresIgnoreCase(s[2..], t[2..], s[1] in "xX", '0');
    }
  }

  lemma SplitBaseIgnoresCase(s: string, t: string, base0: bool)
    requires LowersTo(s, t) && s != []
    ensures SplitBase(s, base0).0 == SplitBase(t, base0).0
    ensures LowersTo(SplitBase(s, base0).1, SplitBase(t, base0).1)
  {
    LowersRest(s, t, 1);
    if |s| >= 2 {
      LowersRest(s, t, 2);
    }
  }

  lemma ParseUintIgnoresCase(s: string, t: string, base0: bool)
    requires LowersTo(s, t)
    ensures ParseUint(s, base0) == ParseUint(t, base0)
  {
    hide SplitBase, ScanDigits, UnderscoreOk, LowersTo;
    LowersNothing(s, t);
    if s != [] {
      var (base, digits) := SplitBase(s, base0);
      var (_, lower) := SplitBase(t, base0);
      SplitBaseIgnoresCase(s, t, base0);
      ScanIgnoresCase(digits, lower, base, base0, 0);
      LowersRest(digits, lower, 0);
      UnderscoreOkIgnoresCase(s, t);
    }
  }

  lemma LowersNothing(s: string, t: string)
    requires LowersTo(s, t)
    ensures s == [] <==> t == []
  {
  }

  // The case of letters makes no difference, neither in the digits nor in the base prefix.
  lemma ParseIntIgnoresCase(s: string, t: string, base0: bool)
    requires LowersTo(s, t)
    ensures ParseInt(s, base0) == ParseInt(t, base0)
  {
    if s != [] {
      LowersRest(s, t, 1);
      ParseUintIgnoresCase(s, t, base0);
      ParseUintIgnoresCase(s[1..], t[1..], base0);
    }
  }

  // Decimal printing is injective.
  lemma FormatIntInjective(a: int, b: int)
    ensures FormatInt(a, 10) == FormatInt(b, 10) <==> a == b
  {
    var m, k := if a < 0 then -a else a, if b < 0 then -b else b;
    DigitsShape(m, 10);
    DigitsShape(k, 10);
    if a < 0 { assert FormatInt(a, 10)[1..] == Digits(m, 10); }
    if b < 0 { assert FormatInt(b, 10)[1..] == Digits(k, 10); }
    DigitsWorth(m, 10);
    DigitsWorth(k, 10);
  }
}
