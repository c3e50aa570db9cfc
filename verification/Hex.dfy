/** Number codecs of pkg/utils/hex.go. */
module Hex {
  import opened Wrappers
  import opened Strconv
  import opened Errors

  const HEX_PREFIX := "0x"

  function NumberToHex(n: int): string {
    HEX_PREFIX + FormatInt(n, 16)
  }

  function IntToString(n: int): string {
    FormatInt(n, 10)
  }

  // The *strconv.NumError that ParseInt returns; it is not an IndexerError.
  function ParseError(e: NumError): Err {
    Plain(if e == Syntax then "invalid syntax" else "value out of range")
  }

  function HexToInt(s: string): Result<int64, Err> {
    if s == "" then Err(Make(InvalidHex, "utils", "HexToInt", s, s, None))
    else match ParseInt(s, true)
      case Ok(n) => Ok(n)
      case Err(e) => Err(Make(InvalidHex, "utils", "HexToInt", s, s, Some(ParseError(e))))
  }

  function StringToInt(s: string): Result<int64, Err> {
    if s == "" then Err(Make(ParsingFailed, "utils", "StringToInt", "empty string", "empty string", None))
    else match ParseInt(s, false)
      case Ok(n) => Ok(n)
      case Err(e) => Err(Make(ParsingFailed, "utils", "StringToInt", "decimal number", "decimal number", Some(ParseError(e))))
  }

  // Every error of the two parsers is a non-retryable DataError.
  lemma CodecErrorsAreDataErrors(s: string)
    ensures HexToInt(s).Err? ==> IsDataError(HexToInt(s).error) && !IsRetryable(HexToInt(s).error)
    ensures StringToInt(s).Err? ==> IsDataError(StringToInt(s).error) && !IsRetryable(StringToInt(s).error)
    ensures HexToInt(s).Err? <==> ParseInt(s, true).Err?
    ensures StringToInt(s).Err? <==> ParseInt(s, false).Err?
  {
  }

  /**
   HexToInt inverts NumberToHex exactly on the non-negative int64 numbers. A negative number
   prints its sign after the prefix, which ParseInt rejects; a larger one is out of range.
   */
  lemma HexRoundTrip(n: int)
    requires -TWO_63 <= n < TWO_64
    ensures HexToInt(NumberToHex(n)).Ok? <==> 0 <= n < TWO_63
    ensures 0 <= n < TWO_63 ==> HexToInt(NumberToHex(n)) == Ok(n)
    ensures |NumberToHex(n)| >= 3 && NumberToHex(n)[..2] == "0x"
    ensures n >= 0 ==> forall i | 2 <= i < |NumberToHex(n)| ::
              '0' <= NumberToHex(n)[i] <= '9' || 'a' <= NumberToHex(n)[i] <= 'f'
  {
    var text := NumberToHex(n);
    var digits := FormatInt(n, 16);
    assert text[0] == '0' && text[1] == 'x' && text[2..] == digits;
    DigitsShape(if n < 0 then -n else n, 16);
    assert SplitBase(text, true) == (16, digits);
    if n < 0 {
      assert digits[0] == '-' && DigitOf('-') == None;
      assert ScanDigits(digits, 16, true, 0) == Err(Syntax);
    } else {
      DigitsWorth(n, 16);
      StripPlain(digits, true);
      ScanDigitsExact(digits, 16, true, 0);
    }
  }

  /**
   Upper-case and lower-case spellings of any text are read alike, prefix included; so every spelling
   of a number that can be read is read as that number.
   */
  lemma HexIgnoresCase(s: string, t: string, n: int)
    requires LowersTo(s, t)
    ensures HexToInt(s).Ok? <==> HexToInt(t).Ok?
    ensures HexToInt(s).Ok? ==> HexToInt(s) == HexToInt(t)
    ensures 0 <= n < TWO_63 && t == NumberToHex(n) ==> HexToInt(s) == Ok(n)
  {
    hide ParseInt, NumberToHex;
    ParseIntIgnoresCase(s, t, true);
    if 0 <= n < TWO_63 {
      HexRoundTrip(n);
    }
  }

  // Both decoders invert IntToString on every int64, and refuse the text of any other number of any size.
  lemma DecimalRoundTrip(n: int)
    ensures HexToInt(IntToString(n)).Ok? <==> -TWO_63 <= n < TWO_63
    ensures StringToInt(IntToString(n)).Ok? <==> -TWO_63 <= n < TWO_63
    ensures -TWO_63 <= n < TWO_63 ==> HexToInt(IntToString(n)) == Ok(n) && StringToInt(IntToString(n)) == Ok(n)
  {
    ParseIntInvertsDecimal(n, true);
    ParseIntInvertsDecimal(n, false);
    DigitsShape(if n < 0 then -n else n, 10);
  }

  lemma {:induction false} StripKeepsAll(s: string)
    ensures Strip(s, false) == s
  {
    if s != [] {
      StripKeepsAll(s[1..]);
    }
  }

  lemma DigitsHaveNoUnderscore(s: string, base: nat)
    requires AllDigits(s, base)
    ensures '_' !in s
  {
    assert DigitOf('_') == None;
  }

  /**
   StringToInt accepts exactly an optional sign and decimal digits that make an int64, and yields the
   number they spell: no prefix, no underscore, and a leading zero means nothing.
   */
  lemma StringToIntExactly(s: string)
    ensures
      var negative := s != "" && s[0] == '-';
      var digits := if s != "" && (s[0] == '-' || s[0] == '+') then s[1..] else s;
      && (StringToInt(s).Ok? <==>
            digits != "" && AllDigits(digits, 10) && Worth(0, digits, 10) < TWO_63 + (if negative then 1 else 0))
      && (StringToInt(s).Ok? ==> StringToInt(s).value == (if negative then -1 else 1) * Worth(0, digits, 10))
  {
    var digits := if s != "" && (s[0] == '-' || s[0] == '+') then s[1..] else s;
    StripKeepsAll(digits);
    ScanDigitsExact(digits, 10, false, 0);
    if AllDigits(digits, 10) {
      DigitsHaveNoUnderscore(digits, 10);
    }
  }

  /**
   The base HexToInt reads digits in: the one their prefix names, eight after a bare zero, ten otherwise.
   Without underscores it accepts exactly the digits of that base that make a non-negative int64.
   */
  lemma PrefixNamesBase(prefix: string, base: nat, digits: string)
    requires digits != "" && '_' !in digits
    requires (prefix, base) in {("0x", 16), ("0X", 16), ("0o", 8), ("0O", 8), ("0b", 2), ("0B", 2), ("0", 8), ("", 10)}
    requires prefix == "0" ==> digits[0] !in "bBoOxX" || |digits| == 1
    requires prefix == "" ==> digits[0] !in "0+-"
    ensures HexToInt(prefix + digits).Ok? <==> AllDigits(digits, base) && Worth(0, digits, base) < TWO_63
    ensures HexToInt(prefix + digits).Ok? ==> HexToInt(prefix + digits).value == Worth(0, digits, base)
  {
    hide ScanDigits;
    SplitsAtPrefix(prefix, base, digits);
    StripPlain(digits, true);
    ScanDigitsExact(digits, base, true, 0);
  }

  lemma SplitsAtPrefix(prefix: string, base: nat, digits: string)
    requires digits != ""
    requires (prefix, base) in {("0x", 16), ("0X", 16), ("0o", 8), ("0O", 8), ("0b", 2), ("0B", 2), ("0", 8), ("", 10)}
    requires prefix == "0" ==> digits[0] !in "bBoOxX" || |digits| == 1
    requires prefix == "" ==> digits[0] !in "0+-"
    ensures SplitBase(prefix + digits, true) == (base, digits)
    ensures (prefix + digits)[0] != '+' && (prefix + digits)[0] != '-' && prefix + digits != ""
  {
    var s := prefix + digits;
    assert s[|prefix|..] == digits;
    assert s[|prefix|] == digits[0];
    if prefix == "" {
      assert s == digits;
    } else {
      assert s[0] == '0';
    }
  }

  lemma {:induction false} SmallerInBaseTen(acc: nat, high: nat, s: string)
    requires acc <= high
    requires AllDigits(s, 10) && AllDigits(s, 16)
    ensures Worth(acc, s, 10) <= Worth(high, s, 16)
    ensures s != [] && (acc > 0 || high > acc) ==> Worth(acc, s, 10) < Worth(high, s, 16)
    decreases s
  {
    if s != [] {
      var d := DigitOf(s[0]).value;
      SmallerInBaseTen(Shift(acc, 10, d), Shift(high, 16, d), s[1..]);
    }
  }

  // Hex digits without a leading zero, read in base 10, are worth less than n once n needs two digits.
  lemma HexDigitsReadInBaseTen(n: nat)
    requires n >= 10
    ensures AllDigits(Digits(n, 16), 10) ==> Worth(0, Digits(n, 16), 10) < n
  {
    var text := Digits(n, 16);
    DigitsShape(n, 16);
    DigitsWorth(n, 16);
    assert [text[0]] + text[1..] == text;
    WorthCons(0, text[0], text[1..], 10);
    WorthCons(0, text[0], text[1..], 16);
    if AllDigits(text, 10) {
      var d := DigitOf(text[0]).value;
      SmallerInBaseTen(d, d, text[1..]);
    }
  }

  /**
   The comment on HexToInt promises hex "with or without 0x prefix". Without the prefix the text
   is read as decimal: it comes back as the same number exactly for the one-digit numbers below 10.
   */
  lemma UnprefixedHexIsDecimal(n: nat)
    ensures HexToInt(FormatInt(n, 16)) == Ok(n) <==> n < 10
  {
    var text := Digits(n, 16);
    if n < 10 {
      assert text == Digits(n, 10);
      DecimalRoundTrip(n);
    } else {
      DigitsShape(n, 16);
      HexDigitsReadInBaseTen(n);
      StripPlain(text, true);
      ScanDigitsExact(text, 10, true, 0);
    }
  }
}
