/**
 * The part of the C library the console parsers rely on, as pure functions:
 * strtol/strtoul with base 0 (section 7.22.1.4 of ISO/IEC 9899:2011) for a
 * 32-bit long, and strcasecmp equality in the "C" locale. A C string is
 * modelled by the characters before its terminating NUL; an end pointer is an
 * index into that sequence, |s| being the terminator itself.
 */
module CStdlib {
  import opened Common

  /** isspace() in the "C" locale: space, \t, \n, \v, \f, \r. */
  predicate IsSpace(c: char) {
    c == ' ' || c == '\t' || c == '\n' || c == '\r' || c as int == 0x0B || c as int == 0x0C
  }

  /** The value of an alphanumeric digit (0-9, then a/A = 10 ... z/Z = 35); 36 for anything else. */
  function DigitValue(c: char): (r: nat)
    ensures r <= 36
  {
    if '0' <= c <= '9' then c as int - '0' as int
    else if 'a' <= c <= 'z' then c as int - 'a' as int + 10
    else if 'A' <= c <= 'Z' then c as int - 'A' as int + 10
    else 36
  }

  /** The first index at or after i that is not white space. */
  function SkipSpaces(s: seq<char>, i: nat): (j: nat)
    requires i <= |s|
    ensures i <= j <= |s|
    ensures forall k :: i <= k < j ==> IsSpace(s[k])
    ensures j == |s| || !IsSpace(s[j])
    decreases |s| - i
  {
    if i < |s| && IsSpace(s[i]) then SkipSpaces(s, i + 1) else i
  }

  /** The end of the longest run of base-`base` digits starting at i. */
  function DigitRunEnd(s: seq<char>, i: nat, base: nat): (j: nat)
    requires i <= |s|
    ensures i <= j <= |s|
    ensures forall k :: i <= k < j ==> DigitValue(s[k]) < base
    ensures j == |s| || DigitValue(s[j]) >= base
    decreases |s| - i
  {
    if i < |s| && DigitValue(s[i]) < base then DigitRunEnd(s, i + 1, base) else i
  }

  /** The number a digit string denotes, most significant digit first. */
  function DigitsValue(ds: seq<char>, base: nat): nat
    decreases |ds|
  {
    if ds == [] then 0 else DigitsValue(ds[..|ds| - 1], base) * base + DigitValue(ds[|ds| - 1])
  }

  /** The subject sequence: a sign, a base chosen by the prefix, and a non-empty digit run. */
  datatype Subject = Subject(negative: bool, base: nat, digitsStart: nat, digitsEnd: nat)

  /**
   * The subject sequence strtol/strtoul find in `s` for base 0: after white
   * space and an optional sign, "0x"/"0X" followed by a hexadecimal digit
   * selects base 16, another leading 0 selects base 8, a decimal digit base 10.
   * None when no digit follows, in which case no conversion is performed.
   */
  function ScanSubject(s: seq<char>): (r: Option<Subject>)
    ensures r.Some? ==> r.value.base in {8, 10, 16}
    ensures r.Some? ==> r.value.digitsStart < r.value.digitsEnd <= |s|
    ensures r.Some? ==> forall k :: r.value.digitsStart <= k < r.value.digitsEnd ==> DigitValue(s[k]) < r.value.base
    ensures r.Some? ==> r.value.digitsEnd == |s| || DigitValue(s[r.value.digitsEnd]) >= r.value.base
  {
    var i := SkipSpaces(s, 0);
    var negative := i < |s| && s[i] == '-';
    var j := if i < |s| && (s[i] == '+' || s[i] == '-') then i + 1 else i;
    if j + 2 < |s| && s[j] == '0' && (s[j + 1] == 'x' || s[j + 1] == 'X') && DigitValue(s[j + 2]) < 16 then
      Some(Subject(negative, 16, j + 2, DigitRunEnd(s, j + 2, 16)))
    else if j < |s| && s[j] == '0' then
      Some(Subject(negative, 8, j, DigitRunEnd(s, j, 8)))
    else if j < |s| && DigitValue(s[j]) < 10 then
      Some(Subject(negative, 10, j, DigitRunEnd(s, j, 10)))
    else
      None
  }

  /** What a conversion returns: the value, and where the end pointer was set. */
  datatype Conversion = Conversion(value: int, end: nat)

  /** The magnitude the digits of a subject sequence denote. */
  function Magnitude(s: seq<char>, sub: Subject): nat
    requires sub.digitsStart <= sub.digitsEnd <= |s|
  {
    DigitsValue(s[sub.digitsStart..sub.digitsEnd], sub.base)
  }

  /**
   * strtoul(s, &end, 0) for a 32-bit unsigned long: ULONG_MAX when the
   * magnitude does not fit, a negated value wrapped into the unsigned range,
   * and value 0 with end == start (index 0) when there is no subject sequence.
   */
  function StrToUl(s: seq<char>): (r: Conversion)
    ensures 0 <= r.value <= U32_MAX
    ensures r.end <= |s|
    ensures ScanSubject(s).None? ==> r == Conversion(0, 0)
    ensures ScanSubject(s).Some? ==> r.end == ScanSubject(s).value.digitsEnd > 0
  {
    match ScanSubject(s)
    case None => Conversion(0, 0)
    case Some(sub) =>
      var m := Magnitude(s, sub);
      var v: int := if m > U32_MAX then U32_MAX else if sub.negative then (U32_MOD - m) % U32_MOD else m;
      Conversion(v, sub.digitsEnd)
  }

  const LONG_MIN: int := -0x8000_0000
  const LONG_MAX: int := 0x7FFF_FFFF

  /**
   * strtol(s, &end, 0) for a 32-bit long: LONG_MAX or LONG_MIN when the value
   * is out of range, value 0 with end == start when there is no subject sequence.
   */
  function StrToL(s: seq<char>): (r: Conversion)
    ensures LONG_MIN <= r.value <= LONG_MAX
    ensures r.end <= |s|
    ensures ScanSubject(s).None? ==> r == Conversion(0, 0)
    ensures ScanSubject(s).Some? ==> r.end == ScanSubject(s).value.digitsEnd > 0
    ensures ScanSubject(s).Some? ==>
      (r.value == 0 <==> Magnitude(s, ScanSubject(s).value) == 0)
  {
    match ScanSubject(s)
    case None => Conversion(0, 0)
    case Some(sub) =>
      var m: int := Magnitude(s, sub);
      var v: int := if sub.negative then (if m > -LONG_MIN then LONG_MIN else -m)
               else (if m > LONG_MAX then LONG_MAX else m);
      Conversion(v, sub.digitsEnd)
  }

  /** A conversion that stopped at the terminator: the whole string was a number. */
  predicate ConsumedAll(s: seq<char>, c: Conversion) {
    c.end == |s|
  }

  /** ASCII tolower(). */
  function ToLower(c: char): char {
    if 'A' <= c <= 'Z' then (c as int - 'A' as int + 'a' as int) as char else c
  }

  /** strcasecmp(a, b) == 0 in the "C" locale. */
  predicate CaseEqual(a: seq<char>, b: seq<char>) {
    |a| == |b| && forall k :: 0 <= k < |a| ==> ToLower(a[k]) == ToLower(b[k])
  }

  /** The decimal numeral of n, as printf("%u") writes it. */
  function Decimal(n: nat): (r: seq<char>)
    ensures |r| > 0
    decreases n
  {
    if n < 10 then [('0' as int + n) as char] else Decimal(n / 10) + [('0' as int + n % 10) as char]
  }

  /** Every character of a decimal numeral is a decimal digit, and it denotes n; only 0 starts with '0'. */
  lemma {:induction false} DecimalDigits(n: nat)
    ensures forall k :: 0 <= k < |Decimal(n)| ==> DigitValue(Decimal(n)[k]) < 10
    ensures DigitsValue(Decimal(n), 10) == n
    ensures Decimal(n)[0] == '0' <==> n == 0
    decreases n
  {
    if n >= 10 {
      DecimalDigits(n / 10);
      var d := Decimal(n);
      assert d[..|d| - 1] == Decimal(n / 10);
    }
  }

  /** "0" is an octal subject sequence of value 0. */
  lemma ZeroSubject()
    ensures ScanSubject("0") == Some(Subject(false, 8, 0, 1))
    ensures Magnitude("0", Subject(false, 8, 0, 1)) == 0
  {
    assert SkipSpaces("0", 0) == 0;
    assert DigitRunEnd("0", 0, 8) == 1;
    assert "0"[0..1] == "0";
    assert "0"[..0] == [];
  }

  /** A decimal numeral is one subject sequence with no sign, spanning the whole string. */
  lemma DecimalSubject(n: nat)
    ensures ScanSubject(Decimal(n)).Some?
    ensures !ScanSubject(Decimal(n)).value.negative
    ensures ScanSubject(Decimal(n)).value.digitsEnd == |Decimal(n)|
    ensures Magnitude(Decimal(n), ScanSubject(Decimal(n)).value) == n
  {
    var s := Decimal(n);
    if n == 0 {
      assert s == "0";
      ZeroSubject();
    } else {
      DecimalDigits(n);
      assert SkipSpaces(s, 0) == 0 by {
        assert DigitValue(s[0]) < 10;
      }
      var sub := ScanSubject(s).value;
      assert sub == Subject(false, 10, 0, DigitRunEnd(s, 0, 10));
      assert s[0..|s|] == s;
    }
  }

  /** strtoul reads back the numeral printf writes, consuming all of it. */
  lemma DecimalStrToUl(n: nat)
    requires n <= U32_MAX
    ensures StrToUl(Decimal(n)) == Conversion(n, |Decimal(n)|)
  {
    var s := Decimal(n);
    DecimalDigits(n);
    DecimalSubject(n);
  }

  /** strtol reads back the numeral of a non-negative long, consuming all of it. */
  lemma DecimalStrToL(n: nat)
    requires n <= LONG_MAX
    ensures StrToL(Decimal(n)) == Conversion(n, |Decimal(n)|)
  {
    var s := Decimal(n);
    DecimalDigits(n);
    DecimalSubject(n);
  }
  /** A numeral embedded in `s` at L, not continued by a digit or an x: where its digit run ends, and its value. */
  lemma NumeralAt(s: seq<char>, L: nat, n: nat)
    requires L + |Decimal(n)| <= |s| && s[L..L + |Decimal(n)|] == Decimal(n)
    requires L + |Decimal(n)| < |s| ==> DigitValue(s[L + |Decimal(n)|]) >= 10
    ensures s[L] == '0' <==> n == 0
    ensures DigitValue(s[L]) < 10
    ensures n == 0 ==> DigitRunEnd(s, L, 8) == L + 1 && DigitsValue(s[L..L + 1], 8) == 0
    ensures n > 0 ==> DigitRunEnd(s, L, 10) == L + |Decimal(n)| && DigitsValue(s[L..L + |Decimal(n)|], 10) == n
  {
    var d := Decimal(n);
    DecimalDigits(n);
    assert s[L] == d[0];
    assert forall k :: L <= k < L + |d| ==> DigitValue(s[k]) < 10 by {
      forall k | L <= k < L + |d| ensures DigitValue(s[k]) < 10 {
        assert s[k] == d[k - L];
      }
    }
    if n == 0 {
      assert d == "0";
      assert DigitsValue("0", 8) == 0 by {
        assert "0"[..0] == [];
      }
    }
  }

  /** The subject sequence of a numeral with at most a sign before it. */
  lemma ScanNumeral(s: seq<char>, L: nat, n: nat)
    requires L <= 1 && L + |Decimal(n)| <= |s| && s[L..L + |Decimal(n)|] == Decimal(n)
    requires L == 1 ==> s[0] == '-' || s[0] == '+'
    requires L + |Decimal(n)| < |s| ==> DigitValue(s[L + |Decimal(n)|]) >= 10
    requires n == 0 && L + 1 < |s| ==> s[L + 1] != 'x' && s[L + 1] != 'X'
    ensures ScanSubject(s) == Some(if n == 0 then Subject(L == 1 && s[0] == '-', 8, L, L + 1)
                                   else Subject(L == 1 && s[0] == '-', 10, L, L + |Decimal(n)|))
    ensures Magnitude(s, ScanSubject(s).value) == n
  {
    NumeralAt(s, L, n);
    if n == 0 {
      ScanOctalZero(s, L);
    } else {
      ScanDecimalRun(s, L, L + |Decimal(n)|);
    }
  }

  /** A lone 0 after at most a sign, not followed by x, is an octal subject sequence of one digit. */
  lemma ScanOctalZero(s: seq<char>, L: nat)
    requires L < |s| && s[L] == '0' && DigitRunEnd(s, L, 8) == L + 1
    requires L <= 1 && (L == 1 ==> s[0] == '-' || s[0] == '+')
    requires L + 1 < |s| ==> s[L + 1] != 'x' && s[L + 1] != 'X'
    ensures ScanSubject(s) == Some(Subject(L == 1 && s[0] == '-', 8, L, L + 1))
  {
    assert SkipSpaces(s, 0) == 0;
  }

  /** A run of decimal digits not starting with 0, after at most a sign, is a decimal subject sequence. */
  lemma ScanDecimalRun(s: seq<char>, L: nat, e: nat)
    requires L < e <= |s| && s[L] != '0' && DigitValue(s[L]) < 10 && DigitRunEnd(s, L, 10) == e
    requires L <= 1 && (L == 1 ==> s[0] == '-' || s[0] == '+')
    ensures ScanSubject(s) == Some(Subject(L == 1 && s[0] == '-', 10, L, e))
  {
    assert SkipSpaces(s, 0) == 0;
  }

  /**
   * strtol reads a signed numeral followed by text that cannot continue it
   * (no digit, and not the x of a hexadecimal prefix): the value is the
   * numeral's and the end pointer stops right after its last digit.
   */
  lemma SignedDecimalStrToL(sign: seq<char>, n: nat, rest: seq<char>)
    requires sign == "" || sign == "-" || sign == "+"
    requires n <= LONG_MAX
    requires |rest| > 0 ==> DigitValue(rest[0]) >= 10 && rest[0] != 'x' && rest[0] != 'X'
    ensures StrToL(sign + Decimal(n) + rest) == Conversion(if sign == "-" then -(n as int) else n, |sign| + |Decimal(n)|)
  {
    var d := Decimal(n);
    var s := sign + d + rest;
    var L := |sign|;
    assert s[L..L + |d|] == d;
    assert L + |d| < |s| ==> s[L + |d|] == rest[0];
    assert n == 0 ==> |d| == 1;
    ScanNumeral(s, L, n);
  }
}
