/**
 * The console's argument parsers: a string must be consumed entirely by
 * strtol/strtoul (base 0) to be a number; a boolean may also be one of the
 * words on/true/off/false in any letter case. None is the "parse failed"
 * result (false return value in the firmware).
 */
module Utils {
  import opened Common
  import opened CStdlib

  /** parse_boolean: a whole-string integer (non-zero is true), else on/true/off/false, case-insensitively. */
  function ParseBoolean(s: seq<char>): (r: Option<bool>)
    ensures ConsumedAll(s, StrToL(s)) ==> r == Some(StrToL(s).value != 0)
    ensures r.None? ==> !CaseEqual(s, "on") && !CaseEqual(s, "true") && !CaseEqual(s, "off") && !CaseEqual(s, "false")
  {
    var c := StrToL(s);
    if ConsumedAll(s, c) then Some(c.value != 0)
    else if CaseEqual(s, "on") || CaseEqual(s, "true") then Some(true)
    else if CaseEqual(s, "off") || CaseEqual(s, "false") then Some(false)
    else None
  }

  /** The unsigned parsers share this: a whole-string strtoul value that does not exceed max. */
  function ParseUnsigned(s: seq<char>, max: nat): (r: Option<nat>)
    ensures r.Some? ==> r.value <= max && r.value <= U32_MAX
    ensures r.Some? <==> ConsumedAll(s, StrToUl(s)) && StrToUl(s).value <= max
  {
    var c := StrToUl(s);
    if ConsumedAll(s, c) && c.value <= max then Some(c.value) else None
  }

  /** parse_u8 */
  function ParseU8(s: seq<char>): (r: Option<nat>)
    ensures r.Some? ==> IsU8(r.value)
  {
    ParseUnsigned(s, U8_MAX)
  }

  /** parse_u16 */
  function ParseU16(s: seq<char>): (r: Option<nat>)
    ensures r.Some? ==> IsU16(r.value)
  {
    ParseUnsigned(s, U16_MAX)
  }

  /** parse_u32: every whole-string strtoul value is accepted (the range check is strtoul's own). */
  function ParseU32(s: seq<char>): (r: Option<nat>)
    ensures r.Some? ==> IsU32(r.value)
    ensures r.Some? <==> ConsumedAll(s, StrToUl(s))
  {
    ParseUnsigned(s, U32_MAX)
  }

  /** strtoul reads the numeral of any n, saturating at ULONG_MAX. */
  lemma DecimalStrToUlSaturating(n: nat)
    ensures StrToUl(Decimal(n)) == Conversion(if n <= U32_MAX then n else U32_MAX, |Decimal(n)|)
  {
    DecimalSubject(n);
  }

  /** parse_u8 and parse_u16 accept exactly the decimal numerals in their range, with their value. */
  lemma ParseUnsignedDecimal(n: nat, max: nat)
    requires max < U32_MAX
    ensures ParseUnsigned(Decimal(n), max) == if n <= max then Some(n) else None
  {
    var s := Decimal(n);
    DecimalStrToUlSaturating(n);
    ParseUnsignedOfConversion(s, max);
  }

  /**
   * parse_u32 accepts every decimal numeral; one beyond 32 bits reads as
   * 0xFFFFFFFF, since the overflow strtoul reports through errno is not checked.
   */
  lemma ParseU32Decimal(n: nat)
    ensures ParseU32(Decimal(n)) == Some(if n <= U32_MAX then n else U32_MAX)
  {
    var s := Decimal(n);
    DecimalStrToUlSaturating(n);
    ParseUnsignedOfConversion(s, U32_MAX);
  }

  /** ParseUnsigned in terms of the conversion alone. */
  lemma ParseUnsignedOfConversion(s: seq<char>, max: nat)
    requires StrToUl(s).end == |s|
    ensures ParseUnsigned(s, max) == if StrToUl(s).value <= max then Some(StrToUl(s).value) else None
  {
  }

  /** A narrower parser accepts a string exactly when parse_u32 does and the value fits. */
  lemma ParseNarrowing(s: seq<char>)
    ensures ParseU8(s).Some? <==> ParseU32(s).Some? && ParseU32(s).value <= U8_MAX
    ensures ParseU16(s).Some? <==> ParseU32(s).Some? && ParseU32(s).value <= U16_MAX
    ensures ParseU8(s).Some? ==> ParseU16(s) == ParseU8(s) == ParseU32(s)
  {
  }

  /** A string starting with a letter holds no number: strtol and strtoul stop at its start. */
  lemma LetterHasNoSubject(s: seq<char>)
    requires |s| > 0 && ('a' <= ToLower(s[0]) <= 'z')
    ensures ScanSubject(s) == None
    ensures StrToL(s) == Conversion(0, 0)
  {
    assert SkipSpaces(s, 0) == 0;
  }

  /** on/true parse as true and off/false as false, in any letter case. */
  lemma {:induction false} ParseBooleanWords(s: seq<char>)
    ensures CaseEqual(s, "on") || CaseEqual(s, "true") ==> ParseBoolean(s) == Some(true)
    ensures CaseEqual(s, "off") || CaseEqual(s, "false") ==> ParseBoolean(s) == Some(false)
  {
    if CaseEqual(s, "on") || CaseEqual(s, "true") || CaseEqual(s, "off") || CaseEqual(s, "false") {
      assert ToLower(s[0]) in {'o', 't', 'f'};
      LetterHasNoSubject(s);
    }
  }

  /** A decimal numeral parses as a boolean that is true exactly when it is not zero. */
  lemma ParseBooleanDecimal(n: nat)
    requires n <= LONG_MAX
    ensures ParseBoolean(Decimal(n)) == Some(n != 0)
  {
    DecimalStrToL(n);
  }

  /** The empty string is a number: strtol stops at the terminator with value 0, so it reads as false. */
  lemma ParseEmpty()
    ensures ParseBoolean("") == Some(false)
    ensures ParseU8("") == Some(0) && ParseU16("") == Some(0) && ParseU32("") == Some(0)
  {
    assert SkipSpaces("", 0) == 0;
  }

  /** "0x" followed by a hexadecimal digit selects base 16: "0x10" is 16. */
  lemma ParseHex()
    ensures ParseU8("0x10") == Some(16)
  {
    var s := "0x10";
    assert SkipSpaces(s, 0) == 0;
    var sub := Subject(false, 16, 2, 4);
    assert ScanSubject(s) == Some(sub) by {
      assert DigitRunEnd(s, 4, 16) == 4;
      assert DigitRunEnd(s, 3, 16) == 4;
      assert DigitRunEnd(s, 2, 16) == 4;
    }
    assert Magnitude(s, sub) == 16 by {
      assert s[2..4] == "10" && "10"[..1] == "1" && "1"[..0] == [];
      assert DigitsValue("1", 16) == 1;
    }
    assert StrToUl(s) == Conversion(16, 4);
  }

  /** Another leading 0 selects octal: "010" is 8. */
  lemma ParseOctal()
    ensures ParseU8("010") == Some(8)
  {
    var s := "010";
    assert SkipSpaces(s, 0) == 0;
    var sub := Subject(false, 8, 0, 3);
    assert ScanSubject(s) == Some(sub) by {
      assert DigitRunEnd(s, 3, 8) == 3;
      assert DigitRunEnd(s, 2, 8) == 3;
      assert DigitRunEnd(s, 1, 8) == 3;
      assert DigitRunEnd(s, 0, 8) == 3;
    }
    assert Magnitude(s, sub) == 8 by {
      assert s[0..3] == s && s[..2] == "01" && "01"[..1] == "0" && "0"[..0] == [];
      assert DigitsValue("0", 8) == 0;
      assert DigitsValue("01", 8) == 1;
    }
    assert StrToUl(s) == Conversion(8, 3);
  }

  /** "0x" without a hexadecimal digit converts only the "0", so the string is not a number. */
  lemma ParseBareHexPrefix()
    ensures ParseU8("0x") == None
  {
    var s := "0x";
    assert SkipSpaces(s, 0) == 0;
    assert ScanSubject(s) == Some(Subject(false, 8, 0, 1)) by {
      assert DigitRunEnd(s, 0, 8) == 1;
    }
  }

  /** A minus sign is accepted by the unsigned parsers and wraps: "-1" is 0xFFFFFFFF for parse_u32. */
  lemma ParseNegativeWraps()
    ensures ParseU32("-1") == Some(U32_MAX)
    ensures ParseU8("-1") == None
  {
    assert SkipSpaces("-1", 0) == 0;
    assert DigitRunEnd("-1", 1, 10) == 2;
    assert "-1"[1..2] == "1" && "1"[..0] == [];
  }
}
