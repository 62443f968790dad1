/**
 * The JavaScript string built-ins the register relies on: `toUpperCase`, `trim`
 * and `parseInt`, over strings of Dafny characters.
 * Upper-casing covers the ASCII letters only; the white-space set is the one
 * ECMAScript's `trim` and `parseInt` skip (WhiteSpace and LineTerminator).
 */
module JsText {

  predicate IsAsciiLetter(c: char) {
    ('A' <= c <= 'Z') || ('a' <= c <= 'z')
  }

  predicate IsAsciiUpper(c: char) {
    'A' <= c <= 'Z'
  }

  predicate IsAsciiDigit(c: char) {
    '0' <= c <= '9'
  }

  /** ECMAScript WhiteSpace (tab, VT, FF, space, NBSP, BOM, the Zs category) and LineTerminator. */
  predicate IsWhiteSpace(c: char) {
    || c == '\t' || c == '\U{000B}' || c == '\U{000C}' || c == ' ' || c == '\U{00A0}' || c == '\U{FEFF}'
    || c == '\U{1680}' || ('\U{2000}' <= c <= '\U{200A}') || c == '\U{202F}' || c == '\U{205F}' || c == '\U{3000}'
    || c == '\n' || c == '\r' || c == '\U{2028}' || c == '\U{2029}'
  }

  // ---------------------------------------------------------------- toUpperCase

  function ToUpperChar(c: char): (u: char)
    ensures 'a' <= c <= 'z' ==> IsAsciiUpper(u) && u as int == c as int - 32
    ensures !('a' <= c <= 'z') ==> u == c
  {
    if 'a' <= c <= 'z' then (c as int - 32) as char else c
  }

  /** `s.toUpperCase()`, character by character. */
  function ToUpperCase(s: string): (r: string)
    ensures |r| == |s|
    ensures forall i :: 0 <= i < |s| ==> r[i] == ToUpperChar(s[i])
  {
    seq(|s|, i requires 0 <= i < |s| => ToUpperChar(s[i]))
  }

  lemma ToUpperCaseIdempotent(s: string)
    ensures ToUpperCase(ToUpperCase(s)) == ToUpperCase(s)
  {
    var u := ToUpperCase(s);
    assert forall i :: 0 <= i < |u| ==> ToUpperChar(u[i]) == u[i];
  }

  /** Every character of an upper-cased string is its own upper case. */
  lemma ToUpperCaseCharsAreUpper(s: string)
    ensures forall c :: c in ToUpperCase(s) ==> ToUpperChar(c) == c
  {
  }

  /** A string whose characters are all their own upper case is unchanged by upper-casing. */
  lemma ToUpperCaseOfUpper(s: string)
    requires forall c :: c in s ==> ToUpperChar(c) == c
    ensures ToUpperCase(s) == s
  {
    assert forall i :: 0 <= i < |s| ==> s[i] in s;
  }

  /** Upper-casing leaves white space where it was, so it commutes with trimming. */
  lemma ToUpperCharKeepsWhiteSpace(c: char)
    ensures IsWhiteSpace(ToUpperChar(c)) <==> IsWhiteSpace(c)
  {
  }

  // ---------------------------------------------------------------- trim

  /** Drops the leading white space: the result is the longest suffix that does not start with white space. */
  function TrimStart(s: string): (r: string)
    ensures |r| <= |s| && r == s[|s| - |r|..]
    ensures r == [] || !IsWhiteSpace(r[0])
    ensures forall i :: 0 <= i < |s| - |r| ==> IsWhiteSpace(s[i])
    decreases |s|
  {
    if |s| > 0 && IsWhiteSpace(s[0]) then TrimStart(s[1..]) else s
  }

  /** Drops the trailing white space: the result is the longest prefix that does not end with white space. */
  function TrimEnd(s: string): (r: string)
    ensures |r| <= |s| && r == s[..|r|]
    ensures r == [] || !IsWhiteSpace(r[|r| - 1])
    ensures forall i :: |r| <= i < |s| ==> IsWhiteSpace(s[i])
    decreases |s|
  {
    if |s| > 0 && IsWhiteSpace(s[|s| - 1]) then TrimEnd(s[..|s| - 1]) else s
  }

  /**
   * `s.trim()`: the longest prefix of `TrimStart(s)` that does not end with
   * white space; it neither starts nor ends with white space.
   */
  function Trim(s: string): (r: string)
    ensures |r| <= |TrimStart(s)| && r == TrimStart(s)[..|r|]
    ensures forall i :: |r| <= i < |TrimStart(s)| ==> IsWhiteSpace(TrimStart(s)[i])
    ensures r == [] || (!IsWhiteSpace(r[0]) && !IsWhiteSpace(r[|r| - 1]))
  {
    var t := TrimStart(s);
    var r := TrimEnd(t);
    assert r != [] ==> r[0] == t[0];
    r
  }

  lemma TrimStartKeeps(s: string)
    requires s == [] || !IsWhiteSpace(s[0])
    ensures TrimStart(s) == s
  {
  }

  lemma TrimEndKeeps(s: string)
    requires s == [] || !IsWhiteSpace(s[|s| - 1])
    ensures TrimEnd(s) == s
  {
  }

  /** A string that neither starts nor ends with white space is its own trim. */
  lemma TrimKeepsTrimmed(s: string)
    requires s == [] || (!IsWhiteSpace(s[0]) && !IsWhiteSpace(s[|s| - 1]))
    ensures Trim(s) == s
  {
    TrimStartKeeps(s);
    TrimEndKeeps(s);
  }

  /** A string that is its own trim neither starts nor ends with white space. */
  lemma TrimFixedPointIsTrimmed(s: string)
    requires Trim(s) == s
    ensures s == [] || (!IsWhiteSpace(s[0]) && !IsWhiteSpace(s[|s| - 1]))
  {
    var t := TrimStart(s);
    assert |t| == |s|;
  }

  /** Trimming only drops characters: whatever is left was in the string. */
  lemma TrimKeepsChars(s: string)
    ensures forall c :: c in Trim(s) ==> c in s
  {
    var t := TrimStart(s);
    SliceChars(s, |s| - |t|, |s|);
    SliceChars(t, 0, |TrimEnd(t)|);
  }

  lemma SliceChars(s: string, a: nat, b: nat)
    requires a <= b <= |s|
    ensures forall c :: c in s[a..b] ==> c in s
  {
    forall c | c in s[a..b] ensures c in s {
      var i :| 0 <= i < b - a && s[a..b][i] == c;
      assert s[a + i] == c;
    }
  }

  lemma TrimIdempotent(s: string)
    ensures Trim(Trim(s)) == Trim(s)
  {
    var t := TrimStart(s);
    var r := TrimEnd(t);
    if r != [] {
      assert r[0] == t[0];
    }
    TrimKeepsTrimmed(r);
  }

  // ---------------------------------------------------------------- numbers

  /** `Number.isInteger(x)` for a finite number. */
  predicate IsInteger(x: real) {
    x.Floor as real == x
  }

  // ---------------------------------------------------------------- parseInt

  /** A JavaScript number produced by `parseInt`: an integer or NaN. */
  datatype ParsedInt = Number(value: int) | NotANumber

  /** The value of `c` as a digit in radix 36 ('0'-'9', then the letters of either case), or 36 when it is none. */
  function DigitValue(c: char): (d: nat)
    ensures d <= 36
    ensures d < 10 <==> IsAsciiDigit(c)
    ensures IsAsciiDigit(c) ==> d == c as int - '0' as int
  {
    if '0' <= c <= '9' then c as int - '0' as int
    else if 'a' <= c <= 'z' then c as int - 'a' as int + 10
    else if 'A' <= c <= 'Z' then c as int - 'A' as int + 10
    else 36
  }

  /** The longest prefix of `s` made of digits of the given radix. */
  function DigitPrefix(s: string, radix: nat): (r: string)
    ensures |r| <= |s| && r == s[..|r|]
    ensures forall i :: 0 <= i < |r| ==> DigitValue(r[i]) < radix
    ensures |r| < |s| ==> DigitValue(s[|r|]) >= radix
  {
    if |s| > 0 && DigitValue(s[0]) < radix then [s[0]] + DigitPrefix(s[1..], radix) else []
  }

  /** The value of a numeral, most significant digit first. */
  function NumeralValue(ds: string, radix: nat): nat {
    if ds == [] then 0 else NumeralValue(ds[..|ds| - 1], radix) * radix + DigitValue(ds[|ds| - 1])
  }

  /** `s` starts with the "0x" or "0X" prefix that makes `parseInt` read hexadecimal. */
  predicate HasHexPrefix(s: string) {
    |s| >= 2 && s[0] == '0' && (s[1] == 'x' || s[1] == 'X')
  }

  /**
   * `parseInt(s)` with no radix: skip leading white space, read an optional sign,
   * switch to radix 16 after "0x"/"0X", then read the longest run of digits;
   * NaN when that run is empty.
   */
  function ParseInt(s: string): (r: ParsedInt)
    ensures TrimStart(s) == [] ==> r == NotANumber
    ensures var t := TrimStart(s);
      |t| > 0 && IsAsciiDigit(t[0]) && !HasHexPrefix(t) ==> r == Number(NumeralValue(DigitPrefix(t, 10), 10))
  {
    var t := TrimStart(s);
    if |t| > 0 && IsAsciiDigit(t[0]) && !HasHexPrefix(t) then
      UnsignedDecimal(t);
      DigitPrefixStartsWithDigit(t);
      ParseSigned(t)
    else
      ParseSigned(t)
  }

  function ParseSigned(t: string): ParsedInt {
    if |t| > 0 && t[0] == '-' then Negate(ParseUnsigned(t[1..]))
    else if |t| > 0 && t[0] == '+' then ParseUnsigned(t[1..])
    else ParseUnsigned(t)
  }

  function ParseUnsigned(u: string): ParsedInt {
    if HasHexPrefix(u) then ParseNumeral(u[2..], 16) else ParseNumeral(u, 10)
  }

  function ParseNumeral(u: string, radix: nat): ParsedInt {
    var numeral := DigitPrefix(u, radix);
    if numeral == [] then NotANumber else Number(NumeralValue(numeral, radix))
  }

  function Negate(n: ParsedInt): ParsedInt {
    match n
    case Number(v) => Number(-v)
    case NotANumber => NotANumber
  }

  /** A string that starts with a decimal digit (and is not hexadecimal) parses to its leading run of digits. */
  lemma ParseIntLeadingDigits(s: string)
    requires |s| > 0 && IsAsciiDigit(s[0]) && !HasHexPrefix(s)
    ensures ParseInt(s) == Number(NumeralValue(DigitPrefix(s, 10), 10))
    ensures |DigitPrefix(s, 10)| > 0
  {
    DigitPrefixStartsWithDigit(s);
    TrimStartKeeps(s);
    assert TrimStart(s) == s;
  }

  lemma DigitPrefixStartsWithDigit(s: string)
    requires |s| > 0 && IsAsciiDigit(s[0])
    ensures DigitPrefix(s, 10) != []
  {
    assert DigitValue(s[0]) < 10;
  }

  lemma UnsignedDecimal(s: string)
    requires |s| > 0 && IsAsciiDigit(s[0]) && !HasHexPrefix(s)
    ensures ParseSigned(s) == ParseNumeral(s, 10)
  {
  }

  /** A string that starts with neither white space, a sign nor a decimal digit is NaN. */
  lemma ParseIntNoDigits(s: string)
    requires |s| > 0 && !IsWhiteSpace(s[0]) && s[0] != '+' && s[0] != '-' && !IsAsciiDigit(s[0])
    ensures ParseInt(s) == NotANumber
  {
    TrimStartKeeps(s);
    assert !HasHexPrefix(s);
  }

  /** The value of four decimal digits, read as a year. */
  function FourDigitValue(s: string): (v: nat)
    requires |s| >= 4 && forall i :: 0 <= i < 4 ==> IsAsciiDigit(s[i])
    ensures v <= 9999
  {
    1000 * DigitValue(s[0]) + 100 * DigitValue(s[1]) + 10 * DigitValue(s[2]) + DigitValue(s[3])
  }

  /** The digit run of `s` ends exactly at the first character that is not a digit of the radix. */
  lemma {:induction false} DigitPrefixIs(s: string, radix: nat, k: nat)
    requires k <= |s| && forall i :: 0 <= i < k ==> DigitValue(s[i]) < radix
    requires k == |s| || DigitValue(s[k]) >= radix
    ensures DigitPrefix(s, radix) == s[..k]
    decreases k
  {
    if k > 0 {
      DigitPrefixIs(s[1..], radix, k - 1);
      assert s[..k] == [s[0]] + s[1..][..k - 1];
    }
  }

  /** A first-registration date "YYYY-MM-DD" parses to its year. */
  lemma ParseIntOfIsoDate(s: string)
    requires |s| >= 5 && (forall i :: 0 <= i < 4 ==> IsAsciiDigit(s[i])) && s[4] == '-'
    ensures ParseInt(s) == Number(FourDigitValue(s))
  {
    TrimStartKeeps(s);
    UnsignedDecimal(s);
    DigitPrefixOfDate(s);
    FourDigitNumeral(s);
  }

  lemma DigitPrefixOfDate(s: string)
    requires |s| >= 5 && (forall i :: 0 <= i < 4 ==> IsAsciiDigit(s[i])) && s[4] == '-'
    ensures DigitPrefix(s, 10) == s[..4]
  {
    DigitPrefixIs(s, 10, 4);
  }

  lemma FourDigitNumeral(s: string)
    requires |s| >= 4 && forall i :: 0 <= i < 4 ==> IsAsciiDigit(s[i])
    ensures NumeralValue(s[..4], 10) == FourDigitValue(s)
  {
    var t := s[..4];
    assert t[..3][..2] == t[..2] && t[..2][..1] == t[..1] && t[..1][..0] == [];
    assert NumeralValue(t[..1], 10) == DigitValue(t[0]);
    assert NumeralValue(t[..2], 10) == 10 * DigitValue(t[0]) + DigitValue(t[1]);
    assert NumeralValue(t[..3], 10) == 100 * DigitValue(t[0]) + 10 * DigitValue(t[1]) + DigitValue(t[2]);
  }
}
