/**
 * src/utils/colorUtils.ts: `hexToNumber(hex)` is `parseInt(hex.slice(1), 16)`.
 *
 * `ParseIntHex` follows the steps of `parseInt` with radix 16 in section
 * 19.2.5 of ECMAScript 2023: skip leading white space, read one optional
 * sign, drop an optional "0x"/"0X" prefix, then read the longest run of
 * hexadecimal digits. An empty run gives NaN, modelled as `None`.
 */
module ColorUtils {
  import opened Wrappers
  import Colors

  /** The code points `TrimString(_, start)` removes: WhiteSpace and LineTerminator of ECMAScript 2023. */
  predicate IsStrWhiteSpace(c: char) {
    || c == '\t' || c == '\U{000B}' || c == '\U{000C}' || c == '\U{FEFF}'
    || c == ' ' || c == '\U{00A0}' || c == '\U{1680}'
    || ('\U{2000}' <= c <= '\U{200A}') || c == '\U{202F}' || c == '\U{205F}' || c == '\U{3000}'
    || c == '\n' || c == '\r' || c == '\U{2028}' || c == '\U{2029}'
  }

  predicate IsHexDigit(c: char) {
    ('0' <= c <= '9') || ('a' <= c <= 'f') || ('A' <= c <= 'F')
  }

  /** The value of one radix-16 digit; upper and lower case agree. */
  function DigitValue(c: char): (v: nat)
    requires IsHexDigit(c)
    ensures v < 16
  {
    if '0' <= c <= '9' then (c - '0') as nat
    else if 'a' <= c <= 'f' then (c - 'a') as nat + 10
    else (c - 'A') as nat + 10
  }

  predicate AllHexDigits(s: string) {
    forall i :: 0 <= i < |s| ==> IsHexDigit(s[i])
  }

  /** The value of a string of hexadecimal digits, most significant first. */
  function HexValue(s: string): nat
    requires AllHexDigits(s)
  {
    if s == [] then 0 else HexValue(s[..|s| - 1]) * 16 + DigitValue(s[|s| - 1])
  }

  /** Leading white space removed. */
  function TrimStart(s: string): string {
    if s != [] && IsStrWhiteSpace(s[0]) then TrimStart(s[1..]) else s
  }

  /** The longest prefix of `s` made of hexadecimal digits. */
  function LeadingHexDigits(s: string): (d: string)
    ensures AllHexDigits(d)
  {
    if s != [] && IsHexDigit(s[0]) then [s[0]] + LeadingHexDigits(s[1..]) else []
  }

  /** `parseInt(s, 16)`; `None` is NaN. */
  function ParseIntHex(str: string): Option<int> {
    var s := TrimStart(str);
    var sign := if s != [] && s[0] == '-' then -1 else 1;
    var unsigned := if s != [] && (s[0] == '+' || s[0] == '-') then s[1..] else s;
    var digits := if |unsigned| >= 2 && unsigned[0] == '0' && (unsigned[1] == 'x' || unsigned[1] == 'X')
                  then unsigned[2..] else unsigned;
    var z := LeadingHexDigits(digits);
    if z == [] then None else Some(sign * HexValue(z))
  }

  /** `hexToNumber`: the first character is dropped, the rest read by `parseInt(_, 16)`. */
  function HexToNumber(hex: string): (r: Option<int>)
    ensures |hex| <= 1 ==> r == None
  {
    ParseIntHex(if hex == [] then [] else hex[1..])
  }

  // ---------------------------------------------------------------------------
  // Six-digit formatting, the inverse direction

  function Pow16(w: nat): (p: nat)
    ensures p > 0
  {
    if w == 0 then 1 else 16 * Pow16(w - 1)
  }

  /** The lower-case digit of a value below 16. */
  function HexChar(d: nat): (c: char)
    requires d < 16
    ensures IsHexDigit(c) && DigitValue(c) == d
  {
    if d < 10 then ('0' as int + d) as char else ('a' as int + d - 10) as char
  }

  /** `n` written with exactly `w` lower-case hexadecimal digits (the low `w` digits of `n`). */
  function ToHex(n: nat, w: nat): (s: string)
    ensures |s| == w && AllHexDigits(s)
  {
    if w == 0 then [] else ToHex(n / 16, w - 1) + [HexChar(n % 16)]
  }

  /** The six-digit form used by colour strings such as "#ff3366". */
  function SixDigitHex(n: nat): (s: string)
    ensures |s| == 6 && AllHexDigits(s)
  {
    ToHex(n, 6)
  }

  /** Reading back the digits `ToHex` wrote gives the number, when it fits in `w` digits. */
  lemma {:induction false} HexValueOfToHex(n: nat, w: nat)
    requires n < Pow16(w)
    ensures HexValue(ToHex(n, w)) == n
  {
    if w > 0 {
      var s := ToHex(n, w);
      assert s[..|s| - 1] == ToHex(n / 16, w - 1);
      HexValueOfToHex(n / 16, w - 1);
    }
  }

  /** A string of `|s|` hexadecimal digits is worth less than 16 to the power `|s|`. */
  lemma {:induction false} HexValueBound(s: string)
    requires AllHexDigits(s)
    ensures HexValue(s) < Pow16(|s|)
  {
    if s != [] {
      HexValueBound(s[..|s| - 1]);
    }
  }

  lemma {:induction false} LeadingHexDigitsOfDigits(s: string, t: string)
    requires AllHexDigits(s)
    requires t == [] || !IsHexDigit(t[0])
    ensures LeadingHexDigits(s + t) == s
  {
    if s != [] {
      assert (s + t)[1..] == s[1..] + t;
      LeadingHexDigitsOfDigits(s[1..], t);
    } else {
      assert s + t == t;
    }
  }

  /** Text that starts with a digit and no "0x" prefix is read as its leading digits, with a plus sign. */
  lemma ParseUnsignedDigits(s: string)
    requires s != [] && IsHexDigit(s[0])
    requires !(|s| >= 2 && s[0] == '0' && (s[1] == 'x' || s[1] == 'X'))
    ensures ParseIntHex(s) == Some(HexValue(LeadingHexDigits(s)))
  {
    assert !IsStrWhiteSpace(s[0]) && s[0] != '+' && s[0] != '-';
    assert TrimStart(s) == s;
    assert LeadingHexDigits(s) == [s[0]] + LeadingHexDigits(s[1..]);
  }

  /** A digit string followed by anything that is not a digit: parsing reads exactly the digits. */
  lemma ParseDigitsThenStop(d: string, t: string)
    requires d != [] && AllHexDigits(d)
    requires t == [] || !IsHexDigit(t[0])
    requires !(d == "0" && t != [] && (t[0] == 'x' || t[0] == 'X'))
    ensures ParseIntHex(d + t) == Some(HexValue(d))
  {
    var s := d + t;
    assert s[0] == d[0];
    if |d| >= 2 {
      assert s[1] == d[1];
    } else if t != [] {
      assert s[1] == t[0];
    }
    LeadingHexDigitsOfDigits(d, t);
    ParseUnsignedDigits(s);
  }

  /** Whatever the first character is, it is dropped and the rest is read by `parseInt(_, 16)`. */
  lemma FirstCharacterDropped(first: char, rest: string)
    ensures HexToNumber([first] + rest) == ParseIntHex(rest)
  {
    assert ([first] + rest)[1..] == rest;
  }

  /** Parsing stops at the first non-digit after the '#': "#ff33zz" reads "ff33". */
  lemma StopsAtFirstNonHex(first: char, d: string, t: string)
    requires d != [] && AllHexDigits(d)
    requires t == [] || !IsHexDigit(t[0])
    requires !(d == "0" && t != [] && (t[0] == 'x' || t[0] == 'X'))
    ensures HexToNumber([first] + d + t) == Some(HexValue(d))
  {
    assert ([first] + d + t)[1..] == d + t;
    ParseDigitsThenStop(d, t);
  }

  /** "#" and six digits: the value of the digits, a 24-bit colour. */
  lemma WellFormedColour(d: string)
    requires |d| == 6 && AllHexDigits(d)
    ensures HexToNumber("#" + d) == Some(HexValue(d))
    ensures 0 <= HexValue(d) <= 0xFF_FFFF
  {
    StopsAtFirstNonHex('#', d, []);
    assert ['#'] + d + [] == "#" + d;
    HexValueBound(d);
    assert Pow16(6) == 0x100_0000;
  }

  /** Formatting then parsing gives back every 24-bit colour. */
  lemma SixDigitRoundTrip(n: nat)
    requires n < 0x100_0000
    ensures HexToNumber("#" + SixDigitHex(n)) == Some(n)
  {
    assert Pow16(6) == 0x100_0000;
    HexValueOfToHex(n, 6);
    WellFormedColour(SixDigitHex(n));
  }

  /** With no digit, sign or white space right after the first character, the result is NaN. */
  lemma NoLeadingDigitIsNaN(hex: string)
    requires |hex| >= 2
    requires !IsHexDigit(hex[1]) && !IsStrWhiteSpace(hex[1]) && hex[1] != '+' && hex[1] != '-'
    ensures HexToNumber(hex) == None
  {
    var s := hex[1..];
    assert s[0] == hex[1];
    assert TrimStart(s) == s;
  }

  // ---------------------------------------------------------------------------
  // Case insensitivity

  /** ASCII letters mapped to lower case, everything else unchanged. */
  function AsciiLower(c: char): char {
    if 'A' <= c <= 'Z' then (c as int + 32) as char else c
  }

  function LowerString(s: string): (r: string)
    ensures |r| == |s|
  {
    seq(|s|, i requires 0 <= i < |s| => AsciiLower(s[i]))
  }

  lemma LowerSlice(s: string, k: nat)
    requires k <= |s|
    ensures LowerString(s)[k..] == LowerString(s[k..])
  {
  }

  lemma {:induction false} TrimStartLower(s: string)
    ensures TrimStart(LowerString(s)) == LowerString(TrimStart(s))
  {
    if s != [] && IsStrWhiteSpace(s[0]) {
      LowerSlice(s, 1);
      TrimStartLower(s[1..]);
    }
  }

  lemma {:induction false} LeadingHexDigitsLower(s: string)
    ensures LeadingHexDigits(LowerString(s)) == LowerString(LeadingHexDigits(s))
  {
    if s != [] && IsHexDigit(s[0]) {
      LowerSlice(s, 1);
      LeadingHexDigitsLower(s[1..]);
      assert LowerString([s[0]] + LeadingHexDigits(s[1..]))
          == [AsciiLower(s[0])] + LowerString(LeadingHexDigits(s[1..]));
    }
  }

  lemma {:induction false} HexValueLower(s: string)
    requires AllHexDigits(s)
    ensures AllHexDigits(LowerString(s)) && HexValue(LowerString(s)) == HexValue(s)
  {
    if s != [] {
      var l := LowerString(s);
      assert l[..|l| - 1] == LowerString(s[..|s| - 1]);
      HexValueLower(s[..|s| - 1]);
    }
  }

  /** Upper- and lower-case letters parse alike, so "#FF3366" and "#ff3366" give the same number. */
  lemma CaseInsensitive(str: string)
    ensures ParseIntHex(LowerString(str)) == ParseIntHex(str)
  {
    TrimStartLower(str);
    var s := TrimStart(str);
    var ls := LowerString(s);
    var unsigned := if s != [] && (s[0] == '+' || s[0] == '-') then s[1..] else s;
    var lunsigned := if ls != [] && (ls[0] == '+' || ls[0] == '-') then ls[1..] else ls;
    if s != [] { LowerSlice(s, 1); }
    assert lunsigned == LowerString(unsigned);
    var digits := if |unsigned| >= 2 && unsigned[0] == '0' && (unsigned[1] == 'x' || unsigned[1] == 'X')
                  then unsigned[2..] else unsigned;
    var ldigits := if |lunsigned| >= 2 && lunsigned[0] == '0' && (lunsigned[1] == 'x' || lunsigned[1] == 'X')
                   then lunsigned[2..] else lunsigned;
    if |unsigned| >= 2 { LowerSlice(unsigned, 2); }
    assert ldigits == LowerString(digits);
    LeadingHexDigitsLower(digits);
    var z := LeadingHexDigits(digits);
    HexValueLower(z);
  }

  /** Removing the last digit: the value is the rest's value times 16 plus that digit. */
  lemma HexValueSnoc(s: string, k: nat)
    requires AllHexDigits(s) && k < |s|
    ensures HexValue(s[..k + 1]) == HexValue(s[..k]) * 16 + DigitValue(s[k])
  {
    assert s[..k + 1][..k] == s[..k];
  }

  /** Evaluates the digits of a six-digit colour one at a time. */
  lemma SixDigitValue(d: string)
    requires |d| == 6 && AllHexDigits(d)
    ensures HexValue(d) == ((((DigitValue(d[0]) * 16 + DigitValue(d[1])) * 16 + DigitValue(d[2])) * 16
                             + DigitValue(d[3])) * 16 + DigitValue(d[4])) * 16 + DigitValue(d[5])
  {
    assert d[..0] == [];
    HexValueSnoc(d, 0);
    HexValueSnoc(d, 1);
    HexValueSnoc(d, 2);
    HexValueSnoc(d, 3);
    HexValueSnoc(d, 4);
    HexValueSnoc(d, 5);
    assert d[..6] == d;
  }

  /** A colour string "#" + d is worth the six digits of d. */
  lemma ColourValue(d: string, v: int)
    requires |d| == 6 && AllHexDigits(d)
    requires v == ((((DigitValue(d[0]) * 16 + DigitValue(d[1])) * 16 + DigitValue(d[2])) * 16
                    + DigitValue(d[3])) * 16 + DigitValue(d[4])) * 16 + DigitValue(d[5])
    ensures HexToNumber("#" + d) == Some(v)
  {
    WellFormedColour(d);
    SixDigitValue(d);
  }

  // The palette strings of src/constants/colors.ts are well-formed colours with these values.

  lemma ProtonColour()
    ensures HexToNumber(Colors.Proton) == Some(0xff3366)
  {
    var d := "ff3366";
    assert AllHexDigits(d);
    assert DigitValue('f') == 15 && DigitValue('3') == 3 && DigitValue('6') == 6;
    ColourValue(d, 0xff3366);
    assert "#" + d == Colors.Proton;
  }

  lemma BlackColour()
    ensures HexToNumber(Colors.CenterBlockFillColor) == Some(0)
    ensures HexToNumber(Colors.CenterCircleFill) == Some(0)
    ensures HexToNumber(Colors.CenterCircleStroke) == Some(0)
  {
    var d := "000000";
    assert AllHexDigits(d);
    assert DigitValue('0') == 0;
    ColourValue(d, 0);
    assert "#" + d == Colors.CenterBlockFillColor;
  }

  lemma CenterBlockStrokeColour()
    ensures HexToNumber(Colors.CenterBlockStrokeColor) == Some(0xffcc00)
  {
    var d := "ffcc00";
    assert AllHexDigits(d);
    assert DigitValue('f') == 15 && DigitValue('c') == 12 && DigitValue('0') == 0;
    ColourValue(d, 0xffcc00);
    assert "#" + d == Colors.CenterBlockStrokeColor;
  }

  lemma GridLinesColour()
    ensures HexToNumber(Colors.GridLines) == Some(0x333355)
  {
    var d := "333355";
    assert AllHexDigits(d);
    assert DigitValue('3') == 3 && DigitValue('5') == 5;
    ColourValue(d, 0x333355);
    assert "#" + d == Colors.GridLines;
  }
}
