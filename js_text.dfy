// The JavaScript string operations the web client's codec relies on:
// number formatting, parseInt with radix 16, the Uint8Array store
// conversion, and TextEncoder (UTF-8) on a string sliced in UTF-16 units.
module JsText {
  import opened Bytes

  function DigitChar(d: nat): (c: char)
    requires d < 10
    ensures '0' <= c <= '9'
  {
    ('0' as int + d) as char
  }

  /** Number.prototype.toString() for a non-negative integer. */
  function NatToString(n: nat): (s: string)
    ensures |s| >= 1
    ensures forall i :: 0 <= i < |s| ==> '0' <= s[i] <= '9'
  {
    if n < 10 then [DigitChar(n)] else NatToString(n / 10) + [DigitChar(n % 10)]
  }

  /** Template-literal formatting `${n}` of an integer. */
  function IntToString(n: int): string
  {
    if n < 0 then "-" + NatToString(-n) else NatToString(n)
  }

  function HexDigitLower(d: nat): (c: char)
    requires d < 16
  {
    if d < 10 then DigitChar(d) else ('a' as int + d - 10) as char
  }

  function HexDigitUpper(d: nat): (c: char)
    requires d < 16
  {
    if d < 10 then DigitChar(d) else ('A' as int + d - 10) as char
  }

  /** n.toString(16).toUpperCase(): no padding. */
  function HexUpper(n: nat): (s: string)
    ensures |s| >= 1
  {
    if n < 16 then [HexDigitUpper(n)] else HexUpper(n / 16) + [HexDigitUpper(n % 16)]
  }

  /** b.toString(16).padStart(2, '0'): two lower-case hex digits. */
  function Hex2Lower(b: byte): (s: string)
    ensures |s| == 2
  {
    [HexDigitLower(b / 16), HexDigitLower(b % 16)]
  }

  predicate IsHexDigit(c: char)
  {
    '0' <= c <= '9' || 'a' <= c <= 'f' || 'A' <= c <= 'F'
  }

  function HexValue(c: char): (v: nat)
    requires IsHexDigit(c)
    ensures v < 16
  {
    if '0' <= c <= '9' then c as int - '0' as int
    else if 'a' <= c <= 'f' then c as int - 'a' as int + 10
    else c as int - 'A' as int + 10
  }

  /** Lower-casing of the ASCII letters A-F, as hex output is lower case. */
  function LowerHexChar(c: char): char
  {
    if 'A' <= c <= 'F' then (c as int - 'A' as int + 'a' as int) as char else c
  }

  /** StrWhiteSpaceChar of ECMAScript: WhiteSpace and LineTerminator code points. */
  predicate IsStrWhiteSpace(c: char)
  {
    var cp := c as int;
    cp in {0x09, 0x0A, 0x0B, 0x0C, 0x0D, 0x20, 0xA0, 0x1680, 0x2028, 0x2029,
           0x202F, 0x205F, 0x3000, 0xFEFF}
    || 0x2000 <= cp <= 0x200A
  }

  /** Value of the leading run of hex digits of s, read after the digits already worth acc. */
  function HexRunValue(s: string, acc: nat): nat
  {
    if s != [] && IsHexDigit(s[0]) then HexRunValue(s[1..], 16 * acc + HexValue(s[0])) else acc
  }

  function StripHexPrefix(s: string): string
  {
    if |s| >= 2 && s[0] == '0' && (s[1] == 'x' || s[1] == 'X') then s[2..] else s
  }

  /**
   * parseInt(s, 16): leading white space is skipped, then an optional sign
   * and an optional 0x prefix, then the longest run of hex digits is read;
   * None stands for NaN (no digit at all).
   */
  function ParseIntHex(s: string): Option<int>
  {
    if s != [] && IsStrWhiteSpace(s[0]) then ParseIntHex(s[1..]) else ParseSignedHex(s)
  }

  /** parseInt(s, 16) once the white space is gone. */
  function ParseSignedHex(t: string): Option<int>
  {
    var negative := t != [] && t[0] == '-';
    var unsigned := if t != [] && (t[0] == '-' || t[0] == '+') then t[1..] else t;
    var body := StripHexPrefix(unsigned);
    if body == [] || !IsHexDigit(body[0]) then None
    else
      var magnitude: int := HexRunValue(body, 0);
      Some(if negative then -magnitude else magnitude)
  }

  /** ToUint8, the conversion applied when a number is stored into a Uint8Array (NaN stores 0). */
  function ToUint8(v: Option<int>): byte
  {
    if v.None? then 0 else v.value % 256
  }

  /** String.prototype.substr(start, 2) for a non-negative start. */
  function Substr2(s: string, start: nat): (r: string)
    ensures |r| <= 2
  {
    if start >= |s| then [] else s[start..if start + 2 <= |s| then start + 2 else |s|]
  }

  /** Index of the first occurrence of c, if any (String.prototype.indexOf). */
  function IndexOfChar(s: string, c: char): (r: Option<nat>)
    ensures r.Some? ==> r.value < |s| && s[r.value] == c
    ensures r.Some? ==> forall i :: 0 <= i < r.value ==> s[i] != c
    ensures r.None? ==> forall i :: 0 <= i < |s| ==> s[i] != c
  {
    if s == [] then None
    else if s[0] == c then Some(0)
    else match IndexOfChar(s[1..], c)
      case None => None
      case Some(i) => Some(i + 1)
  }

  /** s.replace(c, ''): removes the first occurrence of c only. */
  function RemoveFirst(s: string, c: char): string
  {
    match IndexOfChar(s, c)
    case None => s
    case Some(i) => s[..i] + s[i + 1..]
  }

  predicate StartsWith(s: string, prefix: string)
  {
    |prefix| <= |s| && s[..|prefix|] == prefix
  }

  /** String.prototype.includes. */
  predicate Includes(s: string, sub: string)
  {
    exists i :: 0 <= i <= |s| - |sub| && OccursAt(s, sub, i)
  }

  predicate OccursAt(s: string, sub: string, i: nat)
  {
    i + |sub| <= |s| && s[i..i + |sub|] == sub
  }

  /** UTF-8 encoding of one code point. */
  function Utf8(c: char): (r: seq<byte>)
    ensures 1 <= |r| <= 4
    ensures (|r| == 1) == (c as int < 0x80)
    ensures |r| == 1 ==> r[0] == c as int
  {
    var cp := c as int;
    if cp < 0x80 then [cp]
    else if cp < 0x800 then [0xC0 + cp / 64, 0x80 + cp % 64]
    else if cp < 0x10000 then [0xE0 + cp / 4096, 0x80 + (cp / 64) % 64, 0x80 + cp % 64]
    else [0xF0 + cp / 262144, 0x80 + (cp / 4096) % 64, 0x80 + (cp / 64) % 64, 0x80 + cp % 64]
  }

  /**
   * new TextEncoder().encode(s.slice(0, units)). JavaScript strings count
   * UTF-16 code units, so a code point above U+FFFF takes two; when the
   * slice cuts such a pair, the lone high surrogate is encoded as U+FFFD.
   */
  function EncodeSlice(s: string, units: nat): seq<byte>
  {
    if units == 0 || s == [] then []
    else if (s[0] as int) < 0x10000 then Utf8(s[0]) + EncodeSlice(s[1..], units - 1)
    else if units >= 2 then Utf8(s[0]) + EncodeSlice(s[1..], units - 2)
    else [0xEF, 0xBF, 0xBD]
  }

  predicate IsAsciiText(s: string)
  {
    forall i :: 0 <= i < |s| ==> 0 < s[i] as int < 0x80
  }

  /** On ASCII text the encoding is the code of each character, one byte each. */
  lemma {:induction false} EncodeAscii(s: string, units: nat)
    requires IsAsciiText(s) && |s| <= units
    ensures |EncodeSlice(s, units)| == |s|
    ensures forall i :: 0 <= i < |s| ==> EncodeSlice(s, units)[i] == s[i] as int
  {
    if s != [] {
      EncodeAscii(s[1..], units - 1);
    }
  }
}
