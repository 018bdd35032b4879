/**
 * The text facilities of Rust's standard library that the crate's formatting
 * uses: UTF-8 encoding (`String::into_bytes`), lossy decoding
 * (`String::from_utf8_lossy`), `char::is_whitespace` and `str::trim`,
 * decimal rendering of integers, the `Debug` rendering of a `str`, and
 * `[String]::join`.
 */
module StdText {
  import opened Wrappers
  import opened StdIo

  // ---------------------------------------------------------------------
  // UTF-8

  /** U+FFFD, which lossy decoding puts in place of each ill-formed sequence. */
  const Replacement: char := '\U{FFFD}'

  /** The UTF-8 encoding of one scalar value. */
  function EncodeChar(c: char): (r: seq<byte>)
    ensures 1 <= |r| <= 4
  {
    var v := c as int;
    if v < 0x80 then [v]
    else if v < 0x800 then [0xC0 + v / 0x40, 0x80 + v % 0x40]
    else if v < 0x1_0000 then [0xE0 + v / 0x1000, 0x80 + (v / 0x40) % 0x40, 0x80 + v % 0x40]
    else [0xF0 + v / 0x4_0000, 0x80 + (v / 0x1000) % 0x40, 0x80 + (v / 0x40) % 0x40, 0x80 + v % 0x40]
  }

  /** `String::into_bytes`: the UTF-8 encoding of a string. */
  function Utf8Encode(s: string): (r: seq<byte>)
    ensures |s| <= |r| <= 4 * |s|
  {
    if s == [] then [] else EncodeChar(s[0]) + Utf8Encode(s[1..])
  }

  /** A continuation byte, `10xxxxxx`. */
  predicate IsCont(b: byte) {
    0x80 <= b < 0xC0
  }

  /** The second byte a three-byte lead `b0` admits (no overlongs, no surrogates). */
  predicate SecondOf3(b0: byte, b1: byte) {
    if b0 == 0xE0 then 0xA0 <= b1 < 0xC0
    else if b0 == 0xED then 0x80 <= b1 < 0xA0
    else IsCont(b1)
  }

  /** The second byte a four-byte lead `b0` admits (no overlongs, nothing above U+10FFFF). */
  predicate SecondOf4(b0: byte, b1: byte) {
    if b0 == 0xF0 then 0x90 <= b1 < 0xC0
    else if b0 == 0xF4 then 0x80 <= b1 < 0x90
    else IsCont(b1)
  }

  /**
   * One step of lossy decoding at the start of `b`: how many bytes are
   * consumed and which character they yield. A well-formed sequence yields
   * its scalar value; otherwise the maximal prefix of a well-formed sequence
   * found there (at least one byte) yields one U+FFFD, the same split
   * `Utf8Chunks` makes.
   */
  function DecodeStep(b: seq<byte>): (r: (nat, char))
    requires b != []
    ensures 1 <= r.0 <= |b|
  {
    var b0: int := b[0];
    if b0 < 0x80 then (1, b0 as char)
    else if 0xC2 <= b0 < 0xE0 then
      if 2 <= |b| && IsCont(b[1]) then (2, ((b0 - 0xC0) * 0x40 + (b[1] as int - 0x80)) as char)
      else (1, Replacement)
    else if 0xE0 <= b0 < 0xF0 then
      if 2 <= |b| && SecondOf3(b0, b[1]) then
        if 3 <= |b| && IsCont(b[2]) then
          (3, ((b0 - 0xE0) * 0x1000 + (b[1] as int - 0x80) * 0x40 + (b[2] as int - 0x80)) as char)
        else (2, Replacement)
      else (1, Replacement)
    else if 0xF0 <= b0 < 0xF5 then
      if 2 <= |b| && SecondOf4(b0, b[1]) then
        if 3 <= |b| && IsCont(b[2]) then
          if 4 <= |b| && IsCont(b[3]) then
            (4, ((b0 - 0xF0) * 0x4_0000 + (b[1] as int - 0x80) * 0x1000 + (b[2] as int - 0x80) * 0x40 + (b[3] as int - 0x80)) as char)
          else (3, Replacement)
        else (2, Replacement)
      else (1, Replacement)
    else (1, Replacement)
  }

  /**
   * `String::from_utf8_lossy`: each character comes from at least one byte,
   * and only empty input decodes to nothing.
   */
  function Utf8Lossy(b: seq<byte>): (r: string)
    ensures |r| <= |b|
    ensures r == [] <==> b == []
    decreases |b|
  {
    if b == [] then []
    else
      var (n, c) := DecodeStep(b);
      [c] + Utf8Lossy(b[n..])
  }

  /** `v` split into its bits above 6 and its low 6 bits, twice over. */
  lemma SplitSix(v: nat)
    ensures v == (v / 0x40) * 0x40 + v % 0x40
    ensures v / 0x40 == (v / 0x1000) * 0x40 + (v / 0x40) % 0x40
    ensures v / 0x1000 == (v / 0x4_0000) * 0x40 + (v / 0x1000) % 0x40
  {
    var a := v / 0x40;
    assert a / 0x40 == v / 0x1000;
    var b := v / 0x1000;
    assert b / 0x40 == v / 0x4_0000;
  }

  /** Decoding the encoding of `c` consumes exactly that encoding and yields `c`. */
  lemma DecodeStepOfEncodeChar(c: char, rest: seq<byte>)
    ensures DecodeStep(EncodeChar(c) + rest) == (|EncodeChar(c)|, c)
  {
    var v := c as int;
    SplitSix(v);
    if v < 0x80 {
    } else if v < 0x800 {
      DecodeTwo(c, rest);
    } else if v < 0x1_0000 {
      DecodeThree(c, rest);
    } else {
      DecodeFour(c, rest);
    }
  }

  lemma DecodeTwo(c: char, rest: seq<byte>)
    requires 0x80 <= c as int < 0x800
    ensures DecodeStep(EncodeChar(c) + rest) == (2, c)
  {
    var v := c as int;
    var hi, lo := v / 0x40, v % 0x40;
    SplitSix(v);
    var e := EncodeChar(c) + rest;
    assert e[0] == 0xC0 + hi && e[1] == 0x80 + lo;
    assert 2 <= hi < 0x20;
  }

  lemma DecodeThree(c: char, rest: seq<byte>)
    requires 0x800 <= c as int < 0x1_0000
    ensures DecodeStep(EncodeChar(c) + rest) == (3, c)
  {
    var v := c as int;
    var x, y, z := v / 0x1000, (v / 0x40) % 0x40, v % 0x40;
    SplitSix(v);
    assert v == x * 0x1000 + y * 0x40 + z;
    var e := EncodeChar(c) + rest;
    assert e[0] == 0xE0 + x && e[1] == 0x80 + y && e[2] == 0x80 + z;
    assert x == 0 ==> y >= 0x20;
    assert x == 0xD ==> y < 0x20;
  }

  lemma DecodeFour(c: char, rest: seq<byte>)
    requires 0x1_0000 <= c as int
    ensures DecodeStep(EncodeChar(c) + rest) == (4, c)
  {
    var v := c as int;
    var w, x, y, z := v / 0x4_0000, (v / 0x1000) % 0x40, (v / 0x40) % 0x40, v % 0x40;
    SplitSix(v);
    assert v == w * 0x4_0000 + x * 0x1000 + y * 0x40 + z;
    var e := EncodeChar(c) + rest;
    assert e[0] == 0xF0 + w && e[1] == 0x80 + x && e[2] == 0x80 + y && e[3] == 0x80 + z;
    assert w == 0 ==> x >= 0x10;
    assert w == 4 ==> x < 0x10;
  }

  /** Lossy decoding gives back every string from its UTF-8 encoding. */
  lemma {:induction false} LossyOfEncode(s: string)
    ensures Utf8Lossy(Utf8Encode(s)) == s
  {
    if s != [] {
      var e := EncodeChar(s[0]);
      var rest := Utf8Encode(s[1..]);
      DecodeStepOfEncodeChar(s[0], rest);
      assert (e + rest)[|e|..] == rest;
      LossyOfEncode(s[1..]);
    }
  }

  /** The lossy text of bytes that are the UTF-8 encoding of some string is that string. */
  lemma LossyOfEncodeAll()
    ensures forall s :: Utf8Lossy(Utf8Encode(s)) == s
  {
    forall s {
      LossyOfEncode(s);
    }
  }

  // ---------------------------------------------------------------------
  // Whitespace and trimming

  /** `char::is_whitespace`: the Unicode White_Space property. */
  predicate IsWhitespace(c: char) {
    || ('\t' <= c <= '\r')
    || c == ' '
    || c == '\U{85}'
    || c == '\U{A0}'
    || c == '\U{1680}'
    || ('\U{2000}' <= c <= '\U{200A}')
    || c == '\U{2028}'
    || c == '\U{2029}'
    || c == '\U{202F}'
    || c == '\U{205F}'
    || c == '\U{3000}'
  }

  predicate AllWhitespace(s: string) {
    forall i | 0 <= i < |s| :: IsWhitespace(s[i])
  }

  /** How many whitespace characters `s` starts with. */
  function LeadingWhitespace(s: string): (k: nat)
    ensures k <= |s|
    ensures forall i | 0 <= i < k :: IsWhitespace(s[i])
    ensures k < |s| ==> !IsWhitespace(s[k])
  {
    if s != [] && IsWhitespace(s[0]) then
      var k := 1 + LeadingWhitespace(s[1..]);
      assert forall i | 1 <= i < k :: s[i] == s[1..][i - 1];
      k
    else 0
  }

  /** How many whitespace characters `s` ends with. */
  function TrailingWhitespace(s: string): (k: nat)
    ensures k <= |s|
    ensures forall i | |s| - k <= i < |s| :: IsWhitespace(s[i])
    ensures k < |s| ==> !IsWhitespace(s[|s| - k - 1])
  {
    if s != [] && IsWhitespace(s[|s| - 1]) then
      var k := 1 + TrailingWhitespace(s[..|s| - 1]);
      assert forall i | |s| - k <= i < |s| - 1 :: s[i] == s[..|s| - 1][i];
      k
    else 0
  }

  /** `str::trim_start`: `s` without its leading whitespace. */
  function TrimStart(s: string): (r: string)
    ensures r == [] || !IsWhitespace(r[0])
  {
    s[LeadingWhitespace(s)..]
  }

  /** `str::trim_end`: `s` without its trailing whitespace. */
  function TrimEnd(s: string): (r: string)
    ensures r == [] || !IsWhitespace(r[|r| - 1])
  {
    s[..|s| - TrailingWhitespace(s)]
  }

  /** `str::trim`. */
  function Trim(s: string): (r: string)
    ensures r == [] || (!IsWhitespace(r[0]) && !IsWhitespace(r[|r| - 1]))
  {
    TrimEnd(TrimStart(s))
  }

  /** Trimming leaves nothing exactly when the string is all whitespace. */
  lemma TrimEmptyIff(s: string)
    ensures Trim(s) == [] <==> AllWhitespace(s)
  {
    var k := LeadingWhitespace(s);
    var t := TrimStart(s);
    if Trim(s) == [] {
      assert TrailingWhitespace(t) == |t|;
    } else {
      assert t != [];
      assert !IsWhitespace(s[k]);
    }
  }

  // ---------------------------------------------------------------------
  // Decimal numbers

  predicate IsDigit(c: char) {
    '0' <= c <= '9'
  }

  function DigitChar(d: int): (c: char)
    requires 0 <= d < 10
    ensures IsDigit(c)
  {
    ('0' as int + d) as char
  }

  /** The decimal digits of `n`, without leading zeros. */
  function NatToDecimal(n: nat): (r: string)
    ensures r != [] && (r[0] == '0' ==> r == "0")
    ensures forall i | 0 <= i < |r| :: IsDigit(r[i])
  {
    if n < 10 then [DigitChar(n)] else NatToDecimal(n / 10) + [DigitChar(n % 10)]
  }

  /** `Display` of an integer: an optional minus sign and the decimal digits. */
  function IntToDecimal(n: int): (r: string)
    ensures r != []
    ensures r[0] == '-' <==> n < 0
    ensures forall i | 0 <= i < |r| && (i > 0 || n >= 0) :: IsDigit(r[i])
  {
    if n < 0 then "-" + NatToDecimal(-n) else NatToDecimal(n)
  }

  /** The value of a string of decimal digits. */
  function DigitValue(c: char): (d: int)
    requires IsDigit(c)
    ensures 0 <= d < 10
  {
    c as int - '0' as int
  }

  function DigitsValue(s: string): nat
    requires forall i | 0 <= i < |s| :: IsDigit(s[i])
  {
    if s == [] then 0 else DigitsValue(s[..|s| - 1]) * 10 + DigitValue(s[|s| - 1])
  }

  predicate IsDigits(s: string) {
    s != [] && forall i | 0 <= i < |s| :: IsDigit(s[i])
  }

  /** Reading an integer back: an optional minus sign, then one or more digits. */
  function ParseDecimal(s: string): Option<int> {
    if s != [] && s[0] == '-' && IsDigits(s[1..]) then Some(0 - DigitsValue(s[1..]) as int)
    else if IsDigits(s) then Some(DigitsValue(s))
    else None
  }

  lemma {:induction false} NatToDecimalValue(n: nat)
    ensures DigitsValue(NatToDecimal(n)) == n
  {
    if n >= 10 {
      var r := NatToDecimal(n);
      assert r[..|r| - 1] == NatToDecimal(n / 10);
      NatToDecimalValue(n / 10);
    }
  }

  /** The decimal text of every integer reads back as that integer. */
  lemma DecimalRoundTrip(n: int)
    ensures ParseDecimal(IntToDecimal(n)) == Some(n)
  {
    if n < 0 {
      var d := NatToDecimal(-n);
      assert IntToDecimal(n)[1..] == d;
      NatToDecimalValue(-n);
    } else {
      NatToDecimalValue(n);
    }
  }

  // ---------------------------------------------------------------------
  // Debug rendering of a str

  predicate IsHexDigit(c: char) {
    ('0' <= c <= '9') || ('a' <= c <= 'f')
  }

  function HexDigit(d: int): (c: char)
    requires 0 <= d < 16
    ensures IsHexDigit(c)
  {
    if d < 10 then ('0' as int + d) as char else ('a' as int + d - 10) as char
  }

  function HexDigitValue(c: char): (d: int)
    requires IsHexDigit(c)
    ensures 0 <= d < 16
  {
    if c <= '9' then c as int - '0' as int else c as int - 'a' as int + 10
  }

  /** Lower-case hexadecimal digits of `n`, without leading zeros. */
  function HexLower(n: nat): (r: string)
    ensures r != []
    ensures forall i | 0 <= i < |r| :: IsHexDigit(r[i])
  {
    if n < 16 then [HexDigit(n)] else HexLower(n / 16) + [HexDigit(n % 16)]
  }

  function HexValue(s: string): nat
    requires forall i | 0 <= i < |s| :: IsHexDigit(s[i])
  {
    if s == [] then 0 else HexValue(s[..|s| - 1]) * 16 + HexDigitValue(s[|s| - 1])
  }

  lemma {:induction false} HexLowerValue(n: nat)
    ensures HexValue(HexLower(n)) == n
  {
    if n >= 16 {
      var r := HexLower(n);
      assert r[..|r| - 1] == HexLower(n / 16);
      HexLowerValue(n / 16);
    }
  }

  /**
   * `char::escape_debug_ext`: the named escapes, `\u{..}` for the ASCII
   * control characters, and every other character as itself. The single
   * quote is escaped only when `escapeSingleQuote` holds: `str`'s `Debug`
   * leaves it alone, while `char::escape_debug`, which `OsStr`'s `Debug`
   * applies, escapes it.
   */
  function EscapeDebugChar(c: char, escapeSingleQuote: bool): string {
    if c == '\0' then "\\0"
    else if c == '\t' then "\\t"
    else if c == '\r' then "\\r"
    else if c == '\n' then "\\n"
    else if c == '\\' then "\\\\"
    else if c == '"' then "\\\""
    else if c == '\'' && escapeSingleQuote then "\\'"
    else if c < ' ' || c == '\U{7F}' then "\\u{" + HexLower(c as int) + "}"
    else [c]
  }

  function EscapeDebug(s: string, escapeSingleQuote: bool): (r: string)
    ensures |r| >= |s|
  {
    if s == [] then [] else EscapeDebugChar(s[0], escapeSingleQuote) + EscapeDebug(s[1..], escapeSingleQuote)
  }

  /** A character that neither `Debug` escapes. */
  predicate IsPlainDebugChar(c: char) {
    ' ' <= c && c != '\U{7F}' && c != '\\' && c != '"' && c != '\''
  }

  /** Text of plain characters only is its own escape. */
  lemma {:induction false} EscapeDebugPlain(s: string, escapeSingleQuote: bool)
    requires forall i | 0 <= i < |s| :: IsPlainDebugChar(s[i])
    ensures EscapeDebug(s, escapeSingleQuote) == s
  {
    if s != [] {
      EscapeDebugPlain(s[1..], escapeSingleQuote);
      assert [s[0]] + s[1..] == s;
    }
  }

  /** `format!("{:?}", s)` for a `str`: the escaped text between double quotes. */
  function DebugStr(s: string): (r: string)
    ensures |r| >= |s| + 2 && r[0] == '"' && r[|r| - 1] == '"'
  {
    "\"" + EscapeDebug(s, false) + "\""
  }

  /**
   * `format!("{:?}", s)` for an `OsStr` holding the text `s`: as for a `str`,
   * except that single quotes are escaped too.
   */
  function OsDebugStr(s: string): (r: string)
    ensures |r| >= |s| + 2 && r[0] == '"' && r[|r| - 1] == '"'
  {
    "\"" + EscapeDebug(s, true) + "\""
  }

  function Prepend(c: char, rest: Option<string>): Option<string> {
    if rest.Some? then Some([c] + rest.value) else None
  }

  /** The number of leading hexadecimal digits of `t`. */
  function HexRun(t: string): (k: nat)
    ensures k <= |t|
    ensures forall i | 0 <= i < k :: IsHexDigit(t[i])
    ensures k < |t| ==> !IsHexDigit(t[k])
  {
    if t != [] && IsHexDigit(t[0]) then 1 + HexRun(t[1..]) else 0
  }

  predicate IsScalar(v: int) {
    (0 <= v < 0xD800) || (0xE000 <= v < 0x11_0000)
  }

  /** The character a one-letter escape `\x` stands for. */
  function NamedEscape(x: char): Option<char> {
    if x == '0' then Some('\0')
    else if x == 't' then Some('\t')
    else if x == 'r' then Some('\r')
    else if x == 'n' then Some('\n')
    else if x == '\\' then Some('\\')
    else if x == '"' then Some('"')
    else if x == '\'' then Some('\'')
    else None
  }

  /**
   * The scalar value of a `\u{..}` escape whose text after the brace is `t`,
   * and the length of that text up to and including the closing brace.
   */
  function HexEscape(t: string): Option<(char, nat)> {
    var k := HexRun(t);
    if 1 <= k < |t| && t[k] == '}' && IsScalar(HexValue(t[..k])) then
      Some((HexValue(t[..k]) as char, k + 1))
    else None
  }

  /** Reads the body of a `Debug`-quoted string back into the string it renders. */
  function UnescapeDebug(t: string): Option<string>
    decreases |t|
  {
    if t == [] then Some([])
    else if t[0] != '\\' then Prepend(t[0], UnescapeDebug(t[1..]))
    else if |t| < 2 then None
    else if NamedEscape(t[1]).Some? then Prepend(NamedEscape(t[1]).value, UnescapeDebug(t[2..]))
    else if t[1] == 'u' && |t| >= 3 && t[2] == '{' && HexEscape(t[3..]).Some? then
      var (c, n) := HexEscape(t[3..]).value;
      Prepend(c, UnescapeDebug(t[3 + n..]))
    else None
  }

  /** Reads a `Debug`-quoted string back. */
  function UnquoteDebug(t: string): Option<string> {
    if |t| >= 2 && t[0] == '"' && t[|t| - 1] == '"' then UnescapeDebug(t[1..|t| - 1]) else None
  }

  lemma UnescapeOfEscapeChar(c: char, sq: bool, rest: string)
    ensures UnescapeDebug(EscapeDebugChar(c, sq) + rest) == Prepend(c, UnescapeDebug(rest))
  {
    if c == '\0' || c == '\t' || c == '\r' || c == '\n' || c == '\\' || c == '"' || (c == '\'' && sq) {
      UnescapeOfNamedEscape(c, sq, rest);
    } else if c < ' ' || c == '\U{7F}' {
      UnescapeOfHexEscape(c, sq, rest);
    } else {
      var e := EscapeDebugChar(c, sq);
      assert e == [c];
      assert (e + rest)[1..] == rest;
    }
  }

  lemma UnescapeOfNamedEscape(c: char, sq: bool, rest: string)
    requires c == '\0' || c == '\t' || c == '\r' || c == '\n' || c == '\\' || c == '"' || (c == '\'' && sq)
    ensures UnescapeDebug(EscapeDebugChar(c, sq) + rest) == Prepend(c, UnescapeDebug(rest))
  {
    var t := EscapeDebugChar(c, sq) + rest;
    assert |EscapeDebugChar(c, sq)| == 2;
    assert t[0] == '\\';
    assert t[2..] == rest;
  }

  lemma UnescapeOfHexEscape(c: char, sq: bool, rest: string)
    requires c < ' ' || c == '\U{7F}'
    requires c != '\0' && c != '\t' && c != '\r' && c != '\n'
    ensures UnescapeDebug(EscapeDebugChar(c, sq) + rest) == Prepend(c, UnescapeDebug(rest))
  {
    var h := HexLower(c as int);
    HexEscapeText(c, sq);
    var t := "\\u{" + h + "}" + rest;
    HexEscapeOf(c, rest);
    assert t[3..] == h + "}" + rest;
    UnescapeHexStep(t, c, |h| + 1);
    assert t[3 + |h| + 1..] == rest;
  }

  /** The escape of a control character without a name of its own is `\u{..}` around its hex digits. */
  lemma HexEscapeText(c: char, sq: bool)
    requires c < ' ' || c == '\U{7F}'
    requires c != '\0' && c != '\t' && c != '\r' && c != '\n'
    ensures EscapeDebugChar(c, sq) == "\\u{" + HexLower(c as int) + "}"
  {
  }

  /** A `\u{..}` escape that reads as `c` is `c`, followed by what the text after it reads as. */
  lemma UnescapeHexStep(t: string, c: char, n: nat)
    requires |t| >= 3 && t[0] == '\\' && t[1] == 'u' && t[2] == '{'
    requires HexEscape(t[3..]) == Some((c, n))
    ensures 3 + n <= |t|
    ensures UnescapeDebug(t) == Prepend(c, UnescapeDebug(t[3 + n..]))
  {
    assert NamedEscape('u').None?;
  }

  /** The text after `\u{` of a character's escape is read back as that character. */
  lemma HexEscapeOf(c: char, rest: string)
    requires c as int < 0x80
    ensures var h := HexLower(c as int);
      HexEscape(h + "}" + rest) == Some((c, |h| + 1))
  {
    var h := HexLower(c as int);
    var u := h + "}" + rest;
    HexRunOf(h, "}" + rest);
    assert u[..|h|] == h;
    HexLowerValue(c as int);
    assert HexRun(u) == |h| && u[|h|] == '}';
    assert HexValue(u[..|h|]) as char == c;
  }

  lemma {:induction false} HexRunOf(h: string, rest: string)
    requires forall i | 0 <= i < |h| :: IsHexDigit(h[i])
    requires rest == [] || !IsHexDigit(rest[0])
    ensures HexRun(h + rest) == |h|
  {
    if h != [] {
      assert (h + rest)[1..] == h[1..] + rest;
      HexRunOf(h[1..], rest);
    } else {
      assert h + rest == rest;
    }
  }

  lemma {:induction false} UnescapeOfEscape(s: string, sq: bool)
    ensures UnescapeDebug(EscapeDebug(s, sq)) == Some(s)
  {
    if s != [] {
      UnescapeOfEscapeChar(s[0], sq, EscapeDebug(s[1..], sq));
      UnescapeOfEscape(s[1..], sq);
      assert [s[0]] + s[1..] == s;
    }
  }

  /** Every string reads back from its `Debug` rendering as a `str`. */
  lemma DebugStrRoundTrip(s: string)
    ensures UnquoteDebug(DebugStr(s)) == Some(s)
  {
    var r := DebugStr(s);
    assert r[1..|r| - 1] == EscapeDebug(s, false);
    UnescapeOfEscape(s, false);
  }

  /** Every string reads back from its `Debug` rendering as an `OsStr`. */
  lemma OsDebugStrRoundTrip(s: string)
    ensures UnquoteDebug(OsDebugStr(s)) == Some(s)
  {
    var r := OsDebugStr(s);
    assert r[1..|r| - 1] == EscapeDebug(s, true);
    UnescapeOfEscape(s, true);
  }

  /** The two renderings differ exactly in the single quote: `str` leaves it, `OsStr` writes `\'`. */
  lemma SingleQuoteDebug()
    ensures DebugStr("'") == "\"'\""
    ensures OsDebugStr("'") == "\"\\'\""
  {
  }

  // ---------------------------------------------------------------------
  // Joining

  /** `[String]::join(sep)`. */
  function Join(sep: string, parts: seq<string>): (r: string)
    ensures parts == [] ==> r == []
    ensures parts != [] ==> |r| >= |parts[0]| && r[..|parts[0]|] == parts[0]
  {
    if parts == [] then []
    else if |parts| == 1 then parts[0]
    else parts[0] + sep + Join(sep, parts[1..])
  }

  /** Each part preceded by the separator, concatenated. */
  function SepBeforeEach(sep: string, parts: seq<string>): string {
    if parts == [] then [] else sep + parts[0] + SepBeforeEach(sep, parts[1..])
  }

  /** Appending a part to the list appends the separator and that part. */
  lemma {:induction false} SepBeforeEachSnoc(sep: string, parts: seq<string>, last: string)
    ensures SepBeforeEach(sep, parts + [last]) == SepBeforeEach(sep, parts) + sep + last
  {
    if parts == [] {
      assert parts + [last] == [last];
    } else {
      assert (parts + [last])[1..] == parts[1..] + [last];
      SepBeforeEachSnoc(sep, parts[1..], last);
    }
  }

  /** Each part followed by the separator, concatenated. */
  function SepAfterEach(sep: string, parts: seq<string>): string {
    if parts == [] then [] else parts[0] + sep + SepAfterEach(sep, parts[1..])
  }

  /** A join whose first part is `first` is `first`, then the separator before each other part. */
  lemma {:induction false} JoinCons(sep: string, first: string, rest: seq<string>)
    ensures Join(sep, [first] + rest) == first + SepBeforeEach(sep, rest)
    decreases |rest|
  {
    if rest != [] {
      assert ([first] + rest)[1..] == [rest[0]] + rest[1..];
      JoinCons(sep, rest[0], rest[1..]);
    }
  }

  /** A join whose last part is `last` is each other part followed by the separator, then `last`. */
  lemma {:induction false} JoinSnoc(sep: string, init: seq<string>, last: string)
    ensures Join(sep, init + [last]) == SepAfterEach(sep, init) + last
  {
    if init != [] {
      assert (init + [last])[1..] == init[1..] + [last];
      JoinSnoc(sep, init[1..], last);
    } else {
      assert init + [last] == [last];
    }
  }
}
