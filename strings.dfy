/** The Python `str` operations the modelled code relies on, over `seq<char>`. */
module Strings {
  import opened Outcomes

  /** `s.startswith(prefix)` */
  predicate StartsWith(s: string, prefix: string) {
    |prefix| <= |s| && s[..|prefix|] == prefix
  }

  /** `sub in s` */
  predicate Contains(s: string, sub: string)
    decreases |s|
  {
    StartsWith(s, sub) || (|s| > 0 && Contains(s[1..], sub))
  }

  /** `s.find(sub)`, with None for -1: the first index at which `sub` occurs. */
  function Find(s: string, sub: string): (r: Option<nat>)
    ensures r.Some? <==> Contains(s, sub)
    ensures r.Some? ==> r.value + |sub| <= |s| && s[r.value..r.value + |sub|] == sub
    ensures r.Some? ==> forall j :: 0 <= j < r.value ==> !StartsWith(s[j..], sub)
    ensures r.None? ==> forall j :: 0 <= j <= |s| ==> !StartsWith(s[j..], sub)
    decreases |s|
  {
    if StartsWith(s, sub) then Some(0)
    else if |s| == 0 then None
    else
      assert forall j :: 1 <= j <= |s| ==> s[1..][j - 1..] == s[j..];
      match Find(s[1..], sub)
      case None => None
      case Some(i) => Some(i + 1)
  }

  /** `s.replace(pat, rep)`: every non-overlapping occurrence, scanning left to right. */
  function Replace(s: string, pat: string, rep: string): string
    requires |pat| > 0
    decreases |s|
  {
    if |s| < |pat| then s
    else if s[..|pat|] == pat then rep + Replace(s[|pat|..], pat, rep)
    else [s[0]] + Replace(s[1..], pat, rep)
  }

  /** A string in which `pat` does not occur is left alone by `replace`. */
  lemma {:induction false} ReplaceAbsent(s: string, pat: string, rep: string)
    requires |pat| > 0 && !Contains(s, pat)
    ensures Replace(s, pat, rep) == s
    decreases |s|
  {
    if |s| >= |pat| {
      ReplaceAbsent(s[1..], pat, rep);
      assert [s[0]] + s[1..] == s;
    }
  }

  /** Deleting occurrences never makes a string longer. */
  lemma {:induction false} ReplaceByEmptyShrinks(s: string, pat: string)
    requires |pat| > 0
    ensures |Replace(s, pat, "")| <= |s|
    decreases |s|
  {
    if |s| >= |pat| {
      if s[..|pat|] == pat {
        ReplaceByEmptyShrinks(s[|pat|..], pat);
      } else {
        ReplaceByEmptyShrinks(s[1..], pat);
      }
    }
  }

  /** The two halves of a concatenation. */
  lemma ConcatSplit(a: string, b: string)
    ensures (a + b)[..|a|] == a && (a + b)[|a|..] == b
  {
  }

  /** A slice of a suffix is a slice of the whole. */
  lemma SuffixSlice(s: string, a: nat, b: nat, c: nat)
    requires a <= |s| && b <= c <= |s| - a
    ensures s[a..][b..c] == s[a + b..a + c]
  {
  }

  /** An occurrence at any index makes `sub in s` true. */
  lemma {:induction false} ContainsAt(s: string, sub: string, j: nat)
    requires j <= |s| && StartsWith(s[j..], sub)
    ensures Contains(s, sub)
    decreases j
  {
    if j == 0 {
      assert s[0..] == s;
    } else {
      assert s[1..][j - 1..] == s[j..];
      ContainsAt(s[1..], sub, j - 1);
    }
  }

  lemma {:induction false} ContainsShorter(s: string, sub: string)
    requires Contains(s, sub)
    ensures |sub| <= |s|
    decreases |s|
  {
    if !StartsWith(s, sub) {
      ContainsShorter(s[1..], sub);
    }
  }

  /** A string that contains `sub` contains every prefix of `sub`. */
  lemma {:induction false} ContainsPrefix(s: string, sub: string, pre: string)
    requires StartsWith(sub, pre) && Contains(s, sub)
    ensures Contains(s, pre)
    decreases |s|
  {
    if StartsWith(s, sub) {
      assert s[..|pre|] == sub[..|pre|];
    } else {
      ContainsPrefix(s[1..], sub, pre);
    }
  }

  /** Deleting a pattern that occurs removes at least one copy of it. */
  lemma {:induction false} ReplaceRemovesOne(s: string, pat: string)
    requires |pat| > 0 && Contains(s, pat)
    ensures |Replace(s, pat, "")| + |pat| <= |s|
    decreases |s|
  {
    ContainsShorter(s, pat);
    if s[..|pat|] == pat {
      ReplaceByEmptyShrinks(s[|pat|..], pat);
    } else {
      ReplaceRemovesOne(s[1..], pat);
    }
  }

  /** `c.isspace()` for Python 3: the characters `str.strip()` removes by default. */
  predicate IsSpace(c: char) {
    || c == ' '
    || '\t' <= c <= '\r'
    || '\U{1C}' <= c <= '\U{1F}'
    || c == '\U{85}' || c == '\U{A0}' || c == '\U{1680}'
    || '\U{2000}' <= c <= '\U{200A}'
    || c == '\U{2028}' || c == '\U{2029}' || c == '\U{202F}' || c == '\U{205F}' || c == '\U{3000}'
  }

  function TrimLeft(s: string): (r: string)
    ensures |r| <= |s| && r == s[|s| - |r|..]
    ensures r == [] || !IsSpace(r[0])
    decreases |s|
  {
    if s != [] && IsSpace(s[0]) then TrimLeft(s[1..]) else s
  }

  function TrimRight(s: string): (r: string)
    ensures |r| <= |s| && r == s[..|r|]
    ensures r == [] || !IsSpace(r[|r| - 1])
    decreases |s|
  {
    if s != [] && IsSpace(s[|s| - 1]) then TrimRight(s[..|s| - 1]) else s
  }

  /** `s.strip()` */
  function Strip(s: string): (r: string)
    ensures |r| <= |s|
    ensures r == [] || (!IsSpace(r[0]) && !IsSpace(r[|r| - 1]))
  {
    TrimRight(TrimLeft(s))
  }

  /** A string with no surrounding whitespace is its own strip. */
  lemma StripNoop(s: string)
    requires s == [] || (!IsSpace(s[0]) && !IsSpace(s[|s| - 1]))
    ensures Strip(s) == s
  {
    assert TrimLeft(s) == s;
  }

  /** The line boundaries of `str.splitlines()`. */
  predicate IsLineBreak(c: char) {
    || c == '\n' || c == '\r' || c == '\U{0B}' || c == '\U{0C}'
    || '\U{1C}' <= c <= '\U{1E}'
    || c == '\U{85}' || c == '\U{2028}' || c == '\U{2029}'
  }

  /** Length of the first line of `s`: the index of its first boundary, or |s|. */
  function LineEnd(s: string): (k: nat)
    ensures k <= |s|
    ensures forall i :: 0 <= i < k ==> !IsLineBreak(s[i])
    ensures k < |s| ==> IsLineBreak(s[k])
    decreases |s|
  {
    if s == [] || IsLineBreak(s[0]) then 0 else 1 + LineEnd(s[1..])
  }

  /** `s.splitlines()`: "\r\n" is one boundary and a final boundary opens no empty line. */
  function SplitLines(s: string): (lines: seq<string>)
    ensures forall n, i :: 0 <= n < |lines| && 0 <= i < |lines[n]| ==> !IsLineBreak(lines[n][i])
    ensures s == [] <==> lines == []
    decreases |s|
  {
    if s == [] then []
    else
      var k := LineEnd(s);
      var next :=
        if k == |s| then k
        else if s[k] == '\r' && k + 1 < |s| && s[k + 1] == '\n' then k + 2
        else k + 1;
      [s[..k]] + SplitLines(s[next..])
  }

  /** A non-empty string without a line boundary is one line. */
  lemma SplitLinesSingle(s: string)
    requires s != [] && forall i :: 0 <= i < |s| ==> !IsLineBreak(s[i])
    ensures SplitLines(s) == [s]
  {
    assert s[..|s|] == s && s[|s|..] == [];
  }

  /** Printable ASCII: no line boundary, and whitespace only for the blank. */
  predicate Printable(s: string) {
    forall i :: 0 <= i < |s| ==> ' ' <= s[i] <= '~'
  }

  lemma PrintableNoBreak(s: string)
    requires Printable(s)
    ensures forall i :: 0 <= i < |s| ==> !IsLineBreak(s[i]) && (IsSpace(s[i]) ==> s[i] == ' ')
  {
  }

  /** `c.lower()` on ASCII letters. */
  function LowerChar(c: char): (r: char)
    ensures 'A' <= c <= 'Z' ==> 'a' <= r <= 'z'
    ensures !('A' <= c <= 'Z') ==> r == c
  {
    if 'A' <= c <= 'Z' then (c as int + 32) as char else c
  }

  /** `s.lower()` (ASCII case mapping only). */
  function Lower(s: string): (r: string)
    ensures |r| == |s| && forall i :: 0 <= i < |s| ==> r[i] == LowerChar(s[i])
  {
    seq(|s|, i requires 0 <= i < |s| => LowerChar(s[i]))
  }

  /** Lower-casing twice is lower-casing once. */
  lemma LowerIdempotent(s: string)
    ensures Lower(Lower(s)) == Lower(s)
  {
  }

  function DigitChar(d: nat): (r: char)
    requires d < 10
    ensures '0' <= r <= '9'
  {
    "0123456789"[d]
  }

  /** `str(n)` for a natural number: its decimal digits. */
  function NatToString(n: nat): (r: string)
    ensures |r| > 0 && forall i :: 0 <= i < |r| ==> '0' <= r[i] <= '9'
    decreases n
  {
    if n < 10 then [DigitChar(n)] else NatToString(n / 10) + [DigitChar(n % 10)]
  }

  /** `c * n` for a one-character string. */
  function Repeat(c: char, n: nat): (r: string)
    ensures |r| == n && forall i :: 0 <= i < n ==> r[i] == c
  {
    seq(n, i => c)
  }

  /** A byte, and a Python `bytes` value. */
  newtype Byte = x: int | 0 <= x < 256
  type Bytes = seq<Byte>

  predicate InBytes(b: Byte, lo: int, hi: int) {
    lo <= b as int <= hi
  }

  /** The one character the bytes at the front of `b` encode and how many bytes it
      takes, or None when they are not well-formed UTF-8 (RFC 3629, section 4): an
      overlong form, a surrogate, a code point above U+10FFFF, a stray continuation
      byte, or a sequence that the end of `b` cuts short. A continuation byte
      carries six bits, `b - 0x80`. */
  function DecodeFirst(b: Bytes): (r: Option<(char, nat)>)
    requires b != []
    ensures r.Some? ==> 1 <= r.value.1 <= |b|
  {
    var b0 := b[0] as int;
    if b0 < 0x80 then Some((b0 as char, 1))
    else if 0xC2 <= b0 <= 0xDF then
      if |b| >= 2 && InBytes(b[1], 0x80, 0xBF) then
        Some((((b0 - 0xC0) * 64 + (b[1] as int - 0x80)) as char, 2))
      else None
    else if 0xE0 <= b0 <= 0xEF then
      var lo := if b0 == 0xE0 then 0xA0 else 0x80;
      var hi := if b0 == 0xED then 0x9F else 0xBF;
      if |b| >= 3 && InBytes(b[1], lo, hi) && InBytes(b[2], 0x80, 0xBF) then
        Some(((((b0 - 0xE0) * 64 + (b[1] as int - 0x80)) * 64 + (b[2] as int - 0x80)) as char, 3))
      else None
    else if 0xF0 <= b0 <= 0xF4 then
      var lo := if b0 == 0xF0 then 0x90 else 0x80;
      var hi := if b0 == 0xF4 then 0x8F else 0xBF;
      if |b| >= 4 && InBytes(b[1], lo, hi) && InBytes(b[2], 0x80, 0xBF) && InBytes(b[3], 0x80, 0xBF) then
        Some((((((b0 - 0xF0) * 64 + (b[1] as int - 0x80)) * 64 + (b[2] as int - 0x80)) * 64
               + (b[3] as int - 0x80)) as char, 4))
      else None
    else None
  }

  /** `b.decode("utf-8")` with the strict error handler: the text, or None where
      Python raises UnicodeDecodeError. */
  function DecodeUtf8(b: Bytes): (r: Option<string>)
    ensures r.Some? ==> |r.value| <= |b|
    decreases |b|
  {
    if b == [] then Some([])
    else match DecodeFirst(b)
      case None => None
      case Some((c, n)) =>
        match DecodeUtf8(b[n..])
        case None => None
        case Some(rest) => Some([c] + rest)
  }

  /** `s.encode("utf-8")` for one character: one to four bytes by code point, the
      code point's bits taken six at a time from the low end. */
  function EncodeChar(c: char): (r: Bytes)
    ensures 1 <= |r| <= 4
  {
    var cp := c as int;
    var a := cp / 64;
    var b := a / 64;
    if cp < 0x80 then [cp as Byte]
    else if cp < 0x800 then [(0xC0 + a) as Byte, (0x80 + cp % 64) as Byte]
    else if cp < 0x10000 then [(0xE0 + b) as Byte, (0x80 + a % 64) as Byte, (0x80 + cp % 64) as Byte]
    else [(0xF0 + b / 64) as Byte, (0x80 + b % 64) as Byte, (0x80 + a % 64) as Byte, (0x80 + cp % 64) as Byte]
  }

  function EncodeUtf8(s: string): Bytes
    decreases |s|
  {
    if s == [] then [] else EncodeChar(s[0]) + EncodeUtf8(s[1..])
  }

  /** The bytes of one encoded character decode back to it, whatever follows. */
  lemma DecodeFirstEncoded(c: char, rest: Bytes)
    ensures DecodeFirst(EncodeChar(c) + rest) == Some((c, |EncodeChar(c)|))
  {
    var cp := c as int;
    var a, r0 := cp / 64, cp % 64;
    var b, r1 := a / 64, a % 64;
    var t, r2 := b / 64, b % 64;
    assert cp == a * 64 + r0 && a == b * 64 + r1 && b == t * 64 + r2;
    if cp < 0x80 {
    } else if cp < 0x800 {
      TwoBytes(c, a, r0, rest);
    } else if cp < 0x10000 {
      ThreeBytes(c, b, r1, r0, rest);
    } else {
      FourBytes(c, t, r2, r1, r0, rest);
    }
  }

  lemma TwoBytes(c: char, a: int, r0: int, rest: Bytes)
    requires 0x80 <= c as int < 0x800 && c as int == a * 64 + r0 && 0 <= r0 < 64
    requires EncodeChar(c) == [(0xC0 + a) as Byte, (0x80 + r0) as Byte]
    ensures DecodeFirst(EncodeChar(c) + rest) == Some((c, 2))
  {
    var e := EncodeChar(c) + rest;
    assert e[0] as int == 0xC0 + a && e[1] as int == 0x80 + r0;
  }

  lemma ThreeBytes(c: char, b: int, r1: int, r0: int, rest: Bytes)
    requires 0x800 <= c as int < 0x10000 && c as int == (b * 64 + r1) * 64 + r0
    requires 0 <= r0 < 64 && 0 <= r1 < 64
    requires EncodeChar(c) == [(0xE0 + b) as Byte, (0x80 + r1) as Byte, (0x80 + r0) as Byte]
    ensures DecodeFirst(EncodeChar(c) + rest) == Some((c, 3))
  {
    var e := EncodeChar(c) + rest;
    assert e[0] as int == 0xE0 + b && e[1] as int == 0x80 + r1 && e[2] as int == 0x80 + r0;
  }

  lemma FourBytes(c: char, t: int, r2: int, r1: int, r0: int, rest: Bytes)
    requires 0x10000 <= c as int && c as int == ((t * 64 + r2) * 64 + r1) * 64 + r0
    requires 0 <= r0 < 64 && 0 <= r1 < 64 && 0 <= r2 < 64
    requires EncodeChar(c) == [(0xF0 + t) as Byte, (0x80 + r2) as Byte, (0x80 + r1) as Byte, (0x80 + r0) as Byte]
    ensures DecodeFirst(EncodeChar(c) + rest) == Some((c, 4))
  {
    var e := EncodeChar(c) + rest;
    assert e[0] as int == 0xF0 + t && e[1] as int == 0x80 + r2;
    assert e[2] as int == 0x80 + r1 && e[3] as int == 0x80 + r0;
  }

  /** Decoding what UTF-8 encoding produced gives the text back. */
  lemma {:induction false} DecodeEncoded(s: string)
    ensures DecodeUtf8(EncodeUtf8(s)) == Some(s)
    decreases |s|
  {
    if s != [] {
      var head := EncodeChar(s[0]);
      var b := EncodeUtf8(s);
      assert b == head + EncodeUtf8(s[1..]);
      DecodeFirstEncoded(s[0], EncodeUtf8(s[1..]));
      assert b[|head|..] == EncodeUtf8(s[1..]);
      DecodeEncoded(s[1..]);
      assert [s[0]] + s[1..] == s;
    }
  }

  /** Division by 64 recovers a quotient and a remainder below 64. */
  lemma DivMod64(x: int, q: int, r: int)
    requires 0 <= r < 64 && x == q * 64 + r
    ensures x / 64 == q && x % 64 == r
  {
  }

  /** The character the front of `b` decodes to encodes back to exactly the bytes it
      was decoded from: each of the accepted ranges leads to the encoder's branch for
      that byte count. */
  lemma EncodeDecodedFirst(b: Bytes)
    requires b != [] && DecodeFirst(b).Some?
    ensures EncodeChar(DecodeFirst(b).value.0) == b[..DecodeFirst(b).value.1]
  {
    var b0 := b[0] as int;
    if b0 < 0x80 {
    } else if b0 < 0xE0 {
      EncodeTwo(b, b0 - 0xC0, b[1] as int - 0x80);
    } else if b0 < 0xF0 {
      EncodeThree(b, b0 - 0xE0, b[1] as int - 0x80, b[2] as int - 0x80);
    } else {
      EncodeFour(b, b0 - 0xF0, b[1] as int - 0x80, b[2] as int - 0x80, b[3] as int - 0x80);
    }
  }

  lemma EncodeTwo(b: Bytes, x0: int, x1: int)
    requires b != [] && 0xC2 <= b[0] as int <= 0xDF && DecodeFirst(b).Some?
    requires x0 == b[0] as int - 0xC0 && x1 == b[1] as int - 0x80
    ensures EncodeChar(DecodeFirst(b).value.0) == b[..2]
  {
    var c := DecodeFirst(b).value.0;
    assert c as int == x0 * 64 + x1;
    DivMod64(c as int, x0, x1);
    assert EncodeChar(c) == [(0xC0 + x0) as Byte, (0x80 + x1) as Byte];
  }

  lemma EncodeThree(b: Bytes, x0: int, x1: int, x2: int)
    requires b != [] && 0xE0 <= b[0] as int <= 0xEF && DecodeFirst(b).Some?
    requires x0 == b[0] as int - 0xE0 && x1 == b[1] as int - 0x80 && x2 == b[2] as int - 0x80
    ensures EncodeChar(DecodeFirst(b).value.0) == b[..3]
  {
    var c := DecodeFirst(b).value.0;
    var a := x0 * 64 + x1;
    assert c as int == a * 64 + x2;
    DivMod64(c as int, a, x2);
    DivMod64(a, x0, x1);
    assert EncodeChar(c) == [(0xE0 + x0) as Byte, (0x80 + x1) as Byte, (0x80 + x2) as Byte];
  }

  lemma EncodeFour(b: Bytes, x0: int, x1: int, x2: int, x3: int)
    requires b != [] && 0xF0 <= b[0] as int <= 0xF4 && DecodeFirst(b).Some?
    requires x0 == b[0] as int - 0xF0 && x1 == b[1] as int - 0x80
    requires x2 == b[2] as int - 0x80 && x3 == b[3] as int - 0x80
    ensures EncodeChar(DecodeFirst(b).value.0) == b[..4]
  {
    var c := DecodeFirst(b).value.0;
    var hi := x0 * 64 + x1;
    var a := hi * 64 + x2;
    assert c as int == a * 64 + x3;
    DivMod64(c as int, a, x3);
    DivMod64(a, hi, x2);
    DivMod64(hi, x0, x1);
    assert EncodeChar(c) == [(0xF0 + x0) as Byte, (0x80 + x1) as Byte, (0x80 + x2) as Byte, (0x80 + x3) as Byte];
  }

  /** Bytes that decode are the encoding of what they decode to, so `decode` accepts
      exactly the encoder's output and nothing else. */
  lemma {:induction false} EncodeDecoded(b: Bytes)
    requires DecodeUtf8(b).Some?
    ensures EncodeUtf8(DecodeUtf8(b).value) == b
    decreases |b|
  {
    if b != [] {
      var (c, n) := DecodeFirst(b).value;
      EncodeDecodedFirst(b);
      EncodeDecoded(b[n..]);
      var s := DecodeUtf8(b).value;
      assert s == [c] + DecodeUtf8(b[n..]).value;
      assert s[0] == c && s[1..] == DecodeUtf8(b[n..]).value;
      assert b == b[..n] + b[n..];
    }
  }

  /** Decoding and encoding are inverse: `b` decodes to `s` exactly when `b` is the
      encoding of `s`. */
  lemma Utf8Inverse(b: Bytes, s: string)
    ensures DecodeUtf8(b) == Some(s) <==> b == EncodeUtf8(s)
  {
    if DecodeUtf8(b) == Some(s) {
      EncodeDecoded(b);
    }
    if b == EncodeUtf8(s) {
      DecodeEncoded(s);
    }
  }

  /** An overlong form, a surrogate and a code point above U+10FFFF are refused:
      C0 80 (NUL in two bytes), ED A0 80 (U+D800), F4 90 80 80 (U+110000). */
  lemma MalformedRefused()
    ensures DecodeUtf8([0xC0, 0x80]) == None
    ensures DecodeUtf8([0xED, 0xA0, 0x80]) == None
    ensures DecodeUtf8([0xF4, 0x90, 0x80, 0x80]) == None
  {
    var overlong: Bytes := [0xC0, 0x80];
    var surrogate: Bytes := [0xED, 0xA0, 0x80];
    var beyond: Bytes := [0xF4, 0x90, 0x80, 0x80];
    assert DecodeFirst(overlong) == None;
    assert DecodeFirst(surrogate) == None;
    assert DecodeFirst(beyond) == None;
  }

  /** ASCII bytes decode one character each. */
  lemma {:induction false} AsciiDecodes(b: Bytes)
    requires forall i :: 0 <= i < |b| ==> b[i] < 0x80
    ensures DecodeUtf8(b).Some? && |DecodeUtf8(b).value| == |b|
    ensures forall i :: 0 <= i < |b| ==> DecodeUtf8(b).value[i] as int == b[i] as int
    decreases |b|
  {
    if b != [] {
      assert DecodeFirst(b) == Some((b[0] as int as char, 1));
      AsciiDecodes(b[1..]);
    }
  }

  /** A lead byte without its continuation does not decode, whole as it is and also
      when the continuation byte comes on its own. */
  lemma SplitCharacter()
    ensures DecodeUtf8([0xC3, 0xA9]) == Some("\U{e9}")
    ensures DecodeUtf8([0xC3]) == None
    ensures DecodeUtf8([0xA9]) == None
  {
    var whole: Bytes := [0xC3, 0xA9];
    assert DecodeFirst(whole) == Some(('\U{e9}', 2));
    assert whole[2..] == [] && DecodeUtf8([]) == Some([]);
    assert ['\U{e9}'] + [] == "\U{e9}";
  }
}
