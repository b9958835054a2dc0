/** `base64.b64decode(s)` for a `str` and the default `validate=False`: the ASCII
    check `_bytes_from_decode_data` makes, then CPython's `binascii.a2b_base64` in its
    non-strict mode. That scan skips characters outside the alphabet, stops at the
    first pad that completes a group of four, and rejects a text that leaves a group
    unfinished. */
module Binascii {
  import opened Outcomes
  import opened Strings

  /** The value of a base64 digit (section 4 of RFC 4648), or None for any other
      character, the pad `=` included. */
  function Sextet(c: char): (r: Option<int>)
    ensures r.Some? ==> 0 <= r.value < 64
    ensures r.Some? <==> ('A' <= c <= 'Z') || ('a' <= c <= 'z') || ('0' <= c <= '9') || c == '+' || c == '/'
  {
    if 'A' <= c <= 'Z' then Some(c as int - 'A' as int)
    else if 'a' <= c <= 'z' then Some(c as int - 'a' as int + 26)
    else if '0' <= c <= '9' then Some(c as int - '0' as int + 52)
    else if c == '+' then Some(62)
    else if c == '/' then Some(63)
    else None
  }

  /** The state of the scan: the place in the current group of four (`quad_pos`), the
      pads seen since the last digit (`pads`), the bits of the group not yet written
      (`leftchar`), and the bytes written so far. */
  datatype Scan = Scan(quad: int, pads: int, left: int, out: Bytes)

  /** Nothing read yet. */
  const Start: Scan := Scan(0, 0, 0, [])

  /** The pending bits always fit what the next digit completes: six after the first
      digit of a group, four after the second, two after the third. */
  predicate Fits(st: Scan) {
    && 0 <= st.quad < 4 && 0 <= st.pads && 0 <= st.left
    && (st.quad == 1 ==> st.left < 64)
    && (st.quad == 2 ==> st.left < 16)
    && (st.quad == 3 ==> st.left < 4)
  }

  /** One digit of value `v`. The first digit of a group is only stored; each of the
      other three completes one byte and keeps the bits left over. */
  function Feed(st: Scan, v: int): (r: Scan)
    requires Fits(st) && 0 <= v < 64
    ensures Fits(r) && r.quad == (st.quad + 1) % 4 && r.pads == 0
    ensures |r.out| == |st.out| + (if st.quad == 0 then 0 else 1)
    ensures r.out[..|st.out|] == st.out
  {
    if st.quad == 0 then Scan(1, 0, v, st.out)
    else if st.quad == 1 then Scan(2, 0, v % 16, st.out + [(st.left * 4 + v / 16) as Byte])
    else if st.quad == 2 then Scan(3, 0, v % 4, st.out + [(st.left * 16 + v / 4) as Byte])
    else Scan(0, 0, 0, st.out + [(st.left * 64 + v) as Byte])
  }

  /** The scan of `s` from index `i` in state `st`. A pad counts only after the second
      digit of a group and ends the scan once the group is full; any other character
      that is not a digit is skipped; at the end of the text an unfinished group is an
      error. */
  function A2b(s: string, i: nat, st: Scan): (r: Result<Bytes>)
    requires i <= |s| && Fits(st)
    ensures r.Ok? ==> |st.out| <= |r.value| && r.value[..|st.out|] == st.out
    ensures r.Err? ==> r.error.BinasciiError?
    decreases |s| - i
  {
    if i == |s| then
      if st.quad == 0 then Ok(st.out)
      else if st.quad == 1 then Err(BinasciiError(OddDigitCount(|st.out| / 3 * 4 + 1)))
      else Err(BinasciiError(IncorrectPadding))
    else if s[i] == '=' then
      if st.quad >= 2 && st.quad + st.pads + 1 >= 4 then Ok(st.out)
      else A2b(s, i + 1, if st.quad >= 2 then st.(pads := st.pads + 1) else st)
    else match Sextet(s[i])
      case None => A2b(s, i + 1, st)
      case Some(v) => A2b(s, i + 1, Feed(st, v))
  }

  predicate IsAscii(s: string) {
    forall k :: 0 <= k < |s| ==> s[k] as int < 128
  }

  const NonAsciiMessage: string := "string argument should contain only ASCII characters"

  /** `base64.b64decode(s)`: a non-ASCII text is a ValueError; otherwise the scan from
      the start, whose errors are `binascii.Error`. */
  function B64Decode(s: string): (r: Result<Bytes>)
    ensures r.Err? <==> !IsAscii(s) || A2b(s, 0, Start).Err?
    ensures r.Err? ==> if IsAscii(s) then r.error.BinasciiError? else r.error == ValueError(NonAsciiMessage)
  {
    if !IsAscii(s) then Err(ValueError(NonAsciiMessage)) else A2b(s, 0, Start)
  }

  /** Every character of `s[lo..hi]` is a base64 digit; no pad among them. */
  predicate DigitsIn(s: string, lo: nat, hi: nat)
    requires lo <= hi <= |s|
  {
    forall k :: lo <= k < hi ==> Sextet(s[k]).Some?
  }

  /** Every character of `s` from `lo` on is a pad. */
  predicate PadsFrom(s: string, lo: nat)
    requires lo <= |s|
  {
    forall k :: lo <= k < |s| ==> s[k] == '='
  }

  /** Bytes written by `m` digits from the start of a group: three per full group and
      one fewer than the digits of a partial one. */
  function Emitted(m: nat): nat {
    (m / 4) * 3 + (if m % 4 == 0 then 0 else m % 4 - 1)
  }

  /** A digit writes a byte unless it starts a group. */
  lemma EmittedStep(m: nat)
    ensures Emitted(m + 1) == Emitted(m) + (if m % 4 == 0 then 0 else 1)
  {
    var q, r := m / 4, m % 4;
    assert m == 4 * q + r;
    if r == 3 {
      assert (m + 1) / 4 == q + 1 && (m + 1) % 4 == 0;
    } else {
      assert (m + 1) / 4 == q && (m + 1) % 4 == r + 1;
    }
  }

  /** The state `n` digits from the start reach: `quad_pos` is `n` modulo 4 and the
      bytes written are those `n` digits complete. */
  predicate AfterDigits(st: Scan, n: nat) {
    Fits(st) && st.quad == n % 4 && |st.out| == Emitted(n)
  }

  /** One more digit keeps that correspondence. */
  lemma FeedAfterDigits(st: Scan, v: int, n: nat)
    requires AfterDigits(st, n) && 0 <= v < 64
    ensures AfterDigits(Feed(st, v), n + 1)
  {
    EmittedStep(n);
  }

  /** Scanning the digits of `s[i..j]` and then the rest is scanning the rest from the
      state the digits reach, with the pads cleared. */
  lemma {:induction false} A2bDigits(s: string, i: nat, j: nat, st: Scan, n: nat) returns (end: Scan)
    requires i <= j <= |s| && DigitsIn(s, i, j) && AfterDigits(st, n)
    ensures AfterDigits(end, n + (j - i)) && A2b(s, i, st) == A2b(s, j, end)
    ensures end.pads == if i == j then st.pads else 0
    decreases j - i
  {
    if i == j {
      end := st;
    } else {
      var v := Sextet(s[i]).value;
      FeedAfterDigits(st, v, n);
      end := A2bDigits(s, i + 1, j, Feed(st, v), n + 1);
    }
  }

  /** Pads to the end of the text at the start of a group are skipped. */
  lemma {:induction false} PadsAtGroupStart(s: string, i: nat, st: Scan)
    requires i <= |s| && PadsFrom(s, i) && Fits(st) && st.quad == 0
    ensures A2b(s, i, st) == Ok(st.out)
    decreases |s| - i
  {
    if i < |s| {
      PadsAtGroupStart(s, i + 1, st);
    }
  }

  /** Pads to the end of the text after one digit of a group are skipped too, and the
      end of the text then finds the group unfinished. */
  lemma {:induction false} PadsAfterOneDigit(s: string, i: nat, st: Scan)
    requires i <= |s| && PadsFrom(s, i) && Fits(st) && st.quad == 1
    ensures A2b(s, i, st) == Err(BinasciiError(OddDigitCount(|st.out| / 3 * 4 + 1)))
    decreases |s| - i
  {
    if i < |s| {
      PadsAfterOneDigit(s, i + 1, st);
    }
  }

  /** After two or three digits, pads that fill the group end the scan. */
  lemma {:induction false} PadsCompleteGroup(s: string, i: nat, st: Scan)
    requires i < |s| && PadsFrom(s, i) && Fits(st) && st.quad >= 2
    requires st.quad + st.pads + (|s| - i) >= 4
    ensures A2b(s, i, st) == Ok(st.out)
    decreases |s| - i
  {
    if st.quad + st.pads + 1 < 4 {
      PadsCompleteGroup(s, i + 1, st.(pads := st.pads + 1));
    }
  }

  /** One digit over a multiple of 4: the error cites the number of digits. */
  lemma OddCountCited(n: nat)
    requires n % 4 == 1
    ensures Emitted(n) / 3 * 4 + 1 == n
  {
    var q := n / 4;
    assert n == 4 * q + 1;
    assert Emitted(n) == 3 * q;
  }

  /** `m` digits, then pads up to a multiple of 4. */
  predicate DigitsThenPads(s: string, m: nat) {
    && m <= |s| && |s| % 4 == 0 && |s| - m < 4
    && DigitsIn(s, 0, m) && PadsFrom(s, m)
  }

  /** One digit more than a multiple of 4, padded: the scan fails and cites `m`. */
  lemma PaddedScanOdd(s: string, m: nat)
    requires DigitsThenPads(s, m) && m % 4 == 1
    ensures A2b(s, 0, Start) == Err(BinasciiError(OddDigitCount(m)))
  {
    var st := A2bDigits(s, 0, m, Start, 0);
    PadsAfterOneDigit(s, m, st);
    OddCountCited(m);
  }

  /** Whole groups of digits, then pads: the scan writes the bytes the digits make. */
  lemma PaddedScanWhole(s: string, m: nat)
    requires DigitsThenPads(s, m) && m % 4 == 0
    ensures A2b(s, 0, Start).Ok? && |A2b(s, 0, Start).value| == Emitted(m)
  {
    var st := A2bDigits(s, 0, m, Start, 0);
    PadsAtGroupStart(s, m, st);
  }

  /** Two or three digits past whole groups, then the pads that fill the group: the
      scan writes the bytes the digits make. */
  lemma PaddedScanPartial(s: string, m: nat)
    requires DigitsThenPads(s, m) && m % 4 >= 2
    ensures A2b(s, 0, Start).Ok? && |A2b(s, 0, Start).value| == Emitted(m)
  {
    var st := A2bDigits(s, 0, m, Start, 0);
    assert st.pads == 0 && |s| - m == 4 - st.quad;
    PadsCompleteGroup(s, m, st);
  }

  /** Digits only: three bytes per four digits. */
  lemma EmittedAligned(n: nat)
    requires n % 4 != 1
    ensures Emitted(n) == n * 3 / 4
  {
    var q, r := n / 4, n % 4;
    assert n == 4 * q + r;
    assert n * 3 == 4 * (3 * q) + 3 * r;
    if r == 2 {
      assert n * 3 == 4 * (3 * q + 1) + 2;
    } else if r == 3 {
      assert n * 3 == 4 * (3 * q + 2) + 1;
    }
  }

  /** Digits and pads are ASCII. */
  lemma PaddedAscii(s: string, m: nat)
    requires DigitsThenPads(s, m)
    ensures IsAscii(s)
  {
    forall k | 0 <= k < |s|
      ensures s[k] as int < 128
    {
      if k < m {
        assert Sextet(s[k]).Some?;
      }
    }
  }

  /** A text of `m` digits padded with `=` up to a multiple of 4, as
      `get_audio_tempfile` pads its prompt, decodes exactly when `m` is not one more
      than a multiple of 4, and then gives three bytes per four digits. Otherwise the
      error cites `m`, the text's own count of digits. */
  lemma PaddedDigitsDecode(s: string, m: nat)
    requires DigitsThenPads(s, m)
    ensures B64Decode(s).Err? <==> m % 4 == 1
    ensures m % 4 == 1 ==> B64Decode(s) == Err(BinasciiError(OddDigitCount(m)))
    ensures m % 4 != 1 ==> B64Decode(s).Ok? && |B64Decode(s).value| == m * 3 / 4
  {
    PaddedAscii(s, m);
    if m % 4 == 1 {
      PaddedScanOdd(s, m);
    } else {
      if m % 4 == 0 {
        PaddedScanWhole(s, m);
      } else {
        PaddedScanPartial(s, m);
      }
      EmittedAligned(m);
    }
  }
}
