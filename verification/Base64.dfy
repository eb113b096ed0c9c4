/** Standard Base64 (section 4 of RFC 4648) as Go's `StdEncoding` reads it:
    line breaks are skipped, padding is required, and the unused bits of a
    padded group are not checked. */
module Base64 {
  import opened Common

  type Sextet = n: nat | n < 64

  function Digit(n: Sextet): Byte {
    if n < 26 then (n + 65) as char
    else if n < 52 then (n + 71) as char
    else if n < 62 then (n - 4) as char
    else if n == 62 then '+' else '/'
  }

  function Value(c: char): Option<Sextet> {
    if 'A' <= c <= 'Z' then Some(c as int - 65)
    else if 'a' <= c <= 'z' then Some(c as int - 71)
    else if '0' <= c <= '9' then Some(c as int + 4)
    else if c == '+' then Some(62)
    else if c == '/' then Some(63)
    else None
  }

  function Code(b: Byte): (n: nat)
    ensures n < 256
  {
    b as int
  }

  // The four sextets of a group of three bytes; a missing byte counts as zero.
  function Sextet0(a: Byte): Sextet { Code(a) / 4 }

  function Sextet1(a: Byte, b: Byte): Sextet { Code(a) % 4 * 16 + Code(b) / 16 }

  function Sextet2(b: Byte, c: Byte): Sextet { Code(b) % 16 * 4 + Code(c) / 64 }

  function Sextet3(c: Byte): Sextet { Code(c) % 64 }

  const ZERO: Byte := '\0'

  function Encode(s: Bytes): Bytes {
    if s == [] then []
    else if |s| == 1 then
      [Digit(Sextet0(s[0])), Digit(Sextet1(s[0], ZERO)), '=', '=']
    else if |s| == 2 then
      [Digit(Sextet0(s[0])), Digit(Sextet1(s[0], s[1])), Digit(Sextet2(s[1], ZERO)), '=']
    else
      [Digit(Sextet0(s[0])), Digit(Sextet1(s[0], s[1])), Digit(Sextet2(s[1], s[2])), Digit(Sextet3(s[2]))]
      + Encode(s[3..])
  }

  function First(p: Sextet, q: Sextet): Byte { (p * 4 + q / 16) as char }

  function Second(q: Sextet, r: Sextet): Byte { (q % 16 * 16 + r / 4) as char }

  function Third(r: Sextet, t: Sextet): Byte { (r % 4 * 64 + t) as char }

  /** Groups of four digits; only the last group may be padded. */
  function DecodeGroups(s: string): Option<Bytes> {
    if s == "" then Some([])
    else if |s| < 4 || Value(s[0]).None? || Value(s[1]).None? then None
    else
      var p, q := Value(s[0]).value, Value(s[1]).value;
      if s[2] == '=' then
        if s[3..] == "=" then Some([First(p, q)]) else None
      else if Value(s[2]).None? then None
      else
        var r := Value(s[2]).value;
        if s[3] == '=' then
          if |s| == 4 then Some([First(p, q), Second(q, r)]) else None
        else if Value(s[3]).None? then None
        else
          match DecodeGroups(s[4..])
          case None => None
          case Some(rest) => Some([First(p, q), Second(q, r), Third(r, Value(s[3]).value)] + rest)
  }

  predicate IsLineBreak(c: char) {
    c == '\n' || c == '\r'
  }

  function WithoutLineBreaks(s: string): string {
    if s == "" then ""
    else (if IsLineBreak(s[0]) then "" else [s[0]]) + WithoutLineBreaks(s[1..])
  }

  function Decode(s: string): Option<Bytes> {
    DecodeGroups(WithoutLineBreaks(s))
  }

  lemma DigitHasValue(n: Sextet)
    ensures Value(Digit(n)) == Some(n)
  {
  }

  lemma GroupRoundTrip(a: Byte, b: Byte, c: Byte)
    ensures First(Sextet0(a), Sextet1(a, b)) == a
    ensures Second(Sextet1(a, b), Sextet2(b, c)) == b
    ensures Third(Sextet2(b, c), Sextet3(c)) == c
  {
  }

  lemma FullGroup(p: Sextet, q: Sextet, r: Sextet, t: Sextet, rest: string)
    ensures DecodeGroups([Digit(p), Digit(q), Digit(r), Digit(t)] + rest) ==
            match DecodeGroups(rest)
            case None => None
            case Some(bytes) => Some([First(p, q), Second(q, r), Third(r, t)] + bytes)
  {
    DigitHasValue(p);
    DigitHasValue(q);
    DigitHasValue(r);
    DigitHasValue(t);
    assert ([Digit(p), Digit(q), Digit(r), Digit(t)] + rest)[4..] == rest;
  }

  lemma PaddedGroups(p: Sextet, q: Sextet, r: Sextet)
    ensures DecodeGroups([Digit(p), Digit(q), '=', '=']) == Some([First(p, q)])
    ensures DecodeGroups([Digit(p), Digit(q), Digit(r), '=']) == Some([First(p, q), Second(q, r)])
  {
    DigitHasValue(p);
    DigitHasValue(q);
    DigitHasValue(r);
  }

  lemma OneByteRoundTrip(a: Byte)
    ensures DecodeGroups(Encode([a])) == Some([a])
  {
    PaddedGroups(Sextet0(a), Sextet1(a, ZERO), 0);
    GroupRoundTrip(a, ZERO, ZERO);
  }

  lemma TwoBytesRoundTrip(a: Byte, b: Byte)
    ensures DecodeGroups(Encode([a, b])) == Some([a, b])
  {
    PaddedGroups(Sextet0(a), Sextet1(a, b), Sextet2(b, ZERO));
    GroupRoundTrip(a, b, ZERO);
  }

  lemma ThreeBytesMore(a: Byte, b: Byte, c: Byte, rest: Bytes)
    requires DecodeGroups(Encode(rest)) == Some(rest)
    ensures DecodeGroups(Encode([a, b, c] + rest)) == Some([a, b, c] + rest)
  {
    assert ([a, b, c] + rest)[3..] == rest;
    FullGroup(Sextet0(a), Sextet1(a, b), Sextet2(b, c), Sextet3(c), Encode(rest));
    GroupRoundTrip(a, b, c);
  }

  lemma {:induction false} GroupsRoundTrip(s: Bytes)
    ensures DecodeGroups(Encode(s)) == Some(s)
  {
    if |s| == 1 {
      assert s == [s[0]];
      OneByteRoundTrip(s[0]);
    } else if |s| == 2 {
      assert s == [s[0], s[1]];
      TwoBytesRoundTrip(s[0], s[1]);
    } else if |s| >= 3 {
      GroupsRoundTrip(s[3..]);
      assert s == [s[0], s[1], s[2]] + s[3..];
      ThreeBytesMore(s[0], s[1], s[2], s[3..]);
    }
  }

  lemma {:induction false} EncodeHasNoLineBreak(s: Bytes)
    ensures forall c :: c in Encode(s) ==> !IsLineBreak(c)
  {
    if |s| >= 3 {
      EncodeHasNoLineBreak(s[3..]);
    }
  }

  lemma {:induction false} NothingToSkip(s: string)
    requires forall c :: c in s ==> !IsLineBreak(c)
    ensures WithoutLineBreaks(s) == s
  {
    if s != "" {
      NothingToSkip(s[1..]);
    }
  }

  /** Every byte string survives encoding and decoding. */
  lemma RoundTrip(s: Bytes)
    ensures Decode(Encode(s)) == Some(s)
  {
    EncodeHasNoLineBreak(s);
    NothingToSkip(Encode(s));
    GroupsRoundTrip(s);
  }

  // ------------------------------------------------------------- the format

  /** The alphabet of section 4 of RFC 4648: A-Z, a-z, 0-9, plus and slash. */
  lemma Alphabet(n: Sextet)
    ensures n < 26 ==> Digit(n) as int == 'A' as int + n
    ensures 26 <= n < 52 ==> Digit(n) as int == 'a' as int + (n - 26)
    ensures 52 <= n < 62 ==> Digit(n) as int == '0' as int + (n - 52)
    ensures Digit(62) == '+' && Digit(63) == '/'
    ensures Value(Digit(n)) == Some(n)
  {
  }

  predicate InAlphabet(c: char) {
    'A' <= c <= 'Z' || 'a' <= c <= 'z' || '0' <= c <= '9' || c == '+' || c == '/'
  }

  /** Three bytes are four digits of six bits each, most significant bits first. */
  lemma GroupIsBigEndian(a: Byte, b: Byte, c: Byte)
    ensures Encode([a, b, c]) == [Digit(Sextet0(a)), Digit(Sextet1(a, b)), Digit(Sextet2(b, c)), Digit(Sextet3(c))]
    ensures ((Sextet0(a) * 64 + Sextet1(a, b)) * 64 + Sextet2(b, c)) * 64 + Sextet3(c)
         == (a as int * 256 + b as int) * 256 + c as int
    ensures Encode([a, b]) == Encode([a, b, ZERO])[..3] + "=" && Encode([a]) == Encode([a, ZERO, ZERO])[..2] + "=="
  {
    assert [a, b, c][3..] == [] && [a, b, ZERO][3..] == [] && [a, ZERO, ZERO][3..] == [];
    assert Encode([]) == [];
  }

  /** Digits in groups of four, of which the last one may have one or two padding
      signs in place of its last digits. */
  ghost predicate WellFormed(s: string) {
    && |s| % 4 == 0
    && exists padding: nat :: PaddedBy(s, padding)
  }

  ghost predicate PaddedBy(s: string, padding: nat) {
    && padding <= 2 && padding <= |s|
    && (forall i :: 0 <= i < |s| - padding ==> InAlphabet(s[i]))
    && (forall i :: |s| - padding <= i < |s| ==> s[i] == '=')
  }

  lemma DigitsHaveValues(c: char)
    ensures Value(c).Some? <==> InAlphabet(c)
  {
  }

  /** What is accepted is exactly that, line breaks apart. */
  lemma {:induction false} DecodesExactlyIfWellFormed(s: string)
    ensures DecodeGroups(s).Some? <==> WellFormed(s)
  {
    if s == "" {
      assert PaddedBy(s, 0);
    } else if |s| >= 4 {
      var rest := s[4..];
      DecodesExactlyIfWellFormed(rest);
      forall i | 0 <= i < 4 ensures Value(s[i]).Some? <==> InAlphabet(s[i]) {
        DigitsHaveValues(s[i]);
      }
      if DecodeGroups(s).Some? {
        AcceptedIsWellFormed(s);
      }
      if WellFormed(s) {
        WellFormedIsAccepted(s);
      }
    }
  }

  lemma AcceptedIsWellFormed(s: string)
    requires |s| >= 4 && DecodeGroups(s).Some?
    requires DecodeGroups(s[4..]).Some? <==> WellFormed(s[4..])
    ensures WellFormed(s)
  {
    var rest := s[4..];
    DigitsHaveValues(s[0]);
    DigitsHaveValues(s[1]);
    DigitsHaveValues(s[2]);
    DigitsHaveValues(s[3]);
    if s[2] == '=' {
      assert s[3..] == "=" && |s| == 4 && s[3] == s[3..][0];
      assert PaddedBy(s, 2);
    } else if s[3] == '=' {
      assert PaddedBy(s, 1);
    } else {
      assert DecodeGroups(rest).Some?;
      var padding: nat :| PaddedBy(rest, padding);
      FullGroupFirst(s, padding);
    }
  }

  lemma FullGroupFirst(s: string, padding: nat)
    requires |s| >= 4 && InAlphabet(s[0]) && InAlphabet(s[1]) && InAlphabet(s[2]) && InAlphabet(s[3])
    requires |s[4..]| % 4 == 0 && PaddedBy(s[4..], padding)
    ensures WellFormed(s)
  {
    var rest := s[4..];
    forall i | 0 <= i < |s| - padding ensures InAlphabet(s[i]) {
      assert i >= 4 ==> s[i] == rest[i - 4];
    }
    forall i | |s| - padding <= i < |s| ensures s[i] == '=' {
      assert s[i] == rest[i - 4];
    }
    assert PaddedBy(s, padding);
  }

  lemma WellFormedIsAccepted(s: string)
    requires |s| >= 4 && WellFormed(s)
    requires DecodeGroups(s[4..]).Some? <==> WellFormed(s[4..])
    ensures DecodeGroups(s).Some?
  {
    var rest := s[4..];
    var padding: nat :| PaddedBy(s, padding);
    DigitsHaveValues(s[0]);
    DigitsHaveValues(s[1]);
    DigitsHaveValues(s[2]);
    DigitsHaveValues(s[3]);
    if |s| > 4 || padding == 0 {
      assert |s| > 4 ==> |s| >= 8;
      assert forall i :: 0 <= i < |rest| ==> rest[i] == s[i + 4];
      assert PaddedBy(rest, if |s| > 4 then padding else 0);
      assert WellFormed(rest);
    } else {
      assert s[3] == '=' && s[3..] == [s[3]];
    }
  }

  /** So a wrapped value is refused exactly if, without its line breaks, it is not
      well formed. */
  lemma RefusedExactlyIfMalformed(s: string)
    ensures Decode(s).None? <==> !WellFormed(WithoutLineBreaks(s))
  {
    DecodesExactlyIfWellFormed(WithoutLineBreaks(s));
  }

  /** Carriage returns and line feeds are skipped, and nothing else. */
  lemma {:induction false} OnlyLineBreaksAreSkipped(a: string, c: char, b: string)
    ensures WithoutLineBreaks(a + [c] + b) ==
      WithoutLineBreaks(a) + (if c as int in {10, 13} then "" else [c]) + WithoutLineBreaks(b)
  {
    var s := a + [c] + b;
    if a == "" {
      assert s == [c] + b;
      assert s[1..] == b;
    } else {
      assert s[1..] == a[1..] + [c] + b;
      OnlyLineBreaksAreSkipped(a[1..], c, b);
    }
  }
}
