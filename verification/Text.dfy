/** The string operations of the Go standard library the processor relies on,
    on byte strings: ASCII case folding and trimming, byte order, decimal
    numbers and `strings.ReplaceAll`. */
module Text {
  import opened Common

  function LowerChar(c: char): char {
    if 'A' <= c <= 'Z' then ((c as int) + 32) as char else c
  }

  function UpperChar(c: char): char {
    if 'a' <= c <= 'z' then ((c as int) - 32) as char else c
  }

  function ToLower(s: string): string {
    seq(|s|, i requires 0 <= i < |s| => LowerChar(s[i]))
  }

  function ToUpper(s: string): string {
    seq(|s|, i requires 0 <= i < |s| => UpperChar(s[i]))
  }

  predicate IsSpace(c: char) {
    c == ' ' || '\t' <= c <= '\r'
  }

  function TrimLeft(s: string): string {
    if s != "" && IsSpace(s[0]) then TrimLeft(s[1..]) else s
  }

  function TrimRight(s: string): string {
    if s != "" && IsSpace(s[|s| - 1]) then TrimRight(s[..|s| - 1]) else s
  }

  function TrimSpace(s: string): string {
    TrimRight(TrimLeft(s))
  }

  /** Go's bytewise string order. */
  predicate Less(a: string, b: string) {
    b != "" && (a == "" || (if a[0] == b[0] then Less(a[1..], b[1..]) else a[0] < b[0]))
  }

  lemma {:induction false} LessIsStrict(a: string, b: string)
    ensures !(Less(a, b) && Less(b, a))
    ensures Less(a, b) || a == b || Less(b, a)
    ensures !Less(a, a)
  {
    if a != "" {
      LessIsStrict(a[1..], if b == "" then "" else b[1..]);
      if b != "" && a[0] == b[0] && a[1..] == b[1..] {
        assert a == [a[0]] + a[1..] && b == [b[0]] + b[1..];
      }
    }
  }

  lemma {:induction false} LessIsTransitive(a: string, b: string, c: string)
    requires Less(a, b) && Less(b, c)
    ensures Less(a, c)
  {
    if a != "" && a[0] == b[0] && b[0] == c[0] {
      LessIsTransitive(a[1..], b[1..], c[1..]);
    }
  }

  /** Fixed-width fields compare field by field. */
  lemma {:induction false} LessByField(a: string, b: string, x: string, y: string)
    requires |a| == |b|
    ensures Less(a + x, b + y) <==> Less(a, b) || (a == b && Less(x, y))
  {
    if a == "" {
      assert a + x == x && b + y == y;
    } else {
      assert (a + x)[1..] == a[1..] + x && (b + y)[1..] == b[1..] + y;
      LessByField(a[1..], b[1..], x, y);
      assert a == [a[0]] + a[1..] && b == [b[0]] + b[1..];
    }
  }

  predicate IsDigit(c: char) {
    '0' <= c <= '9'
  }

  predicate AllDigits(s: string) {
    forall c :: c in s ==> IsDigit(c)
  }

  function DigitChar(d: nat): (c: Byte)
    requires d < 10
    ensures IsDigit(c)
  {
    (d + 48) as char
  }

  function DigitsValue(s: string): nat
    requires AllDigits(s)
  {
    if s == "" then 0 else
      assert s[|s| - 1] in s;
      10 * DigitsValue(s[..|s| - 1]) + (s[|s| - 1] as int - 48)
  }

  /** strconv.Itoa on the non-negative numbers the processor formats. */
  function Decimal(n: nat): (s: Bytes)
    ensures s != [] && AllDigits(s)
  {
    if n < 10 then [DigitChar(n)] else Decimal(n / 10) + [DigitChar(n % 10)]
  }

  lemma {:induction false} DecimalRoundTrip(n: nat)
    ensures DigitsValue(Decimal(n)) == n
  {
    var s := Decimal(n);
    if n >= 10 {
      DecimalRoundTrip(n / 10);
      assert s[..|s| - 1] == Decimal(n / 10);
    } else {
      assert s[..|s| - 1] == "";
    }
  }

  const MAX_INT := 0x7FFF_FFFF_FFFF_FFFF

  /** strconv.Atoi: an optional sign, then decimal digits that fit 64 bits. */
  function Atoi(s: string): Option<int> {
    var signed := s != "" && (s[0] == '+' || s[0] == '-');
    var digits := if signed then s[1..] else s;
    if digits == "" || !AllDigits(digits) then None else
      var n: int := if signed && s[0] == '-' then -(DigitsValue(digits) as int) else DigitsValue(digits);
      if -MAX_INT - 1 <= n <= MAX_INT then Some(n) else None
  }

  lemma AtoiReadsDecimal(n: nat)
    requires n <= MAX_INT
    ensures Atoi(Decimal(n)) == Some(n)
  {
    DecimalRoundTrip(n);
    assert Decimal(n)[0] in Decimal(n);
  }

  function Itoa(n: int): Bytes {
    if n < 0 then ['-'] + Decimal(-n) else Decimal(n)
  }

  /** strings.ReplaceAll for a non-empty pattern: leftmost, not overlapping,
      never rescanning what it inserted. */
  function ReplaceAll(s: string, pattern: string, replacement: string): string
    requires pattern != ""
  {
    if s == "" then ""
    else if pattern <= s then replacement + ReplaceAll(s[|pattern|..], pattern, replacement)
    else [s[0]] + ReplaceAll(s[1..], pattern, replacement)
  }

  // -------------------------------------------- what these operations do

  /** Case folding moves the letters A to Z to a to z, in order, or back, and
      leaves everything else. */
  lemma CaseFolding(s: string, i: nat)
    requires i < |s|
    ensures |ToLower(s)| == |ToUpper(s)| == |s|
    ensures 'A' <= s[i] <= 'Z' ==> ToLower(s)[i] as int - 'a' as int == s[i] as int - 'A' as int
    ensures 'a' <= s[i] <= 'z' ==> ToUpper(s)[i] as int - 'A' as int == s[i] as int - 'a' as int
    ensures !('A' <= s[i] <= 'Z') ==> ToLower(s)[i] == s[i]
    ensures !('a' <= s[i] <= 'z') ==> ToUpper(s)[i] == s[i]
  {
  }

  /** The white space that is trimmed: tab, line feed, vertical tab, form feed,
      carriage return and space. */
  lemma WhiteSpace(c: char)
    ensures IsSpace(c) <==> c as int in {9, 10, 11, 12, 13, 32}
  {
  }

  /** Trimming takes white space off both ends and nothing else, and leaves none
      there. */
  lemma Trimmed(s: string) returns (before: string, after: string)
    ensures s == before + TrimSpace(s) + after
    ensures forall c :: c in before + after ==> IsSpace(c)
    ensures TrimSpace(s) != "" ==> !IsSpace(TrimSpace(s)[0]) && !IsSpace(TrimSpace(s)[|TrimSpace(s)| - 1])
  {
    before := TrimmedLeft(s);
    after := TrimmedRight(TrimLeft(s));
    assert TrimSpace(s) != "" ==> TrimLeft(s)[0] == TrimSpace(s)[0];
    assert s == before + (TrimSpace(s) + after);
  }

  lemma {:induction false} TrimmedLeft(s: string) returns (before: string)
    ensures s == before + TrimLeft(s)
    ensures forall c :: c in before ==> IsSpace(c)
    ensures TrimLeft(s) != "" ==> !IsSpace(TrimLeft(s)[0])
  {
    before := "";
    if s != "" && IsSpace(s[0]) {
      var rest := TrimmedLeft(s[1..]);
      before := [s[0]] + rest;
      assert s == [s[0]] + s[1..];
    }
  }

  lemma {:induction false} TrimmedRight(s: string) returns (after: string)
    ensures s == TrimRight(s) + after
    ensures forall c :: c in after ==> IsSpace(c)
    ensures TrimRight(s) != "" ==> !IsSpace(TrimRight(s)[|TrimRight(s)| - 1])
  {
    after := "";
    var k := |s| - 1;
    if s != "" && IsSpace(s[k]) {
      var rest := TrimmedRight(s[..k]);
      after := rest + [s[k]];
      assert s == s[..k] + [s[k]];
    }
  }

  /** At `k`, the first place where they differ, `a` ends or has the smaller
      byte. */
  ghost predicate DiffersBelow(a: string, b: string, k: int) {
    0 <= k <= |a| && k < |b| && a[..k] == b[..k] && (k == |a| || a[k] < b[k])
  }

  /** Byte order is decided at the first difference. */
  lemma {:induction false} LessAtFirstDifference(a: string, b: string)
    ensures Less(a, b) <==> exists k :: DiffersBelow(a, b, k)
  {
    if a != "" && b != "" && a[0] == b[0] {
      LessAtFirstDifference(a[1..], b[1..]);
      if Less(a, b) {
        var k :| DiffersBelow(a[1..], b[1..], k);
        assert a[..k + 1] == [a[0]] + a[1..][..k] && b[..k + 1] == [b[0]] + b[1..][..k];
        assert DiffersBelow(a, b, k + 1);
      }
      if exists k :: DiffersBelow(a, b, k) {
        var k :| DiffersBelow(a, b, k);
        assert a[1..][..k - 1] == a[..k][1..] && b[1..][..k - 1] == b[..k][1..];
        assert DiffersBelow(a[1..], b[1..], k - 1);
      }
    } else if a == "" || b == "" {
      if b != "" {
        assert DiffersBelow(a, b, 0);
      }
    } else if a[0] < b[0] {
      assert DiffersBelow(a, b, 0);
    } else {
      forall k ensures !DiffersBelow(a, b, k) {
        if 0 < k <= |a| && k <= |b| {
          assert a[..k][0] == a[0] && b[..k][0] == b[0];
        }
      }
    }
  }

  const DIGITS := "0123456789"

  /** Decimal notation: one digit a decimal place, without leading zeros. */
  lemma DecimalNotation(n: nat, d: nat)
    requires d < 10
    ensures Decimal(d) == [DIGITS[d]]
    ensures n > 0 ==> Decimal(10 * n + d) == Decimal(n) + Decimal(d)
  {
  }

  /** Any integer is written with a sign if and only if it is negative, and is read
      back as itself. */
  lemma ItoaReadsBack(n: int)
    requires -MAX_INT <= n <= MAX_INT
    ensures Itoa(n) == if n >= 0 then Decimal(n) else "-" + Decimal(-n)
    ensures Atoi(Itoa(n)) == Some(n)
  {
    if n >= 0 {
      AtoiReadsDecimal(n);
    } else {
      AtoiReads(Decimal(-n));
      DecimalRoundTrip(-n);
    }
  }

  /** What is read as a number: decimal digits, perhaps after one sign, whose value
      fits a signed 64-bit integer. */
  lemma AtoiReads(digits: string)
    requires digits != "" && AllDigits(digits)
    ensures var n: int := DigitsValue(digits);
      && Atoi(digits) == Atoi("+" + digits) == (if n <= 9223372036854775807 then Some(n) else None)
      && Atoi("-" + digits) == (if n <= 9223372036854775808 then Some(0 - n) else None)
  {
    assert ("+" + digits)[1..] == digits && ("-" + digits)[1..] == digits;
    assert digits[0] in digits;
  }

  /** And nothing else is. */
  lemma AtoiRefuses(s: string)
    requires Atoi(s).Some?
    ensures exists digits ::
      digits != "" && AllDigits(digits) && (s == digits || s == "+" + digits || s == "-" + digits)
  {
    if s[0] == '+' || s[0] == '-' {
      var digits := s[1..];
      assert s == [s[0]] + digits;
      assert s == "+" + digits || s == "-" + digits;
    } else {
      assert s == s;
    }
  }

  ghost predicate OccursAt(s: string, pattern: string, i: int) {
    0 <= i <= |s| && pattern <= s[i..]
  }

  /** Text without the pattern is left as it is. */
  lemma {:induction false} ReplaceNothing(s: string, pattern: string, replacement: string)
    requires pattern != "" && forall i :: !OccursAt(s, pattern, i)
    ensures ReplaceAll(s, pattern, replacement) == s
  {
    if s != "" {
      assert !OccursAt(s, pattern, 0);
      forall i ensures !OccursAt(s[1..], pattern, i) {
        if 0 <= i <= |s| - 1 {
          assert s[1..][i..] == s[i + 1..];
          assert !OccursAt(s, pattern, i + 1);
        }
      }
      ReplaceNothing(s[1..], pattern, replacement);
      assert s == [s[0]] + s[1..];
    }
  }

  /** The leftmost occurrence is replaced, and the search goes on behind it. */
  lemma {:induction false} ReplaceLeftmost(before: string, pattern: string, after: string, replacement: string)
    requires pattern != "" && forall i :: 0 <= i < |before| ==> !OccursAt(before + pattern + after, pattern, i)
    ensures ReplaceAll(before + pattern + after, pattern, replacement) ==
      before + replacement + ReplaceAll(after, pattern, replacement)
  {
    var s := before + pattern + after;
    if before == "" {
      assert s == pattern + after;
      assert s[|pattern|..] == after;
    } else {
      assert !OccursAt(s, pattern, 0);
      var rest := before[1..] + pattern + after;
      assert s[1..] == rest;
      forall i | 0 <= i < |before| - 1 ensures !OccursAt(rest, pattern, i) {
        assert rest[i..] == s[i + 1..];
        assert !OccursAt(s, pattern, i + 1);
      }
      ReplaceLeftmost(before[1..], pattern, after, replacement);
      assert before == [before[0]] + before[1..];
    }
  }
}
