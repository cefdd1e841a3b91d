/**
 * Shared vocabulary: optional values and error results, the Go string
 * functions the backend relies on (strings.HasPrefix, Contains, Index,
 * LastIndex, Replace with n = 1, Split, TrimSpace, EqualFold), the strconv
 * parsers it calls (Atoi, ParseUint, ParseBool) and a 16-byte UUID.
 */
module Common {

  datatype Option<T> = None | Some(value: T)

  datatype Result<T> = Ok(value: T) | Err(error: string)

  /** The outcome of a validation: nil, or the first error found. */
  datatype Verdict = Accept | Reject(reason: string)

  // ---------------------------------------------------------------------
  // Prefixes, suffixes and substrings

  predicate StartsWith(s: string, prefix: string) {
    |prefix| <= |s| && s[..|prefix|] == prefix
  }

  predicate EndsWith(s: string, suffix: string) {
    |suffix| <= |s| && s[|s| - |suffix|..] == suffix
  }

  /** Go's strings.TrimPrefix. */
  function TrimPrefix(s: string, prefix: string): (r: string)
    ensures StartsWith(s, prefix) ==> prefix + r == s
    ensures !StartsWith(s, prefix) ==> r == s
  {
    if StartsWith(s, prefix) then
      assert s == s[..|prefix|] + s[|prefix|..];
      s[|prefix|..]
    else s
  }

  predicate OccursAt(s: string, sub: string, i: int) {
    0 <= i && i + |sub| <= |s| && s[i..i + |sub|] == sub
  }

  /** Go's strings.Contains: some position holds `sub`. */
  predicate Contains(s: string, sub: string) {
    exists i :: 0 <= i <= |s| && OccursAt(s, sub, i)
  }

  function IndexFrom(s: string, sub: string, i: nat): (r: int)
    requires i <= |s|
    ensures r == -1 || (i <= r && OccursAt(s, sub, r))
    ensures forall j :: i <= j < (if r == -1 then |s| + 1 else r) ==> !OccursAt(s, sub, j)
    decreases |s| - i
  {
    if OccursAt(s, sub, i) then i
    else if i == |s| then -1
    else IndexFrom(s, sub, i + 1)
  }

  /** Go's strings.Index: the first position of `sub`, or -1. */
  function Index(s: string, sub: string): (r: int)
    ensures r == -1 <==> !Contains(s, sub)
    ensures r != -1 ==> OccursAt(s, sub, r)
    ensures forall j :: 0 <= j < r ==> !OccursAt(s, sub, j)
  {
    var r := IndexFrom(s, sub, 0);
    assert r == -1 ==> forall j :: !OccursAt(s, sub, j) by {
      if r == -1 {
        forall j ensures !OccursAt(s, sub, j) {
          if 0 <= j <= |s| { } else { }
        }
      }
    }
    r
  }

  /** Go's strings.Replace(s, pat, rep, 1): the first occurrence only. */
  function ReplaceFirst(s: string, pat: string, rep: string): (r: string)
    ensures !Contains(s, pat) ==> r == s
    ensures Contains(s, pat) ==>
      var i := Index(s, pat);
      r == s[..i] + rep + s[i + |pat|..] && s == s[..i] + pat + s[i + |pat|..]
  {
    var i := Index(s, pat);
    if i < 0 then s
    else
      assert s == s[..i] + s[i..i + |pat|] + s[i + |pat|..];
      s[..i] + rep + s[i + |pat|..]
  }

  function IndexOfCharFrom(s: string, c: char, i: nat): (r: int)
    requires i <= |s|
    ensures r == -1 || (i <= r < |s| && s[r] == c)
    ensures forall j :: i <= j < (if r == -1 then |s| else r) ==> s[j] != c
    decreases |s| - i
  {
    if i == |s| then -1 else if s[i] == c then i else IndexOfCharFrom(s, c, i + 1)
  }

  /** Go's strings.Index with a one-character separator. */
  function IndexOfChar(s: string, c: char): (r: int)
    ensures -1 <= r < |s|
    ensures r >= 0 ==> s[r] == c
    ensures forall j :: 0 <= j < (if r == -1 then |s| else r) ==> s[j] != c
  {
    IndexOfCharFrom(s, c, 0)
  }

  function LastIndexBelow(s: string, c: char, n: nat): (r: int)
    requires n <= |s|
    ensures -1 <= r < n
    ensures r >= 0 ==> s[r] == c
    ensures forall j :: r < j < n ==> s[j] != c
  {
    if n == 0 then -1 else if s[n - 1] == c then n - 1 else LastIndexBelow(s, c, n - 1)
  }

  /** Go's strings.LastIndex with a one-character separator. */
  function LastIndexOfChar(s: string, c: char): (r: int)
    ensures -1 <= r < |s|
    ensures r >= 0 ==> s[r] == c
    ensures forall j :: r < j < |s| ==> s[j] != c
  {
    LastIndexBelow(s, c, |s|)
  }

  predicate Free(s: string, c: char) { forall j :: 0 <= j < |s| ==> s[j] != c }

  /** Two pieces without the character make a whole without it. */
  lemma FreeConcat(x: string, y: string, c: char)
    requires Free(x, c) && Free(y, c)
    ensures Free(x + y, c)
  {
    forall j | 0 <= j < |x + y| ensures (x + y)[j] != c {
      if j >= |x| { assert (x + y)[j] == y[j - |x|]; }
    }
  }

  /** The pieces of a whole without the character are without it too. */
  lemma FreeParts(x: string, y: string, c: char)
    requires Free(x + y, c)
    ensures Free(x, c) && Free(y, c)
  {
    assert forall j :: 0 <= j < |x| ==> x[j] == (x + y)[j];
    assert forall j :: 0 <= j < |y| ==> y[j] == (x + y)[|x| + j];
  }

  /** Scanning inside a prefix without c finds the c that ends it. */
  lemma {:induction false} ScanToSeparator(s: string, n: nat, c: char, i: nat)
    requires n < |s| && s[n] == c && i <= n
    requires forall j :: 0 <= j < n ==> s[j] != c
    ensures IndexOfCharFrom(s, c, i) == n
    decreases n - i
  {
    if i < n {
      ScanToSeparator(s, n, c, i + 1);
    }
  }

  /** The first c of p + [c] + rest, for p without c, is the one after p. */
  lemma FirstSeparator(p: string, rest: string, c: char)
    requires Free(p, c)
    ensures IndexOfChar(p + [c] + rest, c) == |p|
    ensures (p + [c] + rest)[..|p|] == p && (p + [c] + rest)[|p| + 1..] == rest
  {
    var s := p + [c] + rest;
    assert s[|p|] == c;
    assert forall j :: 0 <= j < |p| ==> s[j] == p[j];
    ScanToSeparator(s, |p|, c, 0);
    assert s[..|p|] == p;
    assert s[|p| + 1..] == rest;
  }

  // ---------------------------------------------------------------------
  // Splitting and joining on one separator character

  /** Go's strings.Split(s, sep) for a one-character separator. */
  function Split(s: string, sep: char): (parts: seq<string>)
    ensures |parts| >= 1
    decreases |s|
  {
    var i := IndexOfChar(s, sep);
    if i < 0 then [s] else [s[..i]] + Split(s[i + 1..], sep)
  }

  function Join(parts: seq<string>, sep: char): string
    requires |parts| >= 1
  {
    if |parts| == 1 then parts[0] else parts[0] + [sep] + Join(parts[1..], sep)
  }

  /** Splitting cuts at every separator: no part holds one. */
  lemma {:induction false} SplitFree(s: string, sep: char)
    ensures forall k :: 0 <= k < |Split(s, sep)| ==> Free(Split(s, sep)[k], sep)
    decreases |s|
  {
    var i := IndexOfChar(s, sep);
    if i >= 0 {
      SplitFree(s[i + 1..], sep);
      var parts := Split(s, sep);
      var rest := Split(s[i + 1..], sep);
      assert parts == [s[..i]] + rest;
      forall k | 0 <= k < |parts| ensures Free(parts[k], sep) {
        if k > 0 { assert parts[k] == rest[k - 1]; }
      }
    }
  }

  /** Joining the parts of a split with the separator gives back `s`. */
  lemma {:induction false} SplitJoin(s: string, sep: char)
    ensures Join(Split(s, sep), sep) == s
    decreases |s|
  {
    var i := IndexOfChar(s, sep);
    if i >= 0 {
      SplitJoin(s[i + 1..], sep);
      var rest := Split(s[i + 1..], sep);
      var parts := Split(s, sep);
      assert parts == [s[..i]] + rest;
      assert parts[1..] == rest;
      calc {
        Join(parts, sep);
        parts[0] + [sep] + Join(rest, sep);
        s[..i] + [sep] + s[i + 1..];
        { assert s == s[..i] + [sep] + s[i + 1..]; }
        s;
      }
    }
  }

  /** The first field of strings.Split(s, sep): everything before the first separator. */
  function FirstField(s: string, sep: char): (r: string)
    ensures r == Split(s, sep)[0]
    ensures Free(r, sep) && StartsWith(s, r)
    ensures Free(s, sep) <==> r == s
  {
    var i := IndexOfChar(s, sep);
    if i < 0 then s else s[..i]
  }

  // ---------------------------------------------------------------------
  // White space, case

  /** unicode.IsSpace, which strings.TrimSpace uses. */
  predicate IsSpace(c: char) {
    c == ' ' || c == '\t' || c == '\n' || c == '\r' || c == '\U{000B}' || c == '\U{000C}'
    || c == '\U{0085}' || c == '\U{00A0}' || c == '\U{1680}'
    || ('\U{2000}' <= c <= '\U{200A}') || c == '\U{2028}' || c == '\U{2029}'
    || c == '\U{202F}' || c == '\U{205F}' || c == '\U{3000}'
  }

  function TrimLeft(s: string): (r: string)
    ensures |r| <= |s| && EndsWith(s, r)
    ensures |r| > 0 ==> !IsSpace(r[0])
    ensures forall k :: 0 <= k < |s| - |r| ==> IsSpace(s[k])
  {
    if |s| > 0 && IsSpace(s[0]) then TrimLeft(s[1..]) else s
  }

  function TrimRight(s: string): (r: string)
    ensures |r| <= |s| && StartsWith(s, r)
    ensures |r| > 0 ==> !IsSpace(r[|r| - 1])
    ensures forall k :: |r| <= k < |s| ==> IsSpace(s[k])
  {
    if |s| > 0 && IsSpace(s[|s| - 1]) then TrimRight(s[..|s| - 1]) else s
  }

  /** Go's strings.TrimSpace. */
  function TrimSpace(s: string): (r: string)
    ensures |r| > 0 ==> !IsSpace(r[0]) && !IsSpace(r[|r| - 1])
    ensures Contains(s, r)
  {
    var l := TrimLeft(s);
    var r := TrimRight(l);
    assert OccursAt(s, r, |s| - |l|) by {
      assert s[|s| - |l|..] == l;
      assert l[..|r|] == r;
    }
    r
  }

  predicate IsAsciiUpper(c: char) { 'A' <= c <= 'Z' }
  predicate IsAsciiLower(c: char) { 'a' <= c <= 'z' }

  function LowerChar(c: char): char {
    if IsAsciiUpper(c) then (c as int + 32) as char else c
  }

  /** Lower-cases the ASCII letters and leaves every other character alone. */
  function ToLowerAscii(s: string): (r: string)
    ensures |r| == |s|
    ensures forall k :: 0 <= k < |s| ==> r[k] == LowerChar(s[k])
  {
    if |s| == 0 then [] else [LowerChar(s[0])] + ToLowerAscii(s[1..])
  }

  /**
   * Simple case folding of `c` against the ASCII character `a`: equal, the
   * other ASCII case, or one of the two non-ASCII characters whose fold orbit
   * reaches an ASCII letter (KELVIN SIGN for k, LATIN SMALL LETTER LONG S for s).
   */
  predicate FoldsTo(c: char, a: char) {
    c == a || (LowerChar(c) == LowerChar(a) && (IsAsciiUpper(c) || IsAsciiLower(c)))
    || (c == '\U{212A}' && LowerChar(a) == 'k')
    || (c == '\U{017F}' && LowerChar(a) == 's')
  }

  /** Go's strings.EqualFold(s, t) where `t` is an ASCII constant. */
  predicate EqualFold(s: string, t: string) {
    |s| == |t| && forall k :: 0 <= k < |s| ==> FoldsTo(s[k], t[k])
  }

  predicate IsAscii(s: string) { forall k :: 0 <= k < |s| ==> s[k] as int < 128 }

  /** On ASCII text, EqualFold is equality after lower-casing. */
  lemma EqualFoldAscii(s: string, t: string)
    requires IsAscii(s)
    ensures EqualFold(s, t) <==> ToLowerAscii(s) == ToLowerAscii(t)
  {
    if |s| == |t| {
      forall k | 0 <= k < |s| ensures FoldsTo(s[k], t[k]) <==> LowerChar(s[k]) == LowerChar(t[k]) {
        assert s[k] as int < 128;
      }
      if ToLowerAscii(s) == ToLowerAscii(t) {
        forall k | 0 <= k < |s| ensures FoldsTo(s[k], t[k]) {
          assert ToLowerAscii(s)[k] == ToLowerAscii(t)[k];
        }
      }
    }
  }

  predicate IsDigit(c: char) { '0' <= c <= '9' }

  predicate AllDigits(s: string) { forall k :: 0 <= k < |s| ==> IsDigit(s[k]) }

  // ---------------------------------------------------------------------
  // Decimal numbers

  /** The value of a run of decimal digits. */
  function DigitsValue(s: string): (v: nat)
    requires AllDigits(s)
  {
    if |s| == 0 then 0 else DigitsValue(s[..|s| - 1]) * 10 + (s[|s| - 1] as int - '0' as int)
  }

  function DigitChar(d: nat): char
    requires d < 10
  {
    ('0' as int + d) as char
  }

  /** The shortest decimal spelling of `n`, as strconv.Itoa and fmt's %d print it. */
  function NatToString(n: nat): (s: string)
    ensures |s| >= 1 && AllDigits(s) && DigitsValue(s) == n
    ensures |s| > 1 ==> s[0] != '0'
  {
    if n < 10 then [DigitChar(n)]
    else
      var p := NatToString(n / 10);
      var s := p + [DigitChar(n % 10)];
      assert s[..|s| - 1] == p;
      s
  }

  function IntToString(i: int): string {
    if i < 0 then "-" + NatToString(-i) else NatToString(i)
  }

  const MinInt64: int := -0x8000_0000_0000_0000
  const MaxInt64: int := 0x7FFF_FFFF_FFFF_FFFF
  const MaxUint32: int := 0xFFFF_FFFF

  /**
   * Go's strconv.Atoi on a 64-bit platform: an optional sign followed by at
   * least one decimal digit, and a value inside the int64 range.
   */
  function Atoi(s: string): (r: Option<int>)
    ensures r.Some? ==> MinInt64 <= r.value <= MaxInt64
    ensures AllDigits(s) && |s| > 0 && DigitsValue(s) <= MaxInt64 ==> r == Some(DigitsValue(s) as int)
    ensures |s| == 0 ==> r.None?
  {
    if |s| > 0 && (s[0] == '+' || s[0] == '-') then
      var digits := s[1..];
      if |digits| == 0 || !AllDigits(digits) then None
      else
        var v: int := if s[0] == '-' then 0 - (DigitsValue(digits) as int) else DigitsValue(digits);
        if MinInt64 <= v <= MaxInt64 then Some(v) else None
    else if |s| == 0 || !AllDigits(s) then None
    else if DigitsValue(s) <= MaxInt64 then Some(DigitsValue(s) as int)
    else None
  }

  /** strconv.ParseUint(s, 10, 32): digits only, no sign, at most 2^32 - 1. */
  function ParseUint32(s: string): (r: Option<nat>)
    ensures r.Some? <==> |s| > 0 && AllDigits(s) && DigitsValue(s) <= MaxUint32
    ensures r.Some? ==> r.value == DigitsValue(s)
  {
    if |s| > 0 && AllDigits(s) && DigitsValue(s) <= MaxUint32 then Some(DigitsValue(s)) else None
  }

  /** strconv.ParseBool: the six spellings of each truth value, nothing else. */
  function ParseBool(s: string): (r: Option<bool>)
    ensures r == Some(true) <==> s in {"1", "t", "T", "TRUE", "true", "True"}
    ensures r == Some(false) <==> s in {"0", "f", "F", "FALSE", "false", "False"}
  {
    if s in {"1", "t", "T", "TRUE", "true", "True"} then Some(true)
    else if s in {"0", "f", "F", "FALSE", "false", "False"} then Some(false)
    else None
  }

  // ---------------------------------------------------------------------
  // UUIDs (github.com/google/uuid: a 16-byte array)

  type Byte = b: int | 0 <= b < 256

  type Uuid = s: seq<Byte> | |s| == 16 witness seq(16, _ => 0)

  /** uuid.Nil, the zero value of a UUID field. */
  const NilUuid: Uuid := seq(16, _ => 0)

  function HexDigit(d: nat): char
    requires d < 16
  {
    if d < 10 then ('0' as int + d) as char else ('a' as int + d - 10) as char
  }

  function HexByte(b: Byte): string {
    [HexDigit(b / 16), HexDigit(b % 16)]
  }

  function HexBytes(bs: seq<Byte>): (r: string)
    ensures |r| == 2 * |bs|
  {
    if |bs| == 0 then [] else HexByte(bs[0]) + HexBytes(bs[1..])
  }

  /** uuid.UUID.String(): the canonical 8-4-4-4-12 lower-case hex form (what %s prints). */
  function UuidString(id: Uuid): (r: string)
    ensures |r| == 36
    ensures r[8] == '-' && r[13] == '-' && r[18] == '-' && r[23] == '-'
  {
    HexBytes(id[..4]) + "-" + HexBytes(id[4..6]) + "-" + HexBytes(id[6..8]) + "-"
    + HexBytes(id[8..10]) + "-" + HexBytes(id[10..])
  }

  /** What fmt's %d verb prints for a byte array: "[b0 b1 ... b15]" in decimal. */
  function DecimalByteList(bs: seq<Byte>): string {
    "[" + SpacedDecimals(bs) + "]"
  }

  function SpacedDecimals(bs: seq<Byte>): string {
    if |bs| == 0 then ""
    else if |bs| == 1 then NatToString(bs[0])
    else NatToString(bs[0]) + " " + SpacedDecimals(bs[1..])
  }
}
