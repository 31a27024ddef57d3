/** Cutting captured output on a character boundary. Strings are the bytes of well-formed UTF-8, section 3 of RFC 3629. */
module Truncate {
  import opened Basics

  const MAX_OUTPUT_BYTES := 16 * 1024

  /** " (truncated)" */
  const TRUNCATED_NOTE: bytes := [0x20, 0x28, 0x74, 0x72, 0x75, 0x6E, 0x63, 0x61, 0x74, 0x65, 0x64, 0x29]

  /** A line feed, the ellipsis U+2026 and the note. */
  const MARKER: bytes := [0x0A, 0xE2, 0x80, 0xA6] + TRUNCATED_NOTE

  predicate Tail(b: byte) {
    0x80 <= b <= 0xBF
  }

  /** The length the first byte announces, or 0 if no character starts with it. */
  function Announced(b: byte): nat {
    if b <= 0x7F then 1
    else if 0xC2 <= b <= 0xDF then 2
    else if 0xE0 <= b <= 0xEF then 3
    else if 0xF0 <= b <= 0xF4 then 4
    else 0
  }

  /** Second bytes that would make an overlong form, a surrogate or a value over U+10FFFF are out. */
  predicate SecondByte(first: byte, second: byte) {
    && Tail(second)
    && (first == 0xE0 ==> second >= 0xA0) && (first == 0xED ==> second <= 0x9F)
    && (first == 0xF0 ==> second >= 0x90) && (first == 0xF4 ==> second <= 0x8F)
  }

  /** The length of the character `s` starts with, or 0 if it does not start with one. */
  function FirstChar(s: bytes): (n: nat)
    ensures n <= |s| && n <= 4
  {
    if s == [] then 0 else
    var n := Announced(s[0]);
    if n > |s| then 0
    else if n >= 2 && !SecondByte(s[0], s[1]) then 0
    else if n >= 3 && !Tail(s[2]) then 0
    else if n == 4 && !Tail(s[3]) then 0
    else n
  }

  predicate WellFormed(s: bytes)
    decreases |s|
  {
    s == [] || (FirstChar(s) > 0 && WellFormed(s[FirstChar(s)..]))
  }

  /** Rust's `is_char_boundary`: the ends, and every byte that does not continue a character. */
  predicate IsCharBoundary(s: bytes, i: nat) {
    i == 0 || i == |s| || (i < |s| && !Tail(s[i]))
  }

  /** Cutting inside a character leaves no character there. */
  lemma {:induction false} CutCharacter(s: bytes, i: nat)
    requires FirstChar(s) > 0 && 0 < i <= |s|
    ensures FirstChar(s[..i]) == if i < FirstChar(s) then 0 else FirstChar(s)
    ensures i < FirstChar(s) ==> Tail(s[i])
  {
  }

  lemma SliceOfPrefix(s: bytes, n: nat, i: nat)
    requires n <= i <= |s|
    ensures s[..i][n..] == s[n..][..i - n]
  {
  }

  /** In a well-formed string the boundaries are exactly the places where cutting leaves a well-formed prefix. */
  lemma {:induction false} BoundaryIff(s: bytes, i: nat)
    requires WellFormed(s) && i <= |s|
    ensures IsCharBoundary(s, i) <==> WellFormed(s[..i])
    decreases |s|
  {
    if i > 0 {
      var n := FirstChar(s);
      CutCharacter(s, i);
      if i >= n {
        SliceOfPrefix(s, n, i);
        BoundaryIff(s[n..], i - n);
        if i == n && i < |s| { assert FirstChar(s[n..]) > 0 && s[n..][0] == s[n]; }
      }
    }
  }

  lemma {:induction false} ConcatWellFormed(a: bytes, b: bytes)
    requires WellFormed(a) && WellFormed(b)
    ensures WellFormed(a + b)
    decreases |a|
  {
    if a == [] {
      assert a + b == b;
    } else {
      ConcatCharacter(a, b);
      ConcatWellFormed(a[FirstChar(a)..], b);
    }
  }

  lemma ConcatCharacter(a: bytes, b: bytes)
    requires FirstChar(a) > 0
    ensures FirstChar(a + b) == FirstChar(a) <= |a| && (a + b)[FirstChar(a)..] == a[FirstChar(a)..] + b
  {
    assert (a + b)[..|a|] == a;
    PrefixCharacter(a + b, |a|);
  }

  lemma PrefixCharacter(s: bytes, i: nat)
    requires i <= |s| && FirstChar(s[..i]) > 0
    ensures FirstChar(s) == FirstChar(s[..i])
  {
  }

  lemma MarkerWellFormed()
    ensures WellFormed(MARKER)
  {
    var head: bytes := [0x0A, 0xE2, 0x80, 0xA6];
    assert head[1..] == [0xE2, 0x80, 0xA6];
    assert WellFormed(head[1..]);
    AsciiWellFormed(TRUNCATED_NOTE);
    ConcatWellFormed(head, TRUNCATED_NOTE);
  }

  lemma {:induction false} AsciiWellFormed(s: bytes)
    requires forall i :: 0 <= i < |s| ==> s[i] <= 0x7F
    ensures WellFormed(s)
  {
    if s != [] { AsciiWellFormed(s[1..]); }
  }

  /** Any position is at most three bytes past a boundary. */
  lemma {:induction false} BoundaryNearby(s: bytes, i: nat) returns (k: nat)
    requires WellFormed(s) && i <= |s|
    ensures k <= i <= k + 3 && IsCharBoundary(s, k)
    decreases |s|
  {
    var n := FirstChar(s);
    if i == 0 || i < n {
      k := 0;
    } else {
      k := BoundaryNearby(s[n..], i - n);
      k := k + n;
      if k == n && k < |s| { assert FirstChar(s[n..]) > 0 && s[n..][0] == s[n]; }
    }
  }

  /** Where the loop stops when it starts at `end`. */
  function CutPoint(s: bytes, end: nat): nat {
    if end > 0 && !IsCharBoundary(s, end) then CutPoint(s, end - 1) else end
  }

  lemma {:induction false} CutPointIsLastBoundary(s: bytes, end: nat)
    ensures CutPoint(s, end) <= end && IsCharBoundary(s, CutPoint(s, end))
    ensures forall k :: CutPoint(s, end) < k <= end ==> !IsCharBoundary(s, k)
  {
    if end > 0 && !IsCharBoundary(s, end) { CutPointIsLastBoundary(s, end - 1); }
  }

  function Truncated(s: bytes): bytes {
    if |s| <= MAX_OUTPUT_BYTES then s
    else
      CutPointIsLastBoundary(s, MAX_OUTPUT_BYTES);
      s[..CutPoint(s, MAX_OUTPUT_BYTES)] + MARKER
  }

  /** The well-formed prefixes of `s` within the limit; the longest of them is what a reader wants to keep. */
  ghost predicate FittingPrefix(s: bytes, k: nat) {
    k <= |s| && k <= MAX_OUTPUT_BYTES && WellFormed(s[..k])
  }

  /**
   The result is the string itself, or its longest well-formed prefix of at most 16384 bytes and the 16-byte marker; the
   prefix gives up at most three bytes, and the result is well-formed.
   */
  lemma LongestPrefixKept(s: bytes)
    requires WellFormed(s)
    ensures WellFormed(Truncated(s)) && |Truncated(s)| <= MAX_OUTPUT_BYTES + 16
    ensures |s| <= MAX_OUTPUT_BYTES ==> Truncated(s) == s
    ensures |s| > MAX_OUTPUT_BYTES ==>
              exists k: nat :: k >= MAX_OUTPUT_BYTES - 3 && FittingPrefix(s, k) && Truncated(s) == s[..k] + MARKER
                          && forall j: nat :: FittingPrefix(s, j) ==> j <= k
  {
    if |s| > MAX_OUTPUT_BYTES {
      var k := CutPoint(s, MAX_OUTPUT_BYTES);
      CutPointIsLastBoundary(s, MAX_OUTPUT_BYTES);
      var near := BoundaryNearby(s, MAX_OUTPUT_BYTES);
      BoundaryIff(s, k);
      MarkerWellFormed();
      ConcatWellFormed(s[..k], MARKER);
      forall j: nat | FittingPrefix(s, j) ensures j <= k {
        BoundaryIff(s, j);
      }
      assert FittingPrefix(s, k);
    }
  }

  method Cut(s: bytes) returns (r: bytes)
    requires WellFormed(s)
    ensures r == Truncated(s)
  {
    r := s;
    if |r| > MAX_OUTPUT_BYTES {
      var end: nat := MAX_OUTPUT_BYTES;
      while end > 0 && !IsCharBoundary(r, end)
        invariant end <= MAX_OUTPUT_BYTES && CutPoint(s, end) == CutPoint(s, MAX_OUTPUT_BYTES)
      {
        end := end - 1;
      }
      r := r[..end];
      r := r + MARKER;
    }
  }
}
