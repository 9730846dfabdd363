/**
 UTF-8 byte strings as in section 4 of RFC 3629, trimming them, and the truncation of access-log fields
 (httpgateway/log.go).
 */
module Utf8 {
  type Byte = b: int | 0 <= b < 256
  type Bytes = seq<Byte>

  /** utf8.RuneStart */
  predicate RuneStart(b: Byte) { !(0x80 <= b < 0xC0) }

  predicate Tail(s: Bytes, i: nat) { i < |s| && 0x80 <= s[i] < 0xC0 }

  /** How many bytes encode the code point at the head of s; 0 when none does. */
  function RuneWidth(s: Bytes): (w: nat)
    ensures w <= 4 && w <= |s|
  {
    if s == [] then 0
    else if s[0] < 0x80 then 1
    else if 0xC2 <= s[0] <= 0xDF && Tail(s, 1) then 2
    else if 0xE0 <= s[0] <= 0xEF && Tail(s, 1) && Tail(s, 2)
      && (s[0] == 0xE0 ==> 0xA0 <= s[1]) && (s[0] == 0xED ==> s[1] <= 0x9F) then 3
    else if 0xF0 <= s[0] <= 0xF4 && Tail(s, 1) && Tail(s, 2) && Tail(s, 3)
      && (s[0] == 0xF0 ==> 0x90 <= s[1]) && (s[0] == 0xF4 ==> s[1] <= 0x8F) then 4
    else 0
  }

  predicate WellFormed(s: Bytes) {
    s == [] || (RuneWidth(s) > 0 && WellFormed(s[RuneWidth(s)..]))
  }

  /** Position i is between two code points of s, or at an end. */
  predicate Boundary(s: Bytes, i: nat)
    decreases |s|
  {
    i == 0 || (0 < RuneWidth(s) <= i && Boundary(s[RuneWidth(s)..], i - RuneWidth(s)))
  }

  /** The boundaries of a well-formed string are its end and the positions of leading bytes. */
  lemma {:induction false} BoundariesAreRuneStarts(s: Bytes, i: nat)
    requires WellFormed(s) && i <= |s|
    ensures Boundary(s, i) <==> i == |s| || RuneStart(s[i])
    decreases |s|
  {
    var w := RuneWidth(s);
    if 0 < w <= i {
      BoundariesAreRuneStarts(s[w..], i - w);
      assert i < |s| ==> s[w..][i - w] == s[i];
    } else if 0 < i < w {
      assert Tail(s, i);
    }
  }

  /** A prefix of a well-formed string is well formed exactly when it ends on a boundary. */
  lemma {:induction false} WellFormedPrefixes(s: Bytes, i: nat)
    requires WellFormed(s) && i <= |s|
    ensures WellFormed(s[..i]) <==> Boundary(s, i)
    decreases |s|
  {
    var w := RuneWidth(s);
    if 0 < w <= i {
      assert RuneWidth(s[..i]) == w && s[..i][w..] == s[w..][..i - w];
      WellFormedPrefixes(s[w..], i - w);
    } else if 0 < i < w {
      assert RuneWidth(s[..i]) == 0;
    }
  }

  /** truncateUTF8: back from the limit to a byte that starts a code point. */
  function CutAt(value: Bytes, limit: nat): (cut: nat)
    requires limit < |value|
    ensures cut <= limit && (cut == 0 || RuneStart(value[cut]))
    ensures forall k | cut < k <= limit :: !RuneStart(value[k])
  {
    if limit == 0 || RuneStart(value[limit]) then limit else CutAt(value, limit - 1)
  }

  function Truncated(value: Bytes, maxBytes: int): Bytes {
    if maxBytes <= 0 || |value| <= maxBytes then value else value[..CutAt(value, maxBytes)]
  }

  method TruncateUTF8(value: Bytes, maxBytes: int) returns (r: Bytes)
    ensures r == Truncated(value, maxBytes)
  {
    if maxBytes <= 0 || |value| <= maxBytes {
      return value;
    }
    var cut := maxBytes;
    while cut > 0 && cut < |value| && !RuneStart(value[cut])
      invariant 0 <= cut <= maxBytes
      invariant CutAt(value, cut) == CutAt(value, maxBytes)
    {
      cut := cut - 1;
    }
    return value[..cut];
  }

  /** A code point has at most four bytes. */
  lemma {:induction false} BoundaryIsNear(s: Bytes, limit: nat) returns (b: nat)
    requires WellFormed(s) && limit <= |s|
    ensures b <= limit <= b + 3 && Boundary(s, b)
    decreases |s|
  {
    var w := RuneWidth(s);
    if 0 < w <= limit {
      b := BoundaryIsNear(s[w..], limit - w);
      b := b + w;
    } else {
      b := 0;
    }
  }

  /** On a well-formed string and a positive limit the result is the longest well-formed prefix of at most
      that many bytes, and at most three bytes short of the limit if anything is cut. */
  lemma TruncationIsLongestPrefix(value: Bytes, maxBytes: int)
    requires WellFormed(value) && maxBytes > 0
    ensures var r := Truncated(value, maxBytes);
            && r <= value && |r| <= maxBytes && WellFormed(r)
            && (forall n | |r| < n <= |value| && n <= maxBytes :: !WellFormed(value[..n]))
            && (r != value ==> |r| >= maxBytes - 3)
  {
    var r := Truncated(value, maxBytes);
    if |value| > maxBytes {
      BoundariesAreRuneStarts(value, |r|);
      WellFormedPrefixes(value, |r|);
      var near := BoundaryIsNear(value, maxBytes);
      BoundariesAreRuneStarts(value, near);
      forall n | |r| < n <= maxBytes ensures !WellFormed(value[..n]) {
        BoundariesAreRuneStarts(value, n);
        WellFormedPrefixes(value, n);
      }
    }
  }

  /** On any byte string that is cut: the result is at most three bytes short exactly when a byte in those
      last places, or the limit itself, can start a code point. */
  lemma CutIsNearIff(value: Bytes, maxBytes: int)
    requires 0 < maxBytes < |value|
    ensures |Truncated(value, maxBytes)| >= maxBytes - 3
            <==> maxBytes <= 3 || exists k | maxBytes - 3 <= k <= maxBytes :: RuneStart(value[k])
  {
    var cut := CutAt(value, maxBytes);
    assert cut == 0 || RuneStart(value[cut]);
  }

  /** Where none can, the limit is missed: continuation bytes alone are all cut. */
  lemma {:induction false} ContinuationBytesAreCut(n: nat, maxBytes: int)
    requires 0 < maxBytes < n
    ensures Truncated(seq(n, _ => 0x80), maxBytes) == []
  {
  }

  // ---------------------------------------------------------------- strings.TrimSpace

  const SPACE: Byte := 0x20

  predicate WideSpace(a: Byte, b: Byte, c: Byte) {
    || (a == 0xE1 && b == 0x9A && c == 0x80)
    || (a == 0xE2 && b == 0x80 && (0x80 <= c <= 0x8A || c == 0xA8 || c == 0xA9 || c == 0xAF))
    || (a == 0xE2 && b == 0x81 && c == 0x9F)
    || (a == 0xE3 && b == 0x80 && c == 0x80)
  }

  predicate NarrowSpace(b: Byte) { 0x09 <= b <= 0x0D || b == SPACE }

  predicate MiddleSpace(a: Byte, b: Byte) { a == 0xC2 && (b == 0x85 || b == 0xA0) }

  /** How many bytes encode the white space at the head of s; 0 for none. */
  function SpaceHead(s: Bytes): (w: nat)
    ensures w <= |s|
  {
    if |s| >= 1 && NarrowSpace(s[0]) then 1
    else if |s| >= 2 && MiddleSpace(s[0], s[1]) then 2
    else if |s| >= 3 && WideSpace(s[0], s[1], s[2]) then 3
    else 0
  }

  function SpaceTail(s: Bytes): (w: nat)
    ensures w <= |s|
  {
    var n := |s|;
    if n >= 1 && NarrowSpace(s[n - 1]) then 1
    else if n >= 2 && MiddleSpace(s[n - 2], s[n - 1]) then 2
    else if n >= 3 && WideSpace(s[n - 3], s[n - 2], s[n - 1]) then 3
    else 0
  }

  function TrimLeft(s: Bytes): Bytes {
    if SpaceHead(s) == 0 then s else TrimLeft(s[SpaceHead(s)..])
  }

  function TrimRight(s: Bytes): Bytes {
    if SpaceTail(s) == 0 then s else TrimRight(s[..|s| - SpaceTail(s)])
  }

  function TrimSpace(s: Bytes): Bytes {
    TrimRight(TrimLeft(s))
  }

  predicate Trimmed(s: Bytes) {
    SpaceHead(s) == 0 && SpaceTail(s) == 0
  }

  lemma {:induction false} TrimLeftCuts(s: Bytes) returns (from: nat)
    ensures from <= |s| && TrimLeft(s) == s[from..] && SpaceHead(TrimLeft(s)) == 0
  {
    if SpaceHead(s) == 0 {
      from := 0;
    } else {
      var more := TrimLeftCuts(s[SpaceHead(s)..]);
      from := SpaceHead(s) + more;
    }
  }

  lemma {:induction false} TrimRightCuts(s: Bytes) returns (to: nat)
    ensures to <= |s| && TrimRight(s) == s[..to] && SpaceTail(TrimRight(s)) == 0
  {
    if SpaceTail(s) == 0 {
      to := |s|;
    } else {
      to := TrimRightCuts(s[..|s| - SpaceTail(s)]);
    }
  }

  /** What TrimSpace leaves is a stretch of the input without white space at its ends. */
  lemma TrimSpaceCuts(s: Bytes) returns (from: nat, to: nat)
    ensures from <= to <= |s| && TrimSpace(s) == s[from..to] && Trimmed(TrimSpace(s))
  {
    from := TrimLeftCuts(s);
    var n := TrimRightCuts(TrimLeft(s));
    to := from + n;
    assert TrimLeft(s)[..n] == s[from..to];
    assert SpaceHead(TrimLeft(s)[..n]) == 0;
  }
}
