/**
 The sanitiser of slow SQL statements and the ring that keeps the last ones (services/database_metrics.go).
 Statements are byte strings.
 */
module QueryPattern {
  import opened Utf8

  const MAX_PATTERN_BYTES := 512
  const MAX_RECENT := 32

  const QUESTION: Byte := 0x3F
  const DOT: Byte := 0x2E

  predicate IsQuote(b: Byte) { b == 0x27 || b == 0x22 }

  predicate IsDigit(b: Byte) { 0x30 <= b <= 0x39 }

  predicate IsNumeric(b: Byte) { IsDigit(b) || b in [DOT, 0x65, 0x45, 0x2B, 0x2D] }

  predicate IsBlank(b: Byte) { b == SPACE || b == 0x09 || b == 0x0D || b == 0x0A }

  // ---------------------------------------------------------------- the scan

  /** The statement after a literal whose opening quote has been read. */
  function AfterLiteral(rest: Bytes, quote: Byte): (r: Bytes)
    ensures |r| <= |rest| && (rest != [] ==> |r| < |rest|)
  {
    if rest == [] then []
    else if rest[0] != quote then AfterLiteral(rest[1..], quote)
    else if |rest| >= 2 && rest[1] == quote then AfterLiteral(rest[2..], quote)
    else rest[1..]
  }

  function AfterNumber(rest: Bytes): (r: Bytes)
    ensures |r| <= |rest|
  {
    if rest != [] && IsNumeric(rest[0]) then AfterNumber(rest[1..]) else rest
  }

  /** The statement after one round of the outer loop. */
  function Next(rest: Bytes): (r: Bytes)
    requires rest != []
    ensures |r| < |rest|
  {
    if IsQuote(rest[0]) then AfterLiteral(rest[1..], rest[0])
    else if IsDigit(rest[0]) then AfterNumber(rest[1..])
    else rest[1..]
  }

  function Spaced(out: Bytes, pending: bool): Bytes {
    if pending && out != [] then out + [SPACE] else out
  }

  function Scan(rest: Bytes, out: Bytes, pending: bool): Bytes
    decreases |rest|
  {
    if rest == [] then out
    else if IsQuote(rest[0]) || IsDigit(rest[0]) then Scan(Next(rest), Spaced(out, pending) + [QUESTION], false)
    else if IsBlank(rest[0]) then Scan(Next(rest), out, out != [])
    else
      var more := (if pending then out + [SPACE] else out) + [rest[0]];
      if |more| >= MAX_PATTERN_BYTES then more else Scan(Next(rest), more, false)
  }

  function Truncate(value: Bytes, limit: int): Bytes {
    if limit <= 0 || |value| <= limit then value
    else if limit <= 3 then value[..limit]
    else value[..limit - 3] + [DOT, DOT, DOT]
  }

  function Sanitised(query: Bytes): Bytes {
    Truncate(TrimSpace(Scan(TrimSpace(query), [], false)), MAX_PATTERN_BYTES)
  }

  // ---------------------------------------------------------------- what a pattern looks like

  predicate Plain(b: Byte) {
    !(0x30 <= b <= 0x39) && b !in [0x27, 0x22, 0x09, 0x0D, 0x0A]
  }

  /** No digit, no quote, no blank but single spaces. */
  predicate Tidy(s: Bytes) {
    && (forall i | 0 <= i < |s| :: Plain(s[i]))
    && (forall i | 0 < i < |s| :: s[i - 1] != SPACE || s[i] != SPACE)
  }

  predicate Settled(s: Bytes) {
    |s| <= 512 && Tidy(s) && Trimmed(s)
  }

  lemma {:induction false} ScanIsTidy(rest: Bytes, out: Bytes, pending: bool)
    requires Tidy(out) && (out != [] ==> out[|out| - 1] != SPACE) && (pending ==> out != [])
    ensures Tidy(Scan(rest, out, pending))
    decreases |rest|
  {
    if rest != [] {
      if IsQuote(rest[0]) || IsDigit(rest[0]) {
        ScanIsTidy(Next(rest), Spaced(out, pending) + [QUESTION], false);
      } else if IsBlank(rest[0]) {
        ScanIsTidy(Next(rest), out, out != []);
      } else {
        var more := (if pending then out + [SPACE] else out) + [rest[0]];
        if |more| < MAX_PATTERN_BYTES {
          ScanIsTidy(Next(rest), more, false);
        }
      }
    }
  }

  lemma TidyCut(s: Bytes, from: nat, to: nat)
    requires Tidy(s) && from <= to <= |s|
    ensures Tidy(s[from..to])
  {
  }

  lemma CutIsSettled(s: Bytes)
    requires Tidy(s) && Trimmed(s)
    ensures Settled(Truncate(s, MAX_PATTERN_BYTES))
  {
  }

  /** Every result has at most 512 bytes, no digit, no quote, no blank but single spaces, and no white space
      at its ends. */
  lemma SanitisedIsSettled(query: Bytes)
    ensures Settled(Sanitised(query))
  {
    var scanned := Scan(TrimSpace(query), [], false);
    ScanIsTidy(TrimSpace(query), [], false);
    var from, to := TrimSpaceCuts(scanned);
    TidyCut(scanned, from, to);
    CutIsSettled(TrimSpace(scanned));
  }

  lemma {:induction false} ScanCopies(s: Bytes, i: nat, out: Bytes, pending: bool)
    requires Settled(s) && i <= |s| && s[..i] == (if pending then out + [SPACE] else out) && (pending ==> out != [])
    ensures Scan(s[i..], out, pending) == s
    decreases |s| - i
  {
    if i == |s| {
      assert s[..i] == s;
    } else {
      assert s[i..][1..] == s[i + 1..] && s[..i + 1] == s[..i] + [s[i]];
      assert Plain(s[i]);
      assert i > 0 ==> s[..i][i - 1] == s[i - 1];
      if s[i] == SPACE {
        ScanCopies(s, i + 1, out, true);
      } else {
        assert (if pending then out + [SPACE] else out) + [s[i]] == s[..i + 1];
        if i + 1 < MAX_PATTERN_BYTES {
          ScanCopies(s, i + 1, s[..i + 1], false);
        } else {
          assert s[..i + 1] == s;
        }
      }
    }
  }

  /** The fixed points are exactly the settled strings, so every result is one. */
  lemma FixedExactlyWhenSettled(s: Bytes)
    ensures Sanitised(s) == s <==> Settled(s)
    ensures Sanitised(Sanitised(s)) == Sanitised(s)
  {
    SanitisedIsSettled(s);
    SettledIsFixed(Sanitised(s));
    if Settled(s) {
      SettledIsFixed(s);
    }
  }

  lemma SettledIsFixed(s: Bytes)
    requires Settled(s)
    ensures Sanitised(s) == s
  {
    assert s[0..] == s;
    ScanCopies(s, 0, [], false);
  }

  // ---------------------------------------------------------------- literal bodies do not matter

  /** In the body of a literal every quote of its kind stands twice. */
  predicate Doubled(body: Bytes, quote: Byte) {
    || body == []
    || (body[0] != quote && Doubled(body[1..], quote))
    || (|body| >= 2 && body[0] == quote == body[1] && Doubled(body[2..], quote))
  }

  /** The outer loop comes to position i. */
  predicate Visits(rest: Bytes, i: nat)
    decreases |rest|
  {
    i == 0 || (rest != [] && |rest| - |Next(rest)| <= i && Visits(Next(rest), i - (|rest| - |Next(rest)|)))
  }

  /** The rest of the statement after the body of a literal: its closing quote, and no other after it. */
  predicate Closes(tail: Bytes, quote: Byte) {
    tail == [] || tail[0] != quote
  }

  lemma {:induction false} LiteralEnds(body: Bytes, quote: Byte, tail: Bytes)
    requires Doubled(body, quote) && Closes(tail, quote)
    ensures AfterLiteral(body + [quote] + tail, quote) == tail
  {
    var rest := body + [quote] + tail;
    if body == [] {
      assert rest == [quote] + tail;
    } else if body[0] != quote {
      assert rest[1..] == body[1..] + [quote] + tail;
      LiteralEnds(body[1..], quote, tail);
    } else {
      assert rest[2..] == body[2..] + [quote] + tail;
      LiteralEnds(body[2..], quote, tail);
    }
  }

  /** Where a token of the head ends depends on the tail only through its first byte. */
  lemma {:induction false} LiteralIsLocal(head: Bytes, c: Byte, t: Bytes, u: Bytes) returns (k: nat)
    requires t != [] && u != [] && t[0] == u[0] && |AfterLiteral(head + t, c)| >= |t|
    ensures k <= |head| && AfterLiteral(head + t, c) == head[k..] + t && AfterLiteral(head + u, c) == head[k..] + u
    decreases |head|
  {
    var x, y := head + t, head + u;
    assert head == [] ==> x == t;
    assert x[1..] == head[1..] + t && y[1..] == head[1..] + u;
    if head[0] != c {
      k := LiteralIsLocal(head[1..], c, t, u);
      k := k + 1;
    } else if |head| >= 2 {
      assert x[2..] == head[2..] + t && y[2..] == head[2..] + u;
      if head[1] == c {
        k := LiteralIsLocal(head[2..], c, t, u);
        k := k + 2;
      } else {
        k := 1;
      }
    } else {
      assert x[2..] == t[1..];
      k := 1;
    }
  }

  lemma {:induction false} NumberIsLocal(head: Bytes, t: Bytes, u: Bytes) returns (k: nat)
    requires t != [] && u != [] && t[0] == u[0] && |AfterNumber(head + t)| >= |t|
    ensures k <= |head| && AfterNumber(head + t) == head[k..] + t && AfterNumber(head + u) == head[k..] + u
    decreases |head|
  {
    var x, y := head + t, head + u;
    if head == [] {
      assert x == t && y == u && head[0..] == [];
      k := 0;
    } else if IsNumeric(head[0]) {
      assert x[1..] == head[1..] + t && y[1..] == head[1..] + u;
      k := NumberIsLocal(head[1..], t, u);
      k := k + 1;
    } else {
      k := 0;
    }
  }

  lemma NextIsLocal(head: Bytes, t: Bytes, u: Bytes) returns (k: nat)
    requires head != [] && t != [] && u != [] && t[0] == u[0] && |Next(head + t)| >= |t|
    ensures 0 < k <= |head| && Next(head + t) == head[k..] + t && Next(head + u) == head[k..] + u
  {
    var x, y := head + t, head + u;
    assert x[1..] == head[1..] + t && y[1..] == head[1..] + u;
    if IsQuote(head[0]) {
      k := LiteralIsLocal(head[1..], head[0], t, u);
      k := k + 1;
    } else if IsDigit(head[0]) {
      k := NumberIsLocal(head[1..], t, u);
      k := k + 1;
    } else {
      k := 1;
    }
  }

  function Literal(body: Bytes, quote: Byte, tail: Bytes): Bytes {
    [quote] + (body + [quote] + tail)
  }

  lemma {:induction false} SameScan(head: Bytes, quote: Byte, a: Bytes, b: Bytes, tail: Bytes, out: Bytes,
                                    pending: bool)
    requires IsQuote(quote) && Doubled(a, quote) && Doubled(b, quote) && Closes(tail, quote)
    requires Visits(head + Literal(a, quote, tail), |head|)
    ensures Scan(head + Literal(a, quote, tail), out, pending) == Scan(head + Literal(b, quote, tail), out, pending)
    decreases |head|
  {
    var t, u := Literal(a, quote, tail), Literal(b, quote, tail);
    if head == [] {
      LiteralEnds(a, quote, tail);
      LiteralEnds(b, quote, tail);
      assert head + t == t && head + u == u;
      assert t[1..] == a + [quote] + tail && u[1..] == b + [quote] + tail;
    } else {
      var k := NextIsLocal(head, t, u);
      assert (head + t)[0] == head[0] == (head + u)[0];
      if IsQuote(head[0]) || IsDigit(head[0]) {
        SameScan(head[k..], quote, a, b, tail, Spaced(out, pending) + [QUESTION], false);
      } else if IsBlank(head[0]) {
        SameScan(head[k..], quote, a, b, tail, out, out != []);
      } else {
        SameScan(head[k..], quote, a, b, tail, (if pending then out + [SPACE] else out) + [head[0]], false);
      }
    }
  }

  lemma {:induction false} VisitsAfterPlain(rest: Bytes, i: nat, w: nat)
    requires w <= i && w <= |rest| && Visits(rest, i)
    requires forall k | 0 <= k < w :: !IsQuote(rest[k]) && !IsDigit(rest[k])
    ensures Visits(rest[w..], i - w)
  {
    if w == 0 {
      assert rest[0..] == rest;
    } else {
      assert rest[1..][w - 1..] == rest[w..];
      VisitsAfterPlain(rest[1..], i - 1, w - 1);
    }
  }

  /** Trimming the whole statement trims what is before and after a literal. */
  lemma {:induction false} TrimLeftOfLiteral(head: Bytes, t: Bytes)
    requires t != [] && IsQuote(t[0]) && Visits(head + t, |head|)
    ensures TrimLeft(head + t) == TrimLeft(head) + t && Visits(TrimLeft(head) + t, |TrimLeft(head)|)
    decreases |head|
  {
    var w := SpaceHead(head);
    assert SpaceHead(head + t) == w;
    if w > 0 {
      assert (head + t)[w..] == head[w..] + t;
      VisitsAfterPlain(head + t, |head|, w);
      TrimLeftOfLiteral(head[w..], t);
    }
  }

  lemma {:induction false} TrimRightOfLiteral(head: Bytes, quote: Byte, tail: Bytes)
    requires IsQuote(quote)
    ensures TrimRight(head + [quote] + tail) == head + [quote] + TrimRight(tail)
    decreases |tail|
  {
    var x := head + [quote] + tail;
    var w := SpaceTail(tail);
    assert SpaceTail(x) == w;
    if w > 0 {
      assert x[..|x| - w] == head + [quote] + tail[..|tail| - w];
      TrimRightOfLiteral(head, quote, tail[..|tail| - w]);
    }
  }

  lemma TrimAroundLiteral(head: Bytes, quote: Byte, body: Bytes, tail: Bytes)
    requires IsQuote(quote) && Visits(head + Literal(body, quote, tail), |head|)
    ensures TrimSpace(head + Literal(body, quote, tail)) == TrimLeft(head) + Literal(body, quote, TrimRight(tail))
    ensures Visits(TrimLeft(head) + Literal(body, quote, tail), |TrimLeft(head)|)
  {
    hide Visits, TrimLeft, TrimRight;
    var left := TrimLeft(head);
    TrimLeftOfLiteral(head, Literal(body, quote, tail));
    assert left + Literal(body, quote, tail) == (left + [quote] + body) + [quote] + tail;
    TrimRightOfLiteral(left + [quote] + body, quote, tail);
    assert left + Literal(body, quote, TrimRight(tail)) == (left + [quote] + body) + [quote] + TrimRight(tail);
  }

  /** Whether the loop comes to a literal does not depend on what is inside or after it. */
  lemma {:induction false} VisitsIsLocal(head: Bytes, t: Bytes, u: Bytes)
    requires t != [] && u != [] && t[0] == u[0] && Visits(head + t, |head|)
    ensures Visits(head + u, |head|)
    decreases |head|
  {
    if head != [] {
      var k := NextIsLocal(head, t, u);
      VisitsIsLocal(head[k..], t, u);
    }
  }

  /** The body of a terminated literal is forgotten: any other body gives the same pattern. */
  lemma LiteralBodyIsForgotten(head: Bytes, quote: Byte, a: Bytes, b: Bytes, tail: Bytes)
    requires IsQuote(quote) && Doubled(a, quote) && Doubled(b, quote) && Closes(tail, quote)
    requires Visits(head + Literal(a, quote, tail), |head|)
    ensures Sanitised(head + Literal(a, quote, tail)) == Sanitised(head + Literal(b, quote, tail))
  {
    VisitsIsLocal(head, Literal(a, quote, tail), Literal(b, quote, tail));
    TrimAroundLiteral(head, quote, a, tail);
    TrimAroundLiteral(head, quote, b, tail);
    var to := TrimRightCuts(tail);
    VisitsIsLocal(TrimLeft(head), Literal(a, quote, tail), Literal(a, quote, TrimRight(tail)));
    SameScan(TrimLeft(head), quote, a, b, TrimRight(tail), [], false);
  }

  // ---------------------------------------------------------------- what one token becomes

  predicate StartsNumeric(tail: Bytes) {
    tail != [] && IsNumeric(tail[0])
  }

  /** A digit, a point, e or E, a plus or a minus. */
  predicate OfNumber(b: Byte) {
    0x30 <= b <= 0x39 || b in [0x2E, 0x65, 0x45, 0x2B, 0x2D]
  }

  /** Before this tail, the token stands for one byte of the pattern: a literal or a number for a question
      mark, a run of blanks for a space. */
  predicate StandsFor(token: Bytes, mark: Byte, tail: Bytes) {
    token != [] &&
    if token[0] == 0x27 || token[0] == 0x22 then
      && mark == 0x3F && |token| >= 2 && token[|token| - 1] == token[0]
      && Doubled(token[1..|token| - 1], token[0]) && Closes(tail, token[0])
    else if 0x30 <= token[0] <= 0x39 then
      && mark == 0x3F && (tail != [] ==> !OfNumber(tail[0]))
      && forall i | 0 <= i < |token| :: OfNumber(token[i])
    else
      mark == 0x20 && forall i | 0 <= i < |token| :: token[i] in [0x20, 0x09, 0x0D, 0x0A]
  }

  lemma {:induction false} ScanReadsHead(s: Bytes, h: nat, rest: Bytes, i: nat, out: Bytes, pending: bool)
    returns (o: Bytes, b: bool)
    requires Tidy(s) && SpaceHead(s) == 0 && i <= h < |s| && h < MAX_PATTERN_BYTES
    requires s[..i] == (if pending then out + [SPACE] else out) && (pending ==> out != [])
    ensures s[..h] == (if b then o + [SPACE] else o) && (b ==> o != [])
    ensures Scan(s[i..h] + rest, out, pending) == Scan(rest, o, b)
    decreases h - i
  {
    if i == h {
      assert s[i..h] + rest == rest;
      o, b := out, pending;
    } else {
      var text := s[i..h] + rest;
      assert text[0] == s[i] && text[1..] == s[i + 1..h] + rest && s[..i + 1] == s[..i] + [s[i]];
      assert Plain(s[i]);
      assert i > 0 ==> s[..i][i - 1] == s[i - 1];
      if s[i] == SPACE {
        o, b := ScanReadsHead(s, h, rest, i + 1, out, true);
      } else {
        assert (if pending then out + [SPACE] else out) + [s[i]] == s[..i + 1];
        o, b := ScanReadsHead(s, h, rest, i + 1, s[..i + 1], false);
      }
    }
  }

  lemma {:induction false} NumberEnds(token: Bytes, tail: Bytes)
    requires !StartsNumeric(tail) && forall i | 0 <= i < |token| :: IsNumeric(token[i])
    ensures AfterNumber(token + tail) == tail
  {
    if token == [] {
      assert token + tail == tail;
    } else {
      assert (token + tail)[1..] == token[1..] + tail;
      NumberEnds(token[1..], tail);
    }
  }

  lemma {:induction false} BlanksEnd(token: Bytes, tail: Bytes, out: Bytes, pending: bool)
    requires token != [] && out != [] && forall i | 0 <= i < |token| :: IsBlank(token[i])
    ensures Scan(token + tail, out, pending) == Scan(tail, out, true)
    decreases |token|
  {
    var text := token + tail;
    assert text[0] == token[0] && text[1..] == token[1..] + tail;
    if |token| == 1 {
      assert text[1..] == tail;
    } else {
      BlanksEnd(token[1..], tail, out, true);
    }
  }

  lemma HeadStaysTrimmed(head: Bytes, c: Byte, d: Byte, rest: Bytes, other: Bytes)
    requires SpaceHead(head + [c] + rest) == 0 && d < 0x80 && (head == [] ==> !NarrowSpace(d))
    ensures SpaceHead(head + [d] + other) == 0
  {
  }

  lemma TailStaysTrimmed(tail: Bytes, c: Byte, d: Byte, rest: Bytes, other: Bytes)
    requires SpaceTail(rest + [c] + tail) == 0 && d < 0x80 && (tail == [] ==> !NarrowSpace(d))
    ensures SpaceTail(other + [d] + tail) == 0
  {
  }

  lemma TokenStaysTrimmed(head: Bytes, token: Bytes, mark: Byte, tail: Bytes)
    requires StandsFor(token, mark, tail) && Trimmed(head + [mark] + tail)
    ensures TrimSpace(head + token + tail) == head + token + tail
  {
    hide Doubled;
    var n := |token| - 1;
    var y := head + token + tail;
    assert (head + [mark] + tail)[|head|] == mark;
    assert token[0] < 0x80 && token[n] < 0x80;
    assert y == head + [token[0]] + (token[1..] + tail);
    HeadStaysTrimmed(head, mark, token[0], tail, token[1..] + tail);
    assert y == (head + token[..n]) + [token[n]] + tail;
    TailStaysTrimmed(tail, mark, token[n], head, head + token[..n]);
  }

  predicate At(s: Bytes, h: nat, out: Bytes, pending: bool) {
    h <= |s| && s[..h] == (if pending then out + [SPACE] else out) && (pending ==> out != [])
  }

  lemma MarkScans(s: Bytes, h: nat, token: Bytes, out: Bytes, pending: bool)
    requires Settled(s) && h < |s| && At(s, h, out, pending) && s[h] == QUESTION
    requires token != [] && (IsQuote(token[0]) || IsDigit(token[0]))
    requires Next(token + s[h + 1..]) == s[h + 1..]
    ensures Scan(token + s[h + 1..], out, pending) == s
  {
    hide Next;
    assert s[..h + 1] == s[..h] + [s[h]] == Spaced(out, pending) + [QUESTION];
    assert (token + s[h + 1..])[0] == token[0];
    ScanCopies(s, h + 1, s[..h + 1], false);
  }

  lemma SpaceIsAlone(s: Bytes, h: nat, out: Bytes, pending: bool)
    requires Settled(s) && h < |s| && At(s, h, out, pending) && s[h] == SPACE
    ensures !pending && out != [] && s[..h + 1] == out + [SPACE]
  {
    assert h > 0 ==> s[..h][h - 1] == s[h - 1];
  }

  lemma SpacesScan(s: Bytes, h: nat, token: Bytes, out: Bytes, pending: bool)
    requires Settled(s) && h < |s| && At(s, h, out, pending) && s[h] == SPACE
    requires token != [] && forall i | 0 <= i < |token| :: IsBlank(token[i])
    ensures Scan(token + s[h + 1..], out, pending) == s
  {
    hide Scan, Tidy;
    SpaceIsAlone(s, h, out, pending);
    BlanksEnd(token, s[h + 1..], out, pending);
    ScanCopies(s, h + 1, out, true);
  }

  lemma TokenScans(s: Bytes, h: nat, token: Bytes, out: Bytes, pending: bool)
    requires Settled(s) && h < |s| && StandsFor(token, s[h], s[h + 1..]) && At(s, h, out, pending)
    ensures Scan(token + s[h + 1..], out, pending) == s
  {
    hide Settled, Scan;
    var tail := s[h + 1..];
    var text := token + tail;
    assert text[0] == token[0] && text[1..] == token[1..] + tail;
    if IsQuote(token[0]) {
      var body := token[1..|token| - 1];
      assert text[1..] == body + [token[0]] + tail;
      LiteralEnds(body, token[0], tail);
      MarkScans(s, h, token, out, pending);
    } else if IsDigit(token[0]) {
      NumberEnds(token[1..], tail);
      MarkScans(s, h, token, out, pending);
    } else {
      SpacesScan(s, h, token, out, pending);
    }
  }

  /** A literal becomes exactly a question mark where it stands, so does a number, and a run of blanks becomes
      one space; the text around is kept. */
  lemma TokenBecomesMark(head: Bytes, token: Bytes, mark: Byte, tail: Bytes)
    requires StandsFor(token, mark, tail) && Settled(head + [mark] + tail)
    ensures Sanitised(head + token + tail) == head + [mark] + tail
  {
    hide StandsFor, Scan, Tidy;
    var s := head + [mark] + tail;
    var h := |head|;
    assert s[..h] == head && s[h] == mark && s[h + 1..] == tail && s[0..h] == head;
    TokenStaysTrimmed(head, token, mark, tail);
    assert head + token + tail == head + (token + tail);
    assert s[..0] == [];
    var out, pending := ScanReadsHead(s, h, token + tail, 0, [], false);
    TokenScans(s, h, token, out, pending);
    assert TrimSpace(s) == s;
  }

  lemma StopsWhenFull(s: Bytes, out: Bytes, pending: bool)
    requires |s| > 512 && At(s, 511, out, pending) && Plain(s[511]) && Plain(s[512])
    requires !(s[510] == SPACE && s[511] == SPACE) && !(s[511] == SPACE && s[512] == SPACE)
    ensures Scan(s[511..], out, pending) == if s[511] == 0x20 then s[..513] else s[..512]
  {
    var rest := s[511..];
    assert rest[0] == s[511] && rest[1..] == s[512..] && s[510] == s[..511][510];
    if s[511] == SPACE {
      assert !pending && out == s[..511];
      assert s[512..][0] == s[512];
      assert s[..513] == out + [SPACE] + [s[512]];
    } else {
      assert s[..512] == s[..511] + [s[511]];
    }
  }

  lemma ScanStops(s: Bytes)
    requires Tidy(s) && SpaceHead(s) == 0 && |s| > 512
    ensures Scan(s, [], false) == if s[511] == 0x20 then s[..513] else s[..512]
  {
    var rest := s[511..];
    assert s == s[0..511] + rest && s[..0] == [];
    var out, pending := ScanReadsHead(s, 511, rest, 0, [], false);
    hide Scan;
    StopsWhenFull(s, out, pending);
  }

  /** A longer statement in which there is nothing to replace is cut at 512 bytes; if that is after a space, the
      byte that follows makes it too long, and its end is replaced by three dots. */
  lemma LongStatementIsCut(s: Bytes)
    requires Tidy(s) && Trimmed(s) && |s| > 512
    ensures Sanitised(s) ==
            if s[511] != 0x20 then TrimSpace(s[..512])
            else
              var cut := TrimSpace(s[..513]);
              if |cut| <= 512 then cut else cut[..509] + [0x2E, 0x2E, 0x2E]
  {
    assert TrimSpace(s) == s;
    ScanStops(s);
    hide Scan, TrimSpace;
    var _, _ := TrimSpaceCuts(s[..512]);
  }

  // ---------------------------------------------------------------- the loops

  /** What is left of the statement at an index; the index ends one past the length after an open literal. */
  function From(query: Bytes, index: nat): Bytes {
    if index <= |query| then query[index..] else []
  }

  /** The inner loop over a literal; it leaves the index after the closing quote. */
  method SkipLiteral(query: Bytes, open: nat) returns (index: nat)
    requires open < |query|
    ensures index <= |query| + 1 && From(query, index) == AfterLiteral(query[open + 1..], query[open])
  {
    var quote := query[open];
    index := open + 1;
    while index < |query|
      invariant index <= |query|
      invariant AfterLiteral(query[index..], quote) == AfterLiteral(query[open + 1..], quote)
    {
      if query[index] != quote {
        index := index + 1;
        continue;
      }
      if index + 1 < |query| && query[index + 1] == quote {
        assert query[index..][2..] == query[index + 2..];
        index := index + 2;
        continue;
      }
      break;
    }
    index := index + 1;
  }

  /** The inner loop over a number; it leaves the index after it. */
  method SkipNumber(query: Bytes, start: nat) returns (index: nat)
    requires start < |query|
    ensures index <= |query| && From(query, index) == AfterNumber(query[start + 1..])
  {
    index := start;
    while index + 1 < |query| && IsNumeric(query[index + 1])
      invariant index < |query|
      invariant AfterNumber(query[index + 1..]) == AfterNumber(query[start + 1..])
    {
      index := index + 1;
    }
    index := index + 1;
  }

  method SanitizeDatabaseQueryPattern(raw: Bytes) returns (pattern: Bytes)
    ensures pattern == Sanitised(raw) && Settled(pattern)
  {
    SanitisedIsSettled(raw);
    var query := TrimSpace(raw);
    if query == [] {
      return [];
    }
    hide TrimSpace, Truncate, Settled, AfterLiteral, AfterNumber;
    var result: Bytes := [];
    var spacePending := false;
    var index := 0;
    while index < |query|
      invariant index <= |query| + 1
      invariant Scan(query, [], false) == Scan(From(query, index), result, spacePending)
    {
      var current := query[index];
      if IsQuote(current) {
        if spacePending && |result| > 0 {
          result := result + [SPACE];
        }
        spacePending := false;
        result := result + [QUESTION];
        index := SkipLiteral(query, index);
        continue;
      }
      if IsDigit(current) {
        if spacePending && |result| > 0 {
          result := result + [SPACE];
        }
        spacePending := false;
        result := result + [QUESTION];
        index := SkipNumber(query, index);
        continue;
      }
      if IsBlank(current) {
        spacePending := |result| > 0;
        index := index + 1;
        continue;
      }
      if spacePending {
        result := result + [SPACE];
        spacePending := false;
      }
      result := result + [current];
      if |result| >= MAX_PATTERN_BYTES {
        break;
      }
      index := index + 1;
    }
    assert result == Scan(query, [], false);
    pattern := Truncate(TrimSpace(result), MAX_PATTERN_BYTES);
  }

  // ---------------------------------------------------------------- the ring of recent slow statements

  function LastOf<T>(all: seq<T>, n: nat): seq<T> {
    if |all| <= n then all else all[|all| - n..]
  }

  lemma LastOfLast<T>(all: seq<T>, entry: T, n: nat)
    requires n > 0
    ensures LastOf(LastOf(all, n) + [entry], n) == LastOf(all + [entry], n)
  {
  }

  /** copy(a, a[1:]) */
  method CopyDown<T>(a: array<T>)
    requires a.Length > 0
    modifies a
    ensures a[..a.Length - 1] == old(a[1..]) && a[a.Length - 1] == old(a[a.Length - 1])
  {
    var i := 0;
    while i + 1 < a.Length
      invariant i < a.Length
      invariant forall k | 0 <= k < i :: a[k] == old(a[k + 1])
      invariant forall k | i <= k < a.Length :: a[k] == old(a[k])
    {
      a[i] := a[i + 1];
      i := i + 1;
    }
  }

  class RecentSlow<T(0)> {
    const entries: array<T>
    var count: nat
    /** Everything recorded. */
    ghost var all: seq<T>

    ghost predicate Valid()
      reads this, entries
    {
      entries.Length == MAX_RECENT && count <= MAX_RECENT && entries[..count] == LastOf(all, MAX_RECENT)
    }

    constructor ()
      ensures Valid() && all == [] && fresh(entries)
    {
      entries := new T[MAX_RECENT];
      count := 0;
      all := [];
    }

    method Record(entry: T)
      requires Valid()
      modifies this, entries
      ensures Valid() && all == old(all) + [entry]
    {
      LastOfLast(all, entry, MAX_RECENT);
      ghost var was := entries[..count];
      if count == MAX_RECENT {
        CopyDown(entries);
        entries[count - 1] := entry;
        assert entries[..count] == was[1..] + [entry];
      } else {
        entries[count] := entry;
        count := count + 1;
        assert entries[..count] == was + [entry];
      }
      all := all + [entry];
    }

    /** The newest first. */
    method Snapshot() returns (recent: seq<T>)
      requires Valid()
      ensures |recent| == if |all| < 32 then |all| else 32
      ensures forall i | 0 <= i < |recent| :: recent[i] == all[|all| - 1 - i]
    {
      recent := [];
      while |recent| < count
        invariant |recent| <= count
        invariant forall i | 0 <= i < |recent| :: recent[i] == entries[count - 1 - i]
      {
        recent := recent + [entries[count - 1 - |recent|]];
      }
      forall i | 0 <= i < |recent| ensures recent[i] == all[|all| - 1 - i] {
        assert recent[i] == entries[..count][count - 1 - i];
      }
    }
  }
}
