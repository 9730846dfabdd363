/** Small text functions of the Go library, on strings of Unicode scalar values. */
module Text {
  datatype Option<+T> = None | Some(value: T)

  /** unicode.IsSpace */
  predicate IsSpace(c: char) {
    c == ' ' || '\t' <= c <= '\r' || c == '\U{85}' || c == '\U{A0}' || c == '\U{1680}'
    || '\U{2000}' <= c <= '\U{200A}' || c == '\U{2028}' || c == '\U{2029}'
    || c == '\U{202F}' || c == '\U{205F}' || c == '\U{3000}'
  }

  function TrimLeft(s: string): string {
    if s != "" && IsSpace(s[0]) then TrimLeft(s[1..]) else s
  }

  function TrimRight(s: string): string {
    if s != "" && IsSpace(s[|s| - 1]) then TrimRight(s[..|s| - 1]) else s
  }

  /** strings.TrimSpace */
  function TrimSpace(s: string): string {
    TrimRight(TrimLeft(s))
  }

  predicate Trimmed(s: string) {
    s != "" ==> !IsSpace(s[0]) && !IsSpace(s[|s| - 1])
  }

  lemma {:induction false} TrimRightKeepsHead(s: string)
    ensures TrimRight(s) <= s
    ensures TrimRight(s) != "" ==> !IsSpace(TrimRight(s)[|TrimRight(s)| - 1])
  {
    if s != "" && IsSpace(s[|s| - 1]) {
      TrimRightKeepsHead(s[..|s| - 1]);
    }
  }

  lemma {:induction false} TrimLeftDropsSpaces(s: string)
    ensures TrimLeft(s) != "" ==> !IsSpace(TrimLeft(s)[0])
    ensures |TrimLeft(s)| <= |s| && TrimLeft(s) == s[|s| - |TrimLeft(s)|..]
  {
    if s != "" && IsSpace(s[0]) {
      TrimLeftDropsSpaces(s[1..]);
    }
  }

  /** What TrimSpace returns has no space at either end, and it changes nothing else. */
  lemma TrimSpaceTrims(s: string)
    ensures Trimmed(TrimSpace(s))
    ensures TrimSpace(s) == s <==> Trimmed(s)
    ensures |TrimSpace(s)| <= |s|
  {
    TrimLeftDropsSpaces(s);
    TrimRightKeepsHead(TrimLeft(s));
  }

  /** Whatever spaces stand around a text, TrimSpace takes off those and no more. */
  lemma {:induction false} SpacesAreTrimmed(lead: string, s: string, tail: string)
    requires s != "" && Trimmed(s) && (forall c | c in lead :: IsSpace(c)) && (forall c | c in tail :: IsSpace(c))
    ensures TrimSpace(lead + s + tail) == s
    decreases |lead| + |tail|
  {
    var whole := lead + s + tail;
    if lead != "" {
      assert whole[1..] == lead[1..] + s + tail && whole[0] == lead[0];
      SpacesAreTrimmed(lead[1..], s, tail);
    } else {
      assert whole == s + tail;
      assert TrimLeft(s + tail) == s + tail;
      TailIsTrimmed(s, tail);
    }
  }

  lemma {:induction false} TailIsTrimmed(s: string, tail: string)
    requires s != "" && Trimmed(s) && forall c | c in tail :: IsSpace(c)
    ensures TrimRight(s + tail) == s
  {
    if tail == "" {
      assert s + tail == s;
    } else {
      assert (s + tail)[..|s + tail| - 1] == s + tail[..|tail| - 1];
      TailIsTrimmed(s, tail[..|tail| - 1]);
    }
  }

  /** unicode.ToLower, as far as its result is an ASCII letter; other letters are left as they are. */
  function LowerChar(c: char): char {
    if 'A' <= c <= 'Z' then (c as int + 32) as char
    else if c == '\U{130}' then 'i'
    else if c == '\U{212A}' then 'k'
    else c
  }

  /** strings.ToLower */
  function Lower(s: string): string {
    seq(|s|, i requires 0 <= i < |s| => LowerChar(s[i]))
  }

  predicate IsDigit(c: char) {
    '0' <= c <= '9'
  }

  /** The decimal digits of n, as strconv prints them. */
  function Decimal(n: nat): string {
    if n < 10 then [Digit(n)] else Decimal(n / 10) + [Digit(n % 10)]
  }

  function Digit(n: nat): char
    requires n < 10
  {
    ('0' as int + n) as char
  }

  function Digits(s: string): Option<nat> {
    if s == "" then None
    else if !IsDigit(s[|s| - 1]) then None
    else
      var last := s[|s| - 1] as int - '0' as int;
      if |s| == 1 then Some(last)
      else match Digits(s[..|s| - 1])
        case None => None
        case Some(n) => Some(10 * n + last)
  }

  const MAX_INT64 := 0x7fff_ffff_ffff_ffff

  /** strconv.ParseInt(s, 10, 64) */
  function ParseInt64(s: string): Option<int> {
    if s != "" && (s[0] == '-' || s[0] == '+') then
      match Digits(s[1..])
      case None => None
      case Some(n) =>
        var magnitude: int := n;
        var signed := if s[0] == '-' then -magnitude else magnitude;
        if -MAX_INT64 - 1 <= signed <= MAX_INT64 then Some(signed) else None
    else
      match Digits(s)
      case None => None
      case Some(n) => if n <= MAX_INT64 then Some(n) else None
  }

  lemma {:induction false} DigitsReadDecimal(n: nat)
    ensures Digits(Decimal(n)) == Some(n)
    ensures Decimal(n) != "" && forall c | c in Decimal(n) :: IsDigit(c)
  {
    if n >= 10 {
      DigitsReadDecimal(n / 10);
      var front := Decimal(n / 10);
      assert Decimal(n)[..|Decimal(n)| - 1] == front;
    }
  }

  lemma DecimalIsTrimmed(n: nat)
    ensures Trimmed(Decimal(n)) && TrimSpace(Decimal(n)) == Decimal(n) && Digits(Decimal(n)) == Some(n)
  {
    DigitsReadDecimal(n);
    hide Decimal, Digits, TrimSpace;
    var d := Decimal(n);
    assert d[0] in d && d[|d| - 1] in d;
    TrimSpaceTrims(d);
  }

  lemma ParseReadsDecimal(n: nat)
    requires n <= MAX_INT64
    ensures ParseInt64(Decimal(n)) == Some(n)
  {
    DigitsReadDecimal(n);
    hide Decimal, Digits;
    assert Decimal(n)[0] in Decimal(n);
  }
}
