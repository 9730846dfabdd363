/** The two functions that both call themselves normalizeHost. */
module Hosts {
  import opened Text

  function IndexOf(s: string, c: char): (r: Option<nat>)
    ensures r.Some? ==> r.value < |s| && s[r.value] == c && c !in s[..r.value]
    ensures r.None? ==> c !in s
  {
    if s == "" then None
    else if s[0] == c then Some(0)
    else match IndexOf(s[1..], c)
      case None => None
      case Some(i) => assert s[..i + 1] == [s[0]] + s[1..][..i]; Some(i + 1)
  }

  function LastIndexOf(s: string, c: char): (r: Option<nat>)
    ensures r.Some? ==> r.value < |s| && s[r.value] == c && c !in s[r.value + 1..]
    ensures r.None? ==> c !in s
  {
    if s == "" then None
    else if s[|s| - 1] == c then Some(|s| - 1)
    else match LastIndexOf(s[..|s| - 1], c)
      case None => None
      case Some(i) => assert s[i + 1..] == s[..|s| - 1][i + 1..] + [s[|s| - 1]]; Some(i)
  }

  /** The host that net.SplitHostPort returns, if it returns one. */
  function SplitHost(s: string): Option<string> {
    match LastIndexOf(s, ':')
    case None => None
    case Some(i) =>
      if s[0] == '[' then
        match IndexOf(s, ']')
        case None => None
        case Some(end) =>
          if end + 1 == i && '[' !in s[1..] && ']' !in s[end + 1..] then Some(s[1..end]) else None
      else if ':' in s[..i] || '[' in s || ']' in s then None
      else Some(s[..i])
  }

  predicate IsBracket(c: char) {
    c == '[' || c == ']'
  }

  function TrimBracketsLeft(s: string): string {
    if s != "" && IsBracket(s[0]) then TrimBracketsLeft(s[1..]) else s
  }

  function TrimBracketsRight(s: string): string {
    if s != "" && IsBracket(s[|s| - 1]) then TrimBracketsRight(s[..|s| - 1]) else s
  }

  /** httpgateway: how a request's host is looked up. */
  function GatewayHost(host: string): string {
    var h := TrimSpace(Lower(host));
    match SplitHost(h)
    case Some(name) => name
    case None => TrimBracketsRight(TrimBracketsLeft(h))
  }

  /** services: how a mapping's public host is stored. */
  function StoredHost(host: string): string {
    var h := TrimSpace(Lower(host));
    match IndexOf(h, ':')
    case Some(i) => h[..i]
    case None => h
  }

  predicate Bracketed(s: string) {
    s != "" && (IsBracket(s[0]) || IsBracket(s[|s| - 1]))
  }

  lemma {:induction false} TrimBracketsRightShortens(s: string)
    ensures TrimBracketsRight(s) <= s
  {
    if s != "" && IsBracket(s[|s| - 1]) {
      TrimBracketsRightShortens(s[..|s| - 1]);
    }
  }

  lemma {:induction false} TrimBracketsLeftShortens(s: string)
    ensures |TrimBracketsLeft(s)| <= |s|
  {
    if s != "" && IsBracket(s[0]) {
      TrimBracketsLeftShortens(s[1..]);
    }
  }

  lemma LowerFacts(s: string)
    ensures Lower(Lower(s)) == Lower(s)
  {
  }

  lemma {:induction false} TrimLeftOfLower(s: string)
    requires Lower(s) == s
    ensures Lower(TrimLeft(s)) == TrimLeft(s)
  {
    TrimLeftDropsSpaces(s);
    var t := TrimLeft(s);
    forall i | 0 <= i < |t| ensures LowerChar(t[i]) == t[i] {
      assert t[i] == s[|s| - |t| + i];
      assert Lower(s)[|s| - |t| + i] == LowerChar(s[|s| - |t| + i]);
    }
  }

  lemma PrefixOfLower(s: string, p: string)
    requires Lower(s) == s && p <= s
    ensures Lower(p) == p
  {
  }

  lemma StoredHostIsLower(host: string)
    ensures Lower(StoredHost(host)) == StoredHost(host) && ':' !in StoredHost(host)
  {
    var low := Lower(host);
    LowerFacts(host);
    TrimLeftOfLower(low);
    TrimRightKeepsHead(TrimLeft(low));
    PrefixOfLower(TrimLeft(low), TrimSpace(low));
    PrefixOfLower(TrimSpace(low), StoredHost(host));
  }

  /** A stored host is found under its own name exactly if it has no space left at its end and no bracket at
      either end. Both can be seen on the host to be stored. */
  lemma StoredHostIsFixedPointIff(host: string)
    ensures var h := StoredHost(host);
            GatewayHost(h) == h <==> Trimmed(h) && !Bracketed(h)
  {
    hide TrimSpace, TrimBracketsLeft, TrimBracketsRight, Bracketed;
    var h := StoredHost(host);
    StoredHostIsLower(host);
    TrimSpaceTrims(h);
    TrimSpaceIsPart(h);
    hide StoredHost, Trimmed;
    var t := TrimSpace(h);
    assert GatewayHost(h) == TrimBracketsRight(TrimBracketsLeft(t));
    BracketsStayIff(t);
    TrimBracketsLeftShortens(t);
    TrimBracketsRightShortens(TrimBracketsLeft(t));
  }

  lemma TrimSpaceIsPart(s: string)
    ensures forall c | c in TrimSpace(s) :: c in s
    ensures |TrimSpace(s)| == |s| ==> TrimSpace(s) == s
  {
    hide TrimLeft, TrimRight;
    TrimLeftDropsSpaces(s);
    TrimRightKeepsHead(TrimLeft(s));
  }

  lemma BracketsStayIff(t: string)
    ensures TrimBracketsRight(TrimBracketsLeft(t)) == t <==> !Bracketed(t)
  {
    TrimBracketsLeftShortens(t);
    TrimBracketsRightShortens(TrimBracketsLeft(t));
    if Bracketed(t) {
      if IsBracket(t[0]) {
        TrimBracketsLeftShortens(t[1..]);
      } else {
        TrimBracketsRightShortens(t[..|t| - 1]);
      }
    }
  }

  /** Neither condition always holds: a blank before the port stays, and brackets stay. */
  lemma StoredHostNeedNotBeFixed()
    ensures StoredHost("a :80") == "a " && GatewayHost("a ") == "a"
    ensures StoredHost("[") == "[" && GatewayHost("[") == ""
  {
    assert Lower("a :80") == "a :80" && Lower("a ") == "a " && Lower("[") == "[";
    assert TrimSpace("a :80") == "a :80" && TrimSpace("[") == "[";
    assert TrimLeft("a ") == "a ";
    assert TrimRight("a ") == TrimRight("a") == "a" by {
      assert "a "[..1] == "a";
    }
    assert "a :80"[..2] == "a ";
    assert IndexOf("a :80", ':') == Some(2) by {
      assert "a :80"[2] == ':' && "a :80"[0] != ':' && "a :80"[1] != ':';
    }
    assert TrimBracketsRight(TrimBracketsLeft("a")) == "a";
    assert TrimBracketsLeft("[") == "";
  }

  // ---------------------------------------------------------------- hosts as they are written

  /** A letter that is not changed to lower case, and no part of the punctuation of a host and port. */
  predicate NameChar(c: char) {
    !('A' <= c <= 'Z') && c != '\U{130}' && c != '\U{212A}' && !IsBracket(c)
  }

  /** An address such as IPv6's may have colons; a name has none. */
  predicate IsAddress(name: string) {
    name != "" && Trimmed(name) && forall c | c in name :: NameChar(c)
  }

  predicate IsName(name: string) {
    IsAddress(name) && ':' !in name
  }

  predicate IsPort(port: string) {
    forall c | c in port :: IsDigit(c)
  }

  /** The ways to write a host: a name alone or before a port, an address in brackets alone or before a port. */
  predicate Writes(form: string, name: string, port: string) {
    IsPort(port) && IsAddress(name) &&
    ((IsName(name) && (form == name || form == name + ":" + port))
     || form == "[" + name + "]" || form == "[" + name + "]:" + port)
  }

  /** `raw` is `form` with any of its letters in upper case and any space around it. */
  predicate Styled(raw: string, lead: string, form: string, tail: string) {
    && |raw| == |lead| + |form| + |tail|
    && (forall i | 0 <= i < |lead| :: raw[i] == lead[i] && IsSpace(lead[i]))
    && (forall i | 0 <= i < |tail| :: raw[|lead| + |form| + i] == tail[i] && IsSpace(tail[i]))
    && (forall i | 0 <= i < |form| :: SameLetter(raw[|lead| + i], form[i]))
  }

  predicate SameLetter(c: char, lower: char) {
    c == lower || ('a' <= lower <= 'z' && c as int == lower as int - 32)
  }

  lemma {:induction false} LastIndexIs(s: string, c: char, rest: string)
    requires c !in rest
    ensures LastIndexOf(s + [c] + rest, c) == Some(|s|)
  {
    var whole := s + [c] + rest;
    if rest != "" {
      assert whole[..|whole| - 1] == s + [c] + rest[..|rest| - 1];
      LastIndexIs(s, c, rest[..|rest| - 1]);
    }
  }

  lemma {:induction false} FirstIndexIs(s: string, c: char, rest: string)
    requires c !in s
    ensures IndexOf(s + [c] + rest, c) == Some(|s|)
  {
    if s != "" {
      assert (s + [c] + rest)[1..] == s[1..] + [c] + rest;
      FirstIndexIs(s[1..], c, rest);
    }
  }

  lemma PortIsSplit(name: string, port: string)
    requires IsName(name) && IsPort(port)
    ensures SplitHost(name + ":" + port) == Some(name)
  {
    LastIndexIs(name, ':', port);
    var s := name + ":" + port;
    assert s[..|name|] == name;
    assert s[0] == name[0] && name[0] in name;
  }

  lemma BracketPositions(name: string, port: string)
    requires IsAddress(name) && IsPort(port)
    ensures var s := "[" + name + "]:" + port;
            LastIndexOf(s, ':') == Some(|name| + 2) && IndexOf(s, ']') == Some(|name| + 1)
  {
    hide LastIndexOf, IndexOf;
    var s := "[" + name + "]:" + port;
    var head, rest := "[" + name + "]", ":" + port;
    assert s == head + ":" + port;
    LastIndexIs(head, ':', port);
    assert s == ("[" + name) + "]" + rest;
    FirstIndexIs("[" + name, ']', rest);
  }

  lemma BracketsAreSplit(name: string, port: string)
    requires IsAddress(name) && IsPort(port)
    ensures SplitHost("[" + name + "]:" + port) == Some(name)
  {
    hide LastIndexOf, IndexOf;
    BracketPositions(name, port);
    var s := "[" + name + "]:" + port;
    var after, rest := name + "]:" + port, ":" + port;
    assert s[1..] == after && s[|name| + 2..] == rest && s[1..|name| + 1] == name;
    assert '[' !in after && ']' !in rest;
  }

  lemma BareIsNotSplit(name: string)
    requires IsAddress(name)
    ensures SplitHost("[" + name + "]").None? && TrimBracketsRight(TrimBracketsLeft("[" + name + "]")) == name
    ensures IsName(name) ==> SplitHost(name).None? && TrimBracketsRight(TrimBracketsLeft(name)) == name
  {
    var s := "[" + name + "]";
    assert s == ("[" + name) + "]" + "";
    FirstIndexIs("[" + name, ']', "");
    assert name[0] in name && name[|name| - 1] in name;
    assert s[1..] == name + "]" && (name + "]")[..|name|] == name;
    assert TrimBracketsLeft(name + "]") == name + "]";
    assert TrimBracketsRight(name) == name;
    assert TrimBracketsLeft(name) == name;
    if IsName(name) {
      assert LastIndexOf(name, ':').None?;
    }
  }

  lemma FormIsTrimmed(form: string, name: string, port: string)
    requires Writes(form, name, port)
    ensures form != "" && Trimmed(form) && forall c | c in form :: LowerChar(c) == c
  {
    assert port != "" ==> port[|port| - 1] in port;
  }

  lemma StyledForm(raw: string, lead: string, form: string, tail: string)
    requires Styled(raw, lead, form, tail) && form != "" && Trimmed(form)
    requires forall c | c in form :: LowerChar(c) == c
    ensures TrimSpace(Lower(raw)) == form
  {
    var low := Lower(raw);
    assert forall i | 0 <= i < |form| :: form[i] in form;
    assert low == lead + form + tail;
    SpacesAreTrimmed(lead, form, tail);
  }

  /** A request's Host header that is written for this name. */
  ghost predicate RequestFor(raw: string, name: string) {
    exists lead, form, tail, port :: Writes(form, name, port) && Styled(raw, lead, form, tail)
  }

  /** A public host that is entered for this name. */
  ghost predicate EntryFor(raw: string, name: string) {
    exists lead, form, tail, port ::
      Writes(form, name, port) && IsName(name) && form[0] != '[' && Styled(raw, lead, form, tail)
  }

  /** Whatever way a request's host is written, with or without a port, it is looked up under the bare name. */
  lemma GatewayFindsName(raw: string, name: string)
    requires RequestFor(raw, name)
    ensures GatewayHost(raw) == name
  {
    var lead, form, tail, port :| Writes(form, name, port) && Styled(raw, lead, form, tail);
    FormIsTrimmed(form, name, port);
    StyledForm(raw, lead, form, tail);
    hide SplitHost, TrimBracketsLeft, TrimBracketsRight, TrimSpace, Lower;
    BareIsNotSplit(name);
    BracketsAreSplit(name, port);
    if IsName(name) {
      PortIsSplit(name, port);
    }
  }

  /** And a mapping entered for a name, with or without a port, is stored under the bare name. */
  lemma StoredUnderName(raw: string, name: string)
    requires EntryFor(raw, name)
    ensures StoredHost(raw) == name
  {
    var lead, form, tail, port :|
      Writes(form, name, port) && IsName(name) && form[0] != '[' && Styled(raw, lead, form, tail);
    FormIsTrimmed(form, name, port);
    StyledForm(raw, lead, form, tail);
    if form != name {
      FirstIndexIs(name, ':', port);
      assert form == name + ":" + port && form[..|name|] == name;
    }
  }

  lemma NameIsItsHost(name: string)
    requires IsName(name)
    ensures RequestFor(name, name) && GatewayHost(name) == name
  {
    assert Writes(name, name, "") && Styled(name, "", name, "");
    GatewayFindsName(name, name);
  }
}
