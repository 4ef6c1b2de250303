// net/url for the links in use: "scheme://", an authority, a query and a fragment. Everything
// here is about the text after "scheme://".
module Url {
  import opened Wrappers
  import opened Text
  import opened Percent
  import opened Decimal
  import opened HostPort

  datatype Userinfo = NoUser | User(name: Bytes) | UserPassword(name: Bytes, password: Bytes)

  datatype Url = Url(user: Userinfo, host: Bytes, query: Bytes, fragment: Bytes)

  /** What netip.ParseAddr takes for an IPv6 address; such an address has a colon. */
  type AddressTest = Bytes -> bool

  ghost predicate Colons(isIPv6: AddressTest) {
    forall h | isIPv6(h) :: ':' in h
  }

  // Parsing

  predicate HasControl(s: Bytes) {
    exists i | 0 <= i < |s| :: s[i] < ' ' || s[i] == '\U{7f}'
  }

  predicate UserinfoChar(c: char) {
    AlphaNum(c) || c in "-._:~!$&'()*+,;=%@"
  }

  predicate ValidUserinfo(s: Bytes) {
    forall i | 0 <= i < |s| :: UserinfoChar(s[i])
  }

  predicate ValidOptionalPort(s: Bytes) {
    s == [] || (s[0] == ':' && AllDigits(s[1..]))
  }

  /** strings.Index of "%25". */
  function ZoneIndex(s: Bytes): (i: int)
    ensures -1 <= i <= |s|
  {
    if |s| < 3 then -1
    else if s[0] == '%' && s[1] == '2' && s[2] == '5' then 0
    else
      var i := ZoneIndex(s[1..]);
      if i < 0 then -1 else i + 1
  }

  function UnescapeBracketed(s: Bytes): Option<Bytes> {
    var zone := ZoneIndex(s);
    if zone < 0 then Unescape(Host, s)
    else
      var a, b := Unescape(Host, s[..zone]), Unescape(Zone, s[zone..]);
      if a.None? || b.None? then None else Some(a.value + b.value)
  }

  /** parseHost. A port has only digits, so unescaping leaves it alone. */
  function ParseHost(isIPv6: AddressTest, s: Bytes): Option<Bytes> {
    var open := LastIndexOf(s, '[');
    if open > 0 then None
    else if open == 0 then
      var close := LastIndexOf(s, ']');
      if close < 0 || !ValidOptionalPort(s[close + 1..]) then None
      else
        var host := UnescapeBracketed(s[1..close]);
        if host.None? || !isIPv6(host.value) then None else Some(['['] + host.value + [']'] + s[close + 1..])
    else
      var colon := LastIndexOf(s, ':');
      if colon >= 0 && !ValidOptionalPort(s[colon..]) then None else Unescape(Host, s)
  }

  function ParseUserinfo(s: Bytes): Option<Userinfo> {
    if !ValidUserinfo(s) then None
    else
      var halves := Cut<byte>(s, ':');
      var name := Unescape(Mode.UserPassword, halves.before);
      if name.None? then None
      else if !halves.found then Some(User(name.value))
      else
        var password := Unescape(Mode.UserPassword, halves.after);
        if password.None? then None else Some(Userinfo.UserPassword(name.value, password.value))
  }

  /** parseAuthority. */
  function ParseAuthority(isIPv6: AddressTest, s: Bytes): Option<(Userinfo, Bytes)> {
    var at := LastIndexOf(s, '@');
    var host := ParseHost(isIPv6, s[at + 1..]);
    if host.None? then None
    else if at < 0 then Some((NoUser, host.value))
    else
      var user := ParseUserinfo(s[..at]);
      if user.None? then None else Some((user.value, host.value))
  }

  /** A URL without its fragment. */
  function ParseResource(isIPv6: AddressTest, s: Bytes): Option<Url> {
    if HasControl(s) then None
    else
      var halves := Cut<byte>(s, '?');
      var slash := IndexOf(halves.before, '/');
      var end := if slash < 0 then |halves.before| else slash;
      var authority := ParseAuthority(isIPv6, halves.before[..end]);
      if authority.None? || Unescape(Path, halves.before[end..]).None? then None
      else Some(Url(authority.value.0, authority.value.1, halves.after, []))
  }

  /** url.Parse. */
  function Parse(isIPv6: AddressTest, s: Bytes): Option<Url> {
    var halves := Cut<byte>(s, '#');
    var resource, fragment := ParseResource(isIPv6, halves.before), Unescape(Mode.Fragment, halves.after);
    if resource.None? || fragment.None? then None else Some(resource.value.(fragment := fragment.value))
  }

  /** URL.Hostname and URL.Port. */
  function SplitPort(s: Bytes): Address {
    var colon := LastIndexOf(s, ':');
    var split := colon >= 0 && ValidOptionalPort(s[colon..]);
    var host, port := if split then s[..colon] else s, if split then s[colon + 1..] else [];
    if |host| >= 2 && host[0] == '[' && host[|host| - 1] == ']' then Address(host[1..|host| - 1], port)
    else Address(host, port)
  }

  // Printing

  function Authority(user: Bytes, host: Bytes): Bytes {
    Escape(Mode.UserPassword, user) + ['@'] + Escape(Host, host)
  }

  function Resource(user: Bytes, host: Bytes, query: Bytes): Bytes {
    if query == [] then Authority(user, host) else Authority(user, host) + ['?'] + query
  }

  /** URL.String for a URL with a user and no path. */
  function Print(user: Bytes, host: Bytes, query: Bytes, fragment: Bytes): Bytes {
    var resource := Resource(user, host, query);
    if fragment == [] then resource else resource + ['#'] + Escape(Mode.Fragment, fragment)
  }

  // Hosts

  /** A host as it can stand between brackets, with an optional zone. */
  predicate ZonedReadable(h: Bytes) {
    var i := IndexOf(h, '%');
    if i < 0 then AllReadable(h, Host) else AllReadable(h[..i], Host) && AllReadable(h[i..], Zone)
  }

  /** Hosts that come back from a printed URL. */
  predicate Survives(isIPv6: AddressTest, h: Bytes) {
    && h != []
    && '[' !in h
    && (if ':' in h then isIPv6(h) && ZonedReadable(h) else AllReadable(h, Host))
  }

  lemma {:induction false} EscapeKeeps(mode: Mode, s: Bytes)
    requires forall i | 0 <= i < |s| :: !ShouldEscape(s[i], mode) && s[i] != ' '
    ensures Escape(mode, s) == s
  {
    if s != [] {
      assert forall i | 0 <= i < |s[1..]| :: s[1..][i] == s[i + 1];
      EscapeKeeps(mode, s[1..]);
      assert s == [s[0]] + s[1..];
    }
  }

  /** A byte that is neither escaped nor part of an escape occurs in the escaped text iff in the text. */
  lemma {:induction false} EscapedHas(mode: Mode, s: Bytes, c: byte)
    requires !ShouldEscape(c, mode) && !AlphaNum(c) && !mode.QueryComponent?
    ensures c in Escape(mode, s) <==> c in s
  {
    if s != [] {
      EscapedHas(mode, s[1..], c);
      assert s == [s[0]] + s[1..];
      assert c in EscapeByte(mode, s[0]) <==> c == s[0];
    }
  }

  lemma ZoneStep(c: byte, s: Bytes)
    requires c != '%' || |s| < 2 || s[0] != '2' || s[1] != '5'
    ensures ZoneIndex([c] + s) == if ZoneIndex(s) < 0 then -1 else ZoneIndex(s) + 1
  {
    var t := [c] + s;
    assert t[1..] == s;
    if |t| >= 3 {
      assert t[..3] == [c] + s[..2];
      assert t[1..3] == s[..2];
    }
  }

  lemma ZoneSkips(c: byte, s: Bytes)
    requires c != '%'
    ensures ZoneIndex(EscapeByte(Host, c) + s) ==
            if ZoneIndex(s) < 0 then -1 else ZoneIndex(s) + |EscapeByte(Host, c)|
  {
    var e := EscapeByte(Host, c);
    if |e| == 1 {
      ZoneStep(c, s);
    } else {
      var d, d' := HexDigit(c as int / 16), HexDigit(c as int % 16);
      HexRoundTrip(c as int / 16);
      HexRoundTrip(c as int % 16);
      assert d != '2' || d' != '5';
      var last: Bytes := [d'] + s;
      var digits: Bytes := [d] + last;
      assert e + s == ['%'] + digits;
      ZoneStep('%', digits);
      ZoneStep(d, last);
      ZoneStep(d', s);
    }
  }

  lemma {:induction false} ZoneFree(h: Bytes)
    requires '%' !in h
    ensures ZoneIndex(Escape(Host, h)) < 0
  {
    if h != [] {
      assert h == [h[0]] + h[1..];
      ZoneFree(h[1..]);
      ZoneSkips(h[0], Escape(Host, h[1..]));
    }
  }

  lemma {:induction false} ZoneFound(a: Bytes, b: Bytes)
    requires '%' !in a && b != [] && b[0] == '%'
    ensures ZoneIndex(Escape(Host, a + b)) == |Escape(Host, a)|
  {
    if a == [] {
      assert a + b == b;
      var e := EscapeByte(Host, '%');
      assert ShouldEscape('%', Host);
      assert '%' as int == 37;
      assert e == ['%', HexDigit(2), HexDigit(5)] == "%25";
      assert Escape(Host, b) == e + Escape(Host, b[1..]);
      DropPrefix(e, Escape(Host, b[1..]));
    } else {
      assert a == [a[0]] + a[1..];
      assert (a + b)[1..] == a[1..] + b;
      ZoneFound(a[1..], b);
      ZoneSkips(a[0], Escape(Host, a[1..] + b));
    }
  }

  lemma BracketedReads(h: Bytes)
    ensures UnescapeBracketed(Escape(Host, h)) == if ZonedReadable(h) then Some(h) else None
  {
    var i := IndexOf(h, '%');
    if i < 0 {
      ZoneFree(h);
      UnescapeEscaped(Host, h);
    } else {
      var a, b := h[..i], h[i..];
      assert h == a + b;
      ZoneFound(a, b);
      EscapeConcat(Host, a, b);
      DropPrefix(Escape(Host, a), Escape(Host, b));
      UnescapeEscaped(Host, a);
      UnescapeEscaped(Zone, b);
    }
  }

  /** The host and port of a URL's authority; parseStdURL insists on a host. */
  function Endpoint(isIPv6: AddressTest, s: Bytes): Option<Address> {
    var host := ParseHost(isIPv6, s);
    if host.None? || SplitPort(host.value).host == [] then None else Some(SplitPort(host.value))
  }

  lemma DigitsSafe(port: Bytes)
    requires AllDigits(port)
    ensures AllReadable(port, Host) && Escape(Host, port) == port
    ensures '[' !in port && ']' !in port && ':' !in port && '@' !in port && '?' !in port
  {
    EscapeKeeps(Host, port);
  }

  lemma ReadableConcat(a: Bytes, b: Bytes, mode: Mode)
    ensures AllReadable(a + b, mode) <==> AllReadable(a, mode) && AllReadable(b, mode)
  {
    var s := a + b;
    assert forall i | 0 <= i < |a| :: s[i] == a[i];
    assert forall i | 0 <= i < |b| :: s[|a| + i] == b[i];
    assert forall i | |a| <= i < |s| :: s[i] == b[i - |a|];
  }

  lemma DirectSplits(h: Bytes, port: Bytes)
    requires '[' !in h && AllDigits(port)
    ensures SplitPort(h + ":" + port) == Address(h, port)
  {
    hide LastIndexOf, AllDigits;
    DigitsSafe(port);
    var s: Bytes := h + ":" + port;
    LastIndexUnique<byte>(s, ':', h, port);
    assert s[|h|..][1..] == port;
  }

  lemma ColonPort(port: Bytes)
    requires AllDigits(port)
    ensures Escape(Host, ":" + port) == ":" + port && ValidOptionalPort(":" + port)
  {
    DigitsSafe(port);
    assert (":" + port)[1..] == port;
  }

  /** Where parseHost finds the port of a host without brackets. */
  lemma DirectShape(h: Bytes, port: Bytes)
    requires '[' !in h && AllDigits(port)
    ensures var e := Escape(Host, h + ":" + port);
            var colon := LastIndexOf(e, ':');
            '[' !in e && colon >= 0 && e[colon..] == ":" + port
  {
    hide LastIndexOf, ShouldEscape, EscapeByte, AllDigits;
    DigitsSafe(port);
    var tail: Bytes := ":" + port;
    var e := Escape(Host, h);
    Associate<byte>(h, ":", port);
    EscapeConcat(Host, h, tail);
    ColonPort(port);
    Associate<byte>(e, ":", port);
    LastIndexUnique<byte>(e + ":" + port, ':', e, port);
    DropPrefix<byte>(e, tail);
    NotInConcat<byte>('[', h, tail);
    OpenKept(h + tail);
  }

  lemma OpenKept(s: Bytes)
    ensures '[' in Escape(Host, s) <==> '[' in s
  {
    EscapedHas(Host, s, '[');
  }

  lemma DirectReads(h: Bytes, port: Bytes)
    requires AllDigits(port)
    ensures Unescape(Host, Escape(Host, h + ":" + port)) == if AllReadable(h, Host) then Some(h + ":" + port) else None
  {
    hide Unescape, Escape;
    DigitsSafe(port);
    UnescapeEscaped(Host, h + ":" + port);
    ReadableConcat(h + ":", port, Host);
    ReadableConcat(h, ":", Host);
  }

  lemma DirectParses(isIPv6: AddressTest, h: Bytes, port: Bytes)
    requires '[' !in h && AllDigits(port)
    ensures ParseHost(isIPv6, Escape(Host, h + ":" + port)) ==
            if AllReadable(h, Host) then Some(h + ":" + port) else None
  {
    hide LastIndexOf, Unescape, Escape, AllReadable, UnescapeBracketed;
    DirectShape(h, port);
    DirectReads(h, port);
    ColonPort(port);
  }

  function InBrackets(h: Bytes, port: Bytes): Bytes {
    ['['] + h + ([']'] + ([':'] + port))
  }

  lemma BracketsJoined(h: Bytes, port: Bytes)
    ensures var host: Bytes, s := ['['] + h + [']'], InBrackets(h, port);
            s == host + [':'] + port
  {
  }

  lemma PortSplits(host: Bytes, port: Bytes)
    requires AllDigits(port)
    ensures SplitPort(host + [':'] + port) ==
            if |host| >= 2 && host[0] == '[' && host[|host| - 1] == ']' then Address(host[1..|host| - 1], port)
            else Address(host, port)
  {
    hide LastIndexOf, AllDigits, ValidOptionalPort, Escape;
    DigitsSafe(port);
    ColonPort(port);
    var s := host + [':'] + port;
    LastIndexUnique<byte>(s, ':', host, port);
    Associate<byte>(host, [':'], port);
    DropPrefix<byte>(host, [':'] + port);
  }

  lemma BracketedSplits(h: Bytes, port: Bytes)
    requires AllDigits(port)
    ensures SplitPort(InBrackets(h, port)) == Address(h, port)
  {
    hide SplitPort, AllDigits, InBrackets;
    var host: Bytes := ['['] + h + [']'];
    BracketsJoined(h, port);
    PortSplits(host, port);
    assert host[1..|host| - 1] == h;
  }

  lemma EscapeBrackets(h: Bytes, port: Bytes)
    requires AllDigits(port)
    ensures Escape(Host, InBrackets(h, port)) == InBrackets(Escape(Host, h), port)
  {
    hide Escape, AllDigits;
    var tail: Bytes := [']'] + ([':'] + port);
    DigitsSafe(port);
    EscapeConcat(Host, ['['] + h, tail);
    EscapeConcat(Host, ['['], h);
    EscapeConcat(Host, [']'], [':'] + port);
    EscapeConcat(Host, [':'], port);
    EscapeKeeps(Host, ['[']);
    EscapeKeeps(Host, [']']);
    EscapeKeeps(Host, [':']);
  }

  lemma CloseFound(e: Bytes, port: Bytes)
    requires AllDigits(port)
    ensures var s := InBrackets(e, port);
            LastIndexOf(s, ']') == |e| + 1 && s[|e| + 2..] == [':'] + port && s[1..|e| + 1] == e
  {
    DigitsSafe(port);
    var s, front, tail := InBrackets(e, port), ['['] + e, [':'] + port;
    assert s == front + [']'] + tail;
    LastIndexUnique<byte>(s, ']', front, tail);
    assert s[1..|e| + 1] == e;
  }

  lemma OpenFound(e: Bytes, port: Bytes)
    requires AllDigits(port)
    ensures LastIndexOf(InBrackets(e, port), '[') >= 0
    ensures LastIndexOf(InBrackets(e, port), '[') == 0 <==> '[' !in e
  {
    hide LastIndexOf, AllDigits;
    DigitsSafe(port);
    var rest: Bytes := e + ([']'] + ([':'] + port));
    var s := InBrackets(e, port);
    assert s == [] + ['['] + rest;
    if '[' in e {
      var i :| 0 <= i < |e| && e[i] == '[';
      assert s[1..][i] == '[';
    } else {
      NotInConcat<byte>('[', e, [']'] + ([':'] + port));
      LastIndexUnique<byte>(s, '[', [], rest);
    }
  }

  lemma BracketsParse(isIPv6: AddressTest, e: Bytes, port: Bytes)
    requires AllDigits(port)
    ensures var host := UnescapeBracketed(e);
            ParseHost(isIPv6, InBrackets(e, port)) ==
            if '[' in e || host.None? || !isIPv6(host.value) then None else Some(InBrackets(host.value, port))
  {
    hide LastIndexOf, UnescapeBracketed;
    CloseFound(e, port);
    OpenFound(e, port);
    assert ([':'] + port)[1..] == port;
    var host := UnescapeBracketed(e);
    if host.Some? {
      Associate<byte>(['['] + host.value, [']'], [':'] + port);
    }
  }

  lemma BracketedParses(isIPv6: AddressTest, h: Bytes, port: Bytes)
    requires AllDigits(port)
    ensures ParseHost(isIPv6, Escape(Host, InBrackets(h, port))) ==
            if '[' !in h && ZonedReadable(h) && isIPv6(h) then Some(InBrackets(h, port)) else None
  {
    hide ParseHost, UnescapeBracketed, ZonedReadable, Escape, InBrackets;
    EscapeBrackets(h, port);
    BracketsParse(isIPv6, Escape(Host, h), port);
    EscapedHas(Host, h, '[');
    BracketedReads(h);
  }

  lemma JoinedInBrackets(h: Bytes, port: Bytes)
    requires ':' in h
    ensures JoinHostPort(h, port) == InBrackets(h, port)
  {
  }

  lemma EscapeEmpty(mode: Mode, s: Bytes)
    ensures Escape(mode, s) == [] <==> s == []
  {
    if s != [] {
      assert EscapeByte(mode, s[0]) != [];
    }
  }

  lemma LastOpen(s: Bytes) returns (before: Bytes, after: Bytes)
    requires '[' in s
    ensures s == before + ['['] + after && '[' !in after
    ensures var e := Escape(Host, s);
            e == Escape(Host, before) + ['['] + Escape(Host, after) && LastIndexOf(e, '[') == |Escape(Host, before)|
  {
    hide Escape, LastIndexOf;
    var i := LastIndexOf(s, '[');
    before, after := s[..i], s[i + 1..];
    assert s == before + ['['] + after;
    EscapeConcat(Host, before + ['['], after);
    EscapeConcat(Host, before, ['[']);
    EscapeKeeps(Host, ['[']);
    EscapedHas(Host, after, '[');
    LastIndexUnique<byte>(Escape(Host, s), '[', Escape(Host, before), Escape(Host, after));
  }

  lemma LastClose(s: Bytes) returns (a: Bytes, b: Bytes)
    requires ']' in s
    ensures s == a + [']'] + b
    ensures var e := ['['] + Escape(Host, s);
            LastIndexOf(e, ']') == |Escape(Host, a)| + 1 && e[1..|Escape(Host, a)| + 1] == Escape(Host, a)
  {
    hide Escape, LastIndexOf;
    var i := LastIndexOf(s, ']');
    a, b := s[..i], s[i + 1..];
    assert s == a + [']'] + b;
    EscapeConcat(Host, a + [']'], b);
    EscapeConcat(Host, a, [']']);
    EscapeKeeps(Host, [']']);
    EscapedHas(Host, b, ']');
    var e, front := ['['] + Escape(Host, s), ['['] + Escape(Host, a);
    assert e == front + [']'] + Escape(Host, b);
    LastIndexUnique<byte>(e, ']', front, Escape(Host, b));
    assert e[1..|Escape(Host, a)| + 1] == Escape(Host, a);
  }

  /** An opening bracket calls for an IPv6 address, which has a colon. */
  lemma OpenBracketFails(isIPv6: AddressTest, h: Bytes, port: Bytes)
    requires Colons(isIPv6) && AllDigits(port) && '[' in h && ':' !in h
    ensures ParseHost(isIPv6, Escape(Host, h + [':'] + port)).None?
  {
    hide Escape, LastIndexOf, UnescapeBracketed, AllDigits, ValidOptionalPort;
    DigitsSafe(port);
    var s := h + [':'] + port;
    var before, after := LastOpen(s);
    EscapeEmpty(Host, before);
    if before != [] {
      assert LastIndexOf(Escape(Host, s), '[') > 0;
    } else if ']' in after {
      assert s == ['['] + after;
      var a, b := LastClose(after);
      assert s == ['['] + a + [']'] + b;
      assert Escape(Host, s) == ['['] + Escape(Host, after);
      CloseInHost(h, port, a, b);
      BracketedReads(a);
    } else {
      EscapedHas(Host, after, ']');
    }
  }

  lemma CloseInHost(h: Bytes, port: Bytes, a: Bytes, b: Bytes)
    requires h + [':'] + port == ['['] + a + [']'] + b && ':' !in h && ']' !in port
    ensures ':' !in a
  {
    var s := h + [':'] + port;
    assert s[|a| + 1] == ']' && s[|h|] == ':';
    assert s[|h| + 1..] == port && ']' !in s[|h| + 1..];
    assert |a| + 1 < |h|;
    assert forall i | 0 <= i < |a| :: a[i] == s[i + 1] == h[i + 1];
  }

  /** A host and port survive being printed as part of a URL exactly under Survives. */
  lemma HostRoundTrip(isIPv6: AddressTest, h: Bytes, port: Bytes)
    requires Colons(isIPv6) && AllDigits(port)
    ensures var a := Endpoint(isIPv6, Escape(Host, JoinHostPort(h, port)));
            if Survives(isIPv6, h) then a == Some(Address(h, port)) else a.None?
  {
    if ':' in h {
      JoinedInBrackets(h, port);
      BracketedParses(isIPv6, h, port);
      BracketedSplits(h, port);
    } else if '[' in h {
      OpenBracketFails(isIPv6, h, port);
    } else {
      DirectParses(isIPv6, h, port);
      DirectSplits(h, port);
    }
  }

  // Whole URLs

  lemma CleanIsUserinfo(c: char)
    requires Clean(c, Mode.UserPassword)
    ensures UserinfoChar(c)
  {
  }

  lemma EscapedIsUserinfo(user: Bytes)
    ensures ValidUserinfo(Escape(Mode.UserPassword, user))
  {
    var e := Escape(Mode.UserPassword, user);
    EscapedIsClean(Mode.UserPassword, user);
    forall i | 0 <= i < |e|
      ensures UserinfoChar(e[i])
    {
      CleanIsUserinfo(e[i]);
    }
  }

  lemma EscapedUserinfo(user: Bytes)
    ensures ParseUserinfo(Escape(Mode.UserPassword, user)) == Some(User(user))
  {
    EscapedIsUserinfo(user);
    EscapedLacks(Mode.UserPassword, user, ':');
    CutMissing<byte>(Escape(Mode.UserPassword, user), ':');
    UnescapeEscaped(Mode.UserPassword, user);
  }

  lemma AuthoritySplits(isIPv6: AddressTest, user: Bytes, host: Bytes)
    requires '@' !in host && ParseUserinfo(user).Some?
    ensures ParseAuthority(isIPv6, user + ['@'] + host) ==
            if ParseHost(isIPv6, host).None? then None
            else Some((ParseUserinfo(user).value, ParseHost(isIPv6, host).value))
  {
    LastIndexUnique<byte>(user + ['@'] + host, '@', user, host);
  }

  lemma AuthorityParses(isIPv6: AddressTest, user: Bytes, host: Bytes)
    ensures var h := ParseHost(isIPv6, Escape(Host, host));
            ParseAuthority(isIPv6, Authority(user, host)) == if h.None? then None else Some((User(user), h.value))
  {
    hide ParseAuthority, ParseHost, ParseUserinfo, Escape;
    EscapedLacks(Host, host, '@');
    EscapedUserinfo(user);
    AuthoritySplits(isIPv6, Escape(Mode.UserPassword, user), Escape(Host, host));
  }

  lemma AuthorityLacks(user: Bytes, host: Bytes, c: byte)
    requires !Clean(c, Mode.UserPassword) && !Clean(c, Host) && c != '@'
    ensures c !in Authority(user, host)
  {
    EscapedLacks(Mode.UserPassword, user, c);
    EscapedLacks(Host, host, c);
    NotInConcat<byte>(c, Escape(Mode.UserPassword, user), ['@']);
    NotInConcat<byte>(c, Escape(Mode.UserPassword, user) + ['@'], Escape(Host, host));
  }

  lemma ResourceCut(user: Bytes, host: Bytes, query: Bytes)
    ensures var cut := Cut<byte>(Resource(user, host, query), '?');
            cut.before == Authority(user, host) && cut.after == query
  {
    AuthorityLacks(user, host, '?');
    if query != [] {
      CutAt<byte>(Authority(user, host), '?', query);
    }
  }

  lemma VisibleConcat(a: Bytes, b: Bytes)
    ensures AllVisible(a + b) <==> AllVisible(a) && AllVisible(b)
  {
    var s := a + b;
    assert forall i | 0 <= i < |a| :: s[i] == a[i];
    assert forall i | 0 <= i < |b| :: s[|a| + i] == b[i];
    assert forall i | |a| <= i < |s| :: s[i] == b[i - |a|];
  }

  lemma ResourceVisible(user: Bytes, host: Bytes, query: Bytes)
    requires AllVisible(query)
    ensures AllVisible(Resource(user, host, query)) && !HasControl(Resource(user, host, query))
  {
    EscapedVisible(Mode.UserPassword, user);
    EscapedVisible(Host, host);
    VisibleConcat(Escape(Mode.UserPassword, user), ['@']);
    VisibleConcat(Escape(Mode.UserPassword, user) + ['@'], Escape(Host, host));
    VisibleConcat(Authority(user, host), ['?']);
    VisibleConcat(Authority(user, host) + ['?'], query);
  }

  lemma PrintedCut(user: Bytes, host: Bytes, query: Bytes, fragment: Bytes)
    requires '#' !in query
    ensures var cut := Cut<byte>(Print(user, host, query, fragment), '#');
            cut.before == Resource(user, host, query) && Unescape(Mode.Fragment, cut.after) == Some(fragment)
  {
    AuthorityLacks(user, host, '#');
    NotInConcat<byte>('#', Authority(user, host), ['?']);
    NotInConcat<byte>('#', Authority(user, host) + ['?'], query);
    UnescapeEscaped(Mode.Fragment, fragment);
    if fragment != [] {
      CutAt<byte>(Resource(user, host, query), '#', Escape(Mode.Fragment, fragment));
    }
  }

  lemma ResourceParses(isIPv6: AddressTest, s: Bytes, authority: Bytes, query: Bytes)
    requires !HasControl(s) && Cut<byte>(s, '?').before == authority && Cut<byte>(s, '?').after == query
    requires '/' !in authority
    ensures var a := ParseAuthority(isIPv6, authority);
            ParseResource(isIPv6, s) == if a.None? then None else Some(Url(a.value.0, a.value.1, query, []))
  {
    assert authority[..|authority|] == authority;
  }

  /** A printed URL parses, if its host does, to the same user, query and fragment. */
  lemma PrintedParses(isIPv6: AddressTest, user: Bytes, host: Bytes, query: Bytes, fragment: Bytes)
    requires '#' !in query && AllVisible(query)
    ensures var h := ParseHost(isIPv6, Escape(Host, host));
            Parse(isIPv6, Print(user, host, query, fragment)) ==
            if h.None? then None else Some(Url(User(user), h.value, query, fragment))
  {
    hide ParseResource, Resource, Authority, Escape, Unescape, HasControl, Cut, ParseHost, ParseAuthority, Print;
    PrintedCut(user, host, query, fragment);
    ResourceVisible(user, host, query);
    ResourceCut(user, host, query);
    AuthorityLacks(user, host, '/');
    AuthorityParses(isIPv6, user, host);
    ResourceParses(isIPv6, Resource(user, host, query), Authority(user, host), query);
  }

  lemma PrintedVisible(user: Bytes, host: Bytes, query: Bytes, fragment: Bytes)
    requires AllVisible(query)
    ensures AllVisible(Print(user, host, query, fragment))
  {
    ResourceVisible(user, host, query);
    EscapedVisible(Mode.Fragment, fragment);
    VisibleConcat(Resource(user, host, query), ['#']);
    VisibleConcat(Resource(user, host, query) + ['#'], Escape(Mode.Fragment, fragment));
  }
}
