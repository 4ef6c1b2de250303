// The fully-encoded form of ss links: base64 of method:password@host:port, with an optional name.
module LegacyLink {
  import opened Wrappers
  import opened Text
  import opened Base64
  import opened LinkTypes
  import opened LinkParser
  import opened LinkReads
  import P = LinkPrinter
  import HostPort
  import Percent

  // A text with a colon is not base64.

  lemma SpaceHasNone(s: Bytes, c: byte)
    requires Visible(c)
    ensures c !in s[..SpaceLen(s)]
  {
    var n := SpaceLen(s);
    forall i | 0 <= i < n
      ensures s[..n][i] != c
    {
    }
  }

  lemma {:induction false} StripKeeps(s: Bytes, c: byte)
    requires c in s && Visible(c)
    ensures c in StripSpace(s)
    decreases |s|
  {
    hide SpaceLen, Visible;
    var n := SpaceLen(s);
    if n > 0 {
      SpaceHasNone(s, c);
      assert s == s[..n] + s[n..];
      StripKeeps(s[n..], c);
    } else if s[0] != c {
      assert s == [s[0]] + s[1..];
      StripKeeps(s[1..], c);
    }
  }

  lemma {:induction false} TrimKeeps(s: Bytes, c: byte)
    requires c in s && c != '='
    ensures c in TrimEquals(s)
  {
    if s[|s| - 1] == '=' {
      assert s == s[..|s| - 1] + [s[|s| - 1]];
      TrimKeeps(s[..|s| - 1], c);
    }
  }

  lemma StdKeeps(s: Bytes, c: byte)
    requires c in s && StdChar(c) == c
    ensures c in ToStd(s)
  {
    var i :| 0 <= i < |s| && s[i] == c;
    assert ToStd(s)[i] == c;
  }

  lemma {:induction false} StrayFails(s: Bytes, c: byte)
    requires c in s && Value64(c).None?
    ensures DecodeRaw(s).None?
    decreases |s|
  {
    hide Value64;
    if |s| >= 4 {
      assert s == s[..4] + s[4..] && s[..4] == [s[0], s[1], s[2], s[3]];
      if c in s[4..] { StrayFails(s[4..], c); }
    } else {
      var i :| 0 <= i < |s| && s[i] == c;
    }
  }

  lemma ColonIsNotBase64(s: Bytes)
    requires ':' in s
    ensures Decode(s).None?
  {
    hide StripSpace, TrimEquals, ToStd, DecodeRaw;
    var c: byte := ':';
    StripKeeps(s, c);
    TrimKeeps(StripSpace(s), c);
    StdKeeps(TrimEquals(StripSpace(s)), c);
    StrayFails(ToStd(TrimEquals(StripSpace(s))), c);
  }

  // Plain userinfo is unescaped all the same.

  /** Unescaping shortens exactly the texts with a percent sign. */
  lemma {:induction false} UnescapeShortens(s: Bytes)
    ensures var r := Percent.Unescape(Percent.PathSegment, s);
            && ('%' !in s ==> r == Some(s))
            && (r.Some? ==> |r.value| <= |s|)
            && (r.Some? && '%' in s ==> |r.value| < |s|)
    decreases |s|
  {
    if s != [] {
      assert s == [s[0]] + s[1..];
      if s[0] == '%' {
        if |s| >= 3 { UnescapeShortens(s[3..]); }
      } else {
        UnescapeShortens(s[1..]);
      }
    }
  }

  function Unescaped(userinfo: Bytes): Bytes {
    var u := Percent.Unescape(Percent.PathSegment, userinfo);
    if u.Some? then u.value else userinfo
  }

  lemma PlainCredentials(userinfo: Bytes)
    requires ':' in userinfo
    ensures var halves := Cut<byte>(Unescaped(userinfo), ':');
            Credentials(userinfo) == if halves.found then Some((halves.before, halves.after)) else None
  {
    hide Cut, Decode, Percent.Unescape;
    ColonIsNotBase64(userinfo);
  }

  /** Method and password come back when they have no percent sign, or one that starts no valid encoding. */
  lemma PlainCredentialsExact(cipher: Bytes, password: Bytes)
    requires ':' !in cipher
    ensures Credentials(cipher + [':'] + password) == Some((cipher, password))
       <==> '%' !in cipher + [':'] + password
            || Percent.Unescape(Percent.PathSegment, cipher + [':'] + password).None?
  {
    hide Percent.Unescape, Credentials;
    var userinfo := cipher + [':'] + password;
    PlainCredentials(userinfo);
    UnescapeShortens(userinfo);
    CutAt<byte>(cipher, ':', password);
    var halves := Cut<byte>(Unescaped(userinfo), ':');
    if halves.found {
      assert Unescaped(userinfo) == halves.before + [':'] + halves.after;
    }
  }

  // Whole links

  lemma SpelledLacks(t: Bytes, s: Bytes, k: nat, c: byte)
    requires Spells(t, EncodeRaw(s)) && Value64(c).None? && c != '-' && c != '_' && c != '='
    ensures c !in t + Equals(k)
  {
    EncodedChars(s);
    var u := t + Equals(k);
    forall i | 0 <= i < |u|
      ensures u[i] != c
    {
      if i < |t| { assert u[i] == t[i]; } else { assert u[i] == '='; }
    }
  }

  function Legacy(userinfo: Bytes, server: Bytes, port: int): Bytes {
    P.SSAddress(userinfo, HostPort.JoinHostPort(server, IntText(port)))
  }

  lemma LegacyAddress(userinfo: Bytes, server: Bytes, port: int, t: Bytes, k: nat)
    requires HostPort.NoBrackets(server) && '@' !in server && SSPort(port)
    requires Spells(t, EncodeRaw(Legacy(userinfo, server, port)))
    ensures var c := Credentials(userinfo);
            ParseAddress(t + Equals(k), NoPlugin) ==
            if c.None? then None else Some(SS(server, port, c.value.0, c.value.1, NoPlugin, ""))
  {
    hide Credentials, SplitServer, EncodeRaw, Decode, Spells;
    SpelledLacks(t, Legacy(userinfo, server, port), k, '@');
    DecodeSpelled(Legacy(userinfo, server, port), t, k);
    HostPortLacks(server, port, '@');
    AddressSplits(userinfo, HostPort.JoinHostPort(server, IntText(port)));
    ServerReads(server, port);
  }

  lemma NoPluginInNothing()
    ensures PluginIn([]) == NoPlugin
  {
  }

  /**
   * A fully-encoded link, in any spelling and padding and with any name, gives back its server and
   * port, and its method and password exactly when they have no percent sign, or one that starts no
   * valid encoding: the parser unescapes them although this form does not escape them.
   */
  lemma LegacyLinkExact(cipher: Bytes, password: Bytes, server: Bytes, port: int, t: Bytes, k: nat, name: Bytes)
    requires ':' !in cipher && HostPort.NoBrackets(server) && '@' !in server && SSPort(port)
    requires Spells(t, EncodeRaw(Legacy(cipher + [':'] + password, server, port)))
    ensures ParseSS(t + Equals(k) + ['#'] + Percent.Escape(Percent.PathSegment, name)) ==
            Some(Link(name, SS(server, port, cipher, password, NoPlugin, "")))
       <==> '%' !in cipher + [':'] + password
            || Percent.Unescape(Percent.PathSegment, cipher + [':'] + password).None?
  {
    hide ParseSS, ParseAddress, Credentials, Percent.Unescape, Percent.Escape, PluginIn, NameIn, EncodeRaw, Spells;
    var userinfo := cipher + [':'] + password;
    LegacyAddress(userinfo, server, port, t, k);
    PlainCredentialsExact(cipher, password);
    NoPluginInNothing();
    NameReads(name);
    SpelledLacks(t, Legacy(userinfo, server, port), k, '?');
    SSLinkReads(t + Equals(k), [], Percent.Escape(Percent.PathSegment, name));
  }

  /** A concrete password that a fully-encoded link does not give back. */
  lemma EncodedPasswordLost()
    ensures Credentials("m:%41") == Some(("m", "A"))
  {
    var userinfo: Bytes, rest: Bytes, last: Bytes := "m:%41", ":%41", "%41";
    assert userinfo[1..] == rest && rest[1..] == last && last[3..] == [];
    assert Percent.Unhex('4') == Some(4) && Percent.Unhex('1') == Some(1) && 65 as char == 'A';
    assert Percent.Unescape(Percent.PathSegment, last) == Percent.Prepend('A', Some([]));
    var a: Bytes := ['A'];
    assert a + [] == a;
    assert Percent.Unescape(Percent.PathSegment, last) == Some(a);
    assert Percent.Unescape(Percent.PathSegment, rest) == Percent.Prepend(':', Some(a));
    assert Unescaped(userinfo) == ['m', ':', 'A'] == "m" + [':'] + "A";
    PlainCredentials(userinfo);
    CutAt<byte>("m", ':', "A");
  }
}
