// What any URL and any query string is read as.
module UrlReads {
  import opened Wrappers
  import opened Text
  import opened Percent
  import opened LinkSpellings
  import opened Url
  import Query

  // The parts of a URL

  function Before(user: Option<Bytes>): Bytes {
    if user.None? then [] else user.value + ['@']
  }

  /** The bytes that the user part of a URL may have. */
  ghost predicate UserBytes(s: Bytes) {
    forall c | c in s ::
      || 'a' <= c <= 'z' || 'A' <= c <= 'Z' || '0' <= c <= '9'
      || c in {'-', '.', '_', ':', '~', '!', '$', '&', '\'', '(', ')', '*', '+', ',', ';', '=', '%', '@'}
  }

  lemma ValidIsUserBytes(s: Bytes)
    ensures ValidUserinfo(s) <==> UserBytes(s)
  {
    if ValidUserinfo(s) {
      forall c | c in s
        ensures UserinfoChar(c)
      {
        var i :| 0 <= i < |s| && s[i] == c;
      }
    } else {
      var i :| 0 <= i < |s| && !UserinfoChar(s[i]);
      assert s[i] in s;
    }
  }

  /** A name up to the first colon, and a password after it. */
  lemma UserReads(name: Bytes, password: Option<Bytes>)
    requires ':' !in name
    ensures var s := name + After(':', password);
            var n, p := Unescape(Mode.UserPassword, name), Unescape(Mode.UserPassword, Given(password));
            ParseUserinfo(s) ==
            if !UserBytes(s) || n.None? || p.None? then None
            else if password.None? then Some(User(n.value))
            else Some(Userinfo.UserPassword(n.value, p.value))
  {
    hide Unescape, UserBytes, ValidUserinfo, Cut;
    var s := name + After(':', password);
    ValidIsUserBytes(s);
    CutAfter(name, ':', password);
    assert Unescape(Mode.UserPassword, []) == Some([]) by { NothingEscaped(Mode.UserPassword); }
    assert Cut<byte>(s, ':').found <==> password.Some? by { ColonFound(name, password); }
  }

  lemma NothingEscaped(mode: Mode)
    ensures Unescape(mode, []) == Some([])
  {
  }

  lemma ColonFound(name: Bytes, password: Option<Bytes>)
    requires ':' !in name
    ensures Cut<byte>(name + After(':', password), ':').found <==> password.Some?
  {
    hide Cut, IndexOf;
    if password.Some? {
      CutAt<byte>(name, ':', password.value);
      assert name + After(':', password) == name + [':'] + password.value;
    } else {
      CutMissing<byte>(name, ':');
      assert name + After(':', password) == name;
    }
  }

  lemma AuthorityReads(isIPv6: AddressTest, user: Option<Bytes>, host: Bytes)
    requires '@' !in host
    ensures var h := ParseHost(isIPv6, host);
            ParseAuthority(isIPv6, Before(user) + host) ==
            if h.None? then None
            else if user.None? then Some((NoUser, h.value))
            else if ParseUserinfo(user.value).None? then None
            else Some((ParseUserinfo(user.value).value, h.value))
  {
    hide ParseHost, ParseUserinfo, LastIndexOf;
    if user.Some? {
      LastIndexUnique<byte>(Before(user) + host, '@', user.value, host);
    } else {
      assert Before(user) + host == host && host[0..] == host;
    }
  }

  /** What the text before a query is split into. */
  lemma PathSplits(authority: Bytes, path: Bytes)
    requires '/' !in authority && (path == [] || path[0] == '/')
    ensures var s := authority + path;
            var slash := IndexOf(s, '/');
            var end := if slash < 0 then |s| else slash;
            end == |authority| && s[..end] == authority && s[end..] == path
  {
    hide IndexOf;
    if path != [] {
      assert authority + path == authority + ['/'] + path[1..];
      IndexUnique<byte>(authority + path, '/', authority, path[1..]);
    }
  }

  lemma ResourceReads(isIPv6: AddressTest, authority: Bytes, path: Bytes, query: Option<Bytes>)
    requires '/' !in authority && '?' !in authority && '?' !in path && (path == [] || path[0] == '/')
    requires !HasControl(authority + path + After('?', query))
    ensures var a := ParseAuthority(isIPv6, authority);
            ParseResource(isIPv6, authority + path + After('?', query)) ==
            if a.None? || Unescape(Path, path).None? then None else Some(Url(a.value.0, a.value.1, Given(query), []))
  {
    hide ParseAuthority, Unescape, IndexOf, Cut, HasControl;
    NotInConcat<byte>('?', authority, path);
    CutAfter(authority + path, '?', query);
    PathSplits(authority, path);
  }

  /**
   * A URL is a user part up to the last @ before its path, a host, a path, a query after the first question
   * mark, and a fragment after the first number sign. It parses exactly if each part does.
   */
  lemma UrlParts(isIPv6: AddressTest, user: Option<Bytes>, host: Bytes, path: Bytes, query: Option<Bytes>,
                 fragment: Option<Bytes>)
    requires '@' !in host && '/' !in Before(user) + host && '?' !in Before(user) + host && '?' !in path
    requires path == [] || path[0] == '/'
    requires '#' !in Before(user) + host + path + After('?', query)
    ensures var body := Before(user) + host + path + After('?', query);
            var h, f := ParseHost(isIPv6, host), Unescape(Mode.Fragment, Given(fragment));
            var u := if user.None? then Some(NoUser) else ParseUserinfo(user.value);
            Parse(isIPv6, body + After('#', fragment)) ==
            if HasControl(body) || h.None? || u.None? || f.None? || Unescape(Path, path).None? then None
            else Some(Url(u.value, h.value, Given(query), f.value))
  {
    hide ParseHost, ParseUserinfo, Unescape, ParseAuthority, Before, After, Given, HasControl, Cut;
    var body := Before(user) + host + path + After('?', query);
    CutAfter(body, '#', fragment);
    if !HasControl(body) {
      ResourceReads(isIPv6, Before(user) + host, path, query);
      AuthorityReads(isIPv6, user, host);
    }
  }

  // Query strings

  /** Parts without an ampersand are read one by one; one with a semicolon or a bad escape is skipped. */
  lemma QueryReads(field: Bytes, more: Bytes)
    requires '&' !in field
    ensures Query.ParseQuery(field + ['&'] + more) == Query.Both(Query.ParseField(field), Query.ParseQuery(more))
    ensures Query.ParseQuery(field) == Query.ParseField(field)
  {
    hide Query.ParseField, Cut, IndexOf;
    CutAt<byte>(field, '&', more);
    CutMissing<byte>(field, '&');
    EmptyField();
    assert Query.ParseField(field).params + [] == Query.ParseField(field).params;
  }

  lemma EmptyField()
    ensures Query.ParseField([]) == Query.Parsed([], true)
  {
  }

  lemma FieldReads(name: Bytes, value: Option<Bytes>)
    requires '=' !in name
    ensures var field := name + After('=', value);
            var n, v := Unescape(QueryComponent, name), Unescape(QueryComponent, Given(value));
            Query.ParseField(field) ==
            if ';' in field then Query.Parsed([], false)
            else if field == [] then Query.Parsed([], true)
            else if n.None? || v.None? then Query.Parsed([], false)
            else Query.Parsed([Query.Param(n.value, v.value)], true)
  {
    hide Unescape, Cut;
    CutAfter(name, '=', value);
  }
}
