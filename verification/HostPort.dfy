// net.SplitHostPort and net.JoinHostPort.
module HostPort {
  import opened Wrappers
  import opened Text

  datatype Address = Address(host: Bytes, port: Bytes)

  function JoinHostPort(host: Bytes, port: Bytes): Bytes {
    if ':' in host then "[" + host + "]:" + port else host + ":" + port
  }

  function SplitHostPort(s: Bytes): Option<Address> {
    var i := LastIndexOf(s, ':');
    if i < 0 then None  // missing port
    else if s[0] == '[' then
      var end := IndexOf(s, ']');
      if end < 0 || end + 1 != i then None
      else if '[' in s[1..] || ']' in s[end + 1..] then None
      else Some(Address(s[1..end], s[i + 1..]))
    else if ':' in s[..i] then None  // too many colons
    else if '[' in s || ']' in s then None
    else Some(Address(s[..i], s[i + 1..]))
  }

  predicate NoBrackets(s: Bytes) {
    '[' !in s && ']' !in s
  }

  /** What SplitHostPort accepts, it splits into a host and a port without brackets. */
  lemma SplitHasNoBrackets(s: Bytes)
    requires SplitHostPort(s).Some?
    ensures var a := SplitHostPort(s).value; NoBrackets(a.host) && NoBrackets(a.port) && ':' !in a.port
  {
    var i := LastIndexOf(s, ':');
    var a := SplitHostPort(s).value;
    if s[0] == '[' {
      var end := IndexOf(s, ']');
      assert forall k | 0 <= k < |a.host| :: a.host[k] == s[1..][k] && a.host[k] == s[..end][k + 1];
      assert forall k | 0 <= k < |a.port| :: a.port[k] == s[1..][i + k] && a.port[k] == s[end + 1..][k + 1];
    } else {
      assert forall k | 0 <= k < |a.host| :: a.host[k] == s[k];
      assert forall k | 0 <= k < |a.port| :: a.port[k] == s[i + 1 + k];
    }
  }

  lemma BracketedSplits(host: Bytes, port: Bytes)
    requires NoBrackets(host) && NoBrackets(port) && ':' !in port
    ensures SplitHostPort("[" + host + "]:" + port) == Some(Address(host, port))
  {
    var s: Bytes := "[" + host + "]:" + port;
    var before: Bytes, start: Bytes, end: Bytes := "[" + host + "]", "[" + host, ":" + port;
    assert s == before + [':'] + port;
    assert s == start + [']'] + end;
    LastIndexUnique(s, ':', before, port);
    IndexUnique(s, ']', start, end);
    assert s[1..|start|] == start[1..] == host;
    assert forall i | 1 <= i < |s| :: s[i] != '[';
  }

  lemma JoinedSplits(host: Bytes, port: Bytes)
    requires NoBrackets(host) && NoBrackets(port) && ':' !in port
    ensures SplitHostPort(JoinHostPort(host, port)) == Some(Address(host, port))
  {
    if ':' in host {
      BracketedSplits(host, port);
    } else {
      var s: Bytes := host + ":" + port;
      LastIndexUnique(s, ':', host, port);
      assert '[' !in s && ']' !in s;
    }
  }

  /** Joining and splitting gives back exactly the hosts and ports that splitting can produce. */
  lemma SplitJoined(host: Bytes, port: Bytes)
    ensures SplitHostPort(JoinHostPort(host, port)) == Some(Address(host, port))
       <==> NoBrackets(host) && NoBrackets(port) && ':' !in port
  {
    if NoBrackets(host) && NoBrackets(port) && ':' !in port {
      JoinedSplits(host, port);
    } else if SplitHostPort(JoinHostPort(host, port)) == Some(Address(host, port)) {
      SplitHasNoBrackets(JoinHostPort(host, port));
    }
  }

  lemma PlainSplits(host: Bytes, port: Bytes)
    requires NoBrackets(host) && NoBrackets(port) && ':' !in port && ':' !in host
    ensures SplitHostPort(host + ":" + port) == Some(Address(host, port))
  {
    JoinedSplits(host, port);
  }

  lemma SplitsTo(s: Bytes)
    requires SplitHostPort(s).Some?
    ensures var a := SplitHostPort(s).value;
            s == "[" + a.host + "]:" + a.port || (':' !in a.host && s == a.host + ":" + a.port)
  {
    var i, end := LastIndexOf(s, ':'), IndexOf(s, ']');
    if s[0] == '[' {
      assert s == [s[0]] + s[1..end] + [s[end]] + [s[i]] + s[i + 1..];
    } else {
      assert s == s[..i] + [s[i]] + s[i + 1..];
    }
  }

  /** An address splits exactly if it is a host without brackets or colons, or one in brackets, and a port. */
  lemma SplitsIff(s: Bytes, host: Bytes, port: Bytes)
    ensures SplitHostPort(s) == Some(Address(host, port)) <==>
            && NoBrackets(host) && NoBrackets(port) && ':' !in port
            && (s == "[" + host + "]:" + port || (':' !in host && s == host + ":" + port))
  {
    hide SplitHostPort;
    if SplitHostPort(s) == Some(Address(host, port)) {
      SplitHasNoBrackets(s);
      SplitsTo(s);
    }
    if NoBrackets(host) && NoBrackets(port) && ':' !in port {
      BracketedSplits(host, port);
      if ':' !in host { PlainSplits(host, port); }
    }
  }

  lemma SplitHostChars(s: Bytes)
    requires SplitHostPort(s).Some?
    ensures forall k | 0 <= k < |SplitHostPort(s).value.host| :: SplitHostPort(s).value.host[k] in s
  {
    var host := SplitHostPort(s).value.host;
    forall k | 0 <= k < |host|
      ensures host[k] in s
    {
      assert host[k] == s[if s[0] == '[' then k + 1 else k];
    }
  }
}
