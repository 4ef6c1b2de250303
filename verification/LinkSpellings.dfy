// What the parsers read in links that the printer would not write: every spelling of a setting,
// every scheme and plugin name.
module LinkSpellings {
  import opened Wrappers
  import opened Text
  import opened Decimal
  import opened LinkTypes
  import opened LinkParser
  import opened LinkReads
  import opened VmessObjects
  import HostPort
  import Query
  import Url

  // Query parameters

  /** The first of two spellings that is given. */
  ghost predicate Prefers(x: Bytes, first: Bytes, second: Bytes) {
    if first == [] then x == second else x == first
  }

  ghost predicate TransportFrom(t: Transport, get: Get) {
    exists service ::
      && Prefers(service, get("serviceName"), get("path"))
      && Carries(t, get("type"), get("path"), get("host"), service)
  }

  ghost predicate Agrees(flag: bool, text: Bytes) {
    flag <==> text == "1" || text == "true"
  }

  ghost predicate VlessSays(p: Proxy, server: Bytes, port: int, uuid: Bytes, get: Get) {
    && p.Vless? && p.server == server && p.port == port && p.uuid == uuid
    && (p.tls <==> get("security") == "tls" || get("security") == "reality")
    && p.servername == get("sni") && p.flow == get("flow") && p.fingerprint == get("fp")
    && (p.reality.Some? <==> get("pbk") != [])
    && (p.reality.Some? ==> p.reality.value.publicKey == get("pbk") && p.reality.value.shortId == get("sid"))
    && Agrees(p.insecure, get("allowInsecure")) && Lists(get("alpn"), p.alpn) && TransportFrom(p.transport, get)
  }

  ghost predicate TrojanSays(p: Proxy, server: Bytes, port: int, password: Bytes, get: Get) {
    && p.Trojan? && p.server == server && p.port == port && p.password == password
    && Prefers(p.sni, get("sni"), get("peer")) && p.fingerprint == get("fp")
    && Agrees(p.insecure, get("allowInsecure")) && Lists(get("alpn"), p.alpn) && TransportFrom(p.transport, get)
  }

  ghost predicate Hysteria2Says(p: Proxy, server: Bytes, port: int, password: Bytes, get: Get) {
    && p.Hysteria2? && p.server == server && p.port == port && p.password == password && p.network == []
    && p.sni == get("sni") && Agrees(p.insecure, get("insecure"))
    && p.obfs == get("obfs") && (if p.obfs == [] then p.obfsPassword == [] else p.obfsPassword == get("obfs-password"))
    && Prefers(p.ports, get("mport"), get("ports")) && Lists(get("alpn"), p.alpn)
  }

  lemma TransportReads(t: Transport, get: Get)
    ensures TransportIn(get) == t <==> TransportFrom(t, get)
  {
    var service := OrElse(get("serviceName"), get("path"));
    assert Prefers(service, get("serviceName"), get("path"));
    NetworksApart();
    assert Carries(TransportIn(get), get("type"), get("path"), get("host"), service);
  }

  lemma NetworksApart()
    ensures "ws" != "grpc" && "ws" != "h2" && "ws" != "http" && "grpc" != "h2" && "grpc" != "http"
  {
    assert "ws"[0] == 'w' && "grpc"[0] == 'g' && "h2"[0] == 'h' && "http"[0] == 'h';
  }

  lemma VlessReadsQuery(p: Proxy, server: Bytes, port: int, uuid: Bytes, get: Get)
    ensures VlessOf(server, port, uuid, get) == p <==> VlessSays(p, server, port, uuid, get)
  {
    hide Lists, ParseAlpn, TransportIn, TransportFrom;
    if p.Vless? {
      AlpnLists(get("alpn"), p.alpn);
      TransportReads(p.transport, get);
    }
  }

  lemma TrojanReadsQuery(p: Proxy, server: Bytes, port: int, password: Bytes, get: Get)
    ensures TrojanOf(server, port, password, get) == p <==> TrojanSays(p, server, port, password, get)
  {
    hide Lists, ParseAlpn, TransportIn, TransportFrom;
    if p.Trojan? {
      AlpnLists(get("alpn"), p.alpn);
      TransportReads(p.transport, get);
    }
  }

  lemma Hysteria2ReadsQuery(p: Proxy, server: Bytes, port: int, password: Bytes, get: Get)
    ensures Hysteria2Of(server, port, password, get) == p <==> Hysteria2Says(p, server, port, password, get)
  {
    hide Lists, ParseAlpn;
    if p.Hysteria2? {
      AlpnLists(get("alpn"), p.alpn);
    }
  }

  // Links

  /** The user part of a URL as one text. */
  ghost predicate UserText(user: Url.Userinfo, text: Bytes) {
    if user.NoUser? then text == []
    else if user.User? then text == user.name
    else text == user.name + ":" + user.password
  }

  /** A vless link needs a uuid, a trojan link a password, and the record is what the URL says. */
  ghost predicate UrlSays(s: string, std: Std, link: Link) {
    var u, p, get := std.url, link.proxy, Getter(std.url);
    && link.name == u.fragment
    && (s == "vless" ==> !u.user.NoUser? && u.user.name != [] && VlessSays(p, std.host, std.port, u.user.name, get))
    && (s == "trojan" ==>
          exists text :: text != [] && UserText(u.user, text) && TrojanSays(p, std.host, std.port, text, get))
    && (s == "hysteria2" || s == "hy2" ==>
          exists text :: UserText(u.user, text) && Hysteria2Says(p, std.host, std.port, text, get))
  }

  lemma UserReads(user: Url.Userinfo, text: Bytes)
    ensures UserinfoString(user) == text <==> UserText(user, text)
  {
  }

  /** The three protocols whose links are URLs, and the two schemes of hysteria2. */
  lemma UrlLinkReads(lib: Lib, scheme: string, rest: Bytes, link: Link)
    requires ToLower(scheme) in ["vless", "trojan", "hysteria2", "hy2"]
    ensures ParseLink(lib, scheme, rest) == Some(link) <==>
            ParseStdURL(lib, rest).Some? && UrlSays(ToLower(scheme), ParseStdURL(lib, rest).value, link)
  {
    hide ParseStdURL, VlessOf, TrojanOf, Hysteria2Of, VlessSays, TrojanSays, Hysteria2Says, ParseSS, ParseVmess, Getter,
      UserText, UserinfoString, ToLower;
    var s := ToLower(scheme);
    SchemesApart();
    if ParseStdURL(lib, rest).Some? {
      var std := ParseStdURL(lib, rest).value;
      var get, text := Getter(std.url), UserinfoString(std.url.user);
      UserReads(std.url.user, text);
      forall text' | UserText(std.url.user, text')
        ensures text' == text
      {
        UserReads(std.url.user, text');
      }
      VlessReadsQuery(link.proxy, std.host, std.port, Username(std.url.user), get);
      TrojanReadsQuery(link.proxy, std.host, std.port, text, get);
      Hysteria2ReadsQuery(link.proxy, std.host, std.port, text, get);
    }
  }

  lemma SchemesApart()
    ensures "vless" != "trojan" && "vless" != "hysteria2" && "vless" != "hy2" && "trojan" != "hysteria2" &&
            "trojan" != "hy2" && "ss" !in ["vless", "trojan", "hysteria2", "hy2"] &&
            "vmess" !in ["vless", "trojan", "hysteria2", "hy2"]
  {
    assert "ss"[0] == 's' && "vmess"[0] == 'v' && "vmess"[1] == 'm' && "vless"[0] == 'v' && "vless"[1] == 'l';
    assert "trojan"[0] == 't' && "hysteria2"[0] == 'h' && "hy2"[0] == 'h';
  }

  /** Any other scheme has no parser. */
  lemma OtherSchemesFail(lib: Lib, scheme: string, rest: Bytes)
    requires ToLower(scheme) !in ["ss", "vmess", "vless", "trojan", "hysteria2", "hy2"]
    ensures ParseLink(lib, scheme, rest).None?
  {
    hide ToLower;
    var all := ["ss", "vmess", "vless", "trojan", "hysteria2", "hy2"];
    assert all[0] == "ss" && all[1] == "vmess" && all[2] == "vless" && all[3] == "trojan" && all[4] == "hysteria2" &&
           all[5] == "hy2";
  }

  // The parts of an ss link

  function After(mark: byte, part: Option<Bytes>): Bytes {
    if part.None? then [] else [mark] + part.value
  }

  function Given(part: Option<Bytes>): Bytes {
    if part.None? then [] else part.value
  }

  /**
   * An ss link is an address, a query after the first question mark, if there is one, and a name after the
   * last number sign, if there is one.
   */
  lemma SSParts(address: Bytes, query: Option<Bytes>, fragment: Option<Bytes>)
    requires '?' !in address && '#' !in Given(fragment)
    requires fragment.None? ==> '#' !in address && '#' !in Given(query)
    ensures var proxy := ParseAddress(address, PluginIn(Given(query)));
            ParseSS(address + After('?', query) + After('#', fragment)) ==
            if proxy.None? then None else Some(Link(if fragment.None? then [] else NameIn(fragment.value), proxy.value))
  {
    hide ParseAddress, PluginIn, NameIn, After, Given, Cut, LastIndexOf;
    CutAfter(address, '?', query);
    FragmentParts(address + After('?', query), fragment);
    if fragment.None? { NoFragment(address, query); }
  }

  lemma NoFragment(address: Bytes, query: Option<Bytes>)
    requires '#' !in address && '#' !in Given(query)
    ensures '#' !in address + After('?', query) + After('#', None)
  {
  }

  lemma CutAfter(before: Bytes, mark: byte, part: Option<Bytes>)
    requires mark !in before
    ensures var halves := Cut<byte>(before + After(mark, part), mark);
            halves.before == before && halves.after == Given(part)
  {
    hide Cut, IndexOf;
    if part.Some? {
      CutAt<byte>(before, mark, part.value);
      assert before + After(mark, part) == before + [mark] + part.value;
    } else {
      CutMissing<byte>(before, mark);
      assert before + After(mark, part) == before;
    }
  }

  lemma FragmentParts(body: Bytes, fragment: Option<Bytes>)
    requires '#' !in Given(fragment)
    ensures var rest := body + After('#', fragment);
            && (fragment.Some? ==>
                  var hash := LastIndexOf(rest, '#');
                  hash == |body| && rest[..hash] == body && rest[hash + 1..] == fragment.value)
            && (fragment.None? ==> rest == body)
  {
    if fragment.Some? {
      LastIndexUnique<byte>(body + After('#', fragment), '#', body, fragment.value);
    }
  }

  /** A slash after the port is ignored. */
  lemma SlashIgnored(server: Bytes, port: int)
    requires HostPort.NoBrackets(server) && SSPort(port)
    ensures SplitServer(HostPort.JoinHostPort(server, IntText(port)) + "/") == Some((server, port))
  {
    hide IntText, HostPort.JoinHostPort, HostPort.SplitHostPort;
    PortDigits(port);
    ServerReads(server, port);
    JoinedNoSlash(server, IntText(port));
    var text := HostPort.JoinHostPort(server, IntText(port));
    assert HasSuffix<byte>(text + "/", "/") && (text + "/")[..|text|] == text;
  }

  lemma PortDigits(port: int)
    requires SSPort(port)
    ensures AllDigits(IntText(port)) && IntText(port) != []
  {
  }

  // Plugins of ss

  /** The i-th option has this name. */
  ghost predicate Named(parts: seq<Bytes>, i: nat, name: Bytes) {
    i < |parts| && Cut<byte>(parts[i], '=').before == name
  }

  /** An option has the value of its last occurrence. */
  lemma {:induction false} LastOptionWins(parts: seq<Bytes>, i: nat, name: Bytes)
    requires Named(parts, i, name) && forall j: nat | i < j :: !Named(parts, j, name)
    ensures name in Options(parts) && Options(parts)[name] == Cut<byte>(parts[i], '=').after
  {
    hide Cut;
    var n := |parts| - 1;
    if i < n {
      assert !Named(parts, n, name);
      assert parts[..n][i] == parts[i];
      assert forall j: nat | i < j :: Named(parts[..n], j, name) ==> Named(parts, j, name);
      LastOptionWins(parts[..n], i, name);
    }
  }

  lemma {:induction false} OnlyNamedOptions(parts: seq<Bytes>, name: Bytes)
    requires forall i: nat :: !Named(parts, i, name)
    ensures name !in Options(parts)
  {
    hide Cut;
    var n := |parts| - 1;
    if parts != [] {
      assert !Named(parts, n, name);
      assert forall j: nat :: Named(parts[..n], j, name) ==> Named(parts, j, name);
      OnlyNamedOptions(parts[..n], name);
    }
  }

  /** The settings of a plugin by any of its names; other plugins have none. */
  lemma PluginNames(name: Bytes, opts: map<Bytes, Bytes>)
    ensures var p := PluginOf(name, opts);
            && (p.Obfs? <==> name == "obfs-local" || name == "simple-obfs" || name == "obfs")
            && (p.Obfs? ==> p.mode == Query.Value(opts, "obfs") && p.host == Query.Value(opts, "obfs-host"))
            && (p.V2ray? <==> name == "v2ray-plugin")
            && (p.V2ray? ==> (p.tls <==> "tls" in opts))
            && (p.V2ray? ==> p.host == Query.Value(opts, "host") && p.path == Query.Value(opts, "path"))
            && (p.Obfs? || p.V2ray? || p.NoPlugin?)
  {
    var names: seq<Bytes> := ["obfs-local", "simple-obfs", "obfs"];
    assert names[0] == "obfs-local" && names[1] == "simple-obfs" && names[2] == "obfs";
    assert "v2ray-plugin"[0] == 'v' && "obfs-local"[0] == 'o' && "simple-obfs"[0] == 's' && "obfs"[0] == 'o';
  }
}
