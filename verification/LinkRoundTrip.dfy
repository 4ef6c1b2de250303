// The share-link codec as a whole: printing a record and parsing the link again.
module LinkRoundTrip {
  import opened Wrappers
  import opened Text
  import opened Decimal
  import opened LinkTypes
  import opened LinkParser
  import opened LinkReads
  import opened LinkProofs
  import P = LinkPrinter
  import Base64
  import HostPort
  import Percent
  import Url

  /** Whether the server comes back from a link. */
  predicate ExpressibleServer(lib: Lib, p: Proxy) {
    if p.SS? then PlainServer(p.server) else p.Vmess? || Url.Survives(lib.isIPv6, p.server)
  }

  /** What the parser of its link insists on. */
  predicate Complete(p: Proxy) {
    match p
    case SS(_, port, cipher, _, _, _) => SSPort(port) && ':' !in cipher
    case Vmess(server, port, uuid, alterId, _, _, _, _, _, _) =>
      && server != [] && port != 0 && uuid != [] && MIN_INT <= port <= MAX_INT && MIN_INT <= alterId <= MAX_INT
    case Vless(_, port, uuid, _, _, _, _, _, _, _, _) => PortInRange(port) && uuid != []
    case Trojan(_, port, password, _, _, _, _, _) => PortInRange(port) && password != []
    case Hysteria2(_, port, _, _, _, _, _, _, _, _) => PortInRange(port)
  }

  /** The library calls behind a printed link do what they should. */
  ghost predicate Faithful(lib: Lib, p: Proxy, name: Bytes) {
    Url.Colons(lib.isIPv6) && (p.Vmess? ==> JsonReads(lib, P.VmessFields(p, name)))
  }

  function Reparsed(lib: Lib, p: Proxy, name: Bytes): Option<Link> {
    ParseLink(lib, P.SchemeOf(p), P.BuildRest(lib, p, name))
  }

  lemma SchemesAreLower()
    ensures ToLower("ss") == "ss" && ToLower("vmess") == "vmess" && ToLower("vless") == "vless"
    ensures ToLower("trojan") == "trojan" && ToLower("hysteria2") == "hysteria2"
  {
  }

  lemma ReparsedBy(lib: Lib, p: Proxy, name: Bytes)
    ensures var rest := P.BuildRest(lib, p, name);
            Reparsed(lib, p, name) ==
            match p
            case SS(_, _, _, _, _, _) => ParseSS(rest)
            case Vmess(_, _, _, _, _, _, _, _, _, _) => ParseVmess(lib, rest)
            case Vless(_, _, _, _, _, _, _, _, _, _, _) => ParseVless(lib, rest)
            case Trojan(_, _, _, _, _, _, _, _) => ParseTrojan(lib, rest)
            case Hysteria2(_, _, _, _, _, _, _, _, _, _) => ParseHysteria2(lib, rest)
  {
    SchemesAreLower();
  }

  /** A printed link parses to what it can say about the record, for every name. */
  lemma PrintedParses(lib: Lib, p: Proxy, name: Bytes)
    requires Complete(p) && ExpressibleServer(lib, p) && Faithful(lib, p, name)
    ensures Reparsed(lib, p, name) == Some(Link(name, Said(p)))
  {
    ReparsedBy(lib, p, name);
    match p
    case SS(_, _, _, _, _, _) => SSReads(p, name);
    case Vmess(_, _, _, _, _, _, _, _, _, _) => VmessReads(lib, p, name);
    case Vless(_, _, _, _, _, _, _, _, _, _, _) => VlessReads(lib, p, name);
    case Trojan(_, _, _, _, _, _, _, _) => TrojanReads(lib, p, name);
    case Hysteria2(_, _, _, _, _, _, _, _, _, _) => Hysteria2Reads(lib, p, name);
  }

  // Exactly which parsed records come back

  /** A vless record with reality options but without tls. */
  predicate GainsTls(p: Proxy) {
    p.Vless? && p.reality.Some? && !p.tls
  }

  predicate BlankAlpn(p: Proxy) {
    !p.SS? && p.alpn == [[]]
  }

  lemma SaidOf(p: Proxy)
    requires InRange(p)
    ensures Said(p) == p <==> !GainsTls(p) && !BlankAlpn(p)
    ensures Complete(p) && Said(p).server == p.server
  {
    if p.SS? {
      PluginSaid(p.plugin);
    } else {
      AlpnSaid(p.alpn);
    }
  }

  lemma NoPortNoServer(s: Bytes)
    requires ':' !in s || s[0] == '['
    requires ']' !in s
    ensures SplitServer(s).None?
  {
    var t := TrimSuffix<byte>(s, "/");
    assert t <= s;
    assert forall i | 0 <= i < |t| :: t[i] == s[i];
  }

  lemma HostCut(server: Bytes) returns (a: Bytes, b: Bytes)
    requires '?' in server && HostPort.NoBrackets(server)
    ensures server == a + ['?'] + b && '?' !in a && ']' !in a
    ensures ':' in a ==> ':' in server
  {
    var i := IndexOf(server, '?');
    a, b := server[..i], server[i + 1..];
  }

  /** The part of a joined host and port before a ? in the host is no host and port. */
  lemma JoinedCut(server: Bytes, port: Bytes) returns (before: Bytes, after: Bytes)
    requires '?' in server && HostPort.NoBrackets(server)
    ensures HostPort.JoinHostPort(server, port) == before + ['?'] + after
    ensures '?' !in before && SplitServer(before).None? && ('@' in before ==> '@' in server)
  {
    var a, b := HostCut(server);
    if ':' in server {
      before, after := ['['] + a, b + "]:" + port;
      assert HostPort.JoinHostPort(server, port) == before + ['?'] + after;
      NoPortNoServer(before);
    } else {
      before, after := a, b + ":" + port;
      assert HostPort.JoinHostPort(server, port) == before + ['?'] + after;
      NoPortNoServer(before);
    }
  }

  lemma BareLinkFails(userinfo: Bytes, before: Bytes, after: Bytes, fragment: Bytes)
    requires '?' !in userinfo && '?' !in before && '@' !in before && SplitServer(before).None? && '#' !in fragment
    ensures ParseSS((userinfo + ['@'] + before + ['?'] + after) + ['#'] + fragment).None?
  {
    hide SplitServer, Credentials, PluginIn, NameIn, Base64.Decode;
    HashFound(userinfo + ['@'] + before + ['?'] + after, fragment);
    SSAddressLacks(userinfo, before);
    CutAt<byte>(P.SSAddress(userinfo, before), '?', after);
    AddressSplits(userinfo, before);
  }

  lemma LinkText(userinfo: Bytes, before: Bytes, after: Bytes, query: Bytes, fragment: Bytes)
    ensures var more := if query == [] then after else after + ['?'] + query;
            P.SSLink(P.SSAddress(userinfo, before + ['?'] + after), query, fragment) ==
            (userinfo + ['@'] + before + ['?'] + more) + ['#'] + fragment
  {
    var address := userinfo + ['@'] + before + ['?'] + after;
    Associate<byte>(userinfo + ['@'], before, ['?']);
    Associate<byte>(userinfo + ['@'], before + ['?'], after);
    if query != [] {
      Associate<byte>(userinfo + ['@'] + before + ['?'], after, ['?']);
      Associate<byte>(userinfo + ['@'] + before + ['?'], after + ['?'], query);
    }
  }

  lemma SSLinkLost(userinfo: Bytes, server: Bytes, port: Bytes, query: Bytes, fragment: Bytes)
    requires '?' in server && '@' !in server && HostPort.NoBrackets(server) && '?' !in userinfo && '#' !in fragment
    ensures ParseSS(P.SSLink(P.SSAddress(userinfo, HostPort.JoinHostPort(server, port)), query, fragment)).None?
  {
    var before, after := JoinedCut(server, port);
    LinkText(userinfo, before, after, query, fragment);
    BareLinkFails(userinfo, before, if query == [] then after else after + ['?'] + query, fragment);
  }

  /** No ss parser gives a server with an at sign or a bracket. */
  predicate SSServer(server: Bytes) {
    HostPort.NoBrackets(server) && '@' !in server
  }

  lemma SSServerLost(p: Proxy, name: Bytes)
    requires p.SS? && SSServer(p.server) && !PlainServer(p.server)
    ensures ParseSS(P.BuildSS(p, name)).None?
  {
    UserinfoLacks(p.cipher + [':'] + p.password);
    NameReads(name);
    SSLinkLost(Base64.EncodeRawUrl(p.cipher + [':'] + p.password), p.server, IntText(p.port),
               P.PluginQuery(P.PluginText(p.plugin)), Percent.Escape(Percent.PathSegment, name));
  }

  /** A record whose server a link cannot carry prints to a link that does not parse to that server. */
  lemma ServerLost(lib: Lib, p: Proxy, name: Bytes)
    requires Complete(p) && !ExpressibleServer(lib, p) && Faithful(lib, p, name)
    ensures var link := Reparsed(lib, p, name);
            && (link.None? || link.value.proxy.server != p.server)
            && (!p.SS? || SSServer(p.server) ==> link.None?)
  {
    hide InRange, ParseSS;
    ReparsedBy(lib, p, name);
    match p
    case SS(_, _, _, _, _, _) =>
      if SSServer(p.server) {
        SSServerLost(p, name);
      } else if ParseSS(P.BuildSS(p, name)).Some? {
        ParsedServerIsSS(P.BuildSS(p, name));
      }
    case Vless(_, _, _, _, _, _, _, _, _, _, _) => VlessReads(lib, p, name);
    case Trojan(_, _, _, _, _, _, _, _) => TrojanReads(lib, p, name);
    case Hysteria2(_, _, _, _, _, _, _, _, _, _) => Hysteria2Reads(lib, p, name);
  }

  lemma ParsedServerIsSS(rest: Bytes)
    requires ParseSS(rest).Some?
    ensures SSServer(ParseSS(rest).value.proxy.server)
  {
    ParsedSS(rest);
  }

  /** The server of a complete record comes back exactly when it is expressible. */
  lemma ServerKept(lib: Lib, p: Proxy, name: Bytes)
    requires Complete(p) && Faithful(lib, p, name)
    ensures var link := Reparsed(lib, p, name);
            (link.Some? && link.value.proxy.server == p.server) <==> ExpressibleServer(lib, p)
  {
    if ExpressibleServer(lib, p) {
      PrintedParses(lib, p, name);
      SaidServer(p);
    } else {
      ServerLost(lib, p, name);
    }
  }

  lemma SaidServer(p: Proxy)
    ensures Said(p).server == p.server
  {
  }

  /**
   * Printing a record that a parser produced, under any name, and parsing the link again gives
   * back the record and the name exactly when the server is expressible, a vless record with
   * reality options has tls, and alpn is not one blank entry.
   */
  lemma RoundTrip(lib: Lib, p: Proxy, name: Bytes)
    requires InRange(p) && Faithful(lib, p, name)
    ensures Reparsed(lib, p, name) == Some(Link(name, p))
       <==> ExpressibleServer(lib, p) && !GainsTls(p) && !BlankAlpn(p)
  {
    SaidOf(p);
    if ExpressibleServer(lib, p) {
      PrintedParses(lib, p, name);
    } else {
      ServerLost(lib, p, name);
    }
  }

  // Keys

  /** The networks that links can name. */
  predicate StandardNetwork(p: Proxy) {
    if p.SS? || p.Hysteria2? then p.network == [] else p.transport.OtherNetwork? ==> p.transport.name == []
  }

  lemma KeyLength(typ: Bytes, server: Bytes, port: int, network: Bytes, auth: Bytes)
    ensures |KeyOf(typ, server, port, network, auth)| == |typ| + |server| + |IntText(port)| + |network| + |auth| + 4
  {
    var last: seq<Bytes> := [auth];
    var some, more, most := [network] + last, [IntText(port), network] + last, [server, IntText(port), network] + last;
    assert [typ, server, IntText(port), network, auth] == [typ] + most;
    assert most == [server] + more && more == [IntText(port)] + some;
    JoinCons<byte>(typ, most, '|');
    JoinCons<byte>(server, more, '|');
    JoinCons<byte>(IntText(port), some, '|');
    JoinCons<byte>(network, last, '|');
  }

  lemma NetworkInKey(typ: Bytes, server: Bytes, port: int, network: Bytes, auth: Bytes)
    ensures KeyOf(typ, server, port, network, auth) == KeyOf(typ, server, port, [], auth) <==> network == []
  {
    KeyLength(typ, server, port, network, auth);
    KeyLength(typ, server, port, [], auth);
  }

  lemma TransportInKey(typ: Bytes, server: Bytes, port: int, t: Transport, auth: Bytes)
    ensures KeyOf(typ, server, port, Network(t), auth) == KeyOf(typ, server, port, Network(SaidTransport(t)), auth)
       <==> (t.OtherNetwork? ==> t.name == [])
  {
    if t.OtherNetwork? {
      NetworkInKey(typ, server, port, t.name, auth);
    }
  }

  lemma KeyOfSaid(p: Proxy)
    ensures ClashKey(Said(p)) == ClashKey(p) <==> StandardNetwork(p)
  {
    match p
    case SS(server, port, cipher, password, _, network) =>
      NetworkInKey("ss", server, port, network, cipher + ":" + password);
    case Vmess(server, port, uuid, _, _, _, _, _, _, t) => TransportInKey("vmess", server, port, t, uuid);
    case Vless(server, port, uuid, _, _, _, _, _, _, _, t) => TransportInKey("vless", server, port, t, uuid);
    case Trojan(server, port, password, _, _, _, _, t) => TransportInKey("trojan", server, port, t, password);
    case Hysteria2(server, port, password, _, _, _, _, _, _, network) =>
      NetworkInKey("hysteria2", server, port, network, password);
  }

  /**
   * The server and the dedup key of a complete record come back exactly when the server is
   * expressible and links can name the network. Unless an ss server has an at sign or a bracket,
   * the key alone comes back under the same condition.
   */
  lemma KeyKept(lib: Lib, p: Proxy, name: Bytes)
    requires Complete(p) && Faithful(lib, p, name)
    ensures var link, kept := Reparsed(lib, p, name), ExpressibleServer(lib, p) && StandardNetwork(p);
            && ((link.Some? && link.value.proxy.server == p.server && ClashKey(link.value.proxy) == ClashKey(p)) <==>
                kept)
            && (!p.SS? || SSServer(p.server) ==> ((link.Some? && ClashKey(link.value.proxy) == ClashKey(p)) <==> kept))
  {
    hide ClashKey, ExpressibleServer, StandardNetwork, Reparsed, Faithful, Complete, Said, SSServer;
    if ExpressibleServer(lib, p) {
      PrintedParses(lib, p, name);
      SaidServer(p);
      KeyOfSaid(p);
    } else {
      ServerLost(lib, p, name);
    }
  }

  /** A concrete link that does not come back: reality options without tls. */
  lemma RealityGainsTls(lib: Lib, name: Bytes)
    requires Url.Colons(lib.isIPv6)
    ensures var p := Vless("h", 443, "u", false, "", "", "", Some(Reality("k", "")), false, [], NoNetwork);
            InRange(p) && Reparsed(lib, p, name) == Some(Link(name, p.(tls := true)))
  {
    var p := Vless("h", 443, "u", false, "", "", "", Some(Reality("k", "")), false, [], NoNetwork);
    PrintedParses(lib, p, name);
  }
}
