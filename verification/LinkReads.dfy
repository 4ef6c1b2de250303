// What the parsers make of a printed link, protocol by protocol.
module LinkReads {
  import opened Wrappers
  import opened Text
  import opened Decimal
  import opened Percent
  import opened LinkTypes
  import opened LinkParser
  import P = LinkPrinter
  import Base64
  import HostPort
  import Query
  import Url

  // What a link says about a record

  function SaidAlpn(alpn: seq<Bytes>): seq<Bytes> {
    ParseAlpn(Join<byte>(alpn, ','))
  }

  function SaidTransport(t: Transport): Transport {
    match t
    case Ws(path, host) => WsOf(path, host)
    case OtherNetwork(_) => NoNetwork
    case _ => t
  }

  function SaidReality(reality: Option<Reality>): Option<Reality> {
    if reality.Some? && reality.value.publicKey == [] then None else reality
  }

  /** The record as a link can express it. */
  function Said(p: Proxy): Proxy {
    match p
    case SS(server, port, cipher, password, plugin, _) =>
      SS(server, port, cipher, password, ParsePlugin(P.PluginText(plugin)), "")
    case Vmess(server, port, uuid, alterId, cipher, tls, servername, fingerprint, alpn, t) =>
      Vmess(server, port, uuid, alterId, OrElse(cipher, "auto"), tls, if tls then servername else [], fingerprint,
            SaidAlpn(alpn), SaidTransport(t))
    case Vless(server, port, uuid, tls, servername, flow, fingerprint, reality, insecure, alpn, t) =>
      Vless(server, port, uuid, tls || reality.Some?, servername, flow, fingerprint, SaidReality(reality), insecure,
            SaidAlpn(alpn), SaidTransport(t))
    case Trojan(server, port, password, sni, fingerprint, insecure, alpn, t) =>
      Trojan(server, port, password, sni, fingerprint, insecure, SaidAlpn(alpn), SaidTransport(t))
    case Hysteria2(server, port, password, sni, insecure, obfs, obfsPassword, ports, alpn, _) =>
      Hysteria2(server, port, password, sni, insecure, obfs, if obfs == [] then [] else obfsPassword, ports,
                SaidAlpn(alpn), "")
  }

  // Query parameters

  ghost predicate Reads(get: Get, q: Query.Params) {
    forall name :: get(name) == Query.Value(q, name)
  }

  ghost predicate Lacks(q: Query.Params, names: seq<Bytes>) {
    forall name | name in names :: name !in q
  }

  const TRANSPORT: seq<Bytes> := ["type", "path", "host", "serviceName"]

  lemma SecurityRead(tls: bool, reality: Option<Reality>)
    ensures var q := P.SecurityQuery(tls, reality);
            && ((Query.Value(q, "security") == "tls" || Query.Value(q, "security") == "reality") <==>
                tls || reality.Some?)
            && Query.Value(q, "pbk") == (if reality.Some? then reality.value.publicKey else [])
            && Query.Value(q, "sid") == (if reality.Some? then reality.value.shortId else [])
            && q.Keys <= {"encryption", "security", "pbk", "sid"}
  {
  }

  lemma TransportRead(get: Get, q: Query.Params, t: Transport)
    requires Reads(get, P.TransportQuery(t, q)) && Lacks(q, TRANSPORT)
    ensures TransportIn(get) == SaidTransport(t)
  {
    assert "type" in TRANSPORT && "path" in TRANSPORT && "host" in TRANSPORT && "serviceName" in TRANSPORT;
  }

  ghost predicate Agree(q: Query.Params, q': Query.Params, name: Bytes) {
    Query.Value(q, name) == Query.Value(q', name)
  }

  lemma TransportKeeps(t: Transport, q: Query.Params)
    ensures var q' := P.TransportQuery(t, q);
            && Agree(q', q, "sni") && Agree(q', q, "flow") && Agree(q', q, "fp") && Agree(q', q, "allowInsecure")
            && Agree(q', q, "alpn") && Agree(q', q, "peer")
            && Agree(q', q, "security") && Agree(q', q, "pbk") && Agree(q', q, "sid")
  {
  }

  lemma TrojanParamsRead(sni: Bytes, fp: Bytes, insecure: bool, alpn: Bytes)
    ensures var q := P.TrojanParams(sni, fp, insecure, alpn);
            && Query.Value(q, "sni") == sni && Query.Value(q, "fp") == fp && Query.Value(q, "alpn") == alpn
            && Yes(Query.Value(q, "allowInsecure")) == insecure
            && q.Keys <= {"sni", "fp", "allowInsecure", "alpn"}
  {
  }

  lemma TrojanFieldsRead(p: Proxy, get: Get)
    requires p.Trojan? && Reads(get, P.TrojanQuery(p))
    ensures get("sni") == p.sni && get("peer") == [] && get("fp") == p.fingerprint
    ensures Yes(get("allowInsecure")) == p.insecure && get("alpn") == Join<byte>(p.alpn, ',')
  {
    TrojanParamsRead(p.sni, p.fingerprint, p.insecure, Join<byte>(p.alpn, ','));
    TransportKeeps(p.transport, P.TrojanParams(p.sni, p.fingerprint, p.insecure, Join<byte>(p.alpn, ',')));
  }

  lemma TrojanTransportRead(p: Proxy, get: Get)
    requires p.Trojan? && Reads(get, P.TrojanQuery(p))
    ensures TransportIn(get) == SaidTransport(p.transport)
  {
    TrojanParamsRead(p.sni, p.fingerprint, p.insecure, Join<byte>(p.alpn, ','));
    TransportRead(get, P.TrojanParams(p.sni, p.fingerprint, p.insecure, Join<byte>(p.alpn, ',')), p.transport);
  }

  lemma TrojanRead(p: Proxy, get: Get)
    requires p.Trojan? && Reads(get, P.TrojanQuery(p))
    ensures TrojanOf(p.server, p.port, p.password, get) == Said(p)
  {
    TrojanFieldsRead(p, get);
    TrojanTransportRead(p, get);
  }

  lemma VlessParamsRead(security: Query.Params, sni: Bytes, flow: Bytes, fp: Bytes, insecure: bool, alpn: Bytes)
    requires security.Keys <= {"encryption", "security", "pbk", "sid"}
    ensures var q := P.VlessParams(security, sni, flow, fp, insecure, alpn);
            && Query.Value(q, "sni") == sni && Query.Value(q, "flow") == flow && Query.Value(q, "fp") == fp
            && Query.Value(q, "alpn") == alpn && Yes(Query.Value(q, "allowInsecure")) == insecure
            && q.Keys <= security.Keys + {"sni", "flow", "fp", "allowInsecure", "alpn"}
  {
  }

  lemma VlessParamsKeep(security: Query.Params, sni: Bytes, flow: Bytes, fp: Bytes, insecure: bool, alpn: Bytes)
    ensures var q := P.VlessParams(security, sni, flow, fp, insecure, alpn);
            && Query.Value(q, "security") == Query.Value(security, "security")
            && Query.Value(q, "pbk") == Query.Value(security, "pbk")
            && Query.Value(q, "sid") == Query.Value(security, "sid")
  {
  }

  ghost predicate ReadsSecurity(get: Get, tls: bool, reality: Option<Reality>) {
    && ((get("security") == "tls" || get("security") == "reality") <==> tls || reality.Some?)
    && get("pbk") == (if reality.Some? then reality.value.publicKey else [])
    && get("sid") == (if reality.Some? then reality.value.shortId else [])
  }

  lemma VlessSecurityRead(p: Proxy, get: Get)
    requires p.Vless? && Reads(get, P.VlessQuery(p))
    ensures ReadsSecurity(get, p.tls, p.reality)
  {
    var security, alpn := P.SecurityQuery(p.tls, p.reality), Join<byte>(p.alpn, ',');
    var q := P.VlessParams(security, p.servername, p.flow, p.fingerprint, p.insecure, alpn);
    SecurityRead(p.tls, p.reality);
    VlessParamsKeep(security, p.servername, p.flow, p.fingerprint, p.insecure, alpn);
    TransportKeeps(p.transport, q);
  }

  ghost predicate ReadsFields(get: Get, sni: Bytes, flow: Bytes, fp: Bytes, insecure: bool, alpn: Bytes) {
    get("sni") == sni && get("flow") == flow && get("fp") == fp && Yes(get("allowInsecure")) == insecure &&
      get("alpn") == alpn
  }

  lemma VlessFieldsRead(p: Proxy, get: Get)
    requires p.Vless? && Reads(get, P.VlessQuery(p))
    ensures ReadsFields(get, p.servername, p.flow, p.fingerprint, p.insecure, Join<byte>(p.alpn, ','))
  {
    hide P.SecurityQuery, P.VlessParams, P.TransportQuery, Query.Value, Join;
    var security, alpn := P.SecurityQuery(p.tls, p.reality), Join<byte>(p.alpn, ',');
    var q := P.VlessParams(security, p.servername, p.flow, p.fingerprint, p.insecure, alpn);
    SecurityRead(p.tls, p.reality);
    VlessParamsRead(security, p.servername, p.flow, p.fingerprint, p.insecure, alpn);
    TransportKeeps(p.transport, q);
  }

  lemma VlessTransportRead(p: Proxy, get: Get)
    requires p.Vless? && Reads(get, P.VlessQuery(p))
    ensures TransportIn(get) == SaidTransport(p.transport)
  {
    hide P.SecurityQuery, P.VlessParams, P.TransportQuery, TransportIn, Query.Value, Join;
    var security, alpn := P.SecurityQuery(p.tls, p.reality), Join<byte>(p.alpn, ',');
    SecurityRead(p.tls, p.reality);
    VlessParamsRead(security, p.servername, p.flow, p.fingerprint, p.insecure, alpn);
    TransportRead(get, P.VlessParams(security, p.servername, p.flow, p.fingerprint, p.insecure, alpn), p.transport);
  }

  lemma VlessRead(p: Proxy, get: Get)
    requires p.Vless? && Reads(get, P.VlessQuery(p))
    ensures VlessOf(p.server, p.port, p.uuid, get) == Said(p)
  {
    VlessSecurityRead(p, get);
    VlessFieldsRead(p, get);
    VlessTransportRead(p, get);
  }

  lemma Hysteria2Read(p: Proxy, get: Get)
    requires p.Hysteria2? && Reads(get, P.Hysteria2Query(p))
    ensures Hysteria2Of(p.server, p.port, p.password, get) == Said(p)
  {
    var hidden, alpn := P.HiddenParams(p.obfs, p.obfsPassword), Join<byte>(p.alpn, ',');
    HiddenRead(p.obfs, p.obfsPassword);
    Hysteria2ParamsRead(hidden, p.sni, p.insecure, p.ports, alpn);
  }

  lemma HiddenRead(obfs: Bytes, obfsPassword: Bytes)
    ensures var q := P.HiddenParams(obfs, obfsPassword);
            && Query.Value(q, "obfs") == obfs
            && (obfs != [] ==> Query.Value(q, "obfs-password") == obfsPassword)
            && q.Keys <= {"obfs", "obfs-password"}
  {
  }

  lemma Hysteria2ParamsRead(hidden: Query.Params, sni: Bytes, insecure: bool, ports: Bytes, alpn: Bytes)
    requires hidden.Keys <= {"obfs", "obfs-password"}
    ensures var q := P.Hysteria2Params(hidden, sni, insecure, ports, alpn);
            && Query.Value(q, "sni") == sni && Query.Value(q, "alpn") == alpn &&
               Yes(Query.Value(q, "insecure")) == insecure
            && Query.Value(q, "mport") == ports && "ports" !in q
            && Query.Value(q, "obfs") == Query.Value(hidden, "obfs")
            && Query.Value(q, "obfs-password") == Query.Value(hidden, "obfs-password")
  {
  }

  // URLs

  predicate PortInRange(n: int) {
    0 <= n <= MAX_INT
  }

  lemma EncodedGets(q: Query.Params, u: Url.Url)
    requires u.query == Query.Encode(q)
    ensures Reads(Getter(u), q)
  {
    forall name
      ensures Getter(u)(name) == Query.Value(q, name)
    {
      Query.QueryRoundTrip(q, name);
    }
  }

  /** A printed URL reads back if its host survives, and otherwise does not parse. */
  lemma StdReads(lib: Lib, user: Bytes, p: Proxy, name: Bytes, q: Query.Params)
    requires Url.Colons(lib.isIPv6) && PortInRange(p.port)
    ensures var std := ParseStdURL(lib, P.BuildStdURL(user, p, name, q));
            if Url.Survives(lib.isIPv6, p.server) then
              std.Some? && std.value.host == p.server && std.value.port == p.port &&
                std.value.url.user == Url.User(user)
              && std.value.url.fragment == name && std.value.url.query == Query.Encode(q)
            else std.None?
  {
    hide Url.ParseHost, Url.Survives, Url.SplitPort, Url.Parse, Url.Print, Query.Encode, Escape;
    var port := IntText(p.port);
    Query.EncodedVisible(q);
    Url.PrintedParses(lib.isIPv6, user, P.MapHostPort(p), Query.Encode(q), name);
    Url.HostRoundTrip(lib.isIPv6, p.server, port);
    AtoiItoa(p.port);
  }

  lemma VlessReads(lib: Lib, p: Proxy, name: Bytes)
    requires p.Vless? && Url.Colons(lib.isIPv6) && PortInRange(p.port) && p.uuid != []
    ensures var link := ParseVless(lib, P.BuildRest(lib, p, name));
            if Url.Survives(lib.isIPv6, p.server) then link == Some(Link(name, Said(p)))
            else link.None?
  {
    hide Url.Survives, Said, ParseStdURL, Query.Encode, Getter, P.VlessQuery;
    StdReads(lib, p.uuid, p, name, P.VlessQuery(p));
    var std := ParseStdURL(lib, P.BuildRest(lib, p, name));
    if std.Some? && std.value.url.query == Query.Encode(P.VlessQuery(p)) {
      EncodedGets(P.VlessQuery(p), std.value.url);
      VlessRead(p, Getter(std.value.url));
    }
  }

  lemma TrojanReads(lib: Lib, p: Proxy, name: Bytes)
    requires p.Trojan? && Url.Colons(lib.isIPv6) && PortInRange(p.port) && p.password != []
    ensures var link := ParseTrojan(lib, P.BuildRest(lib, p, name));
            if Url.Survives(lib.isIPv6, p.server) then link == Some(Link(name, Said(p)))
            else link.None?
  {
    hide Url.Survives, Said, ParseStdURL, Query.Encode, Getter, P.TrojanQuery;
    StdReads(lib, p.password, p, name, P.TrojanQuery(p));
    var std := ParseStdURL(lib, P.BuildRest(lib, p, name));
    if std.Some? && std.value.url.query == Query.Encode(P.TrojanQuery(p)) {
      EncodedGets(P.TrojanQuery(p), std.value.url);
      TrojanRead(p, Getter(std.value.url));
    }
  }

  lemma Hysteria2Reads(lib: Lib, p: Proxy, name: Bytes)
    requires p.Hysteria2? && Url.Colons(lib.isIPv6) && PortInRange(p.port)
    ensures var link := ParseHysteria2(lib, P.BuildRest(lib, p, name));
            if Url.Survives(lib.isIPv6, p.server) then link == Some(Link(name, Said(p)))
            else link.None?
  {
    hide Url.Survives, Said, ParseStdURL, Query.Encode, Getter, P.Hysteria2Query;
    StdReads(lib, p.password, p, name, P.Hysteria2Query(p));
    var std := ParseStdURL(lib, P.BuildRest(lib, p, name));
    if std.Some? && std.value.url.query == Query.Encode(P.Hysteria2Query(p)) {
      EncodedGets(P.Hysteria2Query(p), std.value.url);
      Hysteria2Read(p, Getter(std.value.url));
    }
  }

  // ss

  predicate PlainServer(server: Bytes) {
    HostPort.NoBrackets(server) && '@' !in server && '?' !in server
  }

  predicate SSPort(n: int) {
    1 <= n <= 65535
  }

  lemma NoSlashAtEnd(s: Bytes, digits: Bytes)
    requires AllDigits(digits) && digits != []
    ensures TrimSuffix<byte>(s + digits, "/") == s + digits
  {
    var t := s + digits;
    assert t[|t| - 1] == digits[|digits| - 1];
    assert t[|t| - 1..][0] == t[|t| - 1];
  }

  lemma JoinedNoSlash(server: Bytes, digits: Bytes)
    requires AllDigits(digits) && digits != []
    ensures TrimSuffix<byte>(HostPort.JoinHostPort(server, digits), "/") == HostPort.JoinHostPort(server, digits)
  {
    if ':' in server {
      NoSlashAtEnd("[" + server + "]:", digits);
    } else {
      NoSlashAtEnd(server + ":", digits);
    }
  }

  lemma ServerReads(server: Bytes, port: int)
    requires HostPort.NoBrackets(server) && SSPort(port)
    ensures SplitServer(HostPort.JoinHostPort(server, IntText(port))) == Some((server, port))
  {
    var text := IntText(port);
    AtoiItoa(port);
    Url.DigitsSafe(text);
    HostPort.JoinedSplits(server, text);
    JoinedNoSlash(server, text);
  }

  lemma CredentialsRead(cipher: Bytes, password: Bytes)
    requires ':' !in cipher
    ensures Credentials(Base64.EncodeRawUrl(cipher + [':'] + password)) == Some((cipher, password))
  {
    Base64.DecodeUrl(cipher + [':'] + password);
    CutAt<byte>(cipher, ':', password);
  }

  lemma HostPortLacks(server: Bytes, port: int, c: byte)
    requires c !in server && (c == '@' || c == '?') && port >= 0
    ensures c !in HostPort.JoinHostPort(server, IntText(port))
  {
    assert AllDigits(IntText(port));
    Url.DigitsSafe(IntText(port));
  }

  lemma AddressSplits(userinfo: Bytes, hostport: Bytes)
    requires '@' !in hostport
    ensures var s := P.SSAddress(userinfo, hostport);
            var at := LastIndexOf(s, '@');
            '@' in s && at >= 0 && s[..at] == userinfo && s[at + 1..] == hostport
  {
    LastIndexUnique<byte>(userinfo + ['@'] + hostport, '@', userinfo, hostport);
  }

  lemma AddressReads(userinfo: Bytes, hostport: Bytes, plugin: Plugin, c: (Bytes, Bytes), server: (Bytes, int))
    requires '@' !in hostport && Credentials(userinfo) == Some(c) && SplitServer(hostport) == Some(server)
    ensures ParseAddress(P.SSAddress(userinfo, hostport), plugin) == Some(SS(server.0, server.1, c.0, c.1, plugin, ""))
  {
    AddressSplits(userinfo, hostport);
  }

  lemma HashFound(s: Bytes, fragment: Bytes)
    requires '#' !in fragment
    ensures var t := s + ['#'] + fragment;
            var hash := LastIndexOf(t, '#');
            hash >= 0 && t[..hash] == s && t[hash + 1..] == fragment
  {
    LastIndexUnique<byte>(s + ['#'] + fragment, '#', s, fragment);
  }

  lemma SSLinkCut(address: Bytes, query: Bytes)
    requires '?' !in address
    ensures var cut := Cut<byte>(if query == [] then address else address + ['?'] + query, '?');
            cut.before == address && cut.after == query
  {
    if query == [] {
      CutMissing<byte>(address, '?');
    } else {
      CutAt<byte>(address, '?', query);
    }
  }

  lemma PluginReads(text: Bytes)
    ensures PluginIn(P.PluginQuery(text)) == ParsePlugin(text)
  {
    if text != [] {
      var param := Query.Param(P.PLUGIN, text);
      EscapeKeepsPlugin();
      assert Query.Fields([param]) == [Query.Field(param)];
      Query.ParseFields([param]);
    }
  }

  lemma EscapeKeepsPlugin()
    ensures Escape(QueryComponent, P.PLUGIN) == P.PLUGIN
  {
    Url.EscapeKeeps(QueryComponent, P.PLUGIN);
  }

  lemma NameReads(name: Bytes)
    ensures NameIn(Escape(PathSegment, name)) == name && '#' !in Escape(PathSegment, name)
  {
    UnescapeEscaped(PathSegment, name);
    EscapedLacks(PathSegment, name, '#');
  }

  lemma UserinfoLacks(s: Bytes)
    ensures '?' !in Base64.EncodeRawUrl(s)
  {
    Base64.UrlAlphabet(s, '?');
  }

  lemma SSReads(p: Proxy, name: Bytes)
    requires p.SS? && SSPort(p.port) && ':' !in p.cipher && PlainServer(p.server)
    ensures ParseSS(P.BuildSS(p, name)) == Some(Link(name, Said(p)))
  {
    var userinfo, hostport := Base64.EncodeRawUrl(p.cipher + [':'] + p.password), P.MapHostPort(p);
    CredentialsRead(p.cipher, p.password);
    ServerReads(p.server, p.port);
    HostPortLacks(p.server, p.port, '@');
    HostPortLacks(p.server, p.port, '?');
    UserinfoLacks(p.cipher + [':'] + p.password);
    SSReadsParts(p, name, userinfo, hostport);
  }

  lemma SSAddressLacks(userinfo: Bytes, hostport: Bytes)
    requires '?' !in userinfo && '?' !in hostport
    ensures '?' !in P.SSAddress(userinfo, hostport)
  {
    NotInConcat<byte>('?', userinfo, ['@']);
    NotInConcat<byte>('?', userinfo + ['@'], hostport);
  }

  lemma SSReadsParts(p: Proxy, name: Bytes, userinfo: Bytes, hostport: Bytes)
    requires p.SS? && Credentials(userinfo) == Some((p.cipher, p.password)) &&
             SplitServer(hostport) == Some((p.server, p.port))
    requires '@' !in hostport && '?' !in hostport && '?' !in userinfo
    ensures ParseSS(P.SSLink(P.SSAddress(userinfo, hostport), P.PluginQuery(P.PluginText(p.plugin)),
                             Escape(PathSegment, name))) ==
            Some(Link(name, Said(p)))
  {
    var plugin := P.PluginText(p.plugin);
    NameReads(name);
    PluginReads(plugin);
    AddressReads(userinfo, hostport, ParsePlugin(plugin), (p.cipher, p.password), (p.server, p.port));
    SSAddressLacks(userinfo, hostport);
    SSLinkReads(P.SSAddress(userinfo, hostport), P.PluginQuery(plugin), Escape(PathSegment, name));
  }

  lemma SSLinkReads(address: Bytes, query: Bytes, fragment: Bytes)
    requires '?' !in address && '#' !in fragment
    ensures var proxy := ParseAddress(address, PluginIn(query));
            ParseSS(P.SSLink(address, query, fragment)) ==
            if proxy.None? then None else Some(Link(NameIn(fragment), proxy.value))
  {
    HashFound(if query == [] then address else address + ['?'] + query, fragment);
    SSLinkCut(address, query);
  }

  // vmess

  lemma StrRead(j: Query.Params, name: Bytes)
    ensures Str(At(Strings(j), name)) == Query.Value(j, name)
    ensures ToBool(At(Strings(j), name)) <==>
            Query.Value(j, name) == "true" || Query.Value(j, name) == "1" || Query.Value(j, name) == "tls"
  {
  }

  lemma IntRead(n: int)
    requires MIN_INT <= n <= MAX_INT
    ensures Atoi(TrimSpace(IntText(n))) == Parsed(n, true)
  {
    var s := Itoa(n);
    var digits := Digits(if n < 0 then -n else n);
    assert AllDigits(digits) && digits != [];
    assert s[|s| - 1] == digits[|digits| - 1];
    hide TrimSpace, Atoi;
    VisibleUnchanged(s);
    AtoiItoa(n);
  }

  lemma VmessBaseRead(name: Bytes, server: Bytes, port: Bytes, uuid: Bytes, alterId: Bytes, cipher: Bytes)
    ensures var j := P.VmessBase(name, server, port, uuid, alterId, cipher);
            && Query.Value(j, "ps") == name && Query.Value(j, "add") == server && "port" in j && j["port"] == port
            && Query.Value(j, "id") == uuid && "aid" in j && j["aid"] == alterId && Query.Value(j, "scy") == cipher
            && Query.Value(j, "net") == "tcp"
            && j.Keys == {"v", "ps", "add", "port", "id", "aid", "scy", "net", "type"}
  {
  }

  lemma VmessExtrasRead(j: Query.Params, tls: bool, sni: Bytes, fp: Bytes, alpn: Bytes)
    requires j.Keys == {"v", "ps", "add", "port", "id", "aid", "scy", "net", "type"}
    ensures var q := P.VmessExtras(j, tls, sni, fp, alpn);
            && Query.Value(q, "tls") == (if tls then "tls" else []) && (tls ==> Query.Value(q, "sni") == sni)
            && Query.Value(q, "fp") == fp && Query.Value(q, "alpn") == alpn
            && q.Keys <= j.Keys + {"tls", "sni", "fp", "alpn"}
  {
  }

  lemma VmessExtrasKeep(j: Query.Params, tls: bool, sni: Bytes, fp: Bytes, alpn: Bytes, name: Bytes)
    requires name != "tls" && name != "sni" && name != "fp" && name != "alpn"
    ensures var q := P.VmessExtras(j, tls, sni, fp, alpn);
            (name in q <==> name in j) && Agree(q, j, name)
  {
  }

  lemma VmessTransportKeeps(j: Query.Params, t: Transport, name: Bytes)
    requires name != "net" && name != "path" && name != "host"
    ensures var q := P.VmessTransport(j, t);
            (name in q <==> name in j) && Agree(q, j, name)
  {
  }

  lemma VmessTransportRead(j: Query.Params, t: Transport)
    requires Query.Value(j, "net") == "tcp" && "path" !in j && "host" !in j
    ensures var q := P.VmessTransport(j, t);
            VmessTransport(Query.Value(q, "net"), Query.Value(q, "path"), Query.Value(q, "host")) == SaidTransport(t)
  {
  }

  function Extras(p: Proxy, name: Bytes): Query.Params
    requires p.Vmess?
  {
    P.VmessExtras(P.VmessBase(name, p.server, IntText(p.port), p.uuid, IntText(p.alterId),
                              if p.cipher == [] then "auto" else p.cipher),
                  p.tls, p.servername, p.fingerprint, Join<byte>(p.alpn, ','))
  }

  lemma VmessFieldsKeep(p: Proxy, name: Bytes, field: Bytes)
    requires p.Vmess? && field in ["ps", "add", "port", "id", "aid", "scy"]
    ensures var base := P.VmessBase(name, p.server, IntText(p.port), p.uuid, IntText(p.alterId),
                                    if p.cipher == [] then "auto" else p.cipher);
            var j := P.VmessFields(p, name);
            (field in j <==> field in base) && Agree(j, base, field)
  {
    var base := P.VmessBase(name, p.server, IntText(p.port), p.uuid, IntText(p.alterId),
                            if p.cipher == [] then "auto" else p.cipher);
    VmessExtrasKeep(base, p.tls, p.servername, p.fingerprint, Join<byte>(p.alpn, ','), field);
    VmessTransportKeeps(Extras(p, name), p.transport, field);
  }

  lemma VmessIdentityRead(p: Proxy, name: Bytes)
    requires p.Vmess?
    ensures var j := P.VmessFields(p, name);
            && Query.Value(j, "ps") == name && Query.Value(j, "add") == p.server && Query.Value(j, "id") == p.uuid
            && Query.Value(j, "scy") == OrElse(p.cipher, "auto")
  {
    VmessBaseRead(name, p.server, IntText(p.port), p.uuid, IntText(p.alterId),
                  if p.cipher == [] then "auto" else p.cipher);
    VmessFieldsKeep(p, name, "ps");
    VmessFieldsKeep(p, name, "add");
    VmessFieldsKeep(p, name, "id");
    VmessFieldsKeep(p, name, "scy");
  }

  lemma VmessNumbersRead(p: Proxy, name: Bytes)
    requires p.Vmess? && MIN_INT <= p.port <= MAX_INT && MIN_INT <= p.alterId <= MAX_INT
    ensures var j := Strings(P.VmessFields(p, name)); ToInt(At(j, "port")) == p.port && ToInt(At(j, "aid")) == p.alterId
  {
    VmessBaseRead(name, p.server, IntText(p.port), p.uuid, IntText(p.alterId),
                  if p.cipher == [] then "auto" else p.cipher);
    VmessFieldsKeep(p, name, "port");
    VmessFieldsKeep(p, name, "aid");
    IntRead(p.port);
    IntRead(p.alterId);
  }

  lemma VmessExtrasOf(p: Proxy, name: Bytes)
    requires p.Vmess?
    ensures var q := Extras(p, name);
            && Query.Value(q, "tls") == (if p.tls then "tls" else []) &&
               (p.tls ==> Query.Value(q, "sni") == p.servername)
            && Query.Value(q, "fp") == p.fingerprint && Query.Value(q, "alpn") == Join<byte>(p.alpn, ',')
            && "path" !in q && "host" !in q
  {
    hide P.VmessExtras, P.VmessBase, Query.Value, Join, IntText;
    var cipher: Bytes := if p.cipher == [] then "auto" else p.cipher;
    VmessBaseRead(name, p.server, IntText(p.port), p.uuid, IntText(p.alterId), cipher);
    VmessExtrasRead(P.VmessBase(name, p.server, IntText(p.port), p.uuid, IntText(p.alterId), cipher),
                    p.tls, p.servername, p.fingerprint, Join<byte>(p.alpn, ','));
  }

  lemma VmessOptionsRead(p: Proxy, name: Bytes)
    requires p.Vmess?
    ensures var j := P.VmessFields(p, name);
            && Query.Value(j, "tls") == (if p.tls then "tls" else []) &&
               (p.tls ==> Query.Value(j, "sni") == p.servername)
            && Query.Value(j, "fp") == p.fingerprint && Query.Value(j, "alpn") == Join<byte>(p.alpn, ',')
  {
    VmessExtrasOf(p, name);
    VmessTransportKeeps(Extras(p, name), p.transport, "tls");
    VmessTransportKeeps(Extras(p, name), p.transport, "sni");
    VmessTransportKeeps(Extras(p, name), p.transport, "fp");
    VmessTransportKeeps(Extras(p, name), p.transport, "alpn");
  }

  lemma VmessNetworkRead(p: Proxy, name: Bytes)
    requires p.Vmess?
    ensures var j := P.VmessFields(p, name);
            VmessTransport(Query.Value(j, "net"), Query.Value(j, "path"), Query.Value(j, "host")) ==
              SaidTransport(p.transport)
  {
    var cipher: Bytes := if p.cipher == [] then "auto" else p.cipher;
    var base := P.VmessBase(name, p.server, IntText(p.port), p.uuid, IntText(p.alterId), cipher);
    VmessBaseRead(name, p.server, IntText(p.port), p.uuid, IntText(p.alterId), cipher);
    VmessExtrasKeep(base, p.tls, p.servername, p.fingerprint, Join<byte>(p.alpn, ','), "net");
    VmessExtrasOf(p, name);
    VmessTransportRead(Extras(p, name), p.transport);
  }

  lemma VmessFieldsRead(p: Proxy, name: Bytes)
    requires p.Vmess? && MIN_INT <= p.port <= MAX_INT && MIN_INT <= p.alterId <= MAX_INT
    requires p.port != 0 && p.server != [] && p.uuid != []
    ensures VmessOf(Strings(P.VmessFields(p, name))) == Some(Link(name, Said(p)))
  {
    hide P.VmessFields, ParseAlpn, SaidTransport, VmessTransport, Str, ToInt, Atoi, Strings, At;
    var j := P.VmessFields(p, name);
    forall field
      ensures Str(At(Strings(j), field)) == Query.Value(j, field)
    {
      StrRead(j, field);
    }
    StrRead(j, "tls");
    VmessIdentityRead(p, name);
    VmessNumbersRead(p, name);
    VmessOptionsRead(p, name);
    VmessNetworkRead(p, name);
  }

  lemma VmessReads(lib: Lib, p: Proxy, name: Bytes)
    requires p.Vmess? && MIN_INT <= p.port <= MAX_INT && MIN_INT <= p.alterId <= MAX_INT
    requires p.port != 0 && p.server != [] && p.uuid != [] && JsonReads(lib, P.VmessFields(p, name))
    ensures ParseVmess(lib, P.BuildVmess(lib, p, name)) == Some(Link(name, Said(p)))
  {
    Base64.DecodeStd(lib.marshal(P.VmessFields(p, name)));
    VmessFieldsRead(p, name);
  }
}
