// What the link parsers produce: records in range, and settings that survive being printed.
module LinkProofs {
  import opened Text
  import opened Decimal
  import opened LinkTypes
  import opened LinkParser
  import opened LinkReads
  import P = LinkPrinter
  import Base64
  import HostPort
  import Query
  import Url

  // Records that parsers produce

  predicate TransportInRange(t: Transport) {
    (t.Ws? ==> t.path != []) && !t.OtherNetwork?
  }

  predicate AlpnInRange(alpn: seq<Bytes>) {
    forall part | part in alpn :: ',' !in part && TrimBytes(part) == part
  }

  predicate PluginInRange(plugin: Plugin) {
    match plugin
    case NoPlugin => true
    case Obfs(mode, host) => ';' !in mode && ';' !in host
    case V2ray(_, host, path) => ';' !in host && ';' !in path
    case OtherPlugin(_) => false
  }

  predicate InRange(p: Proxy) {
    match p
    case SS(server, port, cipher, _, plugin, network) =>
      && HostPort.NoBrackets(server) && '@' !in server && SSPort(port) && ':' !in cipher && PluginInRange(plugin)
      && network == []
    case Vmess(server, port, uuid, alterId, cipher, tls, servername, _, alpn, t) =>
      && server != [] && port != 0 && MIN_INT <= port <= MAX_INT && MIN_INT <= alterId <= MAX_INT && uuid != []
      && cipher != [] && (tls || servername == []) && AlpnInRange(alpn) && TransportInRange(t)
    case Vless(server, port, uuid, _, _, _, _, reality, _, alpn, t) =>
      && server != [] && PortInRange(port) && uuid != [] && (reality.Some? ==> reality.value.publicKey != [])
      && AlpnInRange(alpn) && TransportInRange(t)
    case Trojan(server, port, password, _, _, _, alpn, t) =>
      server != [] && PortInRange(port) && password != [] && AlpnInRange(alpn) && TransportInRange(t)
    case Hysteria2(server, port, _, _, _, obfs, obfsPassword, _, alpn, network) =>
      && server != [] && PortInRange(port) && (obfs == [] ==> obfsPassword == []) && AlpnInRange(alpn)
      && network == []
  }

  lemma {:induction false} OptionsPlain(parts: seq<Bytes>, name: Bytes)
    requires forall part | part in parts :: ';' !in part
    ensures ';' !in Query.Value(Options(parts), name)
  {
    if parts != [] {
      var n := |parts| - 1;
      assert parts[n] in parts;
      OptionsPlain(parts[..n], name);
    }
  }

  lemma ParsedPlugin(text: Bytes)
    ensures PluginInRange(ParsePlugin(text))
  {
    hide Options, Split;
    if text != [] {
      var parts := Split<byte>(text, ';');
      forall name
        ensures ';' !in Query.Value(Options(parts[1..]), name)
      {
        OptionsPlain(parts[1..], name);
      }
    }
  }

  lemma ParsedAlpn(s: Bytes)
    ensures AlpnInRange(ParseAlpn(s))
  {
    var parts := Split<byte>(s, ',');
    forall part | part in TrimAll(parts)
      ensures ',' !in part && TrimBytes(part) == part
    {
      var i :| 0 <= i < |parts| && part == TrimBytes(parts[i]);
      assert parts[i] in parts;
      TrimmedChars(parts[i]);
      TrimIdempotent(parts[i]);
    }
  }

  lemma ParsedTransport(get: Get)
    ensures TransportInRange(TransportIn(get))
  {
  }

  lemma ParsedSSOf(userinfo: Bytes, hostport: Bytes, plugin: Plugin)
    requires PluginInRange(plugin) && '@' !in hostport && SSOf(userinfo, hostport, plugin).Some?
    ensures InRange(SSOf(userinfo, hostport, plugin).value)
  {
    ParsedServer(hostport);
    ParsedCredentials(userinfo);
  }

  lemma ParsedCredentials(userinfo: Bytes)
    requires Credentials(userinfo).Some?
    ensures ':' !in Credentials(userinfo).value.0
  {
  }

  lemma ParsedAddress(address: Bytes, plugin: Plugin)
    requires PluginInRange(plugin) && ParseAddress(address, plugin).Some?
    ensures InRange(ParseAddress(address, plugin).value)
  {
    hide InRange, SSOf, PluginInRange, Base64.Decode;
    var plain := if '@' in address then address else Base64.Decode(address).value;
    var at := LastIndexOf(plain, '@');
    ParsedSSOf(plain[..at], plain[at + 1..], plugin);
  }

  lemma ParsedServer(hostport: Bytes)
    requires SplitServer(hostport).Some? && '@' !in hostport
    ensures var s := SplitServer(hostport).value; HostPort.NoBrackets(s.0) && '@' !in s.0 && SSPort(s.1)
  {
    var text := TrimSuffix<byte>(hostport, "/");
    assert forall k | 0 <= k < |text| :: text[k] == hostport[k];
    HostPort.SplitHasNoBrackets(text);
    HostPort.SplitHostChars(text);
  }

  lemma ParsedPluginIn(query: Bytes)
    ensures PluginInRange(PluginIn(query))
  {
    ParsedPlugin(Query.Get(Query.ParseQuery(query).params, "plugin"));
  }

  lemma ParsedSS(rest: Bytes)
    requires ParseSS(rest).Some?
    ensures InRange(ParseSS(rest).value.proxy)
  {
    var hash := LastIndexOf(rest, '#');
    var halves := Cut<byte>(if hash < 0 then rest else rest[..hash], '?');
    ParsedPluginIn(halves.after);
    ParsedAddress(halves.before, PluginIn(halves.after));
  }

  lemma ToIntRange(f: Field)
    ensures MIN_INT <= ToInt(f) <= MAX_INT
  {
    hide TrimSpace, DigitsValue, AllDigits;
  }

  lemma ParsedVmessTransport(net: Bytes, path: Bytes, host: Bytes)
    ensures TransportInRange(VmessTransport(net, path, host))
  {
  }

  lemma ParsedVmess(j: Object)
    requires VmessOf(j).Some?
    ensures InRange(VmessOf(j).value.proxy)
  {
    hide At, Str, ToInt, ToBool, VmessTransport, TransportInRange, ParseAlpn, AlpnInRange;
    ParsedAlpn(Str(At(j, "alpn")));
    ToIntRange(At(j, "port"));
    ToIntRange(At(j, "aid"));
    ParsedVmessTransport(Str(At(j, "net")), Str(At(j, "path")), Str(At(j, "host")));
  }

  lemma SplitPortDigits(host: Bytes)
    ensures AllDigits(Url.SplitPort(host).port)
  {
    hide LastIndexOf;
    var colon := LastIndexOf(host, ':');
    if colon >= 0 && Url.ValidOptionalPort(host[colon..]) {
      assert host[colon + 1..] == host[colon..][1..];
    }
  }

  lemma DigitsNotNegative(s: string)
    requires AllDigits(s)
    ensures 0 <= Atoi(s).value <= MAX_INT
  {
    hide DigitsValue;
  }

  lemma ParsedStd(lib: Lib, rest: Bytes)
    requires ParseStdURL(lib, rest).Some?
    ensures var std := ParseStdURL(lib, rest).value; std.host != [] && PortInRange(std.port)
  {
    hide Url.Parse, Url.SplitPort, AllDigits, Atoi;
    var host := Url.Parse(lib.isIPv6, rest).value.host;
    SplitPortDigits(host);
    DigitsNotNegative(Url.SplitPort(host).port);
  }

  lemma ParsedVless(server: Bytes, port: int, uuid: Bytes, get: Get)
    requires server != [] && PortInRange(port) && uuid != []
    ensures InRange(VlessOf(server, port, uuid, get))
  {
    ParsedAlpn(get("alpn"));
    ParsedTransport(get);
  }

  lemma ParsedTrojan(server: Bytes, port: int, password: Bytes, get: Get)
    requires server != [] && PortInRange(port) && password != []
    ensures InRange(TrojanOf(server, port, password, get))
  {
    ParsedAlpn(get("alpn"));
    ParsedTransport(get);
  }

  lemma ParsedHysteria2(server: Bytes, port: int, password: Bytes, get: Get)
    requires server != [] && PortInRange(port)
    ensures InRange(Hysteria2Of(server, port, password, get))
  {
    ParsedAlpn(get("alpn"));
  }

  /** What every parser guarantees of its records. */
  lemma ParsedInRange(lib: Lib, scheme: string, rest: Bytes)
    requires ParseLink(lib, scheme, rest).Some?
    ensures InRange(ParseLink(lib, scheme, rest).value.proxy)
  {
    hide InRange, ParseSS, VmessOf, ParseStdURL, VlessOf, TrojanOf, Hysteria2Of, Getter, Base64.Decode;
    var s := ToLower(scheme);
    if s == "ss" {
      ParsedSS(rest);
    } else if s == "vmess" {
      ParsedVmess(lib.unmarshal(Base64.Decode(rest).value).value);
    } else {
      ParsedStd(lib, rest);
      var std := ParseStdURL(lib, rest).value;
      if s == "vless" {
        ParsedVless(std.host, std.port, Username(std.url.user), Getter(std.url));
      } else if s == "trojan" {
        ParsedTrojan(std.host, std.port, UserinfoString(std.url.user), Getter(std.url));
      } else {
        ParsedHysteria2(std.host, std.port, UserinfoString(std.url.user), Getter(std.url));
      }
    }
  }

  // Which records a link can express

  lemma {:induction false} TrimAllKeeps(parts: seq<Bytes>)
    requires AlpnInRange(parts)
    ensures TrimAll(parts) == parts
  {
    forall i | 0 <= i < |parts|
      ensures TrimAll(parts)[i] == parts[i]
    {
      assert parts[i] in parts;
    }
  }

  /** An alpn list comes back unless it is one blank entry, which prints as no list at all. */
  lemma AlpnSaid(alpn: seq<Bytes>)
    requires AlpnInRange(alpn)
    ensures SaidAlpn(alpn) == alpn <==> alpn != [[]]
  {
    if alpn != [] && alpn != [[]] {
      SplitJoin<byte>(alpn, ',');
      TrimAllKeeps(alpn);
      assert |alpn| == 1 ==> alpn == [alpn[0]];
    }
  }

  lemma OptionRead(parts: seq<Bytes>, name: Bytes, value: Bytes)
    requires '=' !in name
    ensures Options(parts + [name + ['='] + value]) == Options(parts)[name := value]
  {
    var last := name + ['='] + value;
    CutAt<byte>(name, '=', value);
    assert (parts + [last])[..|parts|] == parts;
  }

  lemma OptionIfRead(parts: seq<Bytes>, name: Bytes, value: Bytes)
    requires '=' !in name
    ensures Options(parts + P.OptionIf(name, value)) == P.Put(Options(parts), name, value)
  {
    if value == [] {
      assert parts + [] == parts;
    } else {
      OptionRead(parts, name, value);
    }
  }

  lemma OptionLacks(name: Bytes, value: Bytes)
    requires ';' !in name && ';' !in value
    ensures ';' !in name + ['='] + value
  {
  }

  /** Parts without semicolons parse as they were written. */
  lemma PartsParse(name: Bytes, options: seq<Bytes>)
    requires name != [] && ';' !in name && forall part | part in options :: ';' !in part
    ensures ParsePlugin(Join<byte>([name] + options, ';')) == PluginOf(name, Options(options))
  {
    var parts := [name] + options;
    SplitJoin<byte>(parts, ';');
    assert parts[1..] == options;
  }

  ghost predicate ObfsOpts(opts: map<Bytes, Bytes>, mode: Bytes, host: Bytes) {
    Query.Value(opts, "obfs") == mode && Query.Value(opts, "obfs-host") == host
  }

  function ObfsOptions(mode: Bytes, host: Bytes): seq<Bytes> {
    ["obfs" + ['='] + mode] + P.OptionIf("obfs-host", host)
  }

  lemma ObfsOptionsRead(mode: Bytes, host: Bytes)
    requires ';' !in mode && ';' !in host
    ensures forall part | part in ObfsOptions(mode, host) :: ';' !in part
    ensures ObfsOpts(Options(ObfsOptions(mode, host)), mode, host)
  {
    OptionLacks("obfs", mode);
    OptionLacks("obfs-host", host);
    OptionRead([], "obfs", mode);
    assert [] + ["obfs" + ['='] + mode] == ["obfs" + ['='] + mode];
    OptionIfRead(["obfs" + ['='] + mode], "obfs-host", host);
  }

  lemma ObfsParts(mode: Bytes, host: Bytes)
    ensures P.PluginParts(Obfs(mode, host)) == ["obfs-local"] + ObfsOptions(mode, host)
  {
    assert ["obfs-local", "obfs" + ['='] + mode] == ["obfs-local"] + ["obfs" + ['='] + mode];
    Associate<Bytes>(["obfs-local"], ["obfs" + ['='] + mode], P.OptionIf("obfs-host", host));
  }

  lemma ObfsReads(mode: Bytes, host: Bytes)
    requires ';' !in mode && ';' !in host
    ensures ParsePlugin(P.PluginText(Obfs(mode, host))) == Obfs(mode, host)
  {
    hide Options, ObfsOptions, ParsePlugin;
    ObfsOptionsRead(mode, host);
    PartsParse("obfs-local", ObfsOptions(mode, host));
    ObfsParts(mode, host);
  }

  function Tls(tls: bool): seq<Bytes> {
    if tls then ["tls"] else []
  }

  lemma TlsRead(tls: bool)
    ensures Options(Tls(tls)) == if tls then map["tls" := []] else map[]
  {
    if tls {
      assert Tls(tls)[..0] == [];
      CutMissing<byte>("tls", '=');
    }
  }

  function V2rayOptions(tls: bool, host: Bytes, path: Bytes): seq<Bytes> {
    Tls(tls) + P.OptionIf("host", host) + P.OptionIf("path", path)
  }

  lemma V2rayOptionsLack(tls: bool, host: Bytes, path: Bytes)
    requires ';' !in host && ';' !in path
    ensures forall part | part in V2rayOptions(tls, host, path) :: ';' !in part
  {
    OptionLacks("host", host);
    OptionLacks("path", path);
    assert ';' !in "tls";
  }

  ghost predicate V2rayOpts(opts: map<Bytes, Bytes>, tls: bool, host: Bytes, path: Bytes) {
    ("tls" in opts <==> tls) && Query.Value(opts, "host") == host && Query.Value(opts, "path") == path
  }

  lemma PutsRead(tls: bool, host: Bytes, path: Bytes)
    ensures V2rayOpts(P.Put(P.Put(if tls then map["tls" := []] else map[], "host", host), "path", path), tls, host,
                      path)
  {
  }

  lemma V2rayOptionsRead(tls: bool, host: Bytes, path: Bytes)
    ensures V2rayOpts(Options(V2rayOptions(tls, host, path)), tls, host, path)
  {
    hide Options, P.Put, P.OptionIf, V2rayOpts;
    TlsRead(tls);
    OptionIfRead(Tls(tls), "host", host);
    OptionIfRead(Tls(tls) + P.OptionIf("host", host), "path", path);
    PutsRead(tls, host, path);
  }

  lemma V2rayParts(tls: bool, host: Bytes, path: Bytes)
    ensures P.PluginParts(V2ray(tls, host, path)) == ["v2ray-plugin"] + V2rayOptions(tls, host, path)
  {
    Associate<Bytes>(["v2ray-plugin"], Tls(tls), P.OptionIf("host", host));
    Associate<Bytes>(["v2ray-plugin"], Tls(tls) + P.OptionIf("host", host), P.OptionIf("path", path));
  }

  lemma V2rayOf(opts: map<Bytes, Bytes>)
    ensures PluginOf("v2ray-plugin", opts) == V2ray("tls" in opts, Query.Value(opts, "host"), Query.Value(opts, "path"))
  {
    assert "v2ray-plugin"[0] == 'v' && "obfs-local"[0] == 'o' && "simple-obfs"[0] == 's' && "obfs"[0] == 'o';
  }

  lemma V2rayReads(tls: bool, host: Bytes, path: Bytes)
    requires ';' !in host && ';' !in path
    ensures ParsePlugin(P.PluginText(V2ray(tls, host, path))) == V2ray(tls, host, path)
  {
    var name: Bytes, options := "v2ray-plugin", V2rayOptions(tls, host, path);
    V2rayOptionsLack(tls, host, path);
    PartsParse(name, options);
    V2rayParts(tls, host, path);
    hide Options;
    V2rayOf(Options(options));
    V2rayOptionsRead(tls, host, path);
  }

  lemma PluginSaid(plugin: Plugin)
    requires PluginInRange(plugin)
    ensures ParsePlugin(P.PluginText(plugin)) == plugin
  {
    match plugin
    case Obfs(mode, host) => ObfsReads(mode, host);
    case V2ray(tls, host, path) => V2rayReads(tls, host, path);
    case NoPlugin =>
  }
}
