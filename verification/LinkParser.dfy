// internal/node/uri.go: share links to records. A parser gets what follows "scheme://" and fails
// where the source returns an error.
module LinkParser {
  import opened Wrappers
  import opened Text
  import opened Decimal
  import opened Percent
  import opened LinkTypes
  import Base64
  import HostPort
  import Query
  import Url

  function OrElse(a: Bytes, b: Bytes): Bytes {
    if a != [] then a else b
  }

  // ss

  /** splitHostPort. */
  function SplitServer(hostport: Bytes): Option<(Bytes, int)> {
    var a := HostPort.SplitHostPort(TrimSuffix<byte>(hostport, "/"));
    if a.None? then None
    else
      var port := Atoi(a.value.port);
      if port.ok && 1 <= port.value <= 65535 then Some((a.value.host, port.value)) else None
  }

  /** Method and password: base64, or else percent-encoded. */
  function Credentials(userinfo: Bytes): Option<(Bytes, Bytes)> {
    var decoded := Base64.Decode(userinfo);
    var unescaped := Unescape(PathSegment, userinfo);
    var text := if decoded.Some? && ':' in decoded.value then decoded.value
                else if unescaped.Some? then unescaped.value
                else userinfo;
    var halves := Cut<byte>(text, ':');
    if halves.found then Some((halves.before, halves.after)) else None
  }

  /** The options of a plugin; a later one replaces an earlier one of the same name. */
  function Options(parts: seq<Bytes>): map<Bytes, Bytes> {
    if parts == [] then map[]
    else
      var option := Cut<byte>(parts[|parts| - 1], '=');
      Options(parts[..|parts| - 1])[option.before := option.after]
  }

  /** The plugin settings that applySSPlugin makes of the options. */
  function PluginOf(name: Bytes, opts: map<Bytes, Bytes>): Plugin {
    if name in ["obfs-local", "simple-obfs", "obfs"] then
      Obfs(Query.Value(opts, "obfs"), Query.Value(opts, "obfs-host"))
    else if name == "v2ray-plugin" then
      V2ray("tls" in opts, Query.Value(opts, "host"), Query.Value(opts, "path"))
    else NoPlugin
  }

  function ParsePlugin(plugin: Bytes): Plugin {
    if plugin == [] then NoPlugin
    else
      var parts := Split<byte>(plugin, ';');
      PluginOf(parts[0], Options(parts[1..]))
  }

  /** applySSPlugin. */
  method ApplySSPlugin(plugin: Bytes) returns (p: Plugin)
    ensures p == ParsePlugin(plugin)
  {
    if plugin == [] { return NoPlugin; }
    var parts := Split<byte>(plugin, ';');
    var opts: map<Bytes, Bytes> := map[];
    for i := 1 to |parts|
      invariant opts == Options(parts[1..i])
    {
      assert parts[1..i + 1][..i - 1] == parts[1..i];
      var option := Cut<byte>(parts[i], '=');
      opts := opts[option.before := option.after];
    }
    assert parts[1..|parts|] == parts[1..];
    p := PluginOf(parts[0], opts);
  }

  function PluginIn(query: Bytes): Plugin {
    var q := Query.ParseQuery(query);
    if q.ok then ParsePlugin(Query.Get(q.params, "plugin")) else NoPlugin
  }

  function SSOf(userinfo: Bytes, hostport: Bytes, plugin: Plugin): Option<Proxy> {
    var credentials, server := Credentials(userinfo), SplitServer(hostport);
    if credentials.None? || server.None? then None
    else Some(SS(server.value.0, server.value.1, credentials.value.0, credentials.value.1, plugin, ""))
  }

  /** An ss address: userinfo@host:port, or all of it in base64. */
  function ParseAddress(address: Bytes, plugin: Plugin): Option<Proxy> {
    var plain := if '@' in address then Some(address) else Base64.Decode(address);
    if plain.None? || '@' !in plain.value then None
    else
      var at := LastIndexOf(plain.value, '@');
      SSOf(plain.value[..at], plain.value[at + 1..], plugin)
  }

  function NameIn(fragment: Bytes): Bytes {
    var name := Unescape(PathSegment, fragment);
    if name.Some? then name.value else []
  }

  /** parseSS. */
  function ParseSS(rest: Bytes): Option<Link> {
    var hash := LastIndexOf(rest, '#');
    var name := if hash < 0 then [] else NameIn(rest[hash + 1..]);
    var halves := Cut<byte>(if hash < 0 then rest else rest[..hash], '?');
    var proxy := ParseAddress(halves.before, PluginIn(halves.after));
    if proxy.None? then None else Some(Link(name, proxy.value))
  }

  // vmess

  function At(j: Object, name: Bytes): Field {
    if name in j then j[name] else Missing
  }

  /** str. */
  function Str(f: Field): Bytes {
    match f
    case Missing => ""
    case Text(s) => s
    case Flag(b) => if b then "true" else "false"
    case Other(text, _) => text
  }

  /** toInt; an int64 for any text. */
  function ToInt(f: Field): int {
    match f
    case Text(s) => Atoi(TrimSpace(s)).value
    case Other(_, n) => n
    case _ => 0
  }

  /** toBool. */
  predicate ToBool(f: Field) {
    match f
    case Flag(b) => b
    case Text(s) => s == "true" || s == "1" || s == "tls"
    case _ => false
  }

  function TrimAll(parts: seq<Bytes>): seq<Bytes> {
    seq(|parts|, i requires 0 <= i < |parts| => TrimBytes(parts[i]))
  }

  /** splitList of a list that is there. */
  function ParseAlpn(s: Bytes): seq<Bytes> {
    if s == [] then [] else TrimAll(Split<byte>(s, ','))
  }

  method SplitList(s: Bytes) returns (parts: seq<Bytes>)
    ensures s != [] ==> parts == ParseAlpn(s)
    ensures parts == TrimAll(Split<byte>(s, ','))
  {
    hide TrimBytes, Split;
    parts := Split<byte>(s, ',');
    ghost var given := parts;
    for i := 0 to |parts|
      invariant |parts| == |given| && parts[i..] == given[i..]
      invariant forall k | 0 <= k < i :: parts[k] == TrimBytes(given[k])
    {
      assert parts[i] == parts[i..][0];
      parts := parts[i := TrimBytes(parts[i])];
      assert parts[i + 1..] == given[i..][1..];
    }
  }

  function WsOf(path: Bytes, host: Bytes): Transport {
    Ws(OrElse(path, "/"), host)
  }

  function VmessTransport(net: Bytes, path: Bytes, host: Bytes): Transport {
    if net == "ws" then WsOf(path, host)
    else if net == "grpc" then Grpc(path)
    else if net == "h2" || net == "http" then H2(path, host)
    else NoNetwork
  }

  function VmessOf(j: Object): Option<Link> {
    var server, port, uuid := Str(At(j, "add")), ToInt(At(j, "port")), Str(At(j, "id"));
    if server == [] || port == 0 || uuid == [] then None
    else
      var tls := ToBool(At(j, "tls"));
      var transport := VmessTransport(Str(At(j, "net")), Str(At(j, "path")), Str(At(j, "host")));
      Some(Link(Str(At(j, "ps")),
                Vmess(server, port, uuid, ToInt(At(j, "aid")), OrElse(Str(At(j, "scy")), "auto"), tls,
                      if tls then Str(At(j, "sni")) else [], Str(At(j, "fp")), ParseAlpn(Str(At(j, "alpn"))),
                        transport)))
  }

  /** parseVmess. */
  function ParseVmess(lib: Lib, rest: Bytes): Option<Link> {
    var decoded := Base64.Decode(rest);
    if decoded.None? then None
    else
      var j := lib.unmarshal(decoded.value);
      if j.None? then None else VmessOf(j.value)
  }

  // vless, trojan, hysteria2

  /** A parsed URL with its host and port: parseStdURL. */
  datatype Std = Std(url: Url.Url, host: Bytes, port: int)

  function ParseStdURL(lib: Lib, rest: Bytes): Option<Std> {
    var url := Url.Parse(lib.isIPv6, rest);
    if url.None? then None
    else
      var a := Url.SplitPort(url.value.host);
      var port := Atoi(a.port);
      if !port.ok || a.host == [] then None else Some(Std(url.value, a.host, port.value))
  }

  function Username(user: Url.Userinfo): Bytes {
    if user.NoUser? then [] else user.name
  }

  /** userinfoString. */
  function UserinfoString(user: Url.Userinfo): Bytes {
    if user.UserPassword? then user.name + ":" + user.password else Username(user)
  }

  type Get = Bytes -> Bytes

  function Getter(u: Url.Url): Get {
    name => Query.Get(Query.ParseQuery(u.query).params, name)
  }

  predicate Yes(s: Bytes) {
    s == "1" || s == "true"
  }

  /** applyTransport. */
  function TransportIn(get: Get): Transport {
    if get("type") == "ws" then WsOf(get("path"), get("host"))
    else if get("type") == "grpc" then Grpc(OrElse(get("serviceName"), get("path")))
    else if get("type") == "h2" || get("type") == "http" then H2(get("path"), get("host"))
    else NoNetwork
  }

  function RealityIn(get: Get): Option<Reality> {
    if get("pbk") == [] then None else Some(Reality(get("pbk"), get("sid")))
  }

  function VlessOf(server: Bytes, port: int, uuid: Bytes, get: Get): Proxy {
    Vless(server, port, uuid, get("security") == "tls" || get("security") == "reality", get("sni"), get("flow"),
          get("fp"), RealityIn(get), Yes(get("allowInsecure")), ParseAlpn(get("alpn")), TransportIn(get))
  }

  function TrojanOf(server: Bytes, port: int, password: Bytes, get: Get): Proxy {
    Trojan(server, port, password, OrElse(get("sni"), get("peer")), get("fp"), Yes(get("allowInsecure")),
           ParseAlpn(get("alpn")), TransportIn(get))
  }

  function Hysteria2Of(server: Bytes, port: int, password: Bytes, get: Get): Proxy {
    Hysteria2(server, port, password, get("sni"), Yes(get("insecure")), get("obfs"),
              if get("obfs") == [] then [] else get("obfs-password"), OrElse(get("mport"), get("ports")),
              ParseAlpn(get("alpn")), "")
  }

  /** parseVless. */
  function ParseVless(lib: Lib, rest: Bytes): Option<Link> {
    var std := ParseStdURL(lib, rest);
    if std.None? || Username(std.value.url.user) == [] then None
    else
      var u := std.value.url;
      Some(Link(u.fragment, VlessOf(std.value.host, std.value.port, Username(u.user), Getter(u))))
  }

  /** parseTrojan. */
  function ParseTrojan(lib: Lib, rest: Bytes): Option<Link> {
    var std := ParseStdURL(lib, rest);
    if std.None? || UserinfoString(std.value.url.user) == [] then None
    else
      var u := std.value.url;
      Some(Link(u.fragment, TrojanOf(std.value.host, std.value.port, UserinfoString(u.user), Getter(u))))
  }

  /** parseHysteria2. */
  function ParseHysteria2(lib: Lib, rest: Bytes): Option<Link> {
    var std := ParseStdURL(lib, rest);
    if std.None? then None
    else
      var u := std.value.url;
      Some(Link(u.fragment, Hysteria2Of(std.value.host, std.value.port, UserinfoString(u.user), Getter(u))))
  }

  /** The parser for a scheme, in any case; None for an unsupported one too. */
  function ParseLink(lib: Lib, scheme: string, rest: Bytes): Option<Link> {
    var s := ToLower(scheme);
    if s == "ss" then ParseSS(rest)
    else if s == "vmess" then ParseVmess(lib, rest)
    else if s == "vless" then ParseVless(lib, rest)
    else if s == "trojan" then ParseTrojan(lib, rest)
    else if s == "hysteria2" || s == "hy2" then ParseHysteria2(lib, rest)
    else None
  }
}
