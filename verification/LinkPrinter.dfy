// internal/node/build.go: records to share links. A printer gives what follows "scheme://".
module LinkPrinter {
  import opened Wrappers
  import opened Text
  import opened Percent
  import opened LinkTypes
  import Base64
  import HostPort
  import Query
  import Url

  type Params = Query.Params

  /** q.Set of a field that is there. */
  function Put(q: Params, name: Bytes, value: Bytes): Params {
    if value == [] then q else q[name := value]
  }

  function PutIf(q: Params, name: Bytes, flag: bool): Params {
    if flag then q[name := "1"] else q
  }

  /** mapHostPort. */
  function MapHostPort(p: Proxy): Bytes {
    HostPort.JoinHostPort(p.server, IntText(p.port))
  }

  function OptionIf(name: Bytes, value: Bytes): seq<Bytes> {
    if value == [] then [] else [name + ['='] + value]
  }

  function PluginParts(plugin: Plugin): seq<Bytes> {
    match plugin
    case Obfs(mode, host) => ["obfs-local", "obfs" + ['='] + mode] + OptionIf("obfs-host", host)
    case V2ray(tls, host, path) =>
      ["v2ray-plugin"] + (if tls then ["tls"] else []) + OptionIf("host", host) + OptionIf("path", path)
    case _ => []
  }

  /** ssPluginString. */
  function PluginText(plugin: Plugin): Bytes {
    Join<byte>(PluginParts(plugin), ';')
  }

  const PLUGIN: Bytes := "plugin"

  function PluginQuery(text: Bytes): Bytes {
    if text == [] then [] else PLUGIN + ['='] + Escape(QueryComponent, text)
  }

  function SSAddress(userinfo: Bytes, hostport: Bytes): Bytes {
    userinfo + ['@'] + hostport
  }

  function SSLink(address: Bytes, query: Bytes, fragment: Bytes): Bytes {
    (if query == [] then address else address + ['?'] + query) + ['#'] + fragment
  }

  /** buildSS. */
  function BuildSS(p: Proxy, name: Bytes): Bytes
    requires p.SS?
  {
    SSLink(SSAddress(Base64.EncodeRawUrl(p.cipher + [':'] + p.password), MapHostPort(p)),
           PluginQuery(PluginText(p.plugin)),
           Escape(PathSegment, name))
  }

  function VmessTransport(j: Params, t: Transport): Params {
    match t
    case Ws(path, host) => Put(j["net" := "ws"]["path" := path], "host", host)
    case Grpc(service) => j["net" := "grpc"]["path" := service]
    case H2(path, host) => j["net" := "h2"]["path" := path]["host" := host]
    case _ => j
  }

  function VmessBase(name: Bytes, server: Bytes, port: Bytes, uuid: Bytes, alterId: Bytes, cipher: Bytes): Params {
    map["v" := "2", "ps" := name, "add" := server, "port" := port, "id" := uuid, "aid" := alterId, "scy" := cipher,
        "net" := "tcp", "type" := "none"]
  }

  function VmessExtras(j: Params, tls: bool, sni: Bytes, fp: Bytes, alpn: Bytes): Params {
    Put(Put(if tls then Put(j["tls" := "tls"], "sni", sni) else j, "fp", fp), "alpn", alpn)
  }

  /** The fields that buildVmess writes. */
  function VmessFields(p: Proxy, name: Bytes): Params
    requires p.Vmess?
  {
    var base := VmessBase(name, p.server, IntText(p.port), p.uuid, IntText(p.alterId),
                          if p.cipher == [] then "auto" else p.cipher);
    VmessTransport(VmessExtras(base, p.tls, p.servername, p.fingerprint, Join<byte>(p.alpn, ',')), p.transport)
  }

  /** buildVmess. */
  function BuildVmess(lib: Lib, p: Proxy, name: Bytes): Bytes
    requires p.Vmess?
  {
    Base64.Encode(lib.marshal(VmessFields(p, name)))
  }

  /** transportQuery. */
  function TransportQuery(t: Transport, q: Params): Params {
    match t
    case Ws(path, host) => Put(Put(q["type" := "ws"], "path", path), "host", host)
    case Grpc(service) => Put(q["type" := "grpc"], "serviceName", service)
    case H2(path, host) => Put(Put(q["type" := "http"], "path", path), "host", host)
    case _ => q["type" := "tcp"]
  }

  function SecurityQuery(tls: bool, reality: Option<Reality>): Params {
    var q: Params := map["encryption" := "none"];
    if reality.Some? then
      Put(q["security" := "reality"]["pbk" := reality.value.publicKey], "sid", reality.value.shortId)
    else if tls then q["security" := "tls"]
    else q["security" := "none"]
  }

  function VlessParams(security: Params, sni: Bytes, flow: Bytes, fp: Bytes, insecure: bool, alpn: Bytes): Params {
    Put(PutIf(Put(Put(Put(security, "sni", sni), "flow", flow), "fp", fp), "allowInsecure", insecure), "alpn", alpn)
  }

  /** vlessQuery. */
  function VlessQuery(p: Proxy): Params
    requires p.Vless?
  {
    TransportQuery(p.transport,
                   VlessParams(SecurityQuery(p.tls, p.reality), p.servername, p.flow, p.fingerprint, p.insecure,
                               Join<byte>(p.alpn, ',')))
  }

  function TrojanParams(sni: Bytes, fp: Bytes, insecure: bool, alpn: Bytes): Params {
    Put(PutIf(Put(Put(map[], "sni", sni), "fp", fp), "allowInsecure", insecure), "alpn", alpn)
  }

  /** trojanQuery. */
  function TrojanQuery(p: Proxy): Params
    requires p.Trojan?
  {
    TransportQuery(p.transport, TrojanParams(p.sni, p.fingerprint, p.insecure, Join<byte>(p.alpn, ',')))
  }

  function HiddenParams(obfs: Bytes, obfsPassword: Bytes): Params {
    if obfs == [] then map[] else Put(map["obfs" := obfs], "obfs-password", obfsPassword)
  }

  function Hysteria2Params(hidden: Params, sni: Bytes, insecure: bool, ports: Bytes, alpn: Bytes): Params {
    Put(Put(PutIf(Put(hidden, "sni", sni), "insecure", insecure), "mport", ports), "alpn", alpn)
  }

  /** hysteria2Query. */
  function Hysteria2Query(p: Proxy): Params
    requires p.Hysteria2?
  {
    Hysteria2Params(HiddenParams(p.obfs, p.obfsPassword), p.sni, p.insecure, p.ports, Join<byte>(p.alpn, ','))
  }

  /** buildStdURL. */
  function BuildStdURL(user: Bytes, p: Proxy, name: Bytes, q: Params): Bytes {
    Url.Print(user, MapHostPort(p), Query.Encode(q), name)
  }

  function SchemeOf(p: Proxy): Bytes {
    match p
    case SS(_, _, _, _, _, _) => "ss"
    case Vmess(_, _, _, _, _, _, _, _, _, _) => "vmess"
    case Vless(_, _, _, _, _, _, _, _, _, _, _) => "vless"
    case Trojan(_, _, _, _, _, _, _, _) => "trojan"
    case Hysteria2(_, _, _, _, _, _, _, _, _, _) => "hysteria2"
  }

  function BuildRest(lib: Lib, p: Proxy, name: Bytes): Bytes {
    match p
    case SS(_, _, _, _, _, _) => BuildSS(p, name)
    case Vmess(_, _, _, _, _, _, _, _, _, _) => BuildVmess(lib, p, name)
    case Vless(_, _, uuid, _, _, _, _, _, _, _, _) => BuildStdURL(uuid, p, name, VlessQuery(p))
    case Trojan(_, _, password, _, _, _, _, _) => BuildStdURL(password, p, name, TrojanQuery(p))
    case Hysteria2(_, _, password, _, _, _, _, _, _, _) => BuildStdURL(password, p, name, Hysteria2Query(p))
  }

  /** BuildURI. */
  function BuildURI(lib: Lib, p: Proxy, name: Bytes): Bytes {
    SchemeOf(p) + "://" + BuildRest(lib, p, name)
  }
}
