// The proxy records of internal/node, and what they take from libraries. A field that the record
// does not have is the empty text, as str reads it.
module LinkTypes {
  import opened Wrappers
  import opened Text
  import opened Decimal

  datatype Transport =
    | NoNetwork
    | Ws(path: Bytes, host: Bytes)
    | Grpc(service: Bytes)
    | H2(path: Bytes, host: Bytes)
    | OtherNetwork(name: Bytes)

  datatype Plugin =
    | NoPlugin
    | Obfs(mode: Bytes, host: Bytes)
    | V2ray(tls: bool, host: Bytes, path: Bytes)
    | OtherPlugin(name: Bytes)

  datatype Reality = Reality(publicKey: Bytes, shortId: Bytes)

  datatype Proxy =
    | SS(server: Bytes, port: int, cipher: Bytes, password: Bytes, plugin: Plugin, network: Bytes)
    | Vmess(server: Bytes, port: int, uuid: Bytes, alterId: int, cipher: Bytes, tls: bool, servername: Bytes,
        fingerprint: Bytes, alpn: seq<Bytes>, transport: Transport)
    | Vless(server: Bytes, port: int, uuid: Bytes, tls: bool, servername: Bytes, flow: Bytes, fingerprint: Bytes,
        reality: Option<Reality>, insecure: bool, alpn: seq<Bytes>, transport: Transport)
    | Trojan(server: Bytes, port: int, password: Bytes, sni: Bytes, fingerprint: Bytes, insecure: bool,
        alpn: seq<Bytes>, transport: Transport)
    | Hysteria2(server: Bytes, port: int, password: Bytes, sni: Bytes, insecure: bool, obfs: Bytes,
        obfsPassword: Bytes, ports: Bytes, alpn: seq<Bytes>, network: Bytes)

  /** A parsed link: the record and its "name" field. */
  datatype Link = Link(name: Bytes, proxy: Proxy)

  type int64 = n: int | MIN_INT <= n <= MAX_INT

  /** A field of a JSON object: its text for str, and its value for toInt. */
  datatype Field = Missing | Text(s: Bytes) | Flag(b: bool) | Other(text: Bytes, asInt: int64)

  type Object = map<Bytes, Field>

  /** What netip.ParseAddr takes for IPv6, json.Marshal of a map of strings, and json.Unmarshal. */
  datatype Lib = Lib(isIPv6: Bytes -> bool, marshal: map<Bytes, Bytes> -> Bytes, unmarshal: Bytes -> Option<Object>)

  function Strings(j: map<Bytes, Bytes>): Object {
    map k | k in j :: Field.Text(j[k])
  }

  /** The JSON text of these strings reads back as them. */
  ghost predicate JsonReads(lib: Lib, j: map<Bytes, Bytes>) {
    lib.unmarshal(lib.marshal(j)) == Some(Strings(j))
  }

  /** str(m["network"]). */
  function Network(t: Transport): Bytes {
    match t
    case NoNetwork => ""
    case Ws(_, _) => "ws"
    case Grpc(_) => "grpc"
    case H2(_, _) => "h2"
    case OtherNetwork(name) => name
  }

  function IntText(n: int): Bytes {
    assert forall i | 0 <= i < |Itoa(n)| :: Itoa(n)[i] as int < 256 by {
      assert AllDigits(Digits(if n < 0 then -n else n));
    }
    Itoa(n)
  }

  /** clashKey. */
  function ClashKey(p: Proxy): Bytes {
    match p
    case SS(server, port, cipher, password, _, network) =>
      KeyOf("ss", server, port, network, cipher + ":" + password)
    case Vmess(server, port, uuid, _, _, _, _, _, _, t) => KeyOf("vmess", server, port, Network(t), uuid)
    case Vless(server, port, uuid, _, _, _, _, _, _, _, t) => KeyOf("vless", server, port, Network(t), uuid)
    case Trojan(server, port, password, _, _, _, _, t) => KeyOf("trojan", server, port, Network(t), password)
    case Hysteria2(server, port, password, _, _, _, _, _, _, network) =>
      KeyOf("hysteria2", server, port, network, password)
  }

  function KeyOf(typ: Bytes, server: Bytes, port: int, network: Bytes, auth: Bytes): Bytes {
    Join<byte>([typ, server, IntText(port), network, auth], '|')
  }
}
