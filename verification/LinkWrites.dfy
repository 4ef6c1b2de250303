// What printed links say to other programs, including what this program's own parser ignores.
module LinkWrites {
  import opened Text
  import opened LinkTypes
  import P = LinkPrinter

  /** The network as a vmess object names it, and as a URL does. */
  function NetName(t: Transport): Bytes {
    match t
    case Ws(_, _) => "ws"
    case Grpc(_) => "grpc"
    case H2(_, _) => "h2"
    case _ => "tcp"
  }

  function TypeName(t: Transport): Bytes {
    if t.H2? then "http" else NetName(t)
  }

  lemma VmessBaseWrites(name: Bytes, server: Bytes, port: Bytes, uuid: Bytes, alterId: Bytes, cipher: Bytes)
    ensures var j := P.VmessBase(name, server, port, uuid, alterId, cipher);
            && "v" in j && j["v"] == "2" && "type" in j && j["type"] == "none" && "net" in j && j["net"] == "tcp"
            && "tls" !in j
  {
  }

  lemma VmessExtrasWrite(j: P.Params, tls: bool, sni: Bytes, fp: Bytes, alpn: Bytes)
    requires "v" in j && "type" in j && "net" in j && "tls" !in j
    ensures var k := P.VmessExtras(j, tls, sni, fp, alpn);
            && "v" in k && k["v"] == j["v"] && "type" in k && k["type"] == j["type"]
            && "net" in k && k["net"] == j["net"]
            && ("tls" in k <==> tls) && (tls ==> k["tls"] == "tls")
  {
  }

  lemma VmessTransportWrites(j: P.Params, t: Transport)
    requires "v" in j && "type" in j && "net" in j && j["net"] == "tcp"
    ensures var k := P.VmessTransport(j, t);
            && "v" in k && k["v"] == j["v"] && "type" in k && k["type"] == j["type"]
            && "net" in k && k["net"] == NetName(t)
            && ("tls" in k <==> "tls" in j) && ("tls" in j ==> k["tls"] == j["tls"])
  {
  }

  /** Version 2 of the object, without a header type, with its network, and with tls exactly if it has it. */
  lemma VmessWrites(p: Proxy, name: Bytes)
    requires p.Vmess?
    ensures var j := P.VmessFields(p, name);
            && "v" in j && j["v"] == "2" && "type" in j && j["type"] == "none"
            && "net" in j && j["net"] == NetName(p.transport)
            && ("tls" in j <==> p.tls) && (p.tls ==> j["tls"] == "tls")
  {
    hide P.VmessBase, P.VmessExtras, P.VmessTransport, IntText, Join;
    var cipher: Bytes := if p.cipher == [] then "auto" else p.cipher;
    var base := P.VmessBase(name, p.server, IntText(p.port), p.uuid, IntText(p.alterId), cipher);
    var alpn := Join<byte>(p.alpn, ',');
    VmessBaseWrites(name, p.server, IntText(p.port), p.uuid, IntText(p.alterId), cipher);
    VmessExtrasWrite(base, p.tls, p.servername, p.fingerprint, alpn);
    VmessTransportWrites(P.VmessExtras(base, p.tls, p.servername, p.fingerprint, alpn), p.transport);
  }

  lemma TransportWrites(t: Transport, q: P.Params)
    ensures var r := P.TransportQuery(t, q);
            && "type" in r && r["type"] == TypeName(t)
            && ("encryption" in q ==> "encryption" in r && r["encryption"] == q["encryption"])
            && ("security" in q ==> "security" in r && r["security"] == q["security"])
  {
  }

  lemma VlessParamsWrite(security: P.Params, sni: Bytes, flow: Bytes, fp: Bytes, insecure: bool, alpn: Bytes)
    requires "encryption" in security && "security" in security
    ensures var r := P.VlessParams(security, sni, flow, fp, insecure, alpn);
            && "encryption" in r && r["encryption"] == security["encryption"]
            && "security" in r && r["security"] == security["security"]
  {
  }

  /** No encryption of its own, the kind of security, and the network. */
  lemma VlessWrites(p: Proxy)
    requires p.Vless?
    ensures var q := P.VlessQuery(p);
            && "encryption" in q && q["encryption"] == "none"
            && "security" in q &&
               q["security"] == (if p.reality.Some? then "reality" else if p.tls then "tls" else "none")
            && "type" in q && q["type"] == TypeName(p.transport)
  {
    hide P.VlessParams, P.TransportQuery, Join;
    var security, alpn := P.SecurityQuery(p.tls, p.reality), Join<byte>(p.alpn, ',');
    VlessParamsWrite(security, p.servername, p.flow, p.fingerprint, p.insecure, alpn);
    TransportWrites(p.transport, P.VlessParams(security, p.servername, p.flow, p.fingerprint, p.insecure, alpn));
  }

  lemma TrojanWrites(p: Proxy)
    requires p.Trojan?
    ensures "type" in P.TrojanQuery(p) && P.TrojanQuery(p)["type"] == TypeName(p.transport)
  {
    hide P.TrojanParams, P.TransportQuery, Join;
    TransportWrites(p.transport, P.TrojanParams(p.sni, p.fingerprint, p.insecure, Join<byte>(p.alpn, ',')));
  }

  /** A password for hiding traffic is written only with the method that it belongs to. */
  lemma Hysteria2Writes(p: Proxy)
    requires p.Hysteria2?
    ensures var q := P.Hysteria2Query(p);
            && ("obfs" in q <==> p.obfs != [])
            && ("obfs-password" in q <==> p.obfs != [] && p.obfsPassword != [])
  {
    hide Join;
  }
}
