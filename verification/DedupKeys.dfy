// Which records the dedup key tells apart.
module DedupKeys {
  import opened Text
  import opened Decimal
  import opened LinkTypes
  import opened LinkParser
  import opened LinkProofs

  function NetworkOf(p: Proxy): Bytes {
    if p.SS? || p.Hysteria2? then p.network else Network(p.transport)
  }

  lemma NetworkNames(t: Transport)
    ensures t.NoNetwork? ==> Network(t) == ""
    ensures t.Ws? ==> Network(t) == "ws"
    ensures t.Grpc? ==> Network(t) == "grpc"
    ensures t.H2? ==> Network(t) == "h2"
    ensures t.OtherNetwork? ==> Network(t) == t.name
  {
  }

  ghost predicate SameType(p: Proxy, p': Proxy) {
    (p.SS? <==> p'.SS?) && (p.Vmess? <==> p'.Vmess?) && (p.Vless? <==> p'.Vless?) && (p.Trojan? <==> p'.Trojan?)
  }

  /** Cipher and password, or the uuid, or the password. */
  ghost predicate SameCredential(p: Proxy, p': Proxy)
    requires SameType(p, p')
  {
    match p
    case SS(_, _, cipher, password, _, _) => cipher == p'.cipher && password == p'.password
    case Vmess(_, _, uuid, _, _, _, _, _, _, _) => uuid == p'.uuid
    case Vless(_, _, uuid, _, _, _, _, _, _, _, _) => uuid == p'.uuid
    case Trojan(_, _, password, _, _, _, _, _) => password == p'.password
    case Hysteria2(_, _, password, _, _, _, _, _, _, _) => password == p'.password
  }

  ghost predicate SameNode(p: Proxy, p': Proxy) {
    && SameType(p, p') && p.server == p'.server && p.port == p'.port && NetworkOf(p) == NetworkOf(p')
    && SameCredential(p, p')
  }

  /** The separators of the key are not in the fields before them. */
  ghost predicate Separable(p: Proxy) {
    '|' !in p.server && '|' !in NetworkOf(p) && (p.SS? ==> ':' !in p.cipher)
  }

  // Taking a key apart

  lemma FirstParts<T>(a: seq<T>, c: T, x: seq<T>, a': seq<T>, x': seq<T>)
    requires c !in a && c !in a'
    ensures a + [c] + x == a' + [c] + x' <==> a == a' && x == x'
  {
    CutAt(a, c, x);
    CutAt(a', c, x');
  }

  lemma IntTextInjective(n: int, n': int)
    ensures IntText(n) == IntText(n') <==> n == n'
    ensures '|' !in IntText(n)
  {
    ItoaInjective(n, n');
    assert forall i | 0 <= i < |IntText(n)| :: IntText(n)[i] == '-' || '0' <= IntText(n)[i] <= '9';
  }

  lemma JoinFive(a: Bytes, b: Bytes, c: Bytes, d: Bytes, e: Bytes)
    ensures Join<byte>([a, b, c, d, e], '|') == a + ['|'] + (b + ['|'] + (c + ['|'] + (d + ['|'] + e)))
  {
    JoinCons<byte>(a, [b, c, d, e], '|');
    JoinCons<byte>(b, [c, d, e], '|');
    JoinCons<byte>(c, [d, e], '|');
    JoinCons<byte>(d, [e], '|');
    assert [a] + [b, c, d, e] == [a, b, c, d, e] && [b] + [c, d, e] == [b, c, d, e];
    assert [c] + [d, e] == [c, d, e] && [d] + [e] == [d, e];
  }

  lemma KeysAgree(typ: Bytes, server: Bytes, port: int, network: Bytes, auth: Bytes, typ': Bytes, server': Bytes,
                  port': int, network': Bytes, auth': Bytes)
    requires '|' !in typ && '|' !in server && '|' !in network && '|' !in typ' && '|' !in server' && '|' !in network'
    ensures KeyOf(typ, server, port, network, auth) == KeyOf(typ', server', port', network', auth') <==>
            typ == typ' && server == server' && port == port' && network == network' && auth == auth'
  {
    hide Join, IntText;
    var text, text' := IntText(port), IntText(port');
    IntTextInjective(port, port');
    IntTextInjective(port', port);
    JoinFive(typ, server, text, network, auth);
    JoinFive(typ', server', text', network', auth');
    var bar: byte := '|';
    FirstParts<byte>(typ, bar, server + [bar] + (text + [bar] + (network + [bar] + auth)), typ',
                     server' + [bar] + (text' + [bar] + (network' + [bar] + auth')));
    FirstParts<byte>(server, bar, text + [bar] + (network + [bar] + auth), server',
                     text' + [bar] + (network' + [bar] + auth'));
    FirstParts<byte>(text, bar, network + [bar] + auth, text', network' + [bar] + auth');
    FirstParts<byte>(network, bar, auth, network', auth');
  }

  function TypeName(p: Proxy): Bytes {
    if p.SS? then "ss" else if p.Vmess? then "vmess" else if p.Vless? then "vless"
    else if p.Trojan? then "trojan" else "hysteria2"
  }

  lemma TypeNames(p: Proxy, p': Proxy)
    ensures '|' !in TypeName(p) && (TypeName(p) == TypeName(p') <==> SameType(p, p'))
  {
    assert "ss"[0] == 's' && "vmess"[0] == 'v' && "vless"[0] == 'v' && "vmess"[1] == 'm' && "vless"[1] == 'l';
    assert "trojan"[0] == 't' && "hysteria2"[0] == 'h';
  }

  function Auth(p: Proxy): Bytes {
    match p
    case SS(_, _, cipher, password, _, _) => cipher + ":" + password
    case Vmess(_, _, uuid, _, _, _, _, _, _, _) => uuid
    case Vless(_, _, uuid, _, _, _, _, _, _, _, _) => uuid
    case Trojan(_, _, password, _, _, _, _, _) => password
    case Hysteria2(_, _, password, _, _, _, _, _, _, _) => password
  }

  lemma KeyParts(p: Proxy)
    ensures ClashKey(p) == KeyOf(TypeName(p), p.server, p.port, NetworkOf(p), Auth(p))
  {
    hide KeyOf;
  }

  lemma AuthAgrees(p: Proxy, p': Proxy)
    requires SameType(p, p') && (p.SS? ==> ':' !in p.cipher && ':' !in p'.cipher)
    ensures Auth(p) == Auth(p') <==> SameCredential(p, p')
  {
    if p.SS? {
      FirstParts<byte>(p.cipher, ':', p.password, p'.cipher, p'.password);
    }
  }

  /**
   * Two records have the same key exactly when they are the same node: type, server, port, network and
   * credential.
   */
  lemma KeyIdentifies(p: Proxy, p': Proxy)
    requires Separable(p) && Separable(p')
    ensures ClashKey(p) == ClashKey(p') <==> SameNode(p, p')
  {
    hide ClashKey, KeyOf, TypeName, Auth, NetworkOf, SameType, SameCredential;
    KeyParts(p);
    KeyParts(p');
    TypeNames(p, p');
    TypeNames(p', p);
    KeysAgree(TypeName(p), p.server, p.port, NetworkOf(p), Auth(p), TypeName(p'), p'.server, p'.port, NetworkOf(p'),
              Auth(p'));
    if SameType(p, p') {
      TypesAlike(p, p');
      AuthAgrees(p, p');
    }
  }

  lemma TypesAlike(p: Proxy, p': Proxy)
    requires SameType(p, p')
    ensures p.SS? <==> p'.SS?
  {
  }

  /** In particular another credential gives another key. */
  lemma OtherCredentialOtherKey(p: Proxy, p': Proxy)
    requires Separable(p) && Separable(p') && SameType(p, p') && !SameCredential(p, p')
    ensures ClashKey(p) != ClashKey(p')
  {
    hide ClashKey, Separable, SameCredential;
    KeyIdentifies(p, p');
  }

  /** So nodes from links are told apart, as long as their server names have no bar. */
  lemma ParsedKeysIdentify(lib: Lib, scheme: string, rest: Bytes, scheme': string, rest': Bytes)
    requires ParseLink(lib, scheme, rest).Some? && ParseLink(lib, scheme', rest').Some?
    requires '|' !in ParseLink(lib, scheme, rest).value.proxy.server
    requires '|' !in ParseLink(lib, scheme', rest').value.proxy.server
    ensures var p, p' := ParseLink(lib, scheme, rest).value.proxy, ParseLink(lib, scheme', rest').value.proxy;
            ClashKey(p) == ClashKey(p') <==> SameNode(p, p')
  {
    hide ParseLink, ClashKey, Separable, InRange, SameNode;
    var p, p' := ParseLink(lib, scheme, rest).value.proxy, ParseLink(lib, scheme', rest').value.proxy;
    ParsedInRange(lib, scheme, rest);
    ParsedInRange(lib, scheme', rest');
    ParsedSeparable(p);
    ParsedSeparable(p');
    KeyIdentifies(p, p');
  }

  lemma ParsedSeparable(p: Proxy)
    requires InRange(p) && '|' !in p.server
    ensures Separable(p)
  {
    if !p.SS? && !p.Hysteria2? {
      NetworkNames(p.transport);
      assert '|' !in "ws" && '|' !in "grpc" && '|' !in "h2";
    }
  }

  lemma PortText()
    ensures IntText(443) == "443"
  {
    assert Digits(44) == "44" by { assert Digits(4) == "4"; }
  }

  function PlainVmess(server: Bytes, uuid: Bytes): Proxy {
    Vmess(server, 443, uuid, 0, "auto", false, "", "", [], NoNetwork)
  }

  /** A bar in a server name can stand in for a separator: two different nodes with one key. */
  lemma BarsCollide()
    ensures var one, two := PlainVmess("h|443|", "u"), PlainVmess("h", "443||u");
            InRange(one) && InRange(two) && ClashKey(one) == ClashKey(two) && !SameNode(one, two)
  {
    hide IntText, Join;
    PortText();
    JoinFive("vmess", "h|443|", "443", "", "u");
    JoinFive("vmess", "h", "443", "", "443||u");
    var one: Bytes, two: Bytes := "h|443|" + "|" + ("443" + "|" + ("" + "|" + "u")),
      "h" + "|" + ("443" + "|" + ("" + "|" + "443||u"));
    assert one == "h|443||443||u" == two;
  }
}
