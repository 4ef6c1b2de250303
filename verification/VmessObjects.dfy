// What parseVmess makes of any JSON object, whichever program printed it: a relation between the
// fields of the object and the record, and that the parser computes exactly it.
module VmessObjects {
  import opened Wrappers
  import opened Text
  import opened Decimal
  import opened LinkTypes
  import opened LinkParser

  // Fields

  /** The text of a field: as it is, as JSON writes it, and nothing for a missing one. */
  ghost predicate Shows(j: Object, name: Bytes, text: Bytes) {
    if name !in j || j[name].Missing? then text == []
    else if j[name].Text? then text == j[name].s
    else if j[name].Flag? then text == if j[name].b then "true" else "false"
    else text == j[name].text
  }

  /** The number of a field: a JSON number, or a text that is a numeral between white space; 0 for any other. */
  ghost predicate Counts(j: Object, name: Bytes, n: int) {
    if name in j && j[name].Other? then n == j[name].asInt
    else if name in j && j[name].Text? && IsNumeral(TrimSpace(j[name].s)) then Rounds(TrimSpace(j[name].s), n)
    else n == 0
  }

  ghost predicate IsNumeral(s: string) {
    exists n: int :: Numeral(s, n)
  }

  /** The int64 nearest to what the numeral says. */
  ghost predicate Rounds(s: string, n: int) {
    exists m: int :: Numeral(s, m) && n == if m > MAX_INT then MAX_INT else if m < MIN_INT then MIN_INT else m
  }

  /** true, "true", "1" or "tls". */
  ghost predicate Asks(j: Object, name: Bytes) {
    name in j && (j[name] == Flag(true) || (j[name].Text? && j[name].s in ["true", "1", "tls"]))
  }

  /** The entries between the commas, without surrounding white space. */
  ghost predicate Lists(text: Bytes, alpn: seq<Bytes>) {
    if text == [] then alpn == []
    else exists parts :: Join<byte>(parts, ',') == text && Entries(parts, alpn)
  }

  ghost predicate Entries(parts: seq<Bytes>, alpn: seq<Bytes>) {
    && parts != [] && (forall part | part in parts :: ',' !in part)
    && |alpn| == |parts| && forall i | 0 <= i < |parts| :: alpn[i] == TrimSpace(parts[i])
  }

  /** The transport that a link names, with these fields. */
  ghost predicate Carries(t: Transport, net: Bytes, path: Bytes, host: Bytes, service: Bytes) {
    && (t.Ws? <==> net == "ws") && (t.Ws? ==> t.host == host && t.path == if path == [] then "/" else path)
    && (t.Grpc? <==> net == "grpc") && (t.Grpc? ==> t.service == service)
    && (t.H2? <==> net == "h2" || net == "http") && (t.H2? ==> t.path == path && t.host == host)
    && !t.OtherNetwork?
  }

  ghost predicate CarriesFrom(j: Object, t: Transport) {
    exists net, path, host ::
      && Shows(j, "net", net) && Shows(j, "path", path) && Shows(j, "host", host)
      && Carries(t, net, path, host, path)
  }

  /** The link is what the object says. */
  ghost predicate Describes(j: Object, link: Link) {
    var p := link.proxy;
    && p.Vmess? && Shows(j, "ps", link.name)
    && Shows(j, "add", p.server) && Counts(j, "port", p.port) && Shows(j, "id", p.uuid)
    && Counts(j, "aid", p.alterId)
    && (if Shows(j, "scy", []) then p.cipher == "auto" else Shows(j, "scy", p.cipher))
    && (p.tls <==> Asks(j, "tls")) && (if p.tls then Shows(j, "sni", p.servername) else p.servername == [])
    && Shows(j, "fp", p.fingerprint)
    && (exists text :: Shows(j, "alpn", text) && Lists(text, p.alpn))
    && CarriesFrom(j, p.transport)
  }

  // The parser's readings

  lemma StrShows(j: Object, name: Bytes, text: Bytes)
    ensures Shows(j, name, text) <==> Str(At(j, name)) == text
  {
  }

  lemma ToIntCounts(j: Object, name: Bytes, n: int)
    ensures Counts(j, name, n) <==> ToInt(At(j, name)) == n
  {
    hide TrimSpace, Numeral, Atoi;
    if name in j && j[name].Text? {
      AtoiReads(TrimSpace(j[name].s));
    }
  }

  lemma ToBoolAsks(j: Object, name: Bytes)
    ensures Asks(j, name) <==> ToBool(At(j, name))
  {
  }

  lemma AlpnLists(text: Bytes, alpn: seq<Bytes>)
    ensures Lists(text, alpn) <==> ParseAlpn(text) == alpn
  {
    hide Split, Join, TrimSpace;
    if text != [] {
      var parts := Split<byte>(text, ',');
      JoinSplit<byte>(text, ',');
      assert Entries(parts, ParseAlpn(text));
      if Lists(text, alpn) {
        var given :| Join<byte>(given, ',') == text && Entries(given, alpn);
        SplitJoin<byte>(given, ',');
        assert TrimAll(given) == alpn;
      }
    }
  }

  lemma TransportCarries(t: Transport, net: Bytes, path: Bytes, host: Bytes)
    ensures Carries(t, net, path, host, path) <==> VmessTransport(net, path, host) == t
  {
  }

  lemma TransportCarried(j: Object, t: Transport)
    ensures CarriesFrom(j, t) <==>
            VmessTransport(Str(At(j, "net")), Str(At(j, "path")), Str(At(j, "host"))) == t
  {
    hide Shows, Carries, VmessTransport, Str, At;
    var net, path, host := Str(At(j, "net")), Str(At(j, "path")), Str(At(j, "host"));
    StrShows(j, "net", net);
    StrShows(j, "path", path);
    StrShows(j, "host", host);
    TransportCarries(t, net, path, host);
    if CarriesFrom(j, t) {
      var net', path', host' :| Shows(j, "net", net') && Shows(j, "path", path') && Shows(j, "host", host') &&
        Carries(t, net', path', host', path');
      StrShows(j, "net", net');
      StrShows(j, "path", path');
      StrShows(j, "host", host');
    }
  }

  lemma AlpnCarried(j: Object, alpn: seq<Bytes>)
    ensures (exists text :: Shows(j, "alpn", text) && Lists(text, alpn)) <==> ParseAlpn(Str(At(j, "alpn"))) == alpn
  {
    hide Shows, Lists, ParseAlpn, Str, At;
    var text := Str(At(j, "alpn"));
    StrShows(j, "alpn", text);
    AlpnLists(text, alpn);
    if text' :| Shows(j, "alpn", text') && Lists(text', alpn) {
      StrShows(j, "alpn", text');
    }
  }

  /**
   * An object parses exactly when it has a server, an id and a port other than 0, and then to the one
   * link that it describes.
   */
  lemma VmessReadsObject(j: Object, link: Link)
    ensures VmessOf(j) == Some(link) <==>
            Describes(j, link) && link.proxy.server != [] && link.proxy.port != 0 && link.proxy.uuid != []
    ensures VmessOf(j).None? <==> Shows(j, "add", []) || Counts(j, "port", 0) || Shows(j, "id", [])
  {
    hide Shows, Counts, Asks, Lists, CarriesFrom, Str, At, ToInt, ToBool, ParseAlpn, VmessTransport;
    StrShows(j, "add", []);
    StrShows(j, "id", []);
    ToIntCounts(j, "port", 0);
    StrShows(j, "scy", []);
    ToBoolAsks(j, "tls");
    if link.proxy.Vmess? {
      var p := link.proxy;
      StrShows(j, "ps", link.name);
      StrShows(j, "add", p.server);
      ToIntCounts(j, "port", p.port);
      StrShows(j, "id", p.uuid);
      ToIntCounts(j, "aid", p.alterId);
      StrShows(j, "scy", p.cipher);
      StrShows(j, "sni", p.servername);
      StrShows(j, "fp", p.fingerprint);
      AlpnCarried(j, p.alpn);
      TransportCarried(j, p.transport);
    }
  }

  ghost predicate SameTexts(j: Object, j': Object) {
    && At(j, "add") == At(j', "add") && At(j, "id") == At(j', "id") && At(j, "ps") == At(j', "ps")
    && At(j, "scy") == At(j', "scy") && At(j, "tls") == At(j', "tls") && At(j, "sni") == At(j', "sni")
    && At(j, "fp") == At(j', "fp") && At(j, "alpn") == At(j', "alpn") && At(j, "net") == At(j', "net")
    && At(j, "path") == At(j', "path") && At(j, "host") == At(j', "host")
  }

  lemma ReadsAlike(j: Object, j': Object)
    requires SameTexts(j, j')
    requires ToInt(At(j, "port")) == ToInt(At(j', "port")) && ToInt(At(j, "aid")) == ToInt(At(j', "aid"))
    ensures VmessOf(j) == VmessOf(j')
  {
    hide Str, ToBool, ParseAlpn, VmessTransport, ToInt, At;
  }

  lemma NumbersApart(j: Object, name: Bytes, f: Field, f': Field)
    requires name == "port" || name == "aid"
    ensures SameTexts(j[name := f], j[name := f'])
  {
    assert "alpn"[0] == 'a' && "path"[1] == 'a' && "host"[0] == 'h' && "add"[1] == 'd';
    assert "scy"[0] == 's' && "tls"[0] == 't' && "sni"[0] == 's' && "net"[0] == 'n';
    assert "port"[0] == 'p' && "port"[1] == 'o' && "aid"[0] == 'a' && "aid"[1] == 'i';
  }

  lemma NumberReads(text: Bytes, n: int64)
    ensures ToInt(Other(text, n)) == n && ToInt(Field.Text(IntText(n))) == n
  {
    AtoiItoa(n);
    var s := IntText(n);
    VisibleUnchanged(s);
  }

  /** A number reads the same whether it is a JSON number or its decimal text. */
  lemma NumberAsText(j: Object, name: Bytes, text: Bytes, n: int64)
    requires name == "port" || name == "aid"
    ensures VmessOf(j[name := Other(text, n)]) == VmessOf(j[name := Field.Text(IntText(n))])
  {
    hide VmessOf, ToInt, IntText, SameTexts;
    NumberReads(text, n);
    NumbersApart(j, name, Other(text, n), Field.Text(IntText(n)));
    ReadsAlike(j[name := Other(text, n)], j[name := Field.Text(IntText(n))]);
  }
}
