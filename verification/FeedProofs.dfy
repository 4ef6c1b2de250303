// A base64 feed parses back to its nodes.
module FeedProofs {
  import opened Wrappers
  import opened Text
  import opened LinkTypes
  import opened LinkParser
  import opened Feed
  import LinkReads
  import LinkRoundTrip
  import P = LinkPrinter
  import Base64
  import HostPort
  import Percent
  import Query
  import Url

  // Printed links as lines

  /** A server that does not end the line: only ss links print it unescaped. */
  predicate OneLine(p: Proxy) {
    p.SS? ==> '\n' !in p.server
  }

  lemma VisibleHas(s: Bytes, c: byte)
    requires AllVisible(s) && !Visible(c)
    ensures c !in s
  {
  }

  lemma SSRestLine(p: Proxy, name: Bytes)
    requires p.SS? && OneLine(p) && LinkReads.SSPort(p.port)
    ensures var rest := P.BuildSS(p, name); '\n' !in rest && rest != [] && Visible(rest[|rest| - 1])
  {
    var userinfo := Base64.EncodeRawUrl(p.cipher + [':'] + p.password);
    var query, fragment := P.PluginQuery(P.PluginText(p.plugin)), Percent.Escape(Percent.PathSegment, name);
    Base64.DecodeUrl(p.cipher + [':'] + p.password);
    VisibleHas(userinfo, '\n');
    Percent.EscapedVisible(Percent.PathSegment, name);
    VisibleHas(fragment, '\n');
    SSHostLine(p.server, p.port);
    PluginQueryLine(P.PluginText(p.plugin));
    SSLinkLine(userinfo, P.MapHostPort(p), query, fragment);
  }

  lemma SSHostLine(server: Bytes, port: int)
    requires '\n' !in server && LinkReads.SSPort(port)
    ensures '\n' !in HostPort.JoinHostPort(server, IntText(port))
  {
    var text := IntText(port);
    assert Decimal.AllDigits(text);
    assert forall i | 0 <= i < |text| :: text[i] != '\n';
  }

  lemma PluginQueryLine(text: Bytes)
    ensures '\n' !in P.PluginQuery(text)
  {
    Percent.EscapedVisible(Percent.QueryComponent, text);
    VisibleHas(Percent.Escape(Percent.QueryComponent, text), '\n');
  }

  lemma SSLinkLine(userinfo: Bytes, hostport: Bytes, query: Bytes, fragment: Bytes)
    requires '\n' !in userinfo && '\n' !in hostport && '\n' !in query && '\n' !in fragment && AllVisible(fragment)
    ensures var rest := P.SSLink(P.SSAddress(userinfo, hostport), query, fragment);
            '\n' !in rest && rest != [] && Visible(rest[|rest| - 1])
  {
    var rest := P.SSLink(P.SSAddress(userinfo, hostport), query, fragment);
    assert rest[|rest| - 1] == if fragment == [] then '#' else fragment[|fragment| - 1];
  }

  lemma StdRestLine(user: Bytes, p: Proxy, name: Bytes, q: Query.Params)
    ensures AllVisible(P.BuildStdURL(user, p, name, q))
  {
    Query.EncodedVisible(q);
    Url.PrintedVisible(user, P.MapHostPort(p), Query.Encode(q), name);
  }

  ghost predicate LineEnd(rest: Bytes) {
    '\n' !in rest && (rest != [] ==> Visible(rest[|rest| - 1]))
  }

  lemma RestLine(lib: Lib, p: Proxy, name: Bytes)
    requires LinkRoundTrip.Complete(p) && OneLine(p)
    ensures LineEnd(P.BuildRest(lib, p, name))
  {
    match p
    case SS(_, _, _, _, _, _) => SSRestLine(p, name);
    case Vmess(_, _, _, _, _, _, _, _, _, _) => Base64.DecodeStd(lib.marshal(P.VmessFields(p, name)));
    case Vless(_, _, uuid, _, _, _, _, _, _, _, _) => StdRestLine(uuid, p, name, P.VlessQuery(p));
    case Trojan(_, _, password, _, _, _, _, _) => StdRestLine(password, p, name, P.TrojanQuery(p));
    case Hysteria2(_, _, password, _, _, _, _, _, _, _) => StdRestLine(password, p, name, P.Hysteria2Query(p));
  }

  lemma {:induction false} SchemeFound(scheme: Bytes, rest: Bytes)
    requires ':' !in scheme
    ensures SchemeEnd(scheme + "://" + rest) == |scheme|
  {
    var line: Bytes := scheme + "://" + rest;
    if scheme != [] {
      assert line[0] == scheme[0] && line[1..] == scheme[1..] + "://" + rest;
      assert forall i | 0 <= i < |scheme[1..]| :: scheme[1..][i] == scheme[i + 1];
      SchemeFound(scheme[1..], rest);
    }
  }

  lemma EndsVisible(s: Bytes)
    requires s != [] && Visible(s[0]) && Visible(s[|s| - 1])
    ensures TrimBytes(s) == s && TrimSuffix<byte>(s, "\r") == s
  {
    hide TrimSpace;
    assert s[|s| - 1..][0] == s[|s| - 1];
    VisibleUnchanged(s);
  }

  lemma SchemeLetters(p: Proxy)
    ensures var s := P.SchemeOf(p); ':' !in s && '\n' !in s && s != [] && 'a' <= s[0] <= 'z'
  {
  }

  /** A built link is one trimmed line that starts with its scheme. */
  lemma BuiltLine(lib: Lib, p: Proxy, name: Bytes)
    requires LinkRoundTrip.Complete(p) && OneLine(p)
    ensures var line := P.BuildURI(lib, p, name);
            && TrimBytes(line) == line && TrimSuffix<byte>(line, "\r") == line && '\n' !in line
            && SchemeEnd(line) == |P.SchemeOf(p)| && !Ignored(line)
            && line[..SchemeEnd(line)] == P.SchemeOf(p) && line[SchemeEnd(line) + 3..] == P.BuildRest(lib, p, name)
  {
    RestLine(lib, p, name);
    SchemeLetters(p);
    Prefixed(P.SchemeOf(p), P.BuildRest(lib, p, name));
  }

  lemma Prefixed(scheme: Bytes, rest: Bytes)
    requires ':' !in scheme && '\n' !in scheme && scheme != [] && 'a' <= scheme[0] <= 'z' && LineEnd(rest)
    ensures var line: Bytes := scheme + "://" + rest;
            && TrimBytes(line) == line && TrimSuffix<byte>(line, "\r") == line && '\n' !in line
            && SchemeEnd(line) == |scheme| && !Ignored(line)
            && line[..SchemeEnd(line)] == scheme && line[SchemeEnd(line) + 3..] == rest
  {
    var line: Bytes := scheme + "://" + rest;
    SchemeFound(scheme, rest);
    assert line[|line| - 1] == if rest == [] then '/' else rest[|rest| - 1];
    EndsVisible(line);
  }

  // Nodes

  /** The node comes from a line of some subscription. */
  ghost predicate FromLine(lib: Lib, n: Node) {
    exists sub, line :: '\n' !in line && FromURI(lib, sub, line) == Some(n)
  }

  /** A record with a link form on one line; no ss parser gives other servers. */
  ghost predicate FromRecord(lib: Lib, n: Node) {
    && n.raw == [] && n.clash.Some? && n.key == ClashKey(n.clash.value)
    && LinkRoundTrip.Complete(n.clash.value) && OneLine(n.clash.value)
    && LinkRoundTrip.Faithful(lib, n.clash.value, n.name)
    && (n.clash.value.SS? ==> LinkRoundTrip.SSServer(n.clash.value.server))
  }

  ghost predicate Linkable(lib: Lib, n: Node) {
    FromLine(lib, n) || FromRecord(lib, n)
  }

  /** Links can express the server and the network of the record. */
  predicate Expressible(lib: Lib, p: Proxy) {
    LinkRoundTrip.ExpressibleServer(lib, p) && LinkRoundTrip.StandardNetwork(p)
  }

  /** The node that the line of a record parses to; a link that does not parse is passed through. */
  function RecordInFeed(lib: Lib, sub: Bytes, p: Proxy, name: Bytes): Node {
    var link, line := LinkRoundTrip.Reparsed(lib, p, name), P.BuildURI(lib, p, name);
    if link.None? then RawNode(sub, line)
    else Node(sub, link.value.name, ClashKey(link.value.proxy), Some(link.value.proxy), line)
  }

  /** What a node becomes in a feed. */
  function InFeed(lib: Lib, sub: Bytes, n: Node): Node {
    if n.raw != [] then n.(sub := sub)
    else if n.clash.None? then n
    else RecordInFeed(lib, sub, n.clash.value, n.name)
  }

  ghost predicate SameNameAndKey(n: Node, n': Node) {
    n.name == n'.name && n.key == n'.key
  }

  /** The line of a node parses to it. */
  ghost predicate LineBack(lib: Lib, sub: Bytes, n: Node) {
    var uri := URI(lib, n);
    && uri.Some? && '\n' !in uri.value && SchemeEnd(uri.value) >= 0
    && FromURI(lib, sub, TrimSuffix<byte>(uri.value, "\r")) == Some(InFeed(lib, sub, n))
  }

  /** A node remembers the line it came from, and does not depend on the sub otherwise. */
  lemma NodeIsOfLine(lib: Lib, from: Bytes, line: Bytes, sub: Bytes, n: Node)
    requires NodeOf(lib, from, line) == Some(n)
    ensures n.raw == line != [] && SchemeEnd(line) >= 0 && NodeOf(lib, sub, line) == Some(n.(sub := sub))
  {
    hide ParseLink, ClashKey, FragmentName, StripFragment;
  }

  lemma ReturnIsSpace(s: string)
    requires SpaceSuffixLen(s) == 0
    ensures s == [] || s[|s| - 1] != '\r'
  {
    if s != [] {
      assert s[|s| - 1..][0] == s[|s| - 1];
    }
  }

  lemma NoReturnAtEnd(line: Bytes)
    ensures var t := TrimBytes(line); TrimSuffix<byte>(t, "\r") == t && TrimBytes(t) == t
  {
    hide TrimSpace, SpaceLen, SpaceSuffixLen;
    var t := TrimBytes(line);
    TrimIdempotent(line);
    ReturnIsSpace(t);
    if t != [] {
      assert t[|t| - 1..][0] == t[|t| - 1];
    }
  }

  lemma RawBack(lib: Lib, from: Bytes, line: Bytes, sub: Bytes, n: Node)
    requires '\n' !in line && FromURI(lib, from, line) == Some(n)
    ensures LineBack(lib, sub, n) && n.raw != []
  {
    hide NodeOf, SchemeEnd, TrimSpace, SpaceLen, SpaceSuffixLen, HasSuffix, TrimSuffix;
    TrimmedChars(line);
    NodeIsOfLine(lib, from, TrimBytes(line), sub, n);
    NoReturnAtEnd(line);
  }

  lemma RecordBack(lib: Lib, sub: Bytes, n: Node)
    requires FromRecord(lib, n)
    ensures LineBack(lib, sub, n)
  {
    hide ParseLink, ClashKey, SchemeEnd, LinkRoundTrip.Complete, LinkRoundTrip.Faithful, P.BuildRest;
    BuiltLine(lib, n.clash.value, n.name);
  }

  lemma KeyStarts(p: Proxy)
    ensures ClashKey(p) != [] && ClashKey(p)[0] != 'r'
  {
    var typ, rest := P.SchemeOf(p), ClashKey(p);
    assert typ != [] && typ[0] != 'r';
  }

  /** Name and key of a record come back in a feed exactly when links can express its server and network. */
  lemma RecordKeptIff(lib: Lib, sub: Bytes, n: Node)
    requires FromRecord(lib, n)
    ensures SameNameAndKey(InFeed(lib, sub, n), n) <==> Expressible(lib, n.clash.value)
    ensures Expressible(lib, n.clash.value) ==> InFeed(lib, sub, n).clash == Some(LinkReads.Said(n.clash.value))
  {
    var p := n.clash.value;
    hide ClashKey, P.BuildRest, P.BuildURI, LinkRoundTrip.Reparsed, LinkRoundTrip.ExpressibleServer, LinkReads.Said,
      LinkRoundTrip.StandardNetwork, LinkRoundTrip.Complete, LinkRoundTrip.Faithful, LinkRoundTrip.SSServer;
    LinkRoundTrip.KeyKept(lib, p, n.name);
    if LinkRoundTrip.ExpressibleServer(lib, p) {
      LinkRoundTrip.PrintedParses(lib, p, n.name);
    } else {
      KeyStarts(p);
      assert RAW[0] == 'r';
    }
  }

  lemma NodeBack(lib: Lib, sub: Bytes, n: Node)
    requires Linkable(lib, n)
    ensures LineBack(lib, sub, n)
  {
    if FromRecord(lib, n) {
      RecordBack(lib, sub, n);
    } else {
      var from, line :| '\n' !in line && FromURI(lib, from, line) == Some(n);
      RawBack(lib, from, line, sub, n);
    }
  }

  // Whole feeds

  function AllInFeed(lib: Lib, sub: Bytes, nodes: seq<Node>): seq<Node> {
    seq(|nodes|, i requires 0 <= i < |nodes| => InFeed(lib, sub, nodes[i]))
  }

  lemma {:induction false} LinesAre(lib: Lib, nodes: seq<Node>)
    requires forall n | n in nodes :: URI(lib, n).Some?
    ensures |LinesFor(lib, nodes)| == |nodes|
    ensures forall i | 0 <= i < |nodes| :: URI(lib, nodes[i]) == Some(LinesFor(lib, nodes)[i])
  {
    if nodes != [] {
      LinesAre(lib, nodes[..|nodes| - 1]);
      assert nodes[|nodes| - 1] in nodes;
    }
  }

  lemma {:induction false} GatherAll(read: Bytes -> Option<Node>, lines: seq<Bytes>, nodes: seq<Node>)
    requires |lines| == |nodes| && forall i | 0 <= i < |lines| :: read(lines[i]) == Some(nodes[i])
    ensures Gather(read, lines) == nodes
  {
    if lines != [] {
      var k := |lines| - 1;
      GatherAll(read, lines[..k], nodes[..k]);
      assert nodes == nodes[..k] + [nodes[k]];
    }
  }

  lemma FeedLines(lib: Lib, sub: Bytes, nodes: seq<Node>)
    requires forall n | n in nodes :: LineBack(lib, sub, n)
    ensures |LinesFor(lib, nodes)| == |nodes|
    ensures forall i | 0 <= i < |nodes| :: '\n' !in LinesFor(lib, nodes)[i] && SchemeEnd(LinesFor(lib, nodes)[i]) >= 0
    ensures Gather(Reader(lib, sub), LinesFor(lib, nodes)) == AllInFeed(lib, sub, nodes)
  {
    LinesAre(lib, nodes);
    var lines, out := LinesFor(lib, nodes), AllInFeed(lib, sub, nodes);
    forall i | 0 <= i < |lines|
      ensures '\n' !in lines[i] && SchemeEnd(lines[i]) >= 0
      ensures Reader(lib, sub)(lines[i]) == Some(out[i])
    {
      assert LineBack(lib, sub, nodes[i]);
    }
    GatherAll(Reader(lib, sub), lines, out);
  }

  lemma {:induction false} SchemeStays(a: Bytes, b: Bytes)
    requires SchemeEnd(a) >= 0
    ensures SchemeEnd(a + b) >= 0
  {
    if !(a[0] == ':' && a[1] == '/' && a[2] == '/') {
      assert (a + b)[1..] == a[1..] + b;
      SchemeStays(a[1..], b);
    }
  }

  lemma JoinHasScheme(lines: seq<Bytes>)
    requires lines != [] && SchemeEnd(lines[0]) >= 0
    ensures SchemeEnd(Join<byte>(lines, '\n')) >= 0
  {
    if |lines| > 1 {
      SchemeStays(lines[0], ['\n'] + Join<byte>(lines[1..], '\n'));
      Associate<byte>(lines[0], ['\n'], Join<byte>(lines[1..], '\n'));
    }
  }

  lemma {:induction false} ContainsChars(s: Bytes, part: Bytes, c: byte)
    requires Contains(s, part) && c in part
    ensures c in s
  {
    if part <= s {
      var i :| 0 <= i < |part| && part[i] == c;
      assert s[i] == c;
    } else {
      ContainsChars(s[1..], part, c);
      assert s == [s[0]] + s[1..];
    }
  }

  lemma EncodedFeed(x: Bytes)
    requires SchemeEnd(x) >= 0
    ensures var text := Base64.Encode(x);
            TrimPrefix<byte>(text, BOM) == text && EncodedLinks(text) == Some(x) && !Contains(text, PROXIES)
  {
    var text := Base64.Encode(x);
    Base64.DecodeStd(x);
    Base64.StdAlphabet(x, ':');
    assert PROXIES[7] == ':';
    if Contains(text, PROXIES) {
      ContainsChars(text, PROXIES, ':');
    }
    assert text != [] ==> Visible(text[0]);
  }

  /**
   * Parsing the base64 feed of a non-empty list of linkable nodes, as base64 or with detection,
   * gives one node for each, in order. Nodes that came from links are identical apart from the
   * subscription name; any other has its name and key exactly when links can express its server and
   * network.
   */
  lemma FeedRoundTrip(lib: Lib, parseClash: Bytes -> Option<seq<Node>>, sub: Bytes, nodes: seq<Node>, format: Format)
    requires nodes != [] && (format == Base64Format || format == AutoFormat)
    requires forall n | n in nodes :: Linkable(lib, n)
    ensures var out := ParseContent(lib, parseClash, sub, RenderedFeed(lib, nodes), format);
            && out.Some? && |out.value| == |nodes|
            && (forall i | 0 <= i < |nodes| && nodes[i].raw != [] :: out.value[i] == nodes[i].(sub := sub))
            && (forall i | 0 <= i < |nodes| && nodes[i].raw == [] ::
                  nodes[i].clash.Some? &&
                  (SameNameAndKey(out.value[i], nodes[i]) <==> Expressible(lib, nodes[i].clash.value)))
  {
    hide Linkable, LineBack, InFeed, Expressible, SameNameAndKey;
    forall n | n in nodes
      ensures LineBack(lib, sub, n)
    {
      NodeBack(lib, sub, n);
    }
    FeedLines(lib, sub, nodes);
    FeedParses(lib, parseClash, sub, LinesFor(lib, nodes), AllInFeed(lib, sub, nodes), format);
    forall i | 0 <= i < |nodes|
      ensures var n := nodes[i];
              if n.raw != [] then AllInFeed(lib, sub, nodes)[i] == n.(sub := sub)
              else n.clash.Some? && (SameNameAndKey(AllInFeed(lib, sub, nodes)[i], n) <==>
                                     Expressible(lib, n.clash.value))
    {
      InFeedKeeps(lib, sub, nodes[i]);
    }
  }

  /** So names and keys of a whole feed come back exactly when links can express every record without a link. */
  lemma FeedKeptIff(lib: Lib, parseClash: Bytes -> Option<seq<Node>>, sub: Bytes, nodes: seq<Node>, format: Format)
    requires nodes != [] && (format == Base64Format || format == AutoFormat)
    requires forall n | n in nodes :: Linkable(lib, n)
    ensures var out := ParseContent(lib, parseClash, sub, RenderedFeed(lib, nodes), format);
            && out.Some? && |out.value| == |nodes|
            && ((forall i | 0 <= i < |nodes| :: SameNameAndKey(out.value[i], nodes[i])) <==>
                forall n | n in nodes && n.raw == [] :: n.clash.Some? && Expressible(lib, n.clash.value))
  {
    hide Linkable, Expressible, ParseContent, RenderedFeed;
    FeedRoundTrip(lib, parseClash, sub, nodes, format);
    assert forall i | 0 <= i < |nodes| :: nodes[i] in nodes;
  }

  lemma InFeedKeeps(lib: Lib, sub: Bytes, n: Node)
    requires Linkable(lib, n)
    ensures if n.raw != [] then InFeed(lib, sub, n) == n.(sub := sub)
            else n.clash.Some? && (SameNameAndKey(InFeed(lib, sub, n), n) <==> Expressible(lib, n.clash.value))
  {
    hide Expressible, SameNameAndKey, RecordInFeed;
    if FromRecord(lib, n) {
      RecordKeptIff(lib, sub, n);
    } else {
      var from, line :| '\n' !in line && FromURI(lib, from, line) == Some(n);
      RawBack(lib, from, line, sub, n);
    }
  }

  lemma FeedParses(lib: Lib, parseClash: Bytes -> Option<seq<Node>>, sub: Bytes, lines: seq<Bytes>, out: seq<Node>,
                   format: Format)
    requires lines != [] && out != [] && (format == Base64Format || format == AutoFormat)
    requires forall i | 0 <= i < |lines| :: '\n' !in lines[i] && SchemeEnd(lines[i]) >= 0
    requires Gather(Reader(lib, sub), lines) == out
    ensures ParseContent(lib, parseClash, sub, Base64.Encode(Join<byte>(lines, '\n')), format) == Some(out)
  {
    hide EncodedLinks, Contains, Join, Split, SchemeEnd, TrimPrefix, Reader, Gather, Base64.Encode;
    JoinHasScheme(lines);
    SplitJoin<byte>(lines, '\n');
    EncodedFeed(Join<byte>(lines, '\n'));
  }
}
