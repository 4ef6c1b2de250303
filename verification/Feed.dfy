// internal/node/parse.go and node.go, and the base64 output of internal/agg/store.go: nodes from
// subscription lines and back.
module Feed {
  import opened Wrappers
  import opened Text
  import opened LinkTypes
  import opened LinkParser
  import LinkPrinter
  import Base64

  /** A node has a link, a record or both. */
  datatype Node = Node(sub: Bytes, name: Bytes, key: Bytes, clash: Option<Proxy>, raw: Bytes)

  /** strings.Index of "://". */
  function SchemeEnd(s: Bytes): (i: int)
    ensures -1 <= i && (i >= 0 ==> i + 3 <= |s|)
  {
    if |s| < 3 then -1
    else if s[0] == ':' && s[1] == '/' && s[2] == '/' then 0
    else
      var i := SchemeEnd(s[1..]);
      if i < 0 then -1 else i + 1
  }

  function StripFragment(s: Bytes): Bytes {
    var i := LastIndexOf(s, '#');
    if i < 0 then s else s[..i]
  }

  function FragmentName(s: Bytes): Bytes {
    var i := LastIndexOf(s, '#');
    if i < 0 then [] else NameIn(s[i + 1..])
  }

  const RAW: Bytes := "raw|"

  function RawNode(sub: Bytes, line: Bytes): Node {
    Node(sub, FragmentName(line), RAW + StripFragment(line), None, line)
  }

  predicate Ignored(line: Bytes) {
    line == [] || line[0] == '#' || (|line| >= 2 && line[0] == '/' && line[1] == '/') || SchemeEnd(line) < 0
  }

  /** The node of a trimmed line; a link that does not parse is passed through. */
  function NodeOf(lib: Lib, sub: Bytes, line: Bytes): Option<Node> {
    if Ignored(line) then None
    else
      var i := SchemeEnd(line);
      var link := ParseLink(lib, line[..i], line[i + 3..]);
      if link.None? then Some(RawNode(sub, line))
      else Some(Node(sub, link.value.name, ClashKey(link.value.proxy), Some(link.value.proxy), line))
  }

  /** FromURI. */
  function FromURI(lib: Lib, sub: Bytes, line: Bytes): Option<Node> {
    NodeOf(lib, sub, TrimBytes(line))
  }

  /** Node.URI, for records with a link form. */
  function URI(lib: Lib, n: Node): Option<Bytes> {
    if n.raw != [] then Some(n.raw)
    else if n.clash.Some? then Some(LinkPrinter.BuildURI(lib, n.clash.value, n.name))
    else None
  }

  // Parsing content

  function Gather(read: Bytes -> Option<Node>, lines: seq<Bytes>): seq<Node> {
    if lines == [] then []
    else
      var front, n := Gather(read, lines[..|lines| - 1]), read(lines[|lines| - 1]);
      if n.Some? then front + [n.value] else front
  }

  function Reader(lib: Lib, sub: Bytes): Bytes -> Option<Node> {
    line => FromURI(lib, sub, TrimSuffix<byte>(line, "\r"))
  }

  /** What parseLines finds; it fails on no nodes. */
  function LinesOf(lib: Lib, sub: Bytes, text: Bytes): Option<seq<Node>> {
    var nodes := Gather(Reader(lib, sub), Split<byte>(text, '\n'));
    if nodes == [] then None else Some(nodes)
  }

  /** parseLines. */
  method ParseLines(lib: Lib, sub: Bytes, text: Bytes) returns (r: Option<seq<Node>>)
    ensures r == LinesOf(lib, sub, text)
  {
    hide FromURI, Split, Reader;
    var lines := Split<byte>(text, '\n');
    var read := Reader(lib, sub);
    var nodes: seq<Node> := [];
    for i := 0 to |lines|
      invariant nodes == Gather(read, lines[..i])
    {
      assert lines[..i + 1][..i] == lines[..i];
      var n := read(lines[i]);
      if n.Some? { nodes := nodes + [n.value]; }
    }
    assert lines[..|lines|] == lines;
    r := if nodes == [] then None else Some(nodes);
  }

  datatype Format = ClashFormat | Base64Format | RawFormat | AutoFormat

  predicate Contains(s: Bytes, part: Bytes) {
    part <= s || (s != [] && Contains(s[1..], part))
  }

  const PROXIES: Bytes := "proxies:"
  const BOM: Bytes := "\U{EF}\U{BB}\U{BF}"

  /** The links behind a base64 text. */
  function EncodedLinks(text: Bytes): Option<Bytes> {
    var plain := Base64.Decode(text);
    if plain.Some? && SchemeEnd(plain.value) >= 0 then plain else None
  }

  /** ParseContent, given the parser of Clash documents. */
  function ParseContent(lib: Lib, parseClash: Bytes -> Option<seq<Node>>, sub: Bytes, data: Bytes, format: Format)
    : Option<seq<Node>>
  {
    var text := TrimPrefix<byte>(data, BOM);
    var links := EncodedLinks(text);
    match format
    case ClashFormat => parseClash(text)
    case Base64Format => LinesOf(lib, sub, if links.Some? then links.value else text)
    case RawFormat => LinesOf(lib, sub, text)
    case AutoFormat =>
      if Contains(text, PROXIES) && parseClash(text).Some? then parseClash(text)
      else if links.Some? then LinesOf(lib, sub, links.value)
      else if SchemeEnd(text) >= 0 then LinesOf(lib, sub, text)
      else None
  }

  // Rendering

  function LinesFor(lib: Lib, nodes: seq<Node>): seq<Bytes> {
    if nodes == [] then []
    else
      var front := LinesFor(lib, nodes[..|nodes| - 1]);
      var uri := URI(lib, nodes[|nodes| - 1]);
      if uri.Some? then front + [uri.value] else front
  }

  function RenderedFeed(lib: Lib, nodes: seq<Node>): Bytes {
    Base64.Encode(Join<byte>(LinesFor(lib, nodes), '\n'))
  }

  /** render, to base64. */
  method RenderFeed(lib: Lib, nodes: seq<Node>) returns (data: Bytes)
    ensures data == RenderedFeed(lib, nodes)
  {
    var lines: seq<Bytes> := [];
    for i := 0 to |nodes|
      invariant lines == LinesFor(lib, nodes[..i])
    {
      assert nodes[..i + 1][..i] == nodes[..i];
      var uri := URI(lib, nodes[i]);
      if uri.Some? { lines := lines + [uri.value]; }
    }
    assert nodes[..|nodes|] == nodes;
    data := Base64.Encode(Join<byte>(lines, '\n'));
  }
}
