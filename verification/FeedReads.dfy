// What any line and any content of a subscription is read as.
module FeedReads {
  import opened Wrappers
  import opened Text
  import opened LinkTypes
  import opened LinkParser
  import opened LinkSpellings
  import opened Feed
  import Base64
  import LinkPrinter

  // One line

  predicate MarkAt(s: Bytes, i: int) {
    0 <= i && i + 3 <= |s| && s[i] == ':' && s[i + 1] == '/' && s[i + 2] == '/'
  }

  ghost predicate HasMark(s: Bytes) {
    exists i :: MarkAt(s, i)
  }

  /** What comes before and after the first mark. */
  ghost predicate Marked(line: Bytes, scheme: Bytes, rest: Bytes) {
    line == scheme + "://" + rest && forall i | 0 <= i < |scheme| :: !MarkAt(line, i)
  }

  lemma {:induction false} SchemeEndIs(s: Bytes)
    ensures SchemeEnd(s) >= 0 ==> MarkAt(s, SchemeEnd(s)) && forall i | 0 <= i < SchemeEnd(s) :: !MarkAt(s, i)
    ensures SchemeEnd(s) < 0 <==> !HasMark(s)
  {
    if |s| >= 3 {
      SchemeEndIs(s[1..]);
      assert forall i | i > 0 :: MarkAt(s, i) <==> MarkAt(s[1..], i - 1);
      if SchemeEnd(s[1..]) >= 0 { assert MarkAt(s, SchemeEnd(s[1..]) + 1); }
      if MarkAt(s, 0) { assert HasMark(s); }
      if i :| MarkAt(s, i) && i > 0 { assert MarkAt(s[1..], i - 1); }
    }
  }

  lemma MarkedIs(line: Bytes, scheme: Bytes, rest: Bytes)
    requires Marked(line, scheme, rest)
    ensures SchemeEnd(line) == |scheme| && line[..|scheme|] == scheme && line[|scheme| + 3..] == rest
  {
    SchemeEndIs(line);
    assert MarkAt(line, |scheme|);
  }

  /** A link that does not parse is named by its fragment and keyed by what comes before it. */
  ghost predicate PassedThrough(n: Node, line: Bytes) {
    exists body, fragment ::
      && line == body + After('#', fragment) && '#' !in Given(fragment) && (fragment.None? ==> '#' !in body)
      && n.key == "raw|" + body && n.name == if fragment.None? then [] else NameIn(fragment.value)
  }

  ghost predicate NodeFor(lib: Lib, n: Node, sub: Bytes, line: Bytes, link: Option<Link>) {
    && n.sub == sub && n.raw == line
    && (link.Some? ==> n.name == link.value.name && n.clash == Some(link.value.proxy))
    && (link.Some? ==> n.key == ClashKey(link.value.proxy))
    && (link.None? ==> n.clash.None? && PassedThrough(n, line))
  }

  ghost predicate Comment(line: Bytes) {
    line == [] || line[0] == '#' || "//" <= line
  }

  lemma RawPassedThrough(sub: Bytes, line: Bytes)
    ensures PassedThrough(RawNode(sub, line), line)
  {
    hide NameIn;
    var hash := LastIndexOf(line, '#');
    var body := if hash < 0 then line else line[..hash];
    var fragment := if hash < 0 then None else Some(line[hash + 1..]);
    assert line == body + After('#', fragment);
    assert RawNode(sub, line).key == "raw|" + body;
  }

  /**
   * Blank lines, comments and texts without "://" give nothing. Any other trimmed line gives the node of
   * the link after its first "://", by the scheme before it, or is passed through.
   */
  lemma LineReads(lib: Lib, sub: Bytes, line: Bytes, scheme: Bytes, rest: Bytes)
    ensures var t, n := TrimBytes(line), FromURI(lib, sub, line);
            && (n.None? <==> Comment(t) || !HasMark(t))
            && (n.Some? && Marked(t, scheme, rest) ==> NodeFor(lib, n.value, sub, t, ParseLink(lib, scheme, rest)))
  {
    hide TrimBytes, ParseLink, ClashKey, RawNode, PassedThrough, SchemeEnd, HasMark, Marked;
    var t := TrimBytes(line);
    SchemeEndIs(t);
    assert "//" <= t <==> |t| >= 2 && t[0] == '/' && t[1] == '/';
    if !Ignored(t) {
      RawPassedThrough(sub, t);
      RawFields(sub, t);
      if Marked(t, scheme, rest) { MarkedIs(t, scheme, rest); }
    }
  }

  lemma RawFields(sub: Bytes, line: Bytes)
    ensures var n := RawNode(sub, line); n.sub == sub && n.raw == line && n.clash.None?
  {
  }

  // All lines

  function Found(lib: Lib, sub: Bytes, line: Bytes): seq<Node> {
    var n := FromURI(lib, sub, TrimSuffix<byte>(line, "\r"));
    if n.Some? then [n.value] else []
  }

  function NodesIn(lib: Lib, sub: Bytes, text: Bytes): seq<Node> {
    var nodes := LinesOf(lib, sub, text);
    if nodes.Some? then nodes.value else []
  }

  lemma {:induction false} GatherNext(read: Bytes -> Option<Node>, lines: seq<Bytes>, line: Bytes)
    ensures Gather(read, lines + [line]) == Gather(read, lines) + (if read(line).Some? then [read(line).value] else [])
  {
    assert (lines + [line])[..|lines|] == lines;
  }

  /** The nodes of a text are those of its lines, in order, and it fails exactly if there are none. */
  lemma LinesRead(lib: Lib, sub: Bytes, text: Bytes, line: Bytes)
    requires '\n' !in line
    ensures NodesIn(lib, sub, line) == Found(lib, sub, line)
    ensures NodesIn(lib, sub, text + ['\n'] + line) == NodesIn(lib, sub, text) + Found(lib, sub, line)
    ensures LinesOf(lib, sub, text).Some? <==> NodesIn(lib, sub, text) != []
  {
    hide FromURI;
    var read := Reader(lib, sub);
    SplitConcat<byte>(text, '\n', line);
    assert Split<byte>(line, '\n') == [line];
    GatherNext(read, Split<byte>(text, '\n'), line);
    GatherNext(read, [], line);
    assert [] + [line] == [line];
  }

  // Content

  lemma {:induction false} ContainsIff(s: Bytes, part: Bytes)
    ensures Contains(s, part) <==> exists a: Bytes, b: Bytes :: s == a + part + b
  {
    if part <= s {
      assert s == [] + part + s[|part|..];
    } else if s != [] {
      ContainsIff(s[1..], part);
      if a: Bytes, b: Bytes :| s[1..] == a + part + b {
        assert s == [s[0]] + a + part + b;
      }
      if a: Bytes, b: Bytes :| s == a + part + b {
        assert a == [] ==> a + part + b == part + b && part <= s;
        assert s[1..] == a[1..] + part + b;
      }
    }
  }

  /** The text without a byte order mark. */
  ghost predicate Unmarked(data: Bytes, text: Bytes) {
    data == BOM + text || (data == text && !(BOM <= data))
  }

  ghost predicate HoldsLinks(text: Bytes, plain: Bytes) {
    Base64.Decode(text) == Some(plain) && HasMark(plain)
  }

  /**
   * The base64 format takes encoded links, and plain ones if there are none; detection tries a Clash
   * document first, if the text names its proxies, then encoded links, then plain ones.
   */
  lemma ContentReads(lib: Lib, parseClash: Bytes -> Option<seq<Node>>, sub: Bytes, data: Bytes, text: Bytes,
                     plain: Bytes)
    requires Unmarked(data, text)
    ensures ParseContent(lib, parseClash, sub, data, ClashFormat) == parseClash(text)
    ensures ParseContent(lib, parseClash, sub, data, RawFormat) == LinesOf(lib, sub, text)
    ensures HoldsLinks(text, plain) ==>
              ParseContent(lib, parseClash, sub, data, Base64Format) == LinesOf(lib, sub, plain)
    ensures (forall p :: !HoldsLinks(text, p)) ==>
              ParseContent(lib, parseClash, sub, data, Base64Format) == LinesOf(lib, sub, text)
    ensures var named := exists a: Bytes, b: Bytes :: text == a + "proxies:" + b;
            var r := ParseContent(lib, parseClash, sub, data, AutoFormat);
            && (named && parseClash(text).Some? ==> r == parseClash(text))
            && (!(named && parseClash(text).Some?) ==>
                  && (HoldsLinks(text, plain) ==> r == LinesOf(lib, sub, plain))
                  && ((forall p :: !HoldsLinks(text, p)) ==>
                        r == if HasMark(text) then LinesOf(lib, sub, text) else None))
  {
    hide LinesOf, Base64.Decode, HasMark, SchemeEnd, Contains;
    assert TrimPrefix<byte>(data, BOM) == text;
    ContainsIff(text, PROXIES);
    SchemeEndIs(text);
    var decoded := Base64.Decode(text);
    if decoded.Some? {
      SchemeEndIs(decoded.value);
      assert HasMark(decoded.value) ==> HoldsLinks(text, decoded.value);
    }
  }

  // Output

  /** A feed has the lines of its nodes in order: the raw link of a node, or one built from its record. */
  lemma FeedNext(lib: Lib, nodes: seq<Node>, n: Node)
    ensures LinesFor(lib, nodes + [n]) == LinesFor(lib, nodes) +
            if n.raw != [] then [n.raw]
            else if n.clash.Some? then [LinkPrinter.BuildURI(lib, n.clash.value, n.name)]
            else []
    ensures LinesFor(lib, []) == []
  {
    assert (nodes + [n])[..|nodes|] == nodes;
  }
}
