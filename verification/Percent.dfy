// Percent-encoding (section 2.1 of RFC 3986) as Go's net/url does it, part by part of a URL.
module Percent {
  import opened Wrappers
  import opened Text

  datatype Mode = Path | PathSegment | Host | Zone | UserPassword | QueryComponent | Fragment

  predicate AlphaNum(c: char) {
    'a' <= c <= 'z' || 'A' <= c <= 'Z' || '0' <= c <= '9'
  }

  /** shouldEscape: whether a part of a URL cannot hold the byte as it is. */
  predicate ShouldEscape(c: char, mode: Mode) {
    if AlphaNum(c) || c in "-_.~" then false
    else
      match mode
      case Path => c !in "$&+,/:;=@"
      case PathSegment => c !in "$&+:=@"
      case Host => c !in "!$&'()*+,;=:[]<>\""
      case Zone => c !in "!$&'()*+,;=:[]<>\""
      case UserPassword => c !in "$&+,;="
      case QueryComponent => true
      case Fragment => c !in "$&+,/:;=?@!()*"
  }

  function HexDigit(n: nat): byte
    requires n < 16
  {
    if n < 10 then '0' + n as char else 'A' + (n - 10) as char
  }

  function Unhex(c: char): (v: Option<nat>)
    ensures v.Some? ==> v.value < 16
  {
    if '0' <= c <= '9' then Some(c as int - '0' as int)
    else if 'a' <= c <= 'f' then Some(c as int - 'a' as int + 10)
    else if 'A' <= c <= 'F' then Some(c as int - 'A' as int + 10)
    else None
  }

  function EscapeByte(mode: Mode, c: byte): Bytes {
    if c == ' ' && mode.QueryComponent? then "+"
    else if ShouldEscape(c, mode) then ['%', HexDigit(c as int / 16), HexDigit(c as int % 16)]
    else [c]
  }

  function Escape(mode: Mode, s: Bytes): Bytes {
    if s == [] then [] else EscapeByte(mode, s[0]) + Escape(mode, s[1..])
  }

  /** Whether a part of a URL may hold this byte percent-encoded. */
  predicate MayBeEscaped(c: char, mode: Mode) {
    match mode
    case Host => c as int >= 0x80 || c == '%'
    case Zone => c == '%' || c == ' ' || !ShouldEscape(c, Host)
    case _ => true
  }

  /** Whether a part of a URL may hold this byte as it is. */
  predicate MayBeRaw(c: char, mode: Mode) {
    if mode.Host? || mode.Zone? then c as int >= 0x80 || !ShouldEscape(c, mode) else true
  }

  function Prepend(c: byte, rest: Option<Bytes>): Option<Bytes> {
    if rest.None? then None else Some([c] + rest.value)
  }

  /** unescape. */
  function Unescape(mode: Mode, s: Bytes): Option<Bytes> {
    if s == [] then Some([])
    else if s[0] == '%' then
      if |s| < 3 || Unhex(s[1]).None? || Unhex(s[2]).None? then None
      else
        var c := (Unhex(s[1]).value * 16 + Unhex(s[2]).value) as char;
        if MayBeEscaped(c, mode) then Prepend(c, Unescape(mode, s[3..])) else None
    else if s[0] == '+' && mode.QueryComponent? then Prepend(' ', Unescape(mode, s[1..]))
    else if MayBeRaw(s[0], mode) then Prepend(s[0], Unescape(mode, s[1..]))
    else None
  }

  /** Whether the byte, once escaped, can be read back. */
  predicate Readable(c: char, mode: Mode) {
    match mode
    case Host => c as int >= 0x80 || c == '%' || !ShouldEscape(c, Host)
    case Zone => c == '%' || c == ' ' || !ShouldEscape(c, Host)
    case _ => true
  }

  predicate AllReadable(s: Bytes, mode: Mode) {
    forall i | 0 <= i < |s| :: Readable(s[i], mode)
  }

  /** Zones are escaped as a part of the host. */
  function Written(mode: Mode): Mode {
    if mode.Zone? then Host else mode
  }

  lemma HexRoundTrip(n: nat)
    requires n < 16
    ensures Unhex(HexDigit(n)) == Some(n)
  {
  }

  lemma UnescapeByte(mode: Mode, c: byte, rest: Bytes)
    ensures Unescape(mode, EscapeByte(Written(mode), c) + rest) ==
            if Readable(c, mode) then Prepend(c, Unescape(mode, rest)) else None
  {
    hide HexDigit, Unhex;
    var out := EscapeByte(Written(mode), c);
    var s := out + rest;
    if |out| == 3 {
      HexRoundTrip(c as int / 16);
      HexRoundTrip(c as int % 16);
      assert s[3..] == rest;
    } else {
      assert s[1..] == rest;
    }
  }

  /** Unescaping reads back every text whose bytes are readable in that part of a URL, and no other. */
  lemma {:induction false} UnescapeEscaped(mode: Mode, s: Bytes)
    ensures Unescape(mode, Escape(Written(mode), s)) == if AllReadable(s, mode) then Some(s) else None
  {
    if s != [] {
      UnescapeByte(mode, s[0], Escape(Written(mode), s[1..]));
      UnescapeEscaped(mode, s[1..]);
      assert s == [s[0]] + s[1..];
      assert forall i | 1 <= i < |s| :: s[i] == s[1..][i - 1];
      assert forall i | 0 <= i < |s[1..]| :: s[1..][i] == s[i + 1];
    }
  }

  /** What can occur in an escaped text. */
  predicate Clean(c: char, mode: Mode) {
    c == '%' || !ShouldEscape(c, mode) || (c == '+' && mode.QueryComponent?)
  }

  lemma {:induction false} EscapedIsClean(mode: Mode, s: Bytes)
    ensures forall i | 0 <= i < |Escape(mode, s)| :: Clean(Escape(mode, s)[i], mode)
  {
    if s != [] {
      EscapedIsClean(mode, s[1..]);
      var head, rest := EscapeByte(mode, s[0]), Escape(mode, s[1..]);
      assert forall i | 0 <= i < |head| :: Clean(head[i], mode);
      assert forall i | |head| <= i < |head + rest| :: (head + rest)[i] == rest[i - |head|];
    }
  }

  lemma EscapedLacks(mode: Mode, s: Bytes, c: char)
    requires !Clean(c, mode)
    ensures c !in Escape(mode, s)
  {
    EscapedIsClean(mode, s);
  }

  lemma EscapedVisible(mode: Mode, s: Bytes)
    ensures AllVisible(Escape(mode, s))
  {
    EscapedIsClean(mode, s);
  }

  // Which bytes are written as they are

  /** Letters, digits and -_.~ anywhere, and the delimiters that a part of a URL may hold. */
  ghost predicate Verbatim(c: char, mode: Mode) {
    || 'a' <= c <= 'z' || 'A' <= c <= 'Z' || '0' <= c <= '9' || c in {'-', '_', '.', '~'}
    || (c in {'$', '&', '+', ':', '=', '@'} && (mode.PathSegment? || mode.Path? || mode.Fragment?))
    || (c in {'$', '&', '+', ',', ';', '='} && mode.UserPassword?)
    || (c in {',', '/', ';'} && (mode.Path? || mode.Fragment?))
    || (c in {'?', '!', '(', ')', '*'} && mode.Fragment?)
    || (c in {'!', '$', '&', '\'', '(', ')', '*', '+', ',', ';', '=', ':', '[', ']', '<', '>', '"'} &&
        (mode.Host? || mode.Zone?))
  }

  lemma VerbatimIff(c: char, mode: Mode)
    ensures Verbatim(c, mode) <==> !ShouldEscape(c, mode)
  {
  }

  /** The byte by its two hexadecimal digits. */
  ghost predicate Encoded(c: byte, e: Bytes) {
    |e| == 3 && e[0] == '%' && e[1] == "0123456789ABCDEF"[c as int / 16] && e[2] == "0123456789ABCDEF"[c as int % 16]
  }

  lemma HexDigitIs(n: nat)
    requires n < 16
    ensures HexDigit(n) == "0123456789ABCDEF"[n]
  {
  }

  lemma ByteEscapes(mode: Mode, c: byte)
    ensures Verbatim(c, mode) ==> EscapeByte(mode, c) == [c]
    ensures !Verbatim(c, mode) && c == ' ' && mode.QueryComponent? ==> EscapeByte(mode, c) == "+"
    ensures !Verbatim(c, mode) && !(c == ' ' && mode.QueryComponent?) ==> Encoded(c, EscapeByte(mode, c))
  {
    hide Verbatim, ShouldEscape, HexDigit;
    VerbatimIff(c, mode);
    VerbatimIff(' ', mode);
    HexDigitIs(c as int / 16);
    HexDigitIs(c as int % 16);
    SpaceIsEscaped(mode);
  }

  lemma SpaceIsEscaped(mode: Mode)
    ensures !Verbatim(' ', mode)
  {
  }

  lemma {:induction false} EscapeConcat(mode: Mode, s: Bytes, t: Bytes)
    ensures Escape(mode, s + t) == Escape(mode, s) + Escape(mode, t)
  {
    hide EscapeByte;
    if s == [] {
      assert s + t == t;
    } else {
      assert (s + t)[1..] == s[1..] + t;
      EscapeConcat(mode, s[1..], t);
      Associate<byte>(EscapeByte(mode, s[0]), Escape(mode, s[1..]), Escape(mode, t));
    }
  }

  /** Escaping goes byte by byte: as it is, as a plus for a space in a query, or by its digits. */
  lemma EscapeReads(mode: Mode, s: Bytes, c: byte)
    ensures exists e: Bytes ::
              && Escape(mode, s + [c]) == Escape(mode, s) + e
              && if Verbatim(c, mode) then e == [c]
                 else if c == ' ' && mode.QueryComponent? then e == "+"
                 else Encoded(c, e)
    ensures Escape(mode, []) == []
  {
    hide Verbatim, EscapeByte, Encoded;
    EscapeConcat(mode, s, [c]);
    ByteEscapes(mode, c);
    assert Escape(mode, [c]) == EscapeByte(mode, c) by { assert [c][1..] == []; }
  }

  /** A hexadecimal digit, in either case. */
  ghost predicate IsDigit(c: char, v: int) {
    0 <= v < 16 && (c == "0123456789abcdef"[v] || c == "0123456789ABCDEF"[v])
  }

  lemma UnhexReads(c: char, v: nat)
    ensures Unhex(c) == Some(v) <==> IsDigit(c, v)
  {
  }

  /** Digits of either case are read; a percent sign without two of them fails. */
  lemma EncodedReads(mode: Mode, s: Bytes)
    requires s != [] && s[0] == '%'
    ensures forall h, l | |s| >= 3 && IsDigit(s[1], h) && IsDigit(s[2], l) ::
              var c := (h * 16 + l) as char;
              Unescape(mode, s) == if MayBeEscaped(c, mode) then Prepend(c, Unescape(mode, s[3..])) else None
    ensures |s| < 3 || (forall h :: !IsDigit(s[1], h)) || (forall l :: !IsDigit(s[2], l)) ==>
              Unescape(mode, s).None?
  {
    hide IsDigit, MayBeEscaped, Unhex;
    if |s| >= 3 {
      forall v: nat { UnhexReads(s[1], v); }
      forall v: nat { UnhexReads(s[2], v); }
      forall v: int | IsDigit(s[1], v) || IsDigit(s[2], v)
        ensures v >= 0
      {
        DigitRange(s[1], v);
        DigitRange(s[2], v);
      }
    }
  }

  lemma DigitRange(c: char, v: int)
    ensures IsDigit(c, v) ==> 0 <= v < 16
  {
  }

  /** Any other byte stands for itself, a plus in a query for a space; a host takes only what it may hold. */
  lemma OthersRead(mode: Mode, s: Bytes)
    requires s != [] && s[0] != '%'
    ensures Unescape(mode, s) ==
            if s[0] == '+' && mode.QueryComponent? then Prepend(' ', Unescape(mode, s[1..]))
            else if (mode.Host? || mode.Zone?) && s[0] as int < 0x80 && !Verbatim(s[0], mode) then None
            else Prepend(s[0], Unescape(mode, s[1..]))
  {
    hide Verbatim, ShouldEscape;
    VerbatimIff(s[0], mode);
  }
}
