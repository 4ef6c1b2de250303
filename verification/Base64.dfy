// Base64 without padding (sections 4 and 5 of RFC 4648), and the tolerant decoder of
// internal/node/uri.go.
module Base64 {
  import opened Wrappers
  import opened Text

  function Char64(n: nat): byte
    requires n < 64
  {
    if n < 26 then 'A' + n as char
    else if n < 52 then 'a' + (n - 26) as char
    else if n < 62 then '0' + (n - 52) as char
    else if n == 62 then '+'
    else '/'
  }

  function Value64(c: char): (v: Option<nat>)
    ensures v.Some? ==> v.value < 64
  {
    if 'A' <= c <= 'Z' then Some(c as int - 'A' as int)
    else if 'a' <= c <= 'z' then Some(c as int - 'a' as int + 26)
    else if '0' <= c <= '9' then Some(c as int - '0' as int + 52)
    else if c == '+' then Some(62)
    else if c == '/' then Some(63)
    else None
  }

  lemma ValueOfChar(n: nat)
    requires n < 64
    ensures Value64(Char64(n)) == Some(n)
  {
  }

  /** base64.RawStdEncoding.EncodeToString. */
  function EncodeRaw(s: Bytes): Bytes
    decreases |s|
  {
    if s == [] then []
    else
      var a := s[0] as int;
      if |s| == 1 then [Char64(a / 4), Char64(a % 4 * 16)]
      else
        var b := s[1] as int;
        if |s| == 2 then [Char64(a / 4), Char64(a % 4 * 16 + b / 16), Char64(b % 16 * 4)]
        else
          var c := s[2] as int;
          [Char64(a / 4), Char64(a % 4 * 16 + b / 16), Char64(b % 16 * 4 + c / 64), Char64(c % 64)] + EncodeRaw(s[3..])
  }

  function Equals(k: nat): Bytes {
    seq(k, _ => '=')
  }

  /** base64.StdEncoding.EncodeToString. */
  function Encode(s: Bytes): Bytes {
    EncodeRaw(s) + Equals((3 - |s| % 3) % 3)
  }

  function UrlChar(c: byte): byte {
    if c == '+' then '-' else if c == '/' then '_' else c
  }

  /** base64.RawURLEncoding.EncodeToString. */
  function EncodeRawUrl(s: Bytes): Bytes {
    var raw := EncodeRaw(s);
    seq(|raw|, i requires 0 <= i < |raw| => UrlChar(raw[i]))
  }

  /** base64.RawStdEncoding.DecodeString; bits left over at the end are dropped. */
  function DecodeRaw(s: Bytes): Option<Bytes>
    decreases |s|
  {
    if s == [] then Some([])
    else if |s| == 1 then None
    else
      var v, w := Value64(s[0]), Value64(s[1]);
      if v.None? || w.None? then None
      else
        var a := (v.value * 4 + w.value / 16) as char;
        if |s| == 2 then Some([a])
        else
          var x := Value64(s[2]);
          if x.None? then None
          else
            var b := (w.value % 16 * 16 + x.value / 4) as char;
            if |s| == 3 then Some([a, b])
            else
              var y := Value64(s[3]);
              if y.None? then None
              else
                match DecodeRaw(s[4..])
                case None => None
                case Some(rest) => Some([a, b, (x.value % 4 * 64 + y.value) as char] + rest)
  }

  /** Three bytes from the four groups of six bits they are cut into. */
  lemma BitsBack(a: nat, b: nat, c: nat)
    requires a < 256 && b < 256 && c < 256
    ensures a / 4 < 64 && a % 4 * 16 + b / 16 < 64 && b % 16 * 4 + c / 64 < 64 && c % 64 < 64
    ensures a / 4 * 4 + (a % 4 * 16 + b / 16) / 16 == a
    ensures (a % 4 * 16 + b / 16) % 16 * 16 + (b % 16 * 4 + c / 64) / 4 == b
    ensures (b % 16 * 4 + c / 64) % 4 * 64 + c % 64 == c
  {
  }

  function Joined(first: Bytes, rest: Option<Bytes>): Option<Bytes> {
    if rest.None? then None else Some(first + rest.value)
  }

  lemma DecodeFour(v: nat, w: nat, x: nat, y: nat, tail: Bytes)
    requires v < 64 && w < 64 && x < 64 && y < 64
    ensures DecodeRaw([Char64(v), Char64(w), Char64(x), Char64(y)] + tail) ==
            Joined([(v * 4 + w / 16) as char, (w % 16 * 16 + x / 4) as char, (x % 4 * 64 + y) as char], DecodeRaw(tail))
  {
    ValueOfChar(v);
    ValueOfChar(w);
    ValueOfChar(x);
    ValueOfChar(y);
    hide Char64, Value64;
    var s := [Char64(v), Char64(w), Char64(x), Char64(y)] + tail;
    assert s[4..] == tail;
  }

  lemma EncodeThree(s: Bytes)
    requires |s| >= 3
    ensures var a, b, c := s[0] as int, s[1] as int, s[2] as int;
            EncodeRaw(s) == [Char64(a / 4), Char64(a % 4 * 16 + b / 16), Char64(b % 16 * 4 + c / 64), Char64(c % 64)]
                            + EncodeRaw(s[3..])
  {
    hide Char64;
  }

  lemma FrontRoundTrip(s: Bytes)
    requires |s| >= 3
    ensures DecodeRaw(EncodeRaw(s)) == Joined(s[..3], DecodeRaw(EncodeRaw(s[3..])))
  {
    hide Char64, EncodeRaw, DecodeRaw;
    var a, b, c := s[0] as int, s[1] as int, s[2] as int;
    EncodeThree(s);
    BitsBack(a, b, c);
    DecodeFour(a / 4, a % 4 * 16 + b / 16, b % 16 * 4 + c / 64, c % 64, EncodeRaw(s[3..]));
    assert s[..3] == [s[0], s[1], s[2]];
  }

  lemma {:induction false} RawRoundTrip(s: Bytes)
    ensures DecodeRaw(EncodeRaw(s)) == Some(s)
    decreases |s|
  {
    if |s| >= 3 {
      hide EncodeRaw, DecodeRaw;
      FrontRoundTrip(s);
      RawRoundTrip(s[3..]);
      assert s == s[..3] + s[3..];
    } else if |s| == 2 {
      ShortRoundTrip(s[0], s[1]);
      assert s == [s[0], s[1]];
    } else if |s| == 1 {
      LastRoundTrip(s[0]);
      assert s == [s[0]];
    }
  }

  lemma LastRoundTrip(c: byte)
    ensures DecodeRaw(EncodeRaw([c])) == Some([c])
  {
    hide Char64, Value64;
    BitsBack(c as int, 0, 0);
    ValueOfChar(c as int / 4);
    ValueOfChar(c as int % 4 * 16);
  }

  lemma ShortRoundTrip(c: byte, d: byte)
    ensures DecodeRaw(EncodeRaw([c, d])) == Some([c, d])
  {
    hide Char64, Value64;
    var a, b := c as int, d as int;
    BitsBack(a, b, 0);
    ValueOfChar(a / 4);
    ValueOfChar(a % 4 * 16 + b / 16);
    ValueOfChar(b % 16 * 4);
  }

  // The tolerant decoder

  /** Drops white space (in UTF-8) anywhere. */
  function StripSpace(s: Bytes): Bytes
    decreases |s|
  {
    if s == [] then []
    else if SpaceLen(s) > 0 then StripSpace(s[SpaceLen(s)..])
    else [s[0]] + StripSpace(s[1..])
  }

  function TrimEquals(s: Bytes): Bytes {
    if s != [] && s[|s| - 1] == '=' then TrimEquals(s[..|s| - 1]) else s
  }

  function StdChar(c: byte): byte {
    if c == '-' then '+' else if c == '_' then '/' else c
  }

  function ToStd(s: Bytes): Bytes {
    seq(|s|, i requires 0 <= i < |s| => StdChar(s[i]))
  }

  /** b64Decode. */
  function Decode(s: Bytes): Option<Bytes> {
    DecodeRaw(ToStd(TrimEquals(StripSpace(s))))
  }

  /** One of the spellings of an encoding: each + or / may be written - or _. */
  ghost predicate Spells(t: Bytes, raw: Bytes) {
    |t| == |raw| && forall i | 0 <= i < |t| :: t[i] == raw[i] || t[i] == UrlChar(raw[i])
  }

  /** White space only. */
  predicate Blank(s: Bytes)
    decreases |s|
  {
    s == [] || (SpaceLen(s) > 0 && Blank(s[SpaceLen(s)..]))
  }

  /** The text with a gap before each character and one at the end. */
  function Weave(s: Bytes, gaps: seq<Bytes>): Bytes
    requires |gaps| == |s| + 1
  {
    if s == [] then gaps[0] else gaps[0] + [s[0]] + Weave(s[1..], gaps[1..])
  }

  lemma {:induction false} StripGap(gap: Bytes, rest: Bytes)
    requires Blank(gap)
    ensures StripSpace(gap + rest) == StripSpace(rest)
    decreases |gap|
  {
    if gap == [] {
      assert gap + rest == rest;
    } else {
      var n := SpaceLen(gap);
      assert SpaceLen(gap + rest) == n;
      assert (gap + rest)[n..] == gap[n..] + rest;
      StripGap(gap[n..], rest);
    }
  }

  lemma {:induction false} StripWoven(s: Bytes, gaps: seq<Bytes>)
    requires |gaps| == |s| + 1 && AllVisible(s) && forall g | g in gaps :: Blank(g)
    ensures StripSpace(Weave(s, gaps)) == s
  {
    assert gaps[0] in gaps;
    if s == [] {
      StripGap(gaps[0], []);
      assert gaps[0] + [] == gaps[0];
    } else {
      var rest := Weave(s[1..], gaps[1..]);
      assert Weave(s, gaps) == gaps[0] + ([s[0]] + rest);
      StripGap(gaps[0], [s[0]] + rest);
      assert Visible(s[0]) && SpaceLen([s[0]] + rest) == 0;
      assert ([s[0]] + rest)[1..] == rest;
      assert AllVisible(s[1..]) by {
        assert forall i | 0 <= i < |s[1..]| :: s[1..][i] == s[i + 1];
      }
      StripWoven(s[1..], gaps[1..]);
      assert s == [s[0]] + s[1..];
    }
  }

  lemma {:induction false} StripVisible(s: Bytes)
    requires AllVisible(s)
    ensures StripSpace(s) == s
  {
    if s != [] {
      assert Visible(s[0]);
      assert forall i | 0 <= i < |s[1..]| :: s[1..][i] == s[i + 1];
      StripVisible(s[1..]);
      assert s == [s[0]] + s[1..];
    }
  }

  lemma {:induction false} TrimPadding(s: Bytes, k: nat)
    requires '=' !in s
    ensures TrimEquals(s + Equals(k)) == s
  {
    if k == 0 {
      assert s + Equals(0) == s;
    } else {
      var t := s + Equals(k);
      assert t[..|t| - 1] == s + Equals(k - 1);
      TrimPadding(s, k - 1);
    }
  }

  lemma {:induction false} EncodedChars(s: Bytes)
    ensures forall i | 0 <= i < |EncodeRaw(s)| :: Value64(EncodeRaw(s)[i]).Some?
    decreases |s|
  {
    if |s| >= 3 {
      EncodedChars(s[3..]);
      var e := EncodeRaw(s);
      forall i | 0 <= i < |e|
        ensures Value64(e[i]).Some?
      {
        if i >= 4 {
          assert e[i] == EncodeRaw(s[3..])[i - 4];
        }
      }
    }
  }

  lemma SpelledChars(t: Bytes, s: Bytes)
    requires Spells(t, EncodeRaw(s))
    ensures AllVisible(t) && '=' !in t && ToStd(t) == EncodeRaw(s)
  {
    EncodedChars(s);
    var raw := EncodeRaw(s);
    forall i | 0 <= i < |t|
      ensures Visible(t[i]) && t[i] != '=' && StdChar(t[i]) == raw[i]
    {
      assert Value64(raw[i]).Some?;
    }
  }

  /**
   * b64Decode gives back any bytes from either alphabet, even mixed, with any padding, and with
   * white space anywhere.
   */
  lemma DecodeTolerant(s: Bytes, t: Bytes, k: nat, gaps: seq<Bytes>)
    requires Spells(t, EncodeRaw(s)) && |gaps| == |t| + k + 1 && forall g | g in gaps :: Blank(g)
    ensures Decode(Weave(t + Equals(k), gaps)) == Some(s)
  {
    SpelledChars(t, s);
    var padded := t + Equals(k);
    assert AllVisible(padded) by {
      assert forall i | 0 <= i < |padded| :: padded[i] == if i < |t| then t[i] else '=';
    }
    StripWoven(padded, gaps);
    TrimPadding(t, k);
    RawRoundTrip(s);
  }

  lemma DecodeSpelled(s: Bytes, t: Bytes, k: nat)
    requires Spells(t, EncodeRaw(s))
    ensures Decode(t + Equals(k)) == Some(s) && AllVisible(t + Equals(k))
  {
    SpelledChars(t, s);
    assert forall i | 0 <= i < |t + Equals(k)| :: (t + Equals(k))[i] == if i < |t| then t[i] else '=';
    StripVisible(t + Equals(k));
    TrimPadding(t, k);
    RawRoundTrip(s);
  }

  lemma DecodeStd(s: Bytes)
    ensures Decode(Encode(s)) == Some(s) && AllVisible(Encode(s))
  {
    DecodeSpelled(s, EncodeRaw(s), (3 - |s| % 3) % 3);
  }

  lemma DecodeUrl(s: Bytes)
    ensures Decode(EncodeRawUrl(s)) == Some(s) && AllVisible(EncodeRawUrl(s))
  {
    DecodeSpelled(s, EncodeRawUrl(s), 0);
    assert EncodeRawUrl(s) + Equals(0) == EncodeRawUrl(s);
  }

  /** The URL alphabet has none of the delimiters of a link, and neither + nor /. */
  lemma UrlAlphabet(s: Bytes, c: byte)
    requires (Value64(c).None? && c != '-' && c != '_') || c == '+' || c == '/'
    ensures c !in EncodeRawUrl(s)
  {
    EncodedChars(s);
  }

  lemma StdAlphabet(s: Bytes, c: byte)
    requires Value64(c).None? && c != '='
    ensures c !in Encode(s)
  {
    EncodedChars(s);
  }
}
