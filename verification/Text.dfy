// The parts of Go's strings package in use. A Go string is a sequence of bytes, written here
// as a sequence of characters below 256 wherever the byte values matter.
module Text {
  type byte = c: char | c as int < 256 witness 'a'

  type Bytes = seq<byte>

  function IndexOf<T(==)>(s: seq<T>, c: T): (i: int)
    ensures -1 <= i < |s|
    ensures i >= 0 ==> s[i] == c && c !in s[..i]
    ensures i < 0 <==> c !in s
  {
    if s == [] then -1
    else if s[0] == c then 0
    else
      var i := IndexOf(s[1..], c);
      assert s == [s[0]] + s[1..];
      if i < 0 then -1 else assert s[..i + 1] == [s[0]] + s[1..][..i]; i + 1
  }

  function LastIndexOf<T(==)>(s: seq<T>, c: T): (i: int)
    ensures -1 <= i < |s|
    ensures i >= 0 ==> s[i] == c && c !in s[i + 1..]
    ensures i < 0 <==> c !in s
  {
    if s == [] then -1
    else if s[|s| - 1] == c then |s| - 1
    else
      var front := s[..|s| - 1];
      var i := LastIndexOf(front, c);
      assert s == front + [s[|s| - 1]];
      if i < 0 then -1 else assert s[i + 1..] == front[i + 1..] + [s[|s| - 1]]; i
  }

  lemma IndexUnique<T>(s: seq<T>, c: T, before: seq<T>, after: seq<T>)
    requires s == before + [c] + after && c !in before
    ensures IndexOf(s, c) == |before| && s[..|before|] == before && s[|before| + 1..] == after
  {
    assert s[|before|] == c && before == s[..|before|];
  }

  lemma LastIndexUnique<T>(s: seq<T>, c: T, before: seq<T>, after: seq<T>)
    requires s == before + [c] + after && c !in after
    ensures LastIndexOf(s, c) == |before| && s[..|before|] == before && s[|before| + 1..] == after
  {
    assert s[|before|] == c && after == s[|before| + 1..];
  }

  function TrimPrefix<T(==)>(s: seq<T>, prefix: seq<T>): seq<T> {
    if prefix <= s then s[|prefix|..] else s
  }

  predicate HasSuffix<T(==)>(s: seq<T>, suffix: seq<T>) {
    |suffix| <= |s| && s[|s| - |suffix|..] == suffix
  }

  function TrimSuffix<T(==)>(s: seq<T>, suffix: seq<T>): seq<T> {
    if HasSuffix(s, suffix) then s[..|s| - |suffix|] else s
  }

  lemma DropPrefix<T>(a: seq<T>, b: seq<T>)
    ensures a <= a + b && (a + b)[|a|..] == b
  {
  }

  lemma NotInConcat<T>(c: T, a: seq<T>, b: seq<T>)
    requires c !in a && c !in b
    ensures c !in a + b
  {
  }

  lemma TakeNext<T>(s: seq<T>, i: nat)
    requires i < |s|
    ensures s[..i + 1] == s[..i] + [s[i]]
  {
  }

  lemma SetAt<T>(s: seq<T>, i: nat, x: T)
    requires i < |s|
    ensures s[i := x][..i + 1] == s[..i] + [x] && s[i := x][i + 1..] == s[i..][1..]
  {
  }

  /** strings.Cut at one byte. */
  datatype Halves<T> = Halves(before: seq<T>, after: seq<T>, found: bool)

  function Cut<T(==)>(s: seq<T>, c: T): Halves<T> {
    var i := IndexOf(s, c);
    if i < 0 then Halves(s, [], false) else Halves(s[..i], s[i + 1..], true)
  }

  lemma CutAt<T>(before: seq<T>, c: T, after: seq<T>)
    requires c !in before
    ensures Cut(before + [c] + after, c) == Halves(before, after, true)
  {
    IndexUnique(before + [c] + after, c, before, after);
  }

  lemma CutMissing<T>(s: seq<T>, c: T)
    requires c !in s
    ensures Cut(s, c) == Halves(s, [], false)
  {
  }

  /** strings.Split at one byte. */
  function Split<T(==)>(s: seq<T>, c: T): (parts: seq<seq<T>>)
    ensures parts != [] && forall p | p in parts :: c !in p
    decreases |s|
  {
    var i := IndexOf(s, c);
    if i < 0 then [s] else [s[..i]] + Split(s[i + 1..], c)
  }

  /** strings.Join with one byte. */
  function Join<T>(parts: seq<seq<T>>, c: T): seq<T> {
    if parts == [] then []
    else if |parts| == 1 then parts[0]
    else parts[0] + [c] + Join(parts[1..], c)
  }

  lemma SplitAt<T>(before: seq<T>, c: T, after: seq<T>)
    requires c !in before
    ensures Split(before + [c] + after, c) == [before] + Split(after, c)
  {
    IndexUnique(before + [c] + after, c, before, after);
  }

  lemma SplitNothing<T>(s: seq<T>, c: T)
    requires c !in s
    ensures Split(s, c) == [s]
  {
  }

  lemma {:induction false} SplitJoin<T>(parts: seq<seq<T>>, c: T)
    requires parts != [] && forall p | p in parts :: c !in p
    ensures Split(Join(parts, c), c) == parts
  {
    hide Split;
    if |parts| == 1 {
      SplitNothing(parts[0], c);
    } else {
      SplitJoin(parts[1..], c);
      SplitAt(parts[0], c, Join(parts[1..], c));
    }
  }

  lemma JoinCons<T>(part: seq<T>, parts: seq<seq<T>>, c: T)
    requires parts != []
    ensures Join([part] + parts, c) == part + [c] + Join(parts, c)
  {
    assert ([part] + parts)[1..] == parts;
  }

  /** The first field of a string with a separator, and the rest. */
  lemma FirstField<T>(s: seq<T>, c: T) returns (before: seq<T>, rest: seq<T>)
    requires c in s
    ensures s == before + [c] + rest && c !in before && |rest| < |s|
  {
    var i := IndexOf(s, c);
    before, rest := s[..i], s[i + 1..];
  }

  lemma {:induction false} JoinSplit<T>(s: seq<T>, c: T)
    ensures Join(Split(s, c), c) == s
    decreases |s|
  {
    if c in s {
      var before, rest := FirstField(s, c);
      SplitAt(before, c, rest);
      JoinSplit(rest, c);
      JoinCons(before, Split(rest, c), c);
    }
  }

  lemma Associate<T>(a: seq<T>, b: seq<T>, c: seq<T>)
    ensures (a + b) + c == a + (b + c)
  {
  }

  lemma {:induction false} SplitConcat<T>(s: seq<T>, c: T, t: seq<T>)
    ensures Split(s + [c] + t, c) == Split(s, c) + Split(t, c)
    decreases |s|
  {
    if c in s {
      var before, rest := FirstField(s, c);
      var more := rest + [c] + t;
      assert s + [c] + t == before + [c] + more;
      SplitAt(before, c, more);
      SplitAt(before, c, rest);
      SplitConcat(rest, c, t);
      Associate([before], Split(rest, c), Split(t, c));
    } else {
      SplitAt(s, c, t);
    }
  }

  predicate Visible(c: char) {
    33 <= c as int <= 126
  }

  predicate AllVisible(s: Bytes) {
    forall i | 0 <= i < |s| :: Visible(s[i])
  }

  /** The fields of every part, one after the other. */
  function SplitAll<T(==)>(parts: seq<seq<T>>, c: T): seq<seq<T>> {
    if parts == [] then [] else Split(parts[0], c) + SplitAll(parts[1..], c)
  }

  /** Joining and splitting again takes every part apart at the separator. */
  lemma {:induction false} SplitOfJoin<T>(parts: seq<seq<T>>, c: T)
    requires parts != []
    ensures Split(Join(parts, c), c) == SplitAll(parts, c)
  {
    hide Split;
    if |parts| > 1 {
      SplitOfJoin(parts[1..], c);
      SplitConcat(parts[0], c, Join(parts[1..], c));
    } else {
      assert SplitAll(parts[1..], c) == [];
    }
  }

  lemma JoinsAgree<T>(a: seq<seq<T>>, b: seq<seq<T>>, c: T)
    requires a != [] && b != []
    ensures Join(a, c) == Join(b, c) <==> SplitAll(a, c) == SplitAll(b, c)
  {
    hide Split, SplitAll, Join;
    SplitOfJoin(a, c);
    SplitOfJoin(b, c);
    JoinSplit(Join(a, c), c);
    JoinSplit(Join(b, c), c);
  }

  /** The length of the white space (unicode.IsSpace, in UTF-8) that s starts with, or 0. */
  function SpaceLen(s: string): (n: nat)
    ensures n <= |s|
  {
    if s == [] then 0
    else if s[0] == ' ' || 9 <= s[0] as int <= 13 then 1
    else if |s| < 2 then 0
    else
      var a, b := s[0] as int, s[1] as int;
      if a == 0xC2 && (b == 0x85 || b == 0xA0) then 2
      else if |s| < 3 then 0
      else
        var c := s[2] as int;
        if (a == 0xE1 && b == 0x9A && c == 0x80)
           || (a == 0xE2 && b == 0x80 && (0x80 <= c <= 0x8A || c == 0xA8 || c == 0xA9 || c == 0xAF))
           || (a == 0xE2 && b == 0x81 && c == 0x9F)
           || (a == 0xE3 && b == 0x80 && c == 0x80) then 3
        else 0
  }

  /** The length of the white space that s ends with, or 0. */
  function SpaceSuffixLen(s: string): (n: nat)
    ensures n <= |s|
  {
    if |s| >= 1 && SpaceLen(s[|s| - 1..]) == 1 then 1
    else if |s| >= 2 && SpaceLen(s[|s| - 2..]) == 2 then 2
    else if |s| >= 3 && SpaceLen(s[|s| - 3..]) == 3 then 3
    else 0
  }

  function TrimLeft(s: string): string
    decreases |s|
  {
    if SpaceLen(s) > 0 then TrimLeft(s[SpaceLen(s)..]) else s
  }

  function TrimRight(s: string): string
    decreases |s|
  {
    if SpaceSuffixLen(s) > 0 then TrimRight(s[..|s| - SpaceSuffixLen(s)]) else s
  }

  /** strings.TrimSpace. */
  function TrimSpace(s: string): string {
    TrimRight(TrimLeft(s))
  }

  lemma DropDrop<T>(s: seq<T>, m: nat, t: seq<T>)
    requires m <= |s| && HasSuffix(s[m..], t)
    ensures HasSuffix(s, t)
  {
    assert s[m..][|s| - m - |t|..] == s[|s| - |t|..];
  }

  lemma {:induction false} TrimLeftDrops(s: string)
    ensures SpaceLen(TrimLeft(s)) == 0 && HasSuffix(s, TrimLeft(s))
    decreases |s|
  {
    hide SpaceLen;
    var n := SpaceLen(s);
    if n > 0 {
      TrimLeftDrops(s[n..]);
      DropDrop(s, n, TrimLeft(s[n..]));
    }
  }

  lemma {:induction false} TrimRightDrops(s: string)
    ensures SpaceSuffixLen(TrimRight(s)) == 0 && TrimRight(s) <= s
    decreases |s|
  {
    hide SpaceSuffixLen;
    var n := SpaceSuffixLen(s);
    if n > 0 {
      TrimRightDrops(s[..|s| - n]);
    }
  }

  ghost predicate White(s: string)
    decreases |s|
  {
    s == [] || (SpaceLen(s) > 0 && White(s[SpaceLen(s)..]))
  }

  lemma SpaceStays(s: string, t: string)
    requires SpaceLen(s) > 0
    ensures SpaceLen(s[..SpaceLen(s)] + t) == SpaceLen(s)
  {
  }

  lemma {:induction false} WhiteConcat(a: string, b: string)
    requires White(a) && White(b)
    ensures White(a + b)
    decreases |a|
  {
    hide SpaceLen;
    if a == [] {
      assert a + b == b;
    } else {
      var n := SpaceLen(a);
      WhiteConcat(a[n..], b);
      SpaceStays(a, a[n..] + b);
      assert a + b == a[..n] + (a[n..] + b) && (a + b)[n..] == a[n..] + b;
    }
  }

  lemma WhiteOne(s: string)
    requires s != [] && SpaceLen(s) == |s|
    ensures White(s)
  {
    assert s[|s|..] == [];
  }

  lemma {:induction false} TrimLeftCuts(s: string) returns (before: string)
    ensures s == before + TrimLeft(s) && White(before)
    decreases |s|
  {
    hide SpaceLen;
    var n := SpaceLen(s);
    if n == 0 {
      before := [];
    } else {
      var rest := TrimLeftCuts(s[n..]);
      before := s[..n] + rest;
      SpaceStays(s, []);
      assert s[..n] + [] == s[..n];
      WhiteOne(s[..n]);
      WhiteConcat(s[..n], rest);
    }
  }

  lemma SuffixIsSpace(s: string)
    requires SpaceSuffixLen(s) > 0
    ensures White(s[|s| - SpaceSuffixLen(s)..])
  {
    hide SpaceLen;
    WhiteOne(s[|s| - SpaceSuffixLen(s)..]);
  }

  lemma {:induction false} TrimRightCuts(s: string) returns (after: string)
    ensures s == TrimRight(s) + after && White(after)
    decreases |s|
  {
    hide SpaceSuffixLen;
    var n := SpaceSuffixLen(s);
    if n == 0 {
      after := [];
    } else {
      var front, last := s[..|s| - n], s[|s| - n..];
      var rest := TrimRightCuts(front);
      after := rest + last;
      assert s == front + last;
      Associate(TrimRight(front), rest, last);
      SuffixIsSpace(s);
      WhiteConcat(rest, last);
    }
  }

  /** Trimming takes away white space only. */
  lemma TrimCuts(s: string) returns (before: string, after: string)
    ensures s == before + TrimSpace(s) + after && White(before) && White(after)
  {
    hide TrimLeft, TrimRight, White;
    before := TrimLeftCuts(s);
    after := TrimRightCuts(TrimLeft(s));
  }

  lemma TrimmedChars(s: string)
    ensures forall i | 0 <= i < |TrimSpace(s)| :: TrimSpace(s)[i] in s
  {
    hide TrimLeft, TrimRight, SpaceLen, SpaceSuffixLen;
    TrimLeftDrops(s);
    TrimRightDrops(TrimLeft(s));
    var k := |s| - |TrimLeft(s)|;
    forall i | 0 <= i < |TrimSpace(s)|
      ensures TrimSpace(s)[i] in s
    {
      assert TrimSpace(s)[i] == TrimLeft(s)[i] == s[k + i];
    }
  }

  function TrimBytes(s: Bytes): Bytes {
    TrimmedChars(s);
    TrimSpace(s)
  }

  lemma TrimmedUnchanged(s: string)
    requires SpaceLen(s) == 0 && SpaceSuffixLen(s) == 0
    ensures TrimSpace(s) == s
  {
  }

  lemma PrefixNoSpace(t: string, u: string)
    requires u <= t && SpaceLen(t) == 0
    ensures SpaceLen(u) == 0
  {
  }

  lemma TrimIdempotent(s: string)
    ensures SpaceLen(TrimSpace(s)) == 0 && SpaceSuffixLen(TrimSpace(s)) == 0
    ensures TrimSpace(TrimSpace(s)) == TrimSpace(s)
  {
    hide SpaceLen, SpaceSuffixLen, TrimLeft, TrimRight;
    var t, u := TrimLeft(s), TrimSpace(s);
    TrimLeftDrops(s);
    TrimRightDrops(t);
    PrefixNoSpace(t, u);
    TrimmedUnchanged(u);
  }

  lemma SpaceEndsInvisible(t: string)
    requires t != [] && SpaceLen(t) == |t|
    ensures !Visible(t[|t| - 1])
  {
  }

  lemma NoSpaceSuffix(s: string, k: nat)
    requires 1 <= k <= |s| && Visible(s[|s| - 1])
    ensures SpaceLen(s[|s| - k..]) != k
  {
    hide SpaceLen, Visible;
    var t := s[|s| - k..];
    assert t[|t| - 1] == s[|s| - 1];
    if SpaceLen(t) == |t| { SpaceEndsInvisible(t); }
  }

  lemma NoSpaceAtEnd(s: string)
    requires s != [] && Visible(s[|s| - 1])
    ensures SpaceSuffixLen(s) == 0
  {
    hide SpaceLen, Visible;
    NoSpaceSuffix(s, 1);
    if |s| >= 2 { NoSpaceSuffix(s, 2); }
    if |s| >= 3 { NoSpaceSuffix(s, 3); }
  }

  lemma VisibleUnchanged(s: string)
    requires s != [] && Visible(s[0]) && Visible(s[|s| - 1])
    ensures TrimSpace(s) == s
  {
    hide SpaceSuffixLen;
    NoSpaceAtEnd(s);
    assert SpaceLen(s) == 0;
  }

  function LowerChar(c: char): char {
    if 'A' <= c <= 'Z' then c + 32 as char else c
  }

  /** strings.ToLower on ASCII. */
  function ToLower(s: string): string {
    seq(|s|, i requires 0 <= i < |s| => LowerChar(s[i]))
  }
}
