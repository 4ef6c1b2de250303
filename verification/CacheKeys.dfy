// Which requests share a cache key (internal/agg/store.go, Render).
module CacheKeys {
  import opened Text
  import opened StoreSpec

  /** The sub names as the key shows them: split at NUL, and with no name like one empty name. */
  function Pieces(names: seq<string>): seq<string> {
    if names == [] then [""] else SplitAll(names, NUL)
  }

  lemma JoinedPieces(a: seq<string>, b: seq<string>)
    ensures Join(a, NUL) == Join(b, NUL) <==> Pieces(a) == Pieces(b)
  {
    var one: seq<string> := [""];
    assert Join([], NUL) == Join(one, NUL) && Pieces(one) == Split<char>([], NUL) + [] == [""];
    hide Join, SplitAll, Split;
    JoinsAgree(if a == [] then one else a, if b == [] then one else b, NUL);
  }

  lemma NoBars(f: Format)
    ensures '|' !in FormatText(f) && '|' !in "true" && '|' !in "false"
  {
  }

  lemma KeyParts(r: Request, flag: string)
    requires flag == if r.full then "true" else "false"
    ensures var i := LastIndexOf(CacheKey(r), '|');
            && i >= 0 && CacheKey(r)[i + 1..] == flag &&
               CacheKey(r)[..i] == Join(r.subs, NUL) + "|" + FormatText(r.format)
  {
    NoBars(r.format);
    var head := Join(r.subs, NUL) + "|" + FormatText(r.format);
    assert CacheKey(r) == head + ['|'] + flag;
    LastIndexUnique(CacheKey(r), '|', head, flag);
  }

  lemma FormatsDiffer(f: Format, f': Format)
    ensures FormatText(f) == FormatText(f') ==> f == f'
  {
    assert |"base64"| == 6 && |"raw"| == 3 && |"clash"| == 5;
  }

  /** Two requests share a cache key exactly when their pieces, formats and flags agree. */
  lemma KeysEqual(r: Request, r': Request)
    ensures CacheKey(r) == CacheKey(r') <==>
            Pieces(r.subs) == Pieces(r'.subs) && r.format == r'.format && r.full == r'.full
  {
    JoinedPieces(r.subs, r'.subs);
    if CacheKey(r) == CacheKey(r') {
      SameKeyParts(r, r');
    }
  }

  lemma SameKeyParts(r: Request, r': Request)
    requires CacheKey(r) == CacheKey(r')
    ensures Join(r.subs, NUL) == Join(r'.subs, NUL) && r.format == r'.format && r.full == r'.full
  {
    hide CacheKey, LastIndexOf, Join, FormatText;
    var flag, flag' := if r.full then "true" else "false", if r'.full then "true" else "false";
    KeyParts(r, flag);
    KeyParts(r', flag');
    assert "true"[0] == 't' && "false"[0] == 'f';
    var subs, subs' := Join(r.subs, NUL), Join(r'.subs, NUL);
    var format, format' := FormatText(r.format), FormatText(r'.format);
    NoBars(r.format);
    NoBars(r'.format);
    LastIndexUnique(subs + ['|'] + format, '|', subs, format);
    LastIndexUnique(subs' + ['|'] + format', '|', subs', format');
    FormatsDiffer(r.format, r'.format);
  }

  ghost predicate NulFree(names: seq<string>) {
    forall n | n in names :: NUL !in n
  }

  lemma {:induction false} NulFreePieces(names: seq<string>)
    requires NulFree(names)
    ensures SplitAll(names, NUL) == names
  {
    if names != [] {
      assert names[0] in names && names == [names[0]] + names[1..];
      NulFreePieces(names[1..]);
    }
  }

  /** Joining NUL-free names loses only the difference between no name and one empty name. */
  lemma JoinCollisions(a: seq<string>, b: seq<string>)
    requires NulFree(a) && NulFree(b)
    ensures Join(a, NUL) == Join(b, NUL) <==> a == b || (a == [] && b == [""]) || (a == [""] && b == [])
  {
    hide Join, NulFree, SplitAll;
    JoinedPieces(a, b);
    NulFreePieces(a);
    NulFreePieces(b);
  }

  /** Of requests without NUL in a sub name, and not for the one empty name, each has its own key. */
  lemma KeyInjective(r: Request, r': Request)
    requires NulFree(r.subs) && NulFree(r'.subs) && r.subs != [""] && r'.subs != [""]
    ensures CacheKey(r) == CacheKey(r') <==> r == r'
  {
    hide Join, NulFree, CacheKey;
    KeysEqual(r, r');
    JoinedPieces(r.subs, r'.subs);
    JoinCollisions(r.subs, r'.subs);
  }

  /** With NUL in a name that fails: these two requests share an entry. */
  lemma NulCollides(format: Format, full: bool)
    ensures CacheKey(Request(["a\0b"], format, full)) == CacheKey(Request(["a", "b"], format, full))
  {
    var two := ["a", "b"];
    assert Join(two[1..], NUL) == "b";
    assert Join(two, NUL) == "a" + [NUL] + "b" == "a\0b";
    assert Join(["a\0b"], NUL) == "a\0b";
  }
}
