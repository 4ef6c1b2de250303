// net/url query strings: Values.Encode and ParseQuery.
module Query {
  import opened Wrappers
  import opened Text
  import opened Percent
  import Values

  datatype Param = Param(name: Bytes, value: Bytes)

  type Params = map<Bytes, Bytes>

  // Printing

  function Field(p: Param): Bytes {
    Escape(QueryComponent, p.name) + ['='] + Escape(QueryComponent, p.value)
  }

  function Fields(ps: seq<Param>): seq<Bytes> {
    seq(|ps|, i requires 0 <= i < |ps| => Field(ps[i]))
  }

  function Listing(q: Params, keys: seq<string>): seq<Param>
    requires forall k | k in keys :: k in q
  {
    seq(|keys|, i requires 0 <= i < |keys| => assert keys[i] in keys; Param(keys[i], q[keys[i]]))
  }

  /** Values.Encode, with one value per name. */
  function Encode(q: Params): Bytes {
    Join<byte>(Fields(Listing(q, Values.SortedKeys(q.Keys))), '&')
  }

  // Parsing

  /** The parameters of a query string, and whether all parts of it were well-formed. */
  datatype Parsed = Parsed(params: seq<Param>, ok: bool)

  function ParseField(field: Bytes): Parsed {
    if ';' in field then Parsed([], false)
    else if field == [] then Parsed([], true)
    else
      var halves := Cut<byte>(field, '=');
      var name, value := Unescape(QueryComponent, halves.before), Unescape(QueryComponent, halves.after);
      if name.None? || value.None? then Parsed([], false) else Parsed([Param(name.value, value.value)], true)
  }

  function Both(first: Parsed, rest: Parsed): Parsed {
    Parsed(first.params + rest.params, first.ok && rest.ok)
  }

  /** ParseQuery: a malformed part is skipped. */
  function ParseQuery(s: Bytes): Parsed
    decreases |s|
  {
    if s == [] then Parsed([], true)
    else
      var halves := Cut<byte>(s, '&');
      Both(ParseField(halves.before), ParseQuery(halves.after))
  }

  /** Values.Get: the first value of the name, or "". */
  function Get(ps: seq<Param>, name: Bytes): Bytes {
    if ps == [] then [] else if ps[0].name == name then ps[0].value else Get(ps[1..], name)
  }

  function Value(q: Params, name: Bytes): Bytes {
    if name in q then q[name] else []
  }

  // Round trip

  lemma PartLacks(s: Bytes)
    ensures var e := Escape(QueryComponent, s); '&' !in e && ';' !in e && '=' !in e
    ensures Unescape(QueryComponent, Escape(QueryComponent, s)) == Some(s)
  {
    EscapedLacks(QueryComponent, s, '&');
    EscapedLacks(QueryComponent, s, ';');
    EscapedLacks(QueryComponent, s, '=');
    UnescapeEscaped(QueryComponent, s);
  }

  lemma FieldLacks(name: Bytes, value: Bytes, c: byte)
    requires c != '=' && c !in name && c !in value
    ensures c !in name + ['='] + value
  {
  }

  lemma SplitField(name: Bytes, value: Bytes)
    requires ';' !in name && '=' !in name && ';' !in value
    ensures var field := name + ['='] + value;
            ';' !in field && field != [] && Cut<byte>(field, '=') == Halves(name, value, true)
  {
    FieldLacks(name, value, ';');
    CutAt<byte>(name, '=', value);
  }

  lemma FieldRoundTrip(p: Param)
    ensures '&' !in Field(p) && Field(p) != [] && ParseField(Field(p)) == Parsed([p], true)
  {
    PartLacks(p.name);
    PartLacks(p.value);
    FieldLacks(Escape(QueryComponent, p.name), Escape(QueryComponent, p.value), '&');
    SplitField(Escape(QueryComponent, p.name), Escape(QueryComponent, p.value));
  }

  lemma ParseFirst(first: Bytes, more: Bytes)
    requires '&' !in first
    ensures ParseQuery(first + ['&'] + more) == Both(ParseField(first), ParseQuery(more))
  {
    hide Cut, ParseField;
    CutAt<byte>(first, '&', more);
  }

  lemma ParseOnly(field: Bytes)
    requires '&' !in field && field != []
    ensures ParseQuery(field) == ParseField(field)
  {
    CutMissing<byte>(field, '&');
  }

  lemma {:induction false} ParseFields(ps: seq<Param>)
    ensures ParseQuery(Join<byte>(Fields(ps), '&')) == Parsed(ps, true)
  {
    hide Field, ParseField;
    if ps != [] {
      FieldRoundTrip(ps[0]);
      assert Fields(ps) == [Field(ps[0])] + Fields(ps[1..]);
      if |ps| == 1 {
        ParseOnly(Field(ps[0]));
      } else {
        ParseFields(ps[1..]);
        JoinCons<byte>(Field(ps[0]), Fields(ps[1..]), '&');
        ParseFirst(Field(ps[0]), Join<byte>(Fields(ps[1..]), '&'));
        assert ps == [ps[0]] + ps[1..];
      }
    }
  }

  lemma {:induction false} GetListed(q: Params, keys: seq<string>, name: Bytes)
    requires forall k | k in keys :: k in q
    ensures Get(Listing(q, keys), name) == if name in keys then q[name] else []
  {
    if keys != [] {
      assert keys[0] in keys;
      assert Listing(q, keys)[1..] == Listing(q, keys[1..]);
      GetListed(q, keys[1..], name);
      assert keys == [keys[0]] + keys[1..];
    }
  }

  lemma SortedKeysAre(q: Params)
    ensures forall k | k in Values.SortedKeys(q.Keys) :: k in q
  {
  }

  /** Every query string that is printed parses without an error to the same parameters. */
  lemma QueryRoundTrip(q: Params, name: Bytes)
    ensures ParseQuery(Encode(q)).ok && Get(ParseQuery(Encode(q)).params, name) == Value(q, name)
  {
    var keys := Values.SortedKeys(q.Keys);
    SortedKeysAre(q);
    ParseFields(Listing(q, keys));
    GetListed(q, keys, name);
  }

  lemma {:induction false} JoinLacks(parts: seq<Bytes>, sep: byte, c: byte)
    requires c != sep && forall p | p in parts :: c !in p
    ensures c !in Join(parts, sep)
  {
    if parts != [] {
      assert parts[0] in parts;
      if |parts| > 1 {
        JoinLacks(parts[1..], sep, c);
        NotInConcat(c, parts[0], [sep]);
        NotInConcat(c, parts[0] + [sep], Join(parts[1..], sep));
      }
    }
  }

  /** Besides & and =, a query string has only unreserved characters and percent-encodings. */
  lemma EncodedLacks(q: Params, c: byte)
    requires c != '&' && c != '=' && !Clean(c, QueryComponent)
    ensures c !in Encode(q)
  {
    var ps := Listing(q, Values.SortedKeys(q.Keys));
    forall f | f in Fields(ps)
      ensures c !in f
    {
      var i :| 0 <= i < |ps| && f == Field(ps[i]);
      EscapedLacks(QueryComponent, ps[i].name, c);
      EscapedLacks(QueryComponent, ps[i].value, c);
      FieldLacks(Escape(QueryComponent, ps[i].name), Escape(QueryComponent, ps[i].value), c);
    }
    JoinLacks(Fields(ps), '&', c);
  }

  lemma EncodedVisible(q: Params)
    ensures AllVisible(Encode(q)) && '#' !in Encode(q)
  {
    EncodedLacks(q, '#');
    forall i | 0 <= i < |Encode(q)|
      ensures Visible(Encode(q)[i])
    {
      var c := Encode(q)[i];
      if c != '&' && c != '=' && !Clean(c, QueryComponent) {
        EncodedLacks(q, c);
      }
    }
  }
}
