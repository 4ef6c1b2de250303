// YAML values as the program holds them (map[string]any), and the fmt.Sprint text that
// serves as their reuse key.
module Values {
  import opened Decimal
  import opened Sorting

  datatype Value =
    | Null
    | Bool(b: bool)
    | Int(i: int)
    | Str(s: string)
    | List(xs: seq<Value>)
    | Dict(fields: map<string, Value>)

  type Config = map<string, Value>

  /** m["name"].(string), with the zero value when it is missing or not a string. */
  function Name(m: Config): string {
    if "name" in m && m["name"].Str? then m["name"].s else ""
  }

  /** Byte-wise order on strings, the order in which fmt prints map keys. */
  predicate Below(a: string, b: string) {
    a == [] || (b != [] && (a[0] < b[0] || (a[0] == b[0] && Below(a[1..], b[1..]))))
  }

  lemma BelowTotal(a: string, b: string)
    ensures Below(a, b) || Below(b, a)
  {
  }

  lemma BelowTransitive(a: string, b: string, c: string)
    requires Below(a, b) && Below(b, c)
    ensures Below(a, c)
  {
  }

  lemma {:induction false} BelowAntisymmetric(a: string, b: string)
    requires Below(a, b) && Below(b, a)
    ensures a == b
  {
    if a != [] && b != [] {
      BelowAntisymmetric(a[1..], b[1..]);
      assert a == [a[0]] + a[1..] && b == [b[0]] + b[1..];
    }
  }

  lemma BelowIsOrder()
    ensures TotalOrder(Below)
  {
    forall a, b
      ensures Below(a, b) || Below(b, a)
      ensures Below(a, b) && Below(b, a) ==> a == b
    {
      BelowTotal(a, b);
      if Below(a, b) && Below(b, a) { BelowAntisymmetric(a, b); }
    }
    forall a, b, c | Below(a, b) && Below(b, c) { BelowTransitive(a, b, c); }
  }

  function SortedKeys(ks: set<string>): (keys: seq<string>)
    ensures forall k :: k in keys <==> k in ks
    ensures forall i, j | 0 <= i < j < |keys| :: keys[i] != keys[j]
  {
    BelowIsOrder();
    SortedBy(Below, ks)
  }

  /** fmt.Sprint: lists print as "[a b]", maps as "map[k:v ...]" with sorted keys. */
  function Sprint(v: Value): string
    decreases v, 0
  {
    match v
    case Null => "<nil>"
    case Bool(b) => if b then "true" else "false"
    case Int(i) => Itoa(i)
    case Str(s) => s
    case List(xs) => "[" + SprintList(xs) + "]"
    case Dict(m) => "map[" + SprintFields(v, SortedKeys(m.Keys)) + "]"
  }

  function SprintList(xs: seq<Value>): string
    decreases xs
  {
    if xs == [] then ""
    else if |xs| == 1 then Sprint(xs[0])
    else Sprint(xs[0]) + " " + SprintList(xs[1..])
  }

  function SprintFields(v: Value, keys: seq<string>): string
    requires v.Dict? && forall k | k in keys :: k in v.fields
    decreases v, 0, |keys|
  {
    if keys == [] then ""
    else
      var field := keys[0] + ":" + Sprint(v.fields[keys[0]]);
      if |keys| == 1 then field else field + " " + SprintFields(v, keys[1..])
  }

  /** The reuse key of a proxy or group config. */
  function Key(m: Config): string {
    Sprint(Dict(m))
  }

  // Sprint is not injective, so a key can stand for two configs.

  lemma {:induction false} SprintFieldsAgree(v: Value, w: Value, keys: seq<string>)
    requires v.Dict? && w.Dict? && forall k | k in keys :: k in v.fields && k in w.fields
    requires forall k | k in keys :: Sprint(v.fields[k]) == Sprint(w.fields[k])
    ensures SprintFields(v, keys) == SprintFields(w, keys)
    decreases |keys|
  {
    if keys != [] {
      SprintFieldsAgree(v, w, keys[1..]);
    }
  }

  lemma Cancels<T>(before: seq<T>, x: seq<T>, y: seq<T>, after: seq<T>)
    ensures before + x + after == before + y + after <==> x == y
  {
    if before + x + after == before + y + after {
      var s, t := before + x + after, before + y + after;
      assert |x| == |y|;
      assert x == s[|before|..|before| + |x|] && y == t[|before|..|before| + |y|];
    }
  }

  /** Of the fields printed in this order, only one may differ. */
  lemma {:induction false} SprintFieldsTell(v: Value, w: Value, keys: seq<string>, field: string)
    requires v.Dict? && w.Dict? && forall k | k in keys :: k in v.fields && k in w.fields
    requires field in keys && forall i, j | 0 <= i < j < |keys| :: keys[i] != keys[j]
    requires forall k | k in keys && k != field :: v.fields[k] == w.fields[k]
    ensures SprintFields(v, keys) == SprintFields(w, keys) <==> Sprint(v.fields[field]) == Sprint(w.fields[field])
    decreases |keys|
  {
    var k, rest := keys[0], keys[1..];
    var one, two := Sprint(v.fields[k]), Sprint(w.fields[k]);
    if k == field {
      assert forall i | 0 <= i < |rest| :: rest[i] == keys[i + 1];
      SprintFieldsAgree(v, w, rest);
      var after := if rest == [] then "" else " " + SprintFields(v, rest);
      Cancels(k + ":", one, two, after);
      assert SprintFields(v, keys) == k + ":" + one + after && SprintFields(w, keys) == k + ":" + two + after;
    } else {
      SprintFieldsTell(v, w, rest, field);
      Cancels(k + ":" + one + " ", SprintFields(v, rest), SprintFields(w, rest), "");
      assert SprintFields(v, keys) == k + ":" + one + " " + SprintFields(v, rest) + "";
      assert SprintFields(w, keys) == k + ":" + one + " " + SprintFields(w, rest) + "";
    }
  }

  /** Two values of one field give the same key exactly when they print alike. */
  lemma KeyTellsPrints(m: Config, field: string, x: Value, y: Value)
    ensures Key(m[field := x]) == Key(m[field := y]) <==> Sprint(x) == Sprint(y)
  {
    hide Sprint, SprintFields;
    var v, w := Dict(m[field := x]), Dict(m[field := y]);
    assert v.fields.Keys == w.fields.Keys;
    var keys := SortedKeys(v.fields.Keys);
    SprintFieldsTell(v, w, keys, field);
    KeyIs(m[field := x]);
    KeyIs(m[field := y]);
    Cancels("map[", SprintFields(v, keys), SprintFields(w, keys), "]");
  }

  lemma KeyIs(m: Config)
    ensures Key(m) == "map[" + SprintFields(Dict(m), SortedKeys(m.Keys)) + "]"
  {
  }

  lemma Scalars(b: bool, c: bool, i: int, j: int, s: string, t: string)
    ensures Sprint(Str(s)) == Sprint(Str(t)) <==> s == t
    ensures Sprint(Int(i)) == Sprint(Int(j)) <==> i == j
    ensures Sprint(Bool(b)) == Sprint(Bool(c)) <==> b == c
  {
    ItoaInjective(i, j);
    assert "true"[0] == 't' && "false"[0] == 'f';
  }

  lemma ListsPrintAlike()
    ensures Sprint(List([Str("a b"), Str("c")])) == Sprint(List([Str("a"), Str("b c")]))
  {
    var one, two := [Str("a b"), Str("c")], [Str("a"), Str("b c")];
    assert one[1..] == [Str("c")] && two[1..] == [Str("b c")];
    assert SprintList(one) == "a b" + " " + "c" == "a b c";
    assert SprintList(two) == "a" + " " + "b c" == "a b c";
  }
}
