// Rendering nodes whose contents and names are their own: every node keeps its name.
module RenderFresh {
  import opened Wrappers
  import opened Values
  import opened PlanSpec
  import opened RenderSpec
  import opened RenderContents

  function NamesOf(items: seq<Item>): seq<string> {
    seq(|items|, i requires 0 <= i < |items| => items[i].node.name)
  }

  function KeysOf(env: Loader, items: seq<Item>): seq<Option<string>> {
    seq(|items|, i requires 0 <= i < |items| => KeyOf(env, items[i]))
  }

  function ProxyOf(item: Item): Config {
    if item.node.clash.Some? then Renamed(item.node.clash.value, item.node.name) else map[]
  }

  function ProxiesOf(items: seq<Item>): seq<Config> {
    seq(|items|, i requires 0 <= i < |items| => ProxyOf(items[i]))
  }

  /** The item loads, and neither its name nor its content is registered. */
  ghost predicate New(env: Loader, reg: Registry, item: Item) {
    && LoadsItem(env, item) && item.node.name != "" && item.node.name !in reg.used
    && KeyOf(env, item).value !in reg.byContent
  }

  ghost predicate AllNew(env: Loader, reg: Registry, items: seq<Item>) {
    && (forall i | 0 <= i < |items| :: New(env, reg, items[i]))
    && (forall i, j | 0 <= i < j < |items| ::
          items[i].node.name != items[j].node.name && KeyOf(env, items[i]) != KeyOf(env, items[j]))
  }

  /** What registering these items adds, and nothing else. */
  ghost predicate Extends(env: Loader, reg: Registry, items: seq<Item>, reg': Registry) {
    && reg'.proxies == reg.proxies + ProxiesOf(items)
    && (forall n :: n in reg'.used <==> n in reg.used || n in NamesOf(items))
    && (forall key :: key in reg'.byContent <==> key in reg.byContent || Some(key) in KeysOf(env, items))
  }

  lemma AddNew(env: Loader, reg: Registry, item: Item)
    requires New(env, reg, item)
    ensures var a := Add(env, reg, item); a.name == Some(item.node.name) && Extends(env, reg, [item], a.reg)
  {
    hide CheckProxy, ItemKey;
    var a := Add(env, reg, item);
    assert a.reg.proxies == reg.proxies + [ProxyOf(item)];
    assert NamesOf([item]) == [item.node.name] && KeysOf(env, [item]) == [KeyOf(env, item)];
  }

  lemma ExtendsConcat(env: Loader, reg: Registry, a: seq<Item>, reg': Registry, b: seq<Item>, reg'': Registry)
    requires Extends(env, reg, a, reg') && Extends(env, reg', b, reg'')
    ensures Extends(env, reg, a + b, reg'')
  {
    hide ProxyOf, KeyOf;
    assert ProxiesOf(a + b) == ProxiesOf(a) + ProxiesOf(b);
    assert NamesOf(a + b) == NamesOf(a) + NamesOf(b);
    assert KeysOf(env, a + b) == KeysOf(env, a) + KeysOf(env, b);
  }

  lemma RestIsNew(env: Loader, reg: Registry, a: seq<Item>, reg': Registry, b: seq<Item>)
    requires AllNew(env, reg, a + b) && Extends(env, reg, a, reg')
    ensures AllNew(env, reg', b)
  {
    hide CheckProxy, ProxiesOf;
    forall i | 0 <= i < |b|
      ensures New(env, reg', b[i])
    {
      assert (a + b)[|a| + i] == b[i] && New(env, reg, b[i]);
      assert forall j | 0 <= j < |a| :: (a + b)[j] == a[j];
      assert b[i].node.name !in NamesOf(a) && KeyOf(env, b[i]) !in KeysOf(env, a);
      var key := KeyOf(env, b[i]).value;
      assert KeyOf(env, b[i]) == Some(key) && key !in reg'.byContent && b[i].node.name !in reg'.used;
    }
    forall i, j | 0 <= i < j < |b|
      ensures b[i].node.name != b[j].node.name && KeyOf(env, b[i]) != KeyOf(env, b[j])
    {
      assert (a + b)[|a| + i] == b[i] && (a + b)[|a| + j] == b[j];
    }
  }

  lemma {:induction false} AddItemsNew(env: Loader, c: Collected, items: seq<Item>)
    requires AllNew(env, c.reg, items) && forall n | n in c.names :: n in c.reg.used
    ensures var c' := AddItems(env, c, items);
            c'.names == c.names + NamesOf(items) && Extends(env, c.reg, items, c'.reg)
    decreases |items|
  {
    hide New, Add, KeysOf, ProxiesOf;
    if items == [] {
      NothingAdded(env, c.reg);
    } else {
      var first, rest := [items[0]], items[1..];
      assert items == first + rest;
      assert New(env, c.reg, items[0]);
      AddNew(env, c.reg, items[0]);
      NewName(env, c.reg, items[0]);
      var a := Add(env, c.reg, items[0]);
      RestIsNew(env, c.reg, first, a.reg, rest);
      assert NamesOf(first) == [items[0].node.name];
      var c' := Collected(a.reg, c.names + [items[0].node.name]);
      AddItemsNew(env, c', rest);
      ExtendsConcat(env, c.reg, first, a.reg, rest, AddItems(env, c', rest).reg);
      assert c.names + [items[0].node.name] + NamesOf(rest) == c.names + NamesOf(items);
    }
  }

  lemma NewName(env: Loader, reg: Registry, item: Item)
    requires New(env, reg, item)
    ensures item.node.name !in reg.used
  {
  }

  lemma NothingAdded(env: Loader, reg: Registry)
    ensures Extends(env, reg, [], reg)
  {
    assert reg.proxies + ProxiesOf([]) == reg.proxies;
  }

  // One relay over one sub

  lemma OneSubItems(sub: string, answers: seq<seq<Node>>)
    requires answers != []
    ensures SubsOf([Sub(sub)]) == [sub] && ItemsOf([Sub(sub)], answers) == NodeItems(answers[0])
  {
    var ups := [Sub(sub)];
    assert ups[1..] == [] && SubsOf(ups[1..]) == [] && ItemsOf(ups[1..], answers[1..]) == [];
  }

  lemma AddRelayNew(env: Loader, b: Groups, r: RelaySpec, sub: string, answers: seq<seq<Node>>)
    requires r.upstreams == [Sub(sub)] && answers != [] && answers[0] != []
    requires AllNew(env, b.reg, NodeItems(answers[0]))
    ensures |SubsOf(r.upstreams)| == 1
    ensures var items, b' := NodeItems(answers[0]), AddRelay(env, b, r, answers);
            && Extends(env, b.reg, items, b'.reg)
            && b' == Groups(b'.reg, b.groups + [RelayGroup(r, NamesOf(items))], b.members[r.name := NamesOf(items)],
                            b.target[r.name := r.name])
  {
    assert |NodeItems(answers[0])| == |answers[0]|;
    assert [] + NamesOf(NodeItems(answers[0])) == NamesOf(NodeItems(answers[0])) != [];
    hide AllNew, Extends, NodeItems, NamesOf, RelayGroup, AddItems;
    OneSubItems(sub, answers);
    AddItemsNew(env, Collected(b.reg, []), NodeItems(answers[0]));
  }
}
