// Which proxy serves an upstream: that of the first upstream with the same content key.
module RenderContents {
  import opened Wrappers
  import opened Values
  import opened RelayTypes
  import opened PlanSpec
  import opened RenderSpec
  import opened RenderProofs

  function KeyOf(env: Loader, item: Item): Option<string> {
    if item.node.clash.None? then None else Some(ItemKey(env, item.node.clash.value, item.isInline))
  }

  /** mihomo loads the item's config. */
  predicate LoadsItem(env: Loader, item: Item) {
    item.node.clash.Some? && CheckProxy(env.loads, item.node.clash.value)
  }

  /** The first item with a key. */
  function FirstWith(env: Loader, items: seq<Item>, key: string): (first: Option<Item>)
    ensures first.Some? ==> first.value in items && KeyOf(env, first.value) == Some(key)
    ensures first.None? ==> forall item | item in items :: KeyOf(env, item) != Some(key)
  {
    if items == [] then None
    else if KeyOf(env, items[0]) == Some(key) then Some(items[0])
    else FirstWith(env, items[1..], key)
  }

  lemma {:induction false} FirstWithAppend(env: Loader, items: seq<Item>, item: Item, key: string)
    ensures FirstWith(env, items + [item], key) ==
            if FirstWith(env, items, key).Some? then FirstWith(env, items, key) else FirstWith(env, [item], key)
  {
    if items == [] {
      assert items + [item] == [item];
    } else {
      assert (items + [item])[1..] == items[1..] + [item];
      FirstWithAppend(env, items[1..], item, key);
    }
  }

  /** The record under the item's key is the item's own: whether it loads, and under which name it runs. */
  ghost predicate Recorded(env: Loader, reg: Registry, item: Item) {
    && item.node.clash.Some?
    && var m := item.node.clash.value;
       var key := ItemKey(env, m, item.isInline);
       && key in reg.byContent && reg.byContent[key].ok == CheckProxy(env.loads, m)
       && (reg.byContent[key].ok ==> Renamed(m, reg.byContent[key].name) in reg.proxies)
  }

  /** The record under a key is that of the first item with it. */
  ghost predicate TracedAt(env: Loader, done: seq<Item>, reg: Registry, key: string) {
    match FirstWith(env, done, key)
    case None => key !in reg.byContent
    case Some(first) => Recorded(env, reg, first)
  }

  ghost predicate Traced(env: Loader, done: seq<Item>, reg: Registry) {
    forall key :: TracedAt(env, done, reg, key)
  }

  lemma RecordedGrows(env: Loader, reg: Registry, reg': Registry, item: Item)
    requires Recorded(env, reg, item) && Grows(reg, reg')
    ensures Recorded(env, reg', item)
  {
    hide ItemKey, Renamed, CheckProxy;
    assert forall p | p in reg.proxies :: p in reg'.proxies by {
      assert reg'.proxies == reg.proxies + reg'.proxies[|reg.proxies|..];
    }
  }

  /** Adding an item touches the record of its own key only, and that only if there was none. */
  lemma AddTouches(env: Loader, reg: Registry, item: Item, key: string)
    requires key !in reg.byContent
    ensures var reg' := Add(env, reg, item).reg;
            if KeyOf(env, item) == Some(key) then Recorded(env, reg', item) else key !in reg'.byContent
  {
    hide ItemKey, Renamed, CheckProxy, DisplayName;
  }

  lemma AddTracedAt(env: Loader, done: seq<Item>, reg: Registry, item: Item, key: string)
    requires TracedAt(env, done, reg, key)
    ensures TracedAt(env, done + [item], Add(env, reg, item).reg, key)
  {
    hide Add, Recorded, Grows, KeyOf;
    FirstWithAppend(env, done, item, key);
    AddRecords(env, reg, item);
    if FirstWith(env, done, key).Some? {
      RecordedGrows(env, reg, Add(env, reg, item).reg, FirstWith(env, done, key).value);
    } else {
      AddTouches(env, reg, item, key);
      assert FirstWith(env, [item], key) == if KeyOf(env, item) == Some(key) then Some(item) else None;
    }
  }

  lemma AddTraced(env: Loader, done: seq<Item>, reg: Registry, item: Item)
    requires Traced(env, done, reg)
    ensures Traced(env, done + [item], Add(env, reg, item).reg)
  {
    hide TracedAt, Add;
    forall key { AddTracedAt(env, done, reg, item, key); }
  }

  lemma {:induction false} AddItemsTraced(env: Loader, done: seq<Item>, c: Collected, items: seq<Item>)
    requires Traced(env, done, c.reg)
    ensures Traced(env, done + items, AddItems(env, c, items).reg)
    decreases |items|
  {
    hide Traced, Add;
    if items == [] {
      assert done + items == done;
    } else {
      AddTraced(env, done, c.reg, items[0]);
      var a := Add(env, c.reg, items[0]);
      var c' := Collected(a.reg, if a.name.Some? then AppendUnique(c.names, a.name.value) else c.names);
      AddItemsTraced(env, done + [items[0]], c', items[1..]);
      assert done + [items[0]] + items[1..] == done + items;
    }
  }

  /** The upstream candidates of all relays, in config order. */
  function AllItems(relays: seq<RelaySpec>, answers: seq<seq<Node>>): seq<Item>
    requires |answers| >= |SubsRead(relays)|
    decreases |relays|
  {
    if relays == [] then []
    else ItemsOf(relays[0].upstreams, answers) + AllItems(relays[1..], answers[|SubsOf(relays[0].upstreams)|..])
  }

  lemma {:induction false} ItemsAmongAll(relays: seq<RelaySpec>, answers: seq<seq<Node>>, i: nat)
    requires |answers| >= |SubsRead(relays)| && i < |relays|
    ensures forall item | item in ItemsFor(relays, answers, i) :: item in AllItems(relays, answers)
    decreases |relays|
  {
    if i > 0 {
      ItemsAmongAll(relays[1..], answers[|SubsOf(relays[0].upstreams)|..], i - 1);
    }
  }

  lemma AddRelayTraced(env: Loader, done: seq<Item>, b: Groups, r: RelaySpec, answers: seq<seq<Node>>)
    requires Traced(env, done, b.reg) && |answers| >= |SubsOf(r.upstreams)|
    ensures Traced(env, done + ItemsOf(r.upstreams, answers), AddRelay(env, b, r, answers).reg)
  {
    hide Traced, AddItems, ItemsOf, SubsOf, RelayGroup;
    AddItemsTraced(env, done, Collected(b.reg, []), ItemsOf(r.upstreams, answers));
  }

  lemma {:induction false} AddRelaysTraced(env: Loader, done: seq<Item>, b: Groups, relays: seq<RelaySpec>,
                                           answers: seq<seq<Node>>)
    requires Traced(env, done, b.reg) && |answers| >= |SubsRead(relays)|
    ensures Traced(env, done + AllItems(relays, answers), AddRelays(env, b, relays, answers).reg)
    decreases |relays|
  {
    hide Traced, AddRelay, ItemsOf, SubsOf;
    if relays == [] {
      assert done + AllItems(relays, answers) == done;
    } else {
      var r, rest := relays[0], relays[1..];
      var items, answers' := ItemsOf(r.upstreams, answers), answers[|SubsOf(r.upstreams)|..];
      AddRelayTraced(env, done, b, r, answers);
      AddRelaysTraced(env, done + items, AddRelay(env, b, r, answers), rest, answers');
      assert done + items + AllItems(rest, answers') == done + AllItems(relays, answers);
    }
  }

  // Who is served

  /** The item is on record exactly when it loads, and then its own config runs under that name. */
  ghost predicate Served(env: Loader, reg: Registry, item: Item) {
    && (Lookup(env, reg, item).Some? <==> LoadsItem(env, item))
    && (LoadsItem(env, item) ==> Renamed(item.node.clash.value, Lookup(env, reg, item).value) in reg.proxies)
  }

  /** Both load and are equal apart from the name, or neither loads. */
  ghost predicate Alike(env: Loader, a: Item, b: Item) {
    && (LoadsItem(env, a) <==> LoadsItem(env, b))
    && (LoadsItem(env, a) && LoadsItem(env, b) ==> Renamed(a.node.clash.value, "") == Renamed(b.node.clash.value, ""))
  }

  lemma AlikeRenamed(m: Config, m': Config, name: string)
    ensures Renamed(m, "") == Renamed(m', "") <==> Renamed(m, name) == Renamed(m', name)
  {
    assert Renamed(m, "") == Renamed(Renamed(m, name), "") && Renamed(m', "") == Renamed(Renamed(m', name), "");
    assert Renamed(m, name) == Renamed(Renamed(m, ""), name) && Renamed(m', name) == Renamed(Renamed(m', ""), name);
  }

  lemma OneOfAName(ms: seq<Config>, p: Config, q: Config)
    requires DistinctNames(ms) && p in ms && q in ms && Name(p) == Name(q)
    ensures p == q
  {
    var i :| 0 <= i < |ms| && ms[i] == p;
    var j :| 0 <= j < |ms| && ms[j] == q;
    assert i == j;
  }

  lemma FirstIsSharedKey(env: Loader, items: seq<Item>, item: Item) returns (first: Item)
    requires item in items && item.node.clash.Some?
    ensures FirstWith(env, items, KeyOf(env, item).value) == Some(first)
    ensures first in items && KeyOf(env, first) == KeyOf(env, item)
  {
    first := FirstWith(env, items, KeyOf(env, item).value).value;
  }

  lemma NothingTraced(env: Loader, relays: seq<RelaySpec>)
    ensures Traced(env, [], Start(relays).reg)
  {
  }

  lemma RenderTraced(env: Loader, p: Plan, answers: seq<seq<Node>>)
    requires |answers| == |SubsRead(p.relays)| && DistinctRelays(p.relays)
    ensures Traced(env, AllItems(p.relays, answers), RenderGroups(env, p, answers).reg)
    ensures DistinctNames(RenderGroups(env, p, answers).reg.proxies)
  {
    hide Traced;
    NothingTraced(env, p.relays);
    AddRelaysTraced(env, [], Start(p.relays), p.relays, answers);
    assert [] + AllItems(p.relays, answers) == AllItems(p.relays, answers);
    RegistrySound(env, p, answers);
  }

  lemma ServedIfAlike(env: Loader, reg: Registry, first: Item, item: Item)
    requires Recorded(env, reg, first) && KeyOf(env, item) == KeyOf(env, first) && DistinctNames(reg.proxies)
    ensures Served(env, reg, item) <==> Alike(env, first, item)
  {
    var m, m' := first.node.clash.value, item.node.clash.value;
    if LoadsItem(env, first) && LoadsItem(env, item) {
      var name := reg.byContent[KeyOf(env, first).value].name;
      AlikeRenamed(m, m', name);
      if Renamed(m', name) in reg.proxies {
        OneOfAName(reg.proxies, Renamed(m, name), Renamed(m', name));
      }
    }
  }

  lemma FirstRecorded(env: Loader, reg: Registry, items: seq<Item>, key: string) returns (item: Item)
    requires Traced(env, items, reg) && key in reg.byContent
    ensures item in items && KeyOf(env, item) == Some(key) && Recorded(env, reg, item)
  {
    assert TracedAt(env, items, reg, key);
    item := FirstWith(env, items, key).value;
  }

  lemma EmittedIsRecorded(env: Loader, reg: Registry, items: seq<Item>, proxy: Config) returns (item: Item)
    requires Traced(env, items, reg) && DistinctNames(reg.proxies) && ProxiesRegistered(env, reg) &&
             proxy in reg.proxies
    ensures item in items && LoadsItem(env, item)
    ensures proxy == Renamed(item.node.clash.value, Name(proxy))
    ensures Lookup(env, reg, item) == Some(Name(proxy))
  {
    hide DistinctNames, FirstWith, Traced, CheckProxy;
    var key :| IsOk(reg, key) && reg.byContent[key].name == Name(proxy);
    item := FirstRecorded(env, reg, items, key);
    OneOfAName(reg.proxies, Renamed(item.node.clash.value, Name(proxy)), proxy);
  }

  /** Every emitted proxy is the renamed config of an upstream that loads and is on record under its name. */
  lemma EmittedFromUpstream(env: Loader, p: Plan, answers: seq<seq<Node>>, proxy: Config) returns (item: Item)
    requires |answers| == |SubsRead(p.relays)| && DistinctRelays(p.relays)
    requires proxy in RenderReads(env, p, answers).proxies
    ensures item in AllItems(p.relays, answers) && LoadsItem(env, item)
    ensures proxy == Renamed(item.node.clash.value, Name(proxy))
    ensures Lookup(env, RenderGroups(env, p, answers).reg, item) == Some(Name(proxy))
  {
    hide RenderGroups, AllItems, Traced, DistinctNames, ProxiesRegistered, Lookup;
    RenderTraced(env, p, answers);
    RegistrySound(env, p, answers);
    item := EmittedIsRecorded(env, RenderGroups(env, p, answers).reg, AllItems(p.relays, answers), proxy);
  }

  /** What the upstream is served by is the first upstream's with its key, so it must be alike. */
  ghost predicate FirstAlike(env: Loader, items: seq<Item>, item: Item) {
    item.node.clash.Some? ==>
      var first := FirstWith(env, items, KeyOf(env, item).value);
      first.Some? && Alike(env, first.value, item)
  }

  /**
   * An upstream that mihomo loads gets a proxy of exactly its own content, and one that it does not
   * load gets none, if and only if the first upstream with its content key is like it.
   */
  lemma ServedIffFirstAlike(env: Loader, p: Plan, answers: seq<seq<Node>>, item: Item)
    requires |answers| == |SubsRead(p.relays)| && DistinctRelays(p.relays)
    requires item in AllItems(p.relays, answers)
    ensures Served(env, RenderGroups(env, p, answers).reg, item) <==> FirstAlike(env, AllItems(p.relays, answers), item)
  {
    hide Served, Alike, RenderGroups, AllItems;
    var reg, items := RenderGroups(env, p, answers).reg, AllItems(p.relays, answers);
    RenderTraced(env, p, answers);
    if item.node.clash.Some? {
      var first := FirstIsSharedKey(env, items, item);
      assert TracedAt(env, items, reg, KeyOf(env, item).value);
      ServedIfAlike(env, reg, first, item);
    } else {
      NoConfigServed(env, reg, item);
    }
  }

  lemma NoConfigServed(env: Loader, reg: Registry, item: Item)
    requires item.node.clash.None?
    ensures Served(env, reg, item)
  {
  }

  /** Two upstreams of a render share a content key but not their content. */
  ghost predicate Mixed(env: Loader, items: seq<Item>, a: Item, b: Item) {
    && a in items && b in items && KeyOf(env, a).Some? && KeyOf(env, a) == KeyOf(env, b)
    && !Alike(env, a, b)
  }

  ghost predicate NoneMixed(env: Loader, items: seq<Item>) {
    forall a, b :: !Mixed(env, items, a, b)
  }

  lemma AlikeIsEquivalence(env: Loader, a: Item, b: Item, c: Item)
    requires Alike(env, a, b) && Alike(env, a, c)
    ensures Alike(env, b, c)
  {
  }

  /** Every upstream of every relay is served as itself if and only if no two are mixed. */
  lemma AllServedIffNoneMixed(env: Loader, p: Plan, answers: seq<seq<Node>>)
    requires |answers| == |SubsRead(p.relays)| && DistinctRelays(p.relays)
    ensures (forall item | item in AllItems(p.relays, answers) ::
               Served(env, RenderGroups(env, p, answers).reg, item)) <==>
            NoneMixed(env, AllItems(p.relays, answers))
  {
    hide Served, Alike, RenderGroups, AllItems;
    var reg, items := RenderGroups(env, p, answers).reg, AllItems(p.relays, answers);
    if NoneMixed(env, items) {
      forall item | item in items
        ensures Served(env, reg, item)
      {
        ServedIffFirstAlike(env, p, answers, item);
        if item.node.clash.Some? {
          var first := FirstIsSharedKey(env, items, item);
          assert !Mixed(env, items, first, item);
        }
      }
    } else {
      var a, b :| Mixed(env, items, a, b);
      ServedIffFirstAlike(env, p, answers, a);
      ServedIffFirstAlike(env, p, answers, b);
      if FirstAlike(env, items, a) && FirstAlike(env, items, b) {
        AlikeIsEquivalence(env, FirstWith(env, items, KeyOf(env, a).value).value, a, b);
      }
    }
  }

  /**
   * Without mixed contents a relay's members are exactly the proxies of its loadable upstreams: each
   * such upstream has a member with its own config, and each member has the config of such an upstream.
   */
  lemma MembersServeUpstreams(env: Loader, p: Plan, answers: seq<seq<Node>>, i: nat)
    requires |answers| == |SubsRead(p.relays)| && DistinctRelays(p.relays) && i < |p.relays|
    requires NoneMixed(env, AllItems(p.relays, answers))
    ensures var d, items := RenderReads(env, p, answers), ItemsFor(p.relays, answers, i);
            var members := MembersAt(d.members, p.relays[i].name);
            && (forall item | item in items && LoadsItem(env, item) ::
                  exists n :: n in members && Renamed(item.node.clash.value, n) in d.proxies)
            && (forall n | n in members :: exists item ::
                  item in items && LoadsItem(env, item) && Renamed(item.node.clash.value, n) in d.proxies)
  {
    hide RenderGroups, AllItems, ItemsFor, NoneMixed, FirstOccurrences, Sound;
    var d, items := RenderReads(env, p, answers), ItemsFor(p.relays, answers, i);
    var reg := RenderGroups(env, p, answers).reg;
    RenderMembers(env, p, answers, i);
    AllServedIffNoneMixed(env, p, answers);
    ItemsAmongAll(p.relays, answers, i);
    RegistrySound(env, p, answers);
    var members := MembersAt(d.members, p.relays[i].name);
    forall item | item in items && LoadsItem(env, item)
      ensures exists n :: n in members && Renamed(item.node.clash.value, n) in d.proxies
    {
      assert Served(env, reg, item);
      var n := Lookup(env, reg, item).value;
      assert n in members && Renamed(item.node.clash.value, n) in d.proxies;
    }
    forall n | n in members
      ensures exists item :: item in items && LoadsItem(env, item) && Renamed(item.node.clash.value, n) in d.proxies
    {
      var item :| item in items && Lookup(env, reg, item) == Some(n);
      assert Served(env, reg, item);
    }
  }

  // Mixed contents

  /** A plan of one relay over one sub. */
  function OneSub(relay: string, sub: string): Plan {
    Plan([RelaySpec(relay, "", [Sub(sub)])], [])
  }

  lemma OneSubReads(relay: string, sub: string)
    ensures |SubsRead(OneSub(relay, sub).relays)| == 1
  {
    var relays := OneSub(relay, sub).relays;
    assert SubsOf(relays[0].upstreams[1..]) == [] && SubsOf(relays[0].upstreams) == [sub];
    assert SubsRead(relays[1..]) == [];
  }

  function RenderTwo(env: Loader, relay: string, sub: string, a: Node, b: Node): Registry {
    OneSubReads(relay, sub);
    RenderGroups(env, OneSub(relay, sub), [[a, b]]).reg
  }

  lemma RenderTwoAdds(env: Loader, relay: string, sub: string, a: Node, b: Node)
    ensures RenderTwo(env, relay, sub, a, b) ==
            Add(env, Add(env, Start(OneSub(relay, sub).relays).reg, Item(a, false)).reg, Item(b, false)).reg
  {
    hide Add;
    OneSubReads(relay, sub);
    var relays, answers, items := OneSub(relay, sub).relays, [[a, b]], [Item(a, false), Item(b, false)];
    var start := Start(relays);
    assert ItemsOf(relays[0].upstreams[1..], answers[1..]) == [];
    assert ItemsOf(relays[0].upstreams, answers) == NodeItems(answers[0]) == items;
    assert items[1..] == [items[1]] && items[1..][1..] == [];
    var one := Add(env, start.reg, items[0]);
    var names := if one.name.Some? then AppendUnique([], one.name.value) else [];
    assert AddItems(env, Collected(start.reg, []), items) == AddItems(env, Collected(one.reg, names), items[1..]);
    assert AddItems(env, Collected(one.reg, names), items[1..]).reg == Add(env, one.reg, items[1]).reg;
    var b1 := AddRelay(env, start, relays[0], answers);
    assert b1.reg == AddItems(env, Collected(start.reg, []), items).reg;
    assert relays[1..] == [];
    assert AddRelays(env, start, relays, answers) == b1;
  }

  lemma PrintAlikesShareKey(loads: Config -> bool, name: string, name': string, m: Config)
    ensures var env := Loader(m => Key(m), loads);
            var one, two := List([Str("a b"), Str("c")]), List([Str("a"), Str("b c")]);
            KeyOf(env, Item(Node(name, Some(m["alpn" := one])), false)) ==
            KeyOf(env, Item(Node(name', Some(m["alpn" := two])), false))
  {
    hide Key, Sprint;
    var one, two := List([Str("a b"), Str("c")]), List([Str("a"), Str("b c")]);
    ListsPrintAlike();
    KeyTellsPrints(m - {"name"}, "alpn", one, two);
    assert m["alpn" := one] - {"name"} == (m - {"name"})["alpn" := one];
    assert m["alpn" := two] - {"name"} == (m - {"name"})["alpn" := two];
  }

  lemma AlpnsDiffer(m: Config)
    ensures Renamed(m["alpn" := List([Str("a b"), Str("c")])], "") !=
            Renamed(m["alpn" := List([Str("a"), Str("b c")])], "")
  {
    var one, two := [Str("a b"), Str("c")], [Str("a"), Str("b c")];
    assert |one[0].s| != |two[0].s| && one[0] != two[0];
    assert Renamed(m["alpn" := List(one)], "")["alpn"] == List(one);
    assert Renamed(m["alpn" := List(two)], "")["alpn"] == List(two);
  }

  /**
   * Two nodes of a sub that differ only in ALPN lists that print alike: if both load, the second is
   * served by the first's proxy; if the first does not load, the second is dropped although it does.
   */
  lemma PrintAlikeNodesMixed(loads: Config -> bool, relay: string, sub: string, m: Config)
    ensures var env := Loader(m => Key(m), loads);
            var a := Node("one", Some(m["alpn" := List([Str("a b"), Str("c")])]));
            var b := Node("two", Some(m["alpn" := List([Str("a"), Str("b c")])]));
            var one, two := Item(a, false), Item(b, false);
            var reg := RenderTwo(env, relay, sub, a, b);
            && (LoadsItem(env, one) && LoadsItem(env, two) ==>
                  Lookup(env, reg, two) == Lookup(env, reg, one) && !Served(env, reg, two))
            && (!LoadsItem(env, one) && LoadsItem(env, two) ==>
                  Lookup(env, reg, two) == None && reg.proxies == [])
  {
    var env := Loader(m => Key(m), loads);
    var a := Node("one", Some(m["alpn" := List([Str("a b"), Str("c")])]));
    var b := Node("two", Some(m["alpn" := List([Str("a"), Str("b c")])]));
    var one, two := Item(a, false), Item(b, false);
    var start := Start(OneSub(relay, sub).relays).reg;
    PrintAlikesShareKey(loads, "one", "two", m);
    AlpnsDiffer(m);
    RenderTwoAdds(env, relay, sub, a, b);
    hide RenderTwo, Key;
    var first := Add(env, start, one);
    assert Add(env, first.reg, two).reg == first.reg;
    if LoadsItem(env, one) && LoadsItem(env, two) {
      var name := first.reg.proxies[0]["name"].s;
      AlikeRenamed(one.node.clash.value, two.node.clash.value, name);
    }
  }
}
