// Soundness of the proxy registry, and the well-formedness of what rendering hands the core.
module RenderProofs {
  import opened Wrappers
  import opened Values
  import opened Names
  import opened RelayTypes
  import opened PlanSpec
  import opened RenderSpec

  // The registry

  /** p is the renamed form of a proxy with this content key. */
  ghost predicate HasKey(env: Loader, key: string, p: Config) {
    exists m: Config, isInline: bool :: p == Renamed(m, Name(p)) && key == ItemKey(env, m, isInline)
  }

  ghost predicate IsOk(reg: Registry, key: string) {
    key in reg.byContent && reg.byContent[key].ok
  }

  /** Every content key that loads has an emitted proxy of its own name. */
  ghost predicate KeysEmitted(env: Loader, reg: Registry) {
    forall k | IsOk(reg, k) :: exists p | p in reg.proxies :: Name(p) == reg.byContent[k].name && HasKey(env, k, p)
  }

  /** Every emitted proxy loads and is registered. */
  ghost predicate ProxiesRegistered(env: Loader, reg: Registry) {
    forall p | p in reg.proxies ::
      CheckProxy(env.loads, p) && exists k :: IsOk(reg, k) && reg.byContent[k].name == Name(p)
  }

  ghost predicate KeysInjective(reg: Registry) {
    forall k, k' | IsOk(reg, k) && IsOk(reg, k') && reg.byContent[k].name == reg.byContent[k'].name :: k == k'
  }

  /** A key is not ok only because its content does not load. */
  ghost predicate RejectsFail(env: Loader, reg: Registry) {
    forall k | k in reg.byContent && !reg.byContent[k].ok ::
      exists m: Config, isInline: bool :: k == ItemKey(env, m, isInline) && !CheckProxy(env.loads, m)
  }

  ghost predicate NamesTaken(taken: set<string>, reg: Registry) {
    && DistinctNames(reg.proxies)
    && NameSet(reg.proxies) !! taken
    && reg.used == taken + NameSet(reg.proxies)
  }

  /**
   * Names and the content keys that load are in bijection; names are distinct and none is taken by a relay
   * or a built-in.
   */
  ghost predicate Sound(env: Loader, taken: set<string>, reg: Registry) {
    && NamesTaken(taken, reg)
    && KeysEmitted(env, reg)
    && ProxiesRegistered(env, reg)
    && KeysInjective(reg)
    && RejectsFail(env, reg)
  }

  /** What the registry has on record for an item. */
  function Lookup(env: Loader, reg: Registry, item: Item): Option<string> {
    if item.node.clash.None? then None
    else
      var key := ItemKey(env, item.node.clash.value, item.isInline);
      if key in reg.byContent && reg.byContent[key].ok then Some(reg.byContent[key].name) else None
  }

  ghost predicate Grows(reg: Registry, reg': Registry) {
    && (forall k | k in reg.byContent :: k in reg'.byContent && reg'.byContent[k] == reg.byContent[k])
    && reg.proxies <= reg'.proxies
  }

  ghost predicate Registers(env: Loader, reg: Registry, item: Item) {
    item.node.clash.Some? ==> ItemKey(env, item.node.clash.value, item.isInline) in reg.byContent
  }

  lemma NewProxy(env: Loader, taken: set<string>, reg: Registry, m: Config, name: string)
    requires NamesTaken(taken, reg) && name !in reg.used && CheckProxy(env.loads, m)
    ensures var p := Renamed(m, name);
            && Name(p) == name && CheckProxy(env.loads, p)
            && DistinctNames(reg.proxies + [p])
            && NameSet(reg.proxies + [p]) == NameSet(reg.proxies) + {name}
  {
    var p := Renamed(m, name);
    assert p["name" := Str("check")] == m["name" := Str("check")];
    DistinctNamesAppend(reg.proxies, p);
  }

  /** Registering a new loadable content. */
  lemma AddNewSound(env: Loader, taken: set<string>, reg: Registry, reg': Registry, m: Config, isInline: bool,
                    name: string)
    requires Sound(env, taken, reg) && name !in reg.used && CheckProxy(env.loads, m)
    requires ItemKey(env, m, isInline) !in reg.byContent
    requires reg' == Registry(reg.used + {name}, reg.byContent[ItemKey(env, m, isInline) := Registered(name, true)],
                              reg.proxies + [Renamed(m, name)])
    ensures Sound(env, taken, reg')
  {
    var key, p := ItemKey(env, m, isInline), Renamed(m, name);
    NewProxy(env, taken, reg, m, name);
    assert HasKey(env, key, p) by {
      assert p == Renamed(m, Name(p)) && key == ItemKey(env, m, isInline);
    }
    NewEmitted(env, reg, reg', key, p, name);
    NewRegistered(env, reg, reg', key, p, name);
    NewInjective(env, taken, reg, reg', key, name);
    NewRejects(env, reg, reg', key, name);
  }

  lemma NewEmitted(env: Loader, reg: Registry, reg': Registry, key: string, p: Config, name: string)
    requires KeysEmitted(env, reg) && key !in reg.byContent && Name(p) == name && HasKey(env, key, p)
    requires reg'.byContent == reg.byContent[key := Registered(name, true)] && reg'.proxies == reg.proxies + [p]
    ensures KeysEmitted(env, reg')
  {
    hide HasKey;
    forall k | IsOk(reg', k)
      ensures exists q | q in reg'.proxies :: Name(q) == reg'.byContent[k].name && HasKey(env, k, q)
    {
      if k == key {
        assert p in reg'.proxies;
      } else {
        assert IsOk(reg, k);
        var q :| q in reg.proxies && Name(q) == reg.byContent[k].name && HasKey(env, k, q);
        assert q in reg'.proxies;
      }
    }
  }

  lemma NewRejects(env: Loader, reg: Registry, reg': Registry, key: string, name: string)
    requires RejectsFail(env, reg) && reg'.byContent == reg.byContent[key := Registered(name, true)]
    ensures RejectsFail(env, reg')
  {
    forall k | k in reg'.byContent && !reg'.byContent[k].ok
      ensures exists m: Config, isInline: bool :: k == ItemKey(env, m, isInline) && !CheckProxy(env.loads, m)
    {
      assert k in reg.byContent && !reg.byContent[k].ok;
    }
  }

  lemma NewRegistered(env: Loader, reg: Registry, reg': Registry, key: string, p: Config, name: string)
    requires ProxiesRegistered(env, reg) && key !in reg.byContent && Name(p) == name && CheckProxy(env.loads, p)
    requires reg'.byContent == reg.byContent[key := Registered(name, true)] && reg'.proxies == reg.proxies + [p]
    ensures ProxiesRegistered(env, reg')
  {
    forall q | q in reg'.proxies
      ensures CheckProxy(env.loads, q) && exists k :: IsOk(reg', k) && reg'.byContent[k].name == Name(q)
    {
      if q == p {
        assert IsOk(reg', key);
      } else {
        assert q in reg.proxies;
        var k :| IsOk(reg, k) && reg.byContent[k].name == Name(q);
        assert IsOk(reg', k);
      }
    }
  }

  lemma NewInjective(env: Loader, taken: set<string>, reg: Registry, reg': Registry, key: string, name: string)
    requires KeysInjective(reg) && KeysEmitted(env, reg) && NamesTaken(taken, reg)
    requires key !in reg.byContent && name !in reg.used
    requires reg'.byContent == reg.byContent[key := Registered(name, true)]
    ensures KeysInjective(reg')
  {
    forall k | IsOk(reg, k)
      ensures reg.byContent[k].name != name
    {
      var q :| q in reg.proxies && Name(q) == reg.byContent[k].name;
      assert Name(q) in NameSet(reg.proxies);
    }
    forall k, k' | IsOk(reg', k) && IsOk(reg', k') && reg'.byContent[k].name == reg'.byContent[k'].name
      ensures k == k'
    {
      assert k != key ==> IsOk(reg, k);
      assert k' != key ==> IsOk(reg, k');
    }
  }

  /** The registered names and the proxies are the same on both sides. */
  ghost predicate SameOk(reg: Registry, reg': Registry) {
    && reg'.proxies == reg.proxies && reg'.used == reg.used
    && forall k :: (IsOk(reg', k) <==> IsOk(reg, k)) && (IsOk(reg, k) ==> reg'.byContent[k] == reg.byContent[k])
  }

  lemma SameOkRegistered(env: Loader, reg: Registry, reg': Registry)
    requires SameOk(reg, reg') && ProxiesRegistered(env, reg)
    ensures ProxiesRegistered(env, reg')
  {
    forall p | p in reg'.proxies
      ensures exists k :: IsOk(reg', k) && reg'.byContent[k].name == Name(p)
    {
      var k :| IsOk(reg, k) && reg.byContent[k].name == Name(p);
      assert IsOk(reg', k);
    }
  }

  lemma SameOkEmitted(env: Loader, reg: Registry, reg': Registry)
    requires SameOk(reg, reg') && KeysEmitted(env, reg) && KeysInjective(reg)
    ensures KeysEmitted(env, reg') && KeysInjective(reg')
  {
  }

  lemma RejectsAppend(env: Loader, reg: Registry, m: Config, isInline: bool)
    requires RejectsFail(env, reg) && !CheckProxy(env.loads, m)
    ensures RejectsFail(env, reg.(byContent := reg.byContent[ItemKey(env, m, isInline) := Registered("", false)]))
  {
    var key := ItemKey(env, m, isInline);
    var reg' := reg.(byContent := reg.byContent[key := Registered("", false)]);
    forall k | k in reg'.byContent && !reg'.byContent[k].ok
      ensures exists m: Config, isInline: bool :: k == ItemKey(env, m, isInline) && !CheckProxy(env.loads, m)
    {
      assert k == key || (k in reg.byContent && !reg.byContent[k].ok);
    }
  }

  /** Registering a content that does not load. */
  lemma AddRejectSound(env: Loader, taken: set<string>, reg: Registry, m: Config, isInline: bool)
    requires Sound(env, taken, reg) && !CheckProxy(env.loads, m)
    requires ItemKey(env, m, isInline) !in reg.byContent
    ensures Sound(env, taken, reg.(byContent := reg.byContent[ItemKey(env, m, isInline) := Registered("", false)]))
  {
    var reg' := reg.(byContent := reg.byContent[ItemKey(env, m, isInline) := Registered("", false)]);
    assert SameOk(reg, reg');
    SameOkRegistered(env, reg, reg');
    SameOkEmitted(env, reg, reg');
    RejectsAppend(env, reg, m, isInline);
  }

  lemma AddKeepsSound(env: Loader, taken: set<string>, reg: Registry, item: Item)
    requires Sound(env, taken, reg)
    ensures Sound(env, taken, Add(env, reg, item).reg)
  {
    if item.node.clash.Some? {
      var m := item.node.clash.value;
      if ItemKey(env, m, item.isInline) !in reg.byContent {
        if CheckProxy(env.loads, m) {
          AddNewSound(env, taken, reg, Add(env, reg, item).reg, m, item.isInline,
                      FreshName(DisplayName(item.node.name, m), " ", reg.used));
        } else {
          AddRejectSound(env, taken, reg, m, item.isInline);
        }
      }
    }
  }

  lemma AddRecords(env: Loader, reg: Registry, item: Item)
    ensures var a := Add(env, reg, item);
            Grows(reg, a.reg) && Registers(env, a.reg, item) && a.name == Lookup(env, a.reg, item)
  {
  }

  lemma AddSound(env: Loader, taken: set<string>, reg: Registry, item: Item)
    requires Sound(env, taken, reg)
    ensures var a := Add(env, reg, item);
            Sound(env, taken, a.reg) && Grows(reg, a.reg) && Registers(env, a.reg, item) &&
              a.name == Lookup(env, a.reg, item)
  {
    AddKeepsSound(env, taken, reg, item);
    AddRecords(env, reg, item);
  }

  lemma LookupStable(env: Loader, reg: Registry, reg': Registry, item: Item)
    requires Grows(reg, reg') && Registers(env, reg, item)
    ensures Registers(env, reg', item) && Lookup(env, reg', item) == Lookup(env, reg, item)
  {
  }

  /** The first occurrences of the names on record for the items, in order. */
  function FirstOccurrences(env: Loader, reg: Registry, names: seq<string>, items: seq<Item>): seq<string>
    decreases |items|
  {
    if items == [] then names
    else
      var name := Lookup(env, reg, items[0]);
      FirstOccurrences(env, reg, if name.Some? then AppendUnique(names, name.value) else names, items[1..])
  }

  lemma {:induction false} AddItemsSound(env: Loader, taken: set<string>, c: Collected, items: seq<Item>)
    requires Sound(env, taken, c.reg)
    ensures var c' := AddItems(env, c, items); Sound(env, taken, c'.reg) && Grows(c.reg, c'.reg)
    decreases |items|
  {
    if items != [] {
      AddSound(env, taken, c.reg, items[0]);
      var a := Add(env, c.reg, items[0]);
      AddItemsSound(env, taken, Collected(a.reg, if a.name.Some? then AppendUnique(c.names, a.name.value) else c.names),
                    items[1..]);
    }
  }

  /** Members are first occurrences in config order, by the registry as it finally is. */
  lemma {:induction false} MembersAreFirstOccurrences(env: Loader, taken: set<string>, c: Collected, items: seq<Item>,
                                                      final: Registry)
    requires Sound(env, taken, c.reg) && Grows(AddItems(env, c, items).reg, final)
    ensures AddItems(env, c, items).names == FirstOccurrences(env, final, c.names, items)
    ensures forall item | item in items :: Registers(env, final, item)
    decreases |items|
  {
    if items != [] {
      AddSound(env, taken, c.reg, items[0]);
      var a := Add(env, c.reg, items[0]);
      var c' := Collected(a.reg, if a.name.Some? then AppendUnique(c.names, a.name.value) else c.names);
      AddItemsSound(env, taken, c', items[1..]);
      GrowsTransitive(a.reg, AddItems(env, c', items[1..]).reg, final);
      LookupStable(env, a.reg, final, items[0]);
      MembersAreFirstOccurrences(env, taken, c', items[1..], final);
      assert items == [items[0]] + items[1..];
    }
  }

  lemma GrowsTransitive(a: Registry, b: Registry, c: Registry)
    requires Grows(a, b) && Grows(b, c)
    ensures Grows(a, c)
  {
  }

  /** Each member appears once, comes from some item, and every loadable item is there. */
  lemma {:induction false} FirstOccurrencesAre(env: Loader, reg: Registry, names: seq<string>, items: seq<Item>)
    requires Distinct(names)
    ensures Distinct(FirstOccurrences(env, reg, names, items))
    ensures names <= FirstOccurrences(env, reg, names, items)
    ensures forall n :: n in FirstOccurrences(env, reg, names, items) <==>
              n in names || exists item | item in items :: Lookup(env, reg, item) == Some(n)
    decreases |items|
  {
    if items != [] {
      var name := Lookup(env, reg, items[0]);
      var names' := if name.Some? then AppendUnique(names, name.value) else names;
      FirstOccurrencesAre(env, reg, names', items[1..]);
      assert items == [items[0]] + items[1..];
      forall n
        ensures n in FirstOccurrences(env, reg, names, items) <==>
                n in names || exists item | item in items :: Lookup(env, reg, item) == Some(n)
      {
        if item :| item in items && Lookup(env, reg, item) == Some(n) {
          assert item == items[0] || item in items[1..];
        }
      }
    }
  }

  lemma LookupEmitted(env: Loader, taken: set<string>, reg: Registry, item: Item)
    requires Sound(env, taken, reg) && Lookup(env, reg, item).Some?
    ensures Lookup(env, reg, item).value in NameSet(reg.proxies)
  {
    var key := ItemKey(env, item.node.clash.value, item.isInline);
    assert IsOk(reg, key);
    var p :| p in reg.proxies && Name(p) == reg.byContent[key].name;
  }

  lemma MembersEmitted(env: Loader, taken: set<string>, reg: Registry, items: seq<Item>)
    requires Sound(env, taken, reg)
    ensures forall n | n in AddItems(env, Collected(reg, []), items).names ::
              n in NameSet(AddItems(env, Collected(reg, []), items).reg.proxies)
    ensures Distinct(AddItems(env, Collected(reg, []), items).names)
  {
    var c := AddItems(env, Collected(reg, []), items);
    AddItemsSound(env, taken, Collected(reg, []), items);
    MembersAreFirstOccurrences(env, taken, Collected(reg, []), items, c.reg);
    FirstOccurrencesAre(env, c.reg, [], items);
    forall n | n in c.names
      ensures n in NameSet(c.reg.proxies)
    {
      var item :| item in items && Lookup(env, c.reg, item) == Some(n);
      LookupEmitted(env, taken, c.reg, item);
    }
  }

  // Groups

  function RelayNameSet(relays: seq<RelaySpec>): set<string> {
    set r | r in relays :: r.name
  }

  ghost predicate GroupsMatch(b: Groups) {
    && DistinctNames(b.groups)
    && NameSet(b.groups) == b.members.Keys
    && (forall m | m in b.groups :: Name(m) in b.members && Listed(m) == b.members[Name(m)])
  }

  ghost predicate MembersKnown(b: Groups) {
    forall g, n | g in b.members && n in b.members[g] :: n in NameSet(b.reg.proxies)
  }

  /** A relay with usable upstreams is its own target; one without rejects its callers. */
  ghost predicate TargetsMatch(b: Groups, done: set<string>) {
    && b.target.Keys == done && b.members.Keys <= done
    && (forall n | n in done :: b.target[n] == if n in b.members then n else "REJECT")
  }

  ghost predicate GroupsSound(env: Loader, taken: set<string>, b: Groups, done: set<string>) {
    Sound(env, taken, b.reg) && GroupsMatch(b) && MembersKnown(b) && TargetsMatch(b, done)
  }

  lemma RelayGroupListed(r: RelaySpec, members: seq<string>)
    ensures Name(RelayGroup(r, members)) == r.name && Listed(RelayGroup(r, members)) == members
  {
    ListedStringList(RelayGroup(r, members), members);
  }

  lemma GrowsNames(reg: Registry, reg': Registry)
    requires Grows(reg, reg')
    ensures NameSet(reg.proxies) <= NameSet(reg'.proxies)
  {
    forall p | p in reg.proxies
      ensures p in reg'.proxies
    {
      var i :| 0 <= i < |reg.proxies| && reg.proxies[i] == p;
      assert reg'.proxies[i] == p;
    }
  }

  lemma GroupsMatchAppend(b: Groups, b': Groups, g: Config, names: seq<string>)
    requires GroupsMatch(b) && Name(g) !in b.members && Listed(g) == names
    requires b'.groups == b.groups + [g] && b'.members == b.members[Name(g) := names]
    ensures GroupsMatch(b')
  {
    DistinctNamesAppend(b.groups, g);
    assert forall x | x in b.groups :: Name(x) in NameSet(b.groups);
  }

  lemma AddRelayReg(env: Loader, taken: set<string>, b: Groups, r: RelaySpec, answers: seq<seq<Node>>)
    requires Sound(env, taken, b.reg) && |answers| >= |SubsOf(r.upstreams)|
    ensures var b' := AddRelay(env, b, r, answers); Sound(env, taken, b'.reg) && Grows(b.reg, b'.reg)
  {
    AddItemsSound(env, taken, Collected(b.reg, []), ItemsOf(r.upstreams, answers));
  }

  lemma AddRelayGroups(env: Loader, b: Groups, r: RelaySpec, answers: seq<seq<Node>>)
    requires GroupsMatch(b) && r.name !in b.members && |answers| >= |SubsOf(r.upstreams)|
    ensures GroupsMatch(AddRelay(env, b, r, answers))
  {
    var c := AddItems(env, Collected(b.reg, []), ItemsOf(r.upstreams, answers));
    if c.names != [] {
      RelayGroupListed(r, c.names);
      GroupsMatchAppend(b, AddRelay(env, b, r, answers), RelayGroup(r, c.names), c.names);
    }
  }

  lemma AddRelayMembers(env: Loader, taken: set<string>, b: Groups, r: RelaySpec, answers: seq<seq<Node>>)
    requires Sound(env, taken, b.reg) && MembersKnown(b) && |answers| >= |SubsOf(r.upstreams)|
    ensures MembersKnown(AddRelay(env, b, r, answers))
  {
    var b' := AddRelay(env, b, r, answers);
    AddRelayReg(env, taken, b, r, answers);
    GrowsNames(b.reg, b'.reg);
    MembersEmitted(env, taken, b.reg, ItemsOf(r.upstreams, answers));
    forall g, n | g in b'.members && n in b'.members[g]
      ensures n in NameSet(b'.reg.proxies)
    {
      if g != r.name {
        assert n in b.members[g];
      }
    }
  }

  lemma AddRelaySound(env: Loader, taken: set<string>, b: Groups, r: RelaySpec, answers: seq<seq<Node>>,
                      done: set<string>)
    requires GroupsSound(env, taken, b, done) && r.name !in done && |answers| >= |SubsOf(r.upstreams)|
    ensures var b' := AddRelay(env, b, r, answers);
            GroupsSound(env, taken, b', done + {r.name}) && Grows(b.reg, b'.reg)
  {
    AddRelayReg(env, taken, b, r, answers);
    AddRelayGroups(env, b, r, answers);
    AddRelayMembers(env, taken, b, r, answers);
  }

  lemma {:induction false} AddRelaysSound(env: Loader, taken: set<string>, b: Groups, relays: seq<RelaySpec>,
                                          answers: seq<seq<Node>>, done: set<string>)
    requires GroupsSound(env, taken, b, done) && |answers| >= |SubsRead(relays)|
    requires DistinctRelays(relays) && done !! RelayNameSet(relays)
    ensures var b' := AddRelays(env, b, relays, answers);
            GroupsSound(env, taken, b', done + RelayNameSet(relays)) && Grows(b.reg, b'.reg)
    decreases |relays|
  {
    if relays == [] {
      assert done + RelayNameSet(relays) == done;
    } else {
      var r, rest := relays[0], relays[1..];
      assert relays == [r] + rest;
      assert RelayNameSet(relays) == {r.name} + RelayNameSet(rest);
      assert r.name !in RelayNameSet(rest);
      AddRelaySound(env, taken, b, r, answers, done);
      var b1 := AddRelay(env, b, r, answers);
      AddRelaysSound(env, taken, b1, rest, answers[|SubsOf(r.upstreams)|..], done + {r.name});
      GrowsTransitive(b.reg, b1.reg, AddRelays(env, b, relays, answers).reg);
      assert done + {r.name} + RelayNameSet(rest) == done + RelayNameSet(relays);
    }
  }

  lemma RenderGroupsSound(env: Loader, p: Plan, answers: seq<seq<Node>>)
    requires |answers| == |SubsRead(p.relays)| && DistinctRelays(p.relays)
    ensures GroupsSound(env, TakenNames(p.relays), RenderGroups(env, p, answers), RelayNameSet(p.relays))
  {
    AddRelaysSound(env, TakenNames(p.relays), Start(p.relays), p.relays, answers, {});
    assert {} + RelayNameSet(p.relays) == RelayNameSet(p.relays);
  }

  /**
   * Proxy names are distinct and differ from every relay and built-in name, names and the content
   * keys that load are in bijection, and every emitted proxy loads. Whose contents they are:
   * RenderContents.
   */
  lemma RegistrySound(env: Loader, p: Plan, answers: seq<seq<Node>>)
    requires |answers| == |SubsRead(p.relays)| && DistinctRelays(p.relays)
    ensures Sound(env, TakenNames(p.relays), RenderGroups(env, p, answers).reg)
    ensures RenderReads(env, p, answers).proxies == RenderGroups(env, p, answers).reg.proxies
  {
    RenderGroupsSound(env, p, answers);
  }

  /** What rendering produces is well-formed, so the core may apply it. */
  lemma RenderWellFormed(env: Loader, p: Plan, answers: seq<seq<Node>>)
    requires |answers| == |SubsRead(p.relays)| && DistinctRelays(p.relays)
    ensures WellFormed(RenderReads(env, p, answers))
  {
    RenderGroupsSound(env, p, answers);
    assert RelayNameSet(p.relays) <= TakenNames(p.relays);
  }

  // Members of each relay

  /** The upstream candidates of the i-th relay. */
  function ItemsFor(relays: seq<RelaySpec>, answers: seq<seq<Node>>, i: nat): seq<Item>
    requires i < |relays| && |answers| >= |SubsRead(relays)|
    decreases |relays|
  {
    if i == 0 then ItemsOf(relays[0].upstreams, answers)
    else ItemsFor(relays[1..], answers[|SubsOf(relays[0].upstreams)|..], i - 1)
  }

  lemma {:induction false} OtherMembersKept(env: Loader, b: Groups, relays: seq<RelaySpec>, answers: seq<seq<Node>>,
                                            n: string)
    requires |answers| >= |SubsRead(relays)| && n !in RelayNameSet(relays)
    ensures MembersAt(AddRelays(env, b, relays, answers).members, n) == MembersAt(b.members, n)
    decreases |relays|
  {
    if relays != [] {
      assert relays == [relays[0]] + relays[1..];
      OtherMembersKept(env, AddRelay(env, b, relays[0], answers), relays[1..], answers[|SubsOf(relays[0].upstreams)|..],
                       n);
    }
  }

  lemma FirstRelayMembers(env: Loader, taken: set<string>, b: Groups, r: RelaySpec, answers: seq<seq<Node>>,
                          final: Registry)
    requires Sound(env, taken, b.reg) && r.name !in b.members && |answers| >= |SubsOf(r.upstreams)|
    requires Grows(AddRelay(env, b, r, answers).reg, final)
    ensures MembersAt(AddRelay(env, b, r, answers).members, r.name) ==
            FirstOccurrences(env, final, [], ItemsOf(r.upstreams, answers))
  {
    MembersAreFirstOccurrences(env, taken, Collected(b.reg, []), ItemsOf(r.upstreams, answers), final);
  }

  lemma {:induction false} RelayMembers(env: Loader, taken: set<string>, b: Groups, relays: seq<RelaySpec>,
                                        answers: seq<seq<Node>>, done: set<string>, i: nat, final: Registry)
    requires GroupsSound(env, taken, b, done) && |answers| >= |SubsRead(relays)| && i < |relays|
    requires DistinctRelays(relays) && done !! RelayNameSet(relays)
    requires Grows(AddRelays(env, b, relays, answers).reg, final)
    ensures MembersAt(AddRelays(env, b, relays, answers).members, relays[i].name) ==
            FirstOccurrences(env, final, [], ItemsFor(relays, answers, i))
    decreases |relays|
  {
    hide Sound, FirstOccurrences, AddRelay, ItemsOf, GroupsMatch, MembersKnown, Grows, MembersAt;
    var r, rest := relays[0], relays[1..];
    assert relays == [r] + rest;
    assert r.name in RelayNameSet(relays) && r.name !in RelayNameSet(rest) &&
           RelayNameSet(rest) <= RelayNameSet(relays);
    var b1, answers1 := AddRelay(env, b, r, answers), answers[|SubsOf(r.upstreams)|..];
    AddRelaySound(env, taken, b, r, answers, done);
    if i == 0 {
      AddRelaysSound(env, taken, b1, rest, answers1, done + {r.name});
      GrowsTransitive(b1.reg, AddRelays(env, b1, rest, answers1).reg, final);
      FirstRelayMembers(env, taken, b, r, answers, final);
      OtherMembersKept(env, b1, rest, answers1, r.name);
    } else {
      RelayMembers(env, taken, b1, rest, answers1, done + {r.name}, i - 1, final);
    }
  }

  /**
   * A relay's group lists, without repeats and in config order, exactly the proxies that its
   * upstreams are on record as; without any, it has no group.
   */
  lemma RenderMembers(env: Loader, p: Plan, answers: seq<seq<Node>>, i: nat)
    requires |answers| == |SubsRead(p.relays)| && DistinctRelays(p.relays) && i < |p.relays|
    ensures var d, reg := RenderReads(env, p, answers), RenderGroups(env, p, answers).reg;
            var members, items := MembersAt(d.members, p.relays[i].name), ItemsFor(p.relays, answers, i);
            && members == FirstOccurrences(env, reg, [], items) && Distinct(members)
            && (forall n :: n in members <==> exists item | item in items :: Lookup(env, reg, item) == Some(n))
            && (forall n | n in members :: n in NameSet(d.proxies))
            && (p.relays[i].name in d.members <==> members != [])
  {
    hide FirstOccurrences, AddRelays, ItemsFor, Lookup;
    var taken, g := TakenNames(p.relays), RenderGroups(env, p, answers);
    RelayMembers(env, taken, Start(p.relays), p.relays, answers, {}, i, g.reg);
    FirstOccurrencesAre(env, g.reg, [], ItemsFor(p.relays, answers, i));
    RenderGroupsSound(env, p, answers);
    GroupsNonEmpty(env, Start(p.relays), p.relays, answers);
  }

  lemma {:induction false} GroupsNonEmpty(env: Loader, b: Groups, relays: seq<RelaySpec>, answers: seq<seq<Node>>)
    requires |answers| >= |SubsRead(relays)| && forall n | n in b.members :: b.members[n] != []
    ensures forall n | n in AddRelays(env, b, relays, answers).members ::
            AddRelays(env, b, relays, answers).members[n] != []
    decreases |relays|
  {
    if relays != [] {
      GroupsNonEmpty(env, AddRelay(env, b, relays[0], answers), relays[1..], answers[|SubsOf(relays[0].upstreams)|..]);
    }
  }
}
