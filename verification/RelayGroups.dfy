// The kind of group each relay of a rendered plan becomes.
module RelayGroups {
  import opened Values
  import opened RelayTypes
  import opened PlanSpec
  import opened RenderSpec
  import opened RenderProofs
  import opened Routing

  /** The five strategies of the documentation. */
  ghost predicate IsStrategy(s: string) {
    s in {"url-test", "fallback"} || Balances(s)
  }

  ghost predicate Balances(s: string) {
    s in {"round-robin", "consistent-hashing", "sticky-sessions"}
  }

  lemma StrategiesAre(s: string)
    ensures s in STRATEGIES <==> IsStrategy(s)
  {
  }

  /**
   * A group over these members: a plain choice of the only one, or what the strategy says, which is
   * mihomo's group type of that name or a way of balancing load.
   */
  ghost predicate GroupFor(g: Config, r: RelaySpec, members: seq<string>) {
    && Name(g) == r.name && Listed(g) == members && "type" in g
    && g.Keys == {"name", "type", "proxies"} + (if |members| != 1 && Balances(r.strategy) then {"strategy"} else {})
    && (|members| == 1 ==> g["type"] == Str("select"))
    && (|members| != 1 && !Balances(r.strategy) ==> g["type"] == Str(r.strategy))
    && (|members| != 1 && Balances(r.strategy) ==>
          g["type"] == Str("load-balance") && g["strategy"] == Str(r.strategy))
  }

  lemma RelayGroupIs(r: RelaySpec, members: seq<string>)
    requires r.strategy in STRATEGIES
    ensures GroupFor(RelayGroup(r, members), r, members)
  {
    hide StringList, Listed;
    RelayGroupListed(r, members);
    StrategiesAre(r.strategy);
  }

  /** The group of the relay is there, over what is on record as its members. */
  ghost predicate HasGroup(b: Groups, r: RelaySpec) {
    exists g | g in b.groups :: r.name in b.members && GroupFor(g, r, b.members[r.name])
  }

  lemma {:induction false} AddRelaysKeep(env: Loader, b: Groups, relays: seq<RelaySpec>, answers: seq<seq<Node>>,
                                         r: RelaySpec)
    requires |answers| >= |SubsRead(relays)| && r.name !in RelayNameSet(relays) && HasGroup(b, r)
    ensures HasGroup(AddRelays(env, b, relays, answers), r)
    decreases |relays|
  {
    hide GroupFor, RelayGroup, AddItems;
    if relays != [] {
      assert relays == [relays[0]] + relays[1..];
      var b' := AddRelay(env, b, relays[0], answers);
      var g :| g in b.groups && GroupFor(g, r, b.members[r.name]);
      assert g in b'.groups && b'.members[r.name] == b.members[r.name];
      AddRelaysKeep(env, b', relays[1..], answers[|SubsOf(relays[0].upstreams)|..], r);
    }
  }

  lemma AddRelayHas(env: Loader, b: Groups, r: RelaySpec, answers: seq<seq<Node>>)
    requires |answers| >= |SubsOf(r.upstreams)| && r.name !in b.members && r.strategy in STRATEGIES
    ensures var b' := AddRelay(env, b, r, answers); r.name in b'.members ==> HasGroup(b', r)
  {
    hide GroupFor, RelayGroup, AddItems;
    var c := AddItems(env, Collected(b.reg, []), ItemsOf(r.upstreams, answers));
    if c.names != [] {
      RelayGroupIs(r, c.names);
      assert RelayGroup(r, c.names) in AddRelay(env, b, r, answers).groups;
    }
  }

  lemma {:induction false} AddRelaysHave(env: Loader, b: Groups, relays: seq<RelaySpec>, answers: seq<seq<Node>>,
                                         i: nat)
    requires |answers| >= |SubsRead(relays)| && DistinctRelays(relays) && i < |relays|
    requires b.members.Keys !! RelayNameSet(relays) && relays[i].strategy in STRATEGIES
    ensures var b' := AddRelays(env, b, relays, answers); relays[i].name in b'.members ==> HasGroup(b', relays[i])
    decreases |relays|
  {
    hide HasGroup, AddItems, RelayGroup, STRATEGIES;
    var r, rest := relays[0], relays[1..];
    assert relays == [r] + rest;
    assert r.name in RelayNameSet(relays) && r.name !in RelayNameSet(rest) &&
           RelayNameSet(rest) <= RelayNameSet(relays);
    var b1, answers1 := AddRelay(env, b, r, answers), answers[|SubsOf(r.upstreams)|..];
    if i == 0 {
      AddRelayHas(env, b, r, answers);
      OtherMembersKept(env, b1, rest, answers1, r.name);
      KeepsNames(env, b1, rest, answers1, r.name);
      if r.name in b1.members { AddRelaysKeep(env, b1, rest, answers1, r); }
    } else {
      AddRelaysHave(env, b1, rest, answers1, i - 1);
    }
  }

  lemma {:induction false} KeepsNames(env: Loader, b: Groups, relays: seq<RelaySpec>, answers: seq<seq<Node>>,
                                      n: string)
    requires |answers| >= |SubsRead(relays)| && n !in RelayNameSet(relays)
    ensures n in AddRelays(env, b, relays, answers).members <==> n in b.members
    decreases |relays|
  {
    hide AddItems, RelayGroup;
    if relays != [] {
      assert relays == [relays[0]] + relays[1..];
      KeepsNames(env, AddRelay(env, b, relays[0], answers), relays[1..], answers[|SubsOf(relays[0].upstreams)|..], n);
    }
  }

  /**
   * Every relay with usable upstreams has one group, of the kind its strategy asks for, over exactly its
   * members; and there is no other group.
   */
  lemma RelaysHaveGroups(env: Loader, p: Plan, eps: seq<Endpoint>, ownPort: int, answers: seq<seq<Node>>)
    requires Rendered(env, p, eps, ownPort, answers)
    ensures var d := RenderReads(env, p, answers);
            && (forall r | r in p.relays && r.name in d.members ::
                  exists g :: g in d.groups && GroupFor(g, r, d.members[r.name]))
            && (forall g | g in d.groups :: exists r :: r in p.relays && r.name == Name(g))
            && DistinctNames(d.groups)
  {
    hide GroupFor, AddRelays, STRATEGIES;
    var b := RenderGroups(env, p, answers);
    forall r | r in p.relays && r.name in b.members
      ensures HasGroup(b, r)
    {
      var i :| 0 <= i < |p.relays| && p.relays[i] == r;
      AddRelaysHave(env, Start(p.relays), p.relays, answers, i);
    }
    RenderGroupsSound(env, p, answers);
    forall g | g in b.groups
      ensures exists r :: r in p.relays && r.name == Name(g)
    {
      assert Name(g) in RelayNameSet(p.relays);
    }
  }
}
