// Incremental applies refine a full rebuild, and the reuse keys are not enough to make them.
module CoreRebuild {
  import opened Wrappers
  import opened Values
  import opened RelayTypes
  import opened CoreSpec
  import opened CoreProofs
  import opened CoreRuns
  import opened CoreTunnel
  import opened CoreOutcome

  /** What callers can observe of the running objects: their configs, not their identities. */
  datatype GroupView = GroupView(config: Config, members: seq<Option<Config>>)

  datatype View = View(
    proxies: map<string, Option<Config>>, groups: map<string, Option<GroupView>>,
    rules: seq<string>, listeners: map<string, Config>)

  function BuiltFrom(s: State, id: nat): Option<Config> {
    if id in s.mihomo.proxyObjects then Some(s.mihomo.proxyObjects[id]) else None
  }

  function ViewGroup(s: State, id: nat): Option<GroupView> {
    if id in s.mihomo.groupObjects then
      var g := s.mihomo.groupObjects[id];
      Some(GroupView(g.config, seq(|g.members|, i requires 0 <= i < |g.members| => BuiltFrom(s, g.members[i]))))
    else None
  }

  function Observe(s: State): View {
    View(map n | n in s.proxies :: BuiltFrom(s, s.proxies[n].proxy),
         map n | n in s.groups :: ViewGroup(s, s.groups[n].proxy),
         s.mihomo.rules, s.mihomo.listeners)
  }

  // A rebuild from nothing loads whatever the running objects were built from.

  lemma FaithfulConfigsLoad(env: Env, s: State)
    requires Inv(env, s) && Faithful(s) && s.current.Some?
    ensures forall m | m in s.current.value.proxies :: env.proxyLoads(m)
    ensures forall m | m in s.current.value.groups :: env.groupLoads(m)
  {
    forall m | m in s.current.value.proxies
      ensures env.proxyLoads(m)
    {
      assert ProxyLive(env, s, m) && ProxyFaithful(s, m);
    }
    forall m | m in s.current.value.groups
      ensures env.groupLoads(m)
    {
      assert GroupLive(env, s, m) && GroupFaithful(s, m);
    }
  }

  lemma RebuildLoads(env: Env, s: State, next: nat, now: int)
    requires Inv(env, s) && Faithful(s) && s.current.Some?
    ensures Apply(env, Initial(env, next), s.current.value, now).Success?
  {
    FaithfulConfigsLoad(env, s);
    InitialInv(env, next);
    AppliesWhatLoads(env, Initial(env, next), s.current.value, now);
  }

  lemma FaithfulProxyViews(s: State, t: State, n: string)
    requires s.current.Some? && s.current == t.current && Faithful(s) && Faithful(t)
    requires n in NameSet(s.current.value.proxies)
    ensures n in s.proxies && n in t.proxies && BuiltFrom(s, s.proxies[n].proxy) == BuiltFrom(t, t.proxies[n].proxy)
  {
    var m :| m in s.current.value.proxies && Name(m) == n;
    assert ProxyFaithful(s, m) && ProxyFaithful(t, m);
  }

  lemma FaithfulGroupViews(s: State, t: State, n: string)
    requires s.current.Some? && s.current == t.current && Faithful(s) && Faithful(t) && WellFormed(s.current.value)
    requires n in NameSet(s.current.value.groups)
    ensures n in s.groups && n in t.groups && ViewGroup(s, s.groups[n].proxy) == ViewGroup(t, t.groups[n].proxy)
  {
    var m :| m in s.current.value.groups && Name(m) == n;
    assert GroupFaithful(s, m) && GroupFaithful(t, m);
    var names := Listed(m);
    assert names == s.current.value.members[n];
    var one, two := LiveObjects(s.proxies, names), LiveObjects(t.proxies, names);
    assert s.mihomo.groupObjects[s.groups[n].proxy].members == one &&
           t.mihomo.groupObjects[t.groups[n].proxy].members == two;
    forall i | 0 <= i < |names|
      ensures BuiltFrom(s, one[i]) == BuiltFrom(t, two[i])
    {
      assert names[i] in names;
      FaithfulProxyViews(s, t, names[i]);
    }
    assert ViewGroup(s, s.groups[n].proxy).value.members == ViewGroup(t, t.groups[n].proxy).value.members;
  }

  lemma FaithfulViewsAgree(env: Env, s: State, t: State)
    requires Inv(env, s) && Inv(env, t) && Faithful(s) && Faithful(t)
    requires s.current.Some? && s.current == t.current
    ensures Observe(s) == Observe(t)
  {
    hide BuiltFrom, ViewGroup, Faithful, HealthChecksMatch, ListenersAre, ProxyLive, GroupLive, Allocated,
      DistinctGroups;
    forall n | n in s.proxies { FaithfulProxyViews(s, t, n); }
    forall n | n in s.groups { FaithfulGroupViews(s, t, n); }
    ListenersUnique(s.current.value.listeners, s.mihomo.listeners, t.mihomo.listeners);
    assert Observe(s).proxies == Observe(t).proxies;
    assert Observe(s).groups == Observe(t).groups;
  }

  lemma FaithfulIsRebuild(env: Env, s: State, next: nat, now: int)
    requires Inv(env, s) && Faithful(s) && s.current.Some?
    ensures var r := Apply(env, Initial(env, next), s.current.value, now);
            r.Success? && Observe(r.value.0) == Observe(s)
  {
    var s0 := Initial(env, next);
    RebuildLoads(env, s, next, now);
    InitialInv(env, next);
    ApplyKeepsInv(env, s0, s.current.value, now);
    NoCollisionKeepsFaith(env, s0, s.current.value, now);
    FaithfulViewsAgree(env, Apply(env, s0, s.current.value, now).value.0, s);
  }

  /**
   * After any run in which no successful apply collides, rebuilding the current desired state from nothing succeeds
   * and looks the same.
   */
  lemma IncrementalIsRebuild(env: Env, states: seq<State>, events: seq<Event>, i: nat, next: nat, now: int)
    requires Run(env, states, events) && i < |states| && NoCollisions(env, states, events, i)
    requires states[i].current.Some?
    ensures var r := Apply(env, Initial(env, next), states[i].current.value, now);
            r.Success? && Observe(r.value.0) == Observe(states[i])
  {
    hide Faithful, Inv, NoCollisions, Next, Apply, Observe;
    RunKeepsInv(env, states, events, i);
    RunFaithfulIff(env, states, events, i);
    FaithfulIsRebuild(env, states[i], next, now);
  }
}
