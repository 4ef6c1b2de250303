// When an apply succeeds, and what mihomo has afterwards besides its proxies and groups.
module CoreOutcome {
  import opened Wrappers
  import opened Values
  import opened RelayTypes
  import opened CoreSpec
  import opened CoreTunnel
  import opened CoreProofs
  import opened CoreRuns
  import opened CoreDrain

  /** A running group serves for the new one. */
  ghost predicate KeepsGroup(env: Env, current: Option<Desired>, d: Desired, g': Config) {
    current.Some? && exists g :: SameGroup(env, current.value, d, g, g')
  }

  /** Whatever of d does not run already is accepted by mihomo. */
  ghost predicate Loads(env: Env, s: State, d: Desired) {
    && (forall m | m in d.proxies :: ProxyPasses(env, s.proxies, m))
    && (forall g | g in d.groups :: KeepsGroup(env, s.current, d, g) || env.groupLoads(g))
    && RulesLoad(env, d.rules) && ListenersLoad(env, d.listeners)
  }

  lemma ReusedIffKept(env: Env, s: State, d: Desired, px: ProxyBuild, g': Config)
    requires Inv(env, s) && WellFormed(d) && ProxiesBuilt(env, s, d.proxies, px) && g' in d.groups
    ensures GroupReused(env, s, d, px.live, g') <==> KeepsGroup(env, s.current, d, g')
  {
    hide TunnelMatches, HealthChecksMatch, Allocated, WellFormed, ProxiesBuilt, SameGroup, SameProxies;
    if s.current.Some? {
      if KeepsGroup(env, s.current, d, g') {
        var g :| SameGroup(env, s.current.value, d, g, g');
        SameGroupReused(env, s, d, px, g, g');
      } else if GroupReused(env, s, d, px.live, g') {
        var g := ReusedIsSame(env, s, d, px, g');
      }
    }
  }

  /** An apply succeeds exactly when whatever does not run already is accepted. */
  lemma ApplySucceedsIff(env: Env, s: State, d: Desired, now: int)
    requires Inv(env, s) && WellFormed(d)
    ensures Apply(env, s, d, now).Success? <==> Loads(env, s, d)
  {
    hide Inv, WellFormed, ProxyPasses, KeepsGroup, RulesLoad, ListenersLoad, AddProxies, AddGroups, FirstBadRule,
      AddListeners, ProxiesBuilt;
    ProxiesChecked(env, s.proxies, InitialProxies(env, s), d.proxies);
    RulesChecked(env, d.rules);
    ListenersChecked(env, d.listeners);
    if AddProxies(env, s.proxies, InitialProxies(env, s), d.proxies).Success? {
      InvParts(env, s);
      var px := ApplyBuildsProxies(env, s, d);
      MembersThere(d, px);
      GroupsChecked(env, s, d, px.live, InitialGroups(s, px), d.groups);
      forall g | g in d.groups { ReusedIffKept(env, s, d, px, g); }
    }
  }

  lemma InvParts(env: Env, s: State)
    requires Inv(env, s)
    ensures Allocated(s) && DistinctGroups(s.groups)
  {
  }

  lemma MembersThere(d: Desired, px: ProxyBuild)
    requires WellFormed(d) && px.live.Keys == NameSet(d.proxies) && px.live.Keys <= px.all.Keys
    ensures forall m, n | m in d.groups && n in Listed(m) :: n in px.all
  {
    forall m, n | m in d.groups && n in Listed(m)
      ensures n in px.all
    {
      assert Name(m) in d.members;
    }
  }

  /** In particular when all of it loads. */
  lemma AppliesWhatLoads(env: Env, s: State, d: Desired, now: int)
    requires Inv(env, s) && WellFormed(d)
    requires (forall m | m in d.proxies :: env.proxyLoads(m)) && (forall m | m in d.groups :: env.groupLoads(m))
    requires RulesLoad(env, d.rules) && ListenersLoad(env, d.listeners)
    ensures Apply(env, s, d, now).Success?
  {
    hide Inv, WellFormed, Apply, KeepsGroup, RulesLoad, ListenersLoad;
    ApplySucceedsIff(env, s, d, now);
  }

  /** What mihomo has once the current state is d, other than proxies and groups. */
  ghost predicate TunnelInstalled(env: Env, s: State, d: Desired) {
    && s.mihomo.rules == d.rules
    && s.mihomo.listeners.Keys == NameSet(d.listeners)
    && (forall i: nat | IsLast(d.listeners, i) ::
          d.listeners[i] in d.listeners && s.mihomo.listeners[Name(d.listeners[i])] == d.listeners[i])
    && (DistinctNames(d.listeners) ==>
          forall m | m in d.listeners :: Name(m) in s.mihomo.listeners && s.mihomo.listeners[Name(m)] == m)
  }

  lemma MatchesIsInstalled(env: Env, s: State, d: Desired)
    requires TunnelMatches(env, s, d)
    ensures TunnelInstalled(env, s, d)
  {
    hide DistinctNames, IsLast;
    if DistinctNames(d.listeners) {
      forall m | m in d.listeners { DistinctListeners(d.listeners, s.mihomo.listeners, m); }
    }
  }

  /**
   * A successful apply installs exactly the rules and listeners of d, the outbounds of d's proxies and
   * groups, and leaves the built-in outbounds alone that no proxy or group shadows.
   */
  lemma ApplyInstalls(env: Env, s: State, d: Desired, now: int)
    requires Inv(env, s) && WellFormed(d) && Apply(env, s, d, now).Success?
    ensures var s' := Apply(env, s, d, now).value.0;
            && s'.current == Some(d) && TunnelInstalled(env, s', d)
            && SameOutside(NameSet(d.proxies) + NameSet(d.groups), env.builtins, s'.mihomo.outbounds)
            && NameSet(d.proxies) + NameSet(d.groups) <= s'.mihomo.outbounds.Keys
  {
    hide AddProxies, AddGroups, FirstBadRule, AddListeners, ProxiesBuilt, GroupsBuilt, TunnelInstalled;
    var px, gx := ApplyRebuilds(env, s, d, now);
    MatchesIsInstalled(env, Apply(env, s, d, now).value.0, d);
    ProxiesTouchOwnNames(env, s.proxies, InitialProxies(env, s), d.proxies);
    var px' := AddProxies(env, s.proxies, InitialProxies(env, s), d.proxies).value;
    GroupsTouchOwnNames(env, s, d, px'.live, InitialGroups(s, px'), d.groups);
    ApplyKeepsInv(env, s, d, now);
    OutboundsThere(env, Apply(env, s, d, now).value.0, d);
  }

  // The numbers that are logged

  function Reused(env: Env, was: map<string, LiveProxy>, ms: seq<Config>): nat {
    if ms == [] then 0 else (if ProxyReused(env, was, ms[0]) then 1 else 0) + Reused(env, was, ms[1..])
  }

  lemma {:induction false} ProxiesCounted(env: Env, was: map<string, LiveProxy>, b: ProxyBuild, ms: seq<Config>)
    requires AddProxies(env, was, b, ms).Success?
    ensures var r := AddProxies(env, was, b, ms).value;
            && r.reused == b.reused + Reused(env, was, ms)
            && r.reused + r.built == b.reused + b.built + |ms|
    decreases |ms|
  {
    hide ProxyReused;
    if ms != [] {
      ProxiesCounted(env, was, AddProxy(env, was, b, ms[0]).value, ms[1..]);
    }
  }

  /** A successful apply counts the proxies it kept, those it built, and the connections it marked. */
  lemma ApplyCounts(env: Env, s: State, d: Desired, now: int)
    requires Apply(env, s, d, now).Success?
    ensures var s', stats := Apply(env, s, d, now).value.0, Apply(env, s, d, now).value.1;
            && stats.reused == Reused(env, s.proxies, d.proxies)
            && stats.reused + stats.built == |d.proxies|
            && stats.draining == |s'.draining.Keys - s.draining.Keys|
  {
    hide AddProxies, AddGroups, FirstBadRule, AddListeners, ProxyReused, Stale;
    var px := AddProxies(env, s.proxies, InitialProxies(env, s), d.proxies).value;
    ProxiesCounted(env, s.proxies, InitialProxies(env, s), d.proxies);
    var s' := Apply(env, s, d, now).value.0;
    assert s'.draining.Keys - s.draining.Keys == NewlyStale(s, d, px.live);
  }

  lemma OutboundsThere(env: Env, s: State, d: Desired)
    requires Inv(env, s) && s.current == Some(d)
    ensures NameSet(d.proxies) + NameSet(d.groups) <= s.mihomo.outbounds.Keys
  {
    hide TunnelMatches, HealthChecksMatch, Allocated;
    assert forall m | m in d.proxies :: ProxyLive(env, s, m);
    assert forall m | m in d.groups :: GroupLive(env, s, m);
  }

  /** In every reachable state the rules and listeners are exactly those of the current desired state. */
  lemma RunInstalls(env: Env, states: seq<State>, events: seq<Event>, i: nat)
    requires Run(env, states, events) && i < |states| && states[i].current.Some?
    ensures TunnelInstalled(env, states[i], states[i].current.value)
  {
    hide TunnelMatches, TunnelInstalled, Allocated, HealthChecksMatch, Next;
    RunKeepsInv(env, states, events, i);
    MatchesIsInstalled(env, states[i], states[i].current.value);
  }
}
