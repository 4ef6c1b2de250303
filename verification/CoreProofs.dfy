// What one apply does to the live objects, and the invariants every core step keeps.
module CoreProofs {
  import opened Wrappers
  import opened Values
  import opened RelayTypes
  import opened CoreSpec
  import opened CoreTunnel

  // Invariants

  ghost predicate Running(groups: map<string, LiveGroup>, p: nat) {
    exists n | n in groups :: groups[n].provider == p
  }

  /** Every identifier in use has been handed out. */
  ghost predicate Allocated(s: State) {
    && (forall id | id in s.mihomo.proxyObjects :: id < s.mihomo.next)
    && (forall id | id in s.mihomo.groupObjects :: id < s.mihomo.next)
    && (forall p | p in s.mihomo.starts :: p < s.mihomo.next)
    && (forall n | n in s.proxies :: s.proxies[n].proxy in s.mihomo.proxyObjects)
    && (forall n | n in s.groups :: s.groups[n].proxy in s.mihomo.groupObjects && s.groups[n].provider < s.mihomo.next)
  }

  /**
   * Health checks: each provider is started at most once and closed at most once, never before
   * its start, and those started and not closed are exactly the providers of the live groups.
   */
  ghost predicate ChecksMatch(groups: map<string, LiveGroup>, starts: multiset<nat>, closes: multiset<nat>) {
    forall p: nat ::
      && closes[p] <= starts[p] <= 1
      && (Running(groups, p) <==> closes[p] < starts[p])
  }

  ghost predicate HealthChecksMatch(s: State) {
    ChecksMatch(s.groups, s.mihomo.starts, s.mihomo.closes)
  }

  ghost predicate DistinctGroups(groups: map<string, LiveGroup>) {
    forall n, n' | n in groups && n' in groups && n != n' ::
      groups[n].proxy != groups[n'].proxy && groups[n].provider != groups[n'].provider
  }

  /** The live object under a proxy's name is keyed by its config and was built from one that loads. */
  ghost predicate ProxyLive(env: Env, s: State, m: Config) {
    var n := Name(m);
    && n in s.proxies && s.proxies[n].key == env.key(m)
    && s.proxies[n].proxy in s.mihomo.proxyObjects
    && env.key(s.mihomo.proxyObjects[s.proxies[n].proxy]) == env.key(m)
    && env.proxyLoads(s.mihomo.proxyObjects[s.proxies[n].proxy])
    && n in s.mihomo.outbounds && s.mihomo.outbounds[n] == s.proxies[n].proxy
  }

  ghost predicate GroupLive(env: Env, s: State, m: Config) {
    var n := Name(m);
    && n in s.groups && s.groups[n].key == env.key(m)
    && s.groups[n].proxy in s.mihomo.groupObjects
    && env.key(s.mihomo.groupObjects[s.groups[n].proxy].config) == env.key(m)
    && env.groupLoads(s.mihomo.groupObjects[s.groups[n].proxy].config)
    && n in s.mihomo.outbounds && s.mihomo.outbounds[n] == s.groups[n].proxy
  }

  ghost predicate TunnelMatches(env: Env, s: State, d: Desired) {
    && s.mihomo.rules == d.rules
    && RulesLoad(env, d.rules) && ListenersLoad(env, d.listeners)
    && ListenersAre(d.listeners, s.mihomo.listeners)
  }

  ghost predicate Inv(env: Env, s: State) {
    && Allocated(s)
    && HealthChecksMatch(s)
    && DistinctGroups(s.groups)
    && match s.current
       case None => s.proxies == map[] && s.groups == map[] && s.draining == map[]
       case Some(d) =>
         && WellFormed(d)
         && s.proxies.Keys == NameSet(d.proxies)
         && s.groups.Keys == NameSet(d.groups)
         && (forall m | m in d.proxies :: ProxyLive(env, s, m))
         && (forall m | m in d.groups :: GroupLive(env, s, m))
         && TunnelMatches(env, s, d)
  }

  // Building proxies

  lemma NameIsNew(done: seq<Config>, ms: seq<Config>)
    requires ms != [] && DistinctNames(done + ms)
    ensures Name(ms[0]) !in NameSet(done)
    ensures DistinctNames(done + [ms[0]] + ms[1..]) && done + [ms[0]] + ms[1..] == done + ms
  {
    assert done + [ms[0]] + ms[1..] == done + ms;
    forall m | m in done
      ensures Name(m) != Name(ms[0])
    {
      var i :| 0 <= i < |done| && done[i] == m;
      assert (done + ms)[i] == m && (done + ms)[|done|] == ms[0];
    }
  }

  ghost predicate ProxyBuilt(env: Env, s: State, b: ProxyBuild, m: Config) {
    var n := Name(m);
    && n in b.live && n in b.all && b.all[n] == b.live[n].proxy && b.live[n].key == env.key(m)
    && b.live[n].proxy in b.objects
    && if ProxyReused(env, s.proxies, m) then b.live[n] == s.proxies[n]
       else s.mihomo.next <= b.live[n].proxy < b.next && b.objects[b.live[n].proxy] == m && env.proxyLoads(m)
  }

  ghost predicate ProxyDomain(env: Env, done: seq<Config>, b: ProxyBuild) {
    b.live.Keys == NameSet(done) && b.all.Keys == env.builtins.Keys + NameSet(done)
  }

  ghost predicate ProxyTable(s: State, b: ProxyBuild) {
    && s.mihomo.next <= b.next
    && (forall id | id in s.mihomo.proxyObjects :: id in b.objects && b.objects[id] == s.mihomo.proxyObjects[id])
    && (forall id | id in b.objects :: id < b.next)
  }

  ghost predicate EachProxyBuilt(env: Env, s: State, done: seq<Config>, b: ProxyBuild) {
    forall m | m in done :: ProxyBuilt(env, s, b, m)
  }

  ghost predicate ProxiesBuilt(env: Env, s: State, done: seq<Config>, b: ProxyBuild) {
    ProxyDomain(env, done, b) && ProxyTable(s, b) && EachProxyBuilt(env, s, done, b)
  }

  lemma AddProxyKeepsBuilt(env: Env, s: State, b: ProxyBuild, m: Config, m': Config)
    requires ProxyBuilt(env, s, b, m') && Name(m') != Name(m)
    requires forall id | id in b.objects :: id < b.next
    requires AddProxy(env, s.proxies, b, m).Success?
    ensures ProxyBuilt(env, s, AddProxy(env, s.proxies, b, m).value, m')
  {
  }

  lemma AddProxyBuildsIt(env: Env, s: State, b: ProxyBuild, m: Config)
    requires Allocated(s) && ProxyTable(s, b)
    requires AddProxy(env, s.proxies, b, m).Success?
    ensures ProxyTable(s, AddProxy(env, s.proxies, b, m).value)
    ensures ProxyBuilt(env, s, AddProxy(env, s.proxies, b, m).value, m)
  {
  }

  lemma AddProxyDomain(env: Env, s: State, done: seq<Config>, b: ProxyBuild, m: Config)
    requires ProxyDomain(env, done, b)
    requires AddProxy(env, s.proxies, b, m).Success?
    ensures ProxyDomain(env, done + [m], AddProxy(env, s.proxies, b, m).value)
  {
    NameSetAppend(done, m);
  }

  lemma AddProxyBuilds(env: Env, s: State, done: seq<Config>, b: ProxyBuild, m: Config)
    requires Allocated(s) && ProxyTable(s, b) && EachProxyBuilt(env, s, done, b)
    requires Name(m) !in NameSet(done)
    requires AddProxy(env, s.proxies, b, m).Success?
    ensures EachProxyBuilt(env, s, done + [m], AddProxy(env, s.proxies, b, m).value)
  {
    var b' := AddProxy(env, s.proxies, b, m).value;
    AddProxyBuildsIt(env, s, b, m);
    forall m' | m' in done + [m]
      ensures ProxyBuilt(env, s, b', m')
    {
      if m' != m {
        assert m' in done;
        AddProxyKeepsBuilt(env, s, b, m, m');
      }
    }
  }

  lemma {:induction false} AddProxiesBuilds(env: Env, s: State, done: seq<Config>, b: ProxyBuild, ms: seq<Config>)
    requires Allocated(s) && ProxiesBuilt(env, s, done, b)
    requires DistinctNames(done + ms)
    requires AddProxies(env, s.proxies, b, ms).Success?
    ensures ProxiesBuilt(env, s, done + ms, AddProxies(env, s.proxies, b, ms).value)
    decreases |ms|
  {
    if ms == [] {
      assert done + ms == done;
    } else {
      NameIsNew(done, ms);
      AddProxyBuilds(env, s, done, b, ms[0]);
      AddProxyBuildsIt(env, s, b, ms[0]);
      AddProxyDomain(env, s, done, b, ms[0]);
      assert done + [ms[0]] + ms[1..] == done + ms;
      AddProxiesBuilds(env, s, done + [ms[0]], AddProxy(env, s.proxies, b, ms[0]).value, ms[1..]);
    }
  }

  // Building groups

  ghost predicate GroupBuilt(env: Env, s: State, d: Desired, px: ProxyBuild, b: GroupBuild, m: Config) {
    var n := Name(m);
    && n in b.live && n in b.all && b.all[n] == b.live[n].proxy && b.live[n].key == env.key(m)
    && b.live[n].proxy in b.objects && b.live[n].provider < b.next
    && if GroupReused(env, s, d, px.live, m) then b.live[n] == s.groups[n]
       else
         && px.next <= b.live[n].proxy < b.next
         && (forall n' | n' in Listed(m) :: n' in px.live)
         && b.objects[b.live[n].proxy] == GroupObject(m, LiveObjects(px.live, Listed(m)))
         && env.groupLoads(m)
  }

  /** The live objects of the named proxies, in order. */
  function LiveObjects(live: map<string, LiveProxy>, names: seq<string>): seq<nat>
    requires forall n | n in names :: n in live
  {
    seq(|names|, i requires 0 <= i < |names| => assert names[i] in names; live[names[i]].proxy)
  }

  ghost predicate GroupDomain(px: ProxyBuild, done: seq<Config>, b: GroupBuild) {
    && b.live.Keys == NameSet(done)
    && b.all.Keys == px.all.Keys + NameSet(done)
    && forall n | n in px.live :: n in b.all && b.all[n] == px.live[n].proxy
  }

  ghost predicate GroupTable(s: State, px: ProxyBuild, b: GroupBuild) {
    && px.next <= b.next
    && (forall id | id in s.mihomo.groupObjects :: id in b.objects && b.objects[id] == s.mihomo.groupObjects[id])
    && (forall id | id in b.objects :: id < b.next)
  }

  /** Each live group is the old one under its name or is new. */
  ghost predicate GroupOrigin(s: State, px: ProxyBuild, b: GroupBuild) {
    forall n | n in b.live ::
      && b.live[n].proxy < b.next && b.live[n].provider < b.next
      && ((n in s.groups && b.live[n] == s.groups[n]) || (px.next <= b.live[n].proxy && px.next <= b.live[n].provider))
  }

  ghost predicate EachGroupBuilt(env: Env, s: State, d: Desired, px: ProxyBuild, done: seq<Config>, b: GroupBuild) {
    forall m | m in done :: GroupBuilt(env, s, d, px, b, m)
  }

  ghost predicate Replacement(was: map<string, LiveGroup>, live: map<string, LiveGroup>, n: string, p: nat) {
    n in live && (n !in was || was[n].proxy != live[n].proxy) && live[n].provider == p
  }

  /** The created providers are in range, are listed once each, and are those of the groups not reused. */
  ghost predicate CreatedOnce(was: map<string, LiveGroup>, lo: nat, hi: nat, live: map<string, LiveGroup>,
                              created: seq<nat>) {
    && (forall p: nat :: multiset(created)[p] <= 1)
    && (forall p | p in created :: lo <= p < hi)
    && (forall p | p in created :: exists n :: Replacement(was, live, n, p))
    && (forall n, p | Replacement(was, live, n, p) :: p in created)
  }

  ghost predicate GroupsBuilt(env: Env, s: State, d: Desired, px: ProxyBuild, done: seq<Config>, b: GroupBuild) {
    && GroupDomain(px, done, b)
    && GroupTable(s, px, b)
    && GroupOrigin(s, px, b)
    && EachGroupBuilt(env, s, d, px, done, b)
    && DistinctGroups(b.live)
    && CreatedOnce(s.groups, px.next, b.next, b.live, b.created)
  }

  lemma AddGroupKeys(env: Env, s: State, d: Desired, px: ProxyBuild, b: GroupBuild, m: Config)
    requires AddGroup(env, s, d, px.live, b, m).Success?
    ensures var b', n := AddGroup(env, s, d, px.live, b, m).value, Name(m);
            && b'.live.Keys == b.live.Keys + {n} && b'.all.Keys == b.all.Keys + {n}
            && forall x | x in b.all && x != n :: b'.all[x] == b.all[x]
  {
    hide GroupReused, Objects, Listed, MembersAt, Name;
  }

  lemma AddGroupDomain(env: Env, s: State, d: Desired, px: ProxyBuild, done: seq<Config>, b: GroupBuild, m: Config)
    requires GroupDomain(px, done, b) && Name(m) !in px.live
    requires AddGroup(env, s, d, px.live, b, m).Success?
    ensures GroupDomain(px, done + [m], AddGroup(env, s, d, px.live, b, m).value)
  {
    hide AddGroup, NameSet, Name;
    AddGroupKeys(env, s, d, px, b, m);
    NameSetAppend(done, m);
  }

  lemma AddGroupTable(env: Env, s: State, d: Desired, px: ProxyBuild, b: GroupBuild, m: Config)
    requires Allocated(s) && s.mihomo.next <= px.next
    requires GroupTable(s, px, b) && GroupOrigin(s, px, b)
    requires AddGroup(env, s, d, px.live, b, m).Success?
    ensures GroupTable(s, px, AddGroup(env, s, d, px.live, b, m).value)
    ensures GroupOrigin(s, px, AddGroup(env, s, d, px.live, b, m).value)
  {
  }

  lemma AddGroupBuildsIt(env: Env, s: State, d: Desired, px: ProxyBuild, b: GroupBuild, m: Config)
    requires Allocated(s) && s.mihomo.next <= px.next <= b.next
    requires forall n | n in Listed(m) :: n in px.live && n in b.all && b.all[n] == px.live[n].proxy
    requires forall id | id in s.mihomo.groupObjects :: id in b.objects
    requires AddGroup(env, s, d, px.live, b, m).Success?
    ensures GroupBuilt(env, s, d, px, AddGroup(env, s, d, px.live, b, m).value, m)
  {
    if !GroupReused(env, s, d, px.live, m) {
      assert Objects(b.all, Listed(m)) == LiveObjects(px.live, Listed(m));
    }
  }

  lemma AddGroupKeepsBuilt(env: Env, s: State, d: Desired, px: ProxyBuild, b: GroupBuild, m: Config, m': Config)
    requires GroupBuilt(env, s, d, px, b, m') && Name(m') != Name(m)
    requires forall id | id in b.objects :: id < b.next
    requires AddGroup(env, s, d, px.live, b, m).Success?
    ensures GroupBuilt(env, s, d, px, AddGroup(env, s, d, px.live, b, m).value, m')
  {
  }

  lemma AddGroupBuilds(env: Env, s: State, d: Desired, px: ProxyBuild, done: seq<Config>, b: GroupBuild, m: Config)
    requires Allocated(s) && s.mihomo.next <= px.next
    requires Name(m) !in NameSet(done)
    requires forall n | n in Listed(m) :: n in px.live
    requires GroupDomain(px, done, b) && GroupTable(s, px, b) && EachGroupBuilt(env, s, d, px, done, b)
    requires AddGroup(env, s, d, px.live, b, m).Success?
    ensures EachGroupBuilt(env, s, d, px, done + [m], AddGroup(env, s, d, px.live, b, m).value)
  {
    var b' := AddGroup(env, s, d, px.live, b, m).value;
    AddGroupBuildsIt(env, s, d, px, b, m);
    forall m' | m' in done + [m]
      ensures GroupBuilt(env, s, d, px, b', m')
    {
      if m' != m {
        assert m' in done;
        AddGroupKeepsBuilt(env, s, d, px, b, m, m');
      }
    }
  }

  lemma AddGroupKeepsDistinct(env: Env, s: State, d: Desired, px: ProxyBuild, b: GroupBuild, m: Config)
    requires Allocated(s) && DistinctGroups(s.groups) && s.mihomo.next <= px.next <= b.next
    requires GroupOrigin(s, px, b) && DistinctGroups(b.live)
    requires AddGroup(env, s, d, px.live, b, m).Success?
    ensures DistinctGroups(AddGroup(env, s, d, px.live, b, m).value.live)
  {
    hide Listed, Objects, Name;
  }

  lemma AppendOnce(ps: seq<nat>, p: nat)
    requires p !in ps && forall q: nat :: multiset(ps)[q] <= 1
    ensures forall q: nat :: multiset(ps + [p])[q] <= 1
  {
    var one: seq<nat> := [p];
    assert multiset(ps + one) == multiset(ps) + multiset(one);
  }

  lemma CreatedKept(was: map<string, LiveGroup>, lo: nat, hi: nat, live: map<string, LiveGroup>, created: seq<nat>,
                    name: string)
    requires CreatedOnce(was, lo, hi, live, created) && name !in live && name in was
    ensures CreatedOnce(was, lo, hi, live[name := was[name]], created)
  {
    var live' := live[name := was[name]];
    forall p | p in created
      ensures exists n :: Replacement(was, live', n, p)
    {
      var n :| Replacement(was, live, n, p);
      assert Replacement(was, live', n, p);
    }
    forall n, p | Replacement(was, live', n, p)
      ensures p in created
    {
      assert Replacement(was, live, n, p);
    }
  }

  lemma CreatedAppended(was: map<string, LiveGroup>, lo: nat, hi: nat, live: map<string, LiveGroup>, created: seq<nat>,
                        name: string, lg: LiveGroup)
    requires CreatedOnce(was, lo, hi, live, created) && name !in live
    requires lo <= hi == lg.proxy && lg.provider == hi + 1
    requires name in was ==> was[name].proxy < lo
    ensures CreatedOnce(was, lo, hi + 2, live[name := lg], created + [hi + 1])
  {
    var live' := live[name := lg];
    AppendOnce(created, hi + 1);
    var created' := created + [hi + 1];
    forall p | p in created'
      ensures exists n :: Replacement(was, live', n, p)
    {
      if p in created {
        var n :| Replacement(was, live, n, p);
        assert Replacement(was, live', n, p);
      } else {
        assert Replacement(was, live', name, p);
      }
    }
    forall n, p | Replacement(was, live', n, p)
      ensures p in created'
    {
      assert n != name ==> Replacement(was, live, n, p);
    }
  }

  lemma AddGroupKeepsCreated(env: Env, s: State, d: Desired, px: ProxyBuild, b: GroupBuild, m: Config)
    requires Allocated(s) && s.mihomo.next <= px.next <= b.next
    requires Name(m) !in b.live && CreatedOnce(s.groups, px.next, b.next, b.live, b.created)
    requires AddGroup(env, s, d, px.live, b, m).Success?
    ensures var b' := AddGroup(env, s, d, px.live, b, m).value;
            CreatedOnce(s.groups, px.next, b'.next, b'.live, b'.created)
  {
    hide CreatedOnce, Listed, Objects, SameProxies;
    if GroupReused(env, s, d, px.live, m) {
      CreatedKept(s.groups, px.next, b.next, b.live, b.created, Name(m));
    } else {
      CreatedAppended(s.groups, px.next, b.next, b.live, b.created, Name(m), LiveGroup(env.key(m), b.next, b.next + 1));
    }
  }

  lemma {:induction false} AddGroupsBuilds(env: Env, s: State, d: Desired, px: ProxyBuild, done: seq<Config>,
                                           b: GroupBuild, ms: seq<Config>)
    requires Allocated(s) && DistinctGroups(s.groups) && s.mihomo.next <= px.next
    requires px.live.Keys !! NameSet(ms)
    requires forall m, n | m in ms && n in Listed(m) :: n in px.live
    requires DistinctNames(done + ms)
    requires GroupsBuilt(env, s, d, px, done, b)
    requires AddGroups(env, s, d, px.live, b, ms).Success?
    ensures GroupsBuilt(env, s, d, px, done + ms, AddGroups(env, s, d, px.live, b, ms).value)
    decreases |ms|
  {
    if ms == [] {
      assert done + ms == done;
    } else {
      NameIsNew(done, ms);
      assert Name(ms[0]) in NameSet(ms) && NameSet(ms[1..]) <= NameSet(ms);
      AddGroupDomain(env, s, d, px, done, b, ms[0]);
      AddGroupTable(env, s, d, px, b, ms[0]);
      AddGroupBuilds(env, s, d, px, done, b, ms[0]);
      AddGroupKeepsDistinct(env, s, d, px, b, ms[0]);
      AddGroupKeepsCreated(env, s, d, px, b, ms[0]);
      AddGroupsBuilds(env, s, d, px, done + [ms[0]], AddGroup(env, s, d, px.live, b, ms[0]).value, ms[1..]);
    }
  }

  // One successful apply

  /** The proxies and groups a successful apply built. */
  ghost predicate Rebuilds(env: Env, s: State, d: Desired, now: int, s': State, px: ProxyBuild, gx: GroupBuild) {
    && ProxiesBuilt(env, s, d.proxies, px)
    && GroupsBuilt(env, s, d, px, d.groups, gx)
    && TunnelMatches(env, s', d)
    && s' == Switch(s, d, now, px, gx, s'.mihomo.listeners)
  }

  lemma ApplyBuildsProxies(env: Env, s: State, d: Desired) returns (px: ProxyBuild)
    requires Allocated(s) && WellFormed(d)
    requires AddProxies(env, s.proxies, InitialProxies(env, s), d.proxies).Success?
    ensures AddProxies(env, s.proxies, InitialProxies(env, s), d.proxies) == Success(px)
    ensures ProxiesBuilt(env, s, d.proxies, px)
    ensures px.live.Keys == NameSet(d.proxies) && px.live.Keys <= px.all.Keys && s.mihomo.next <= px.next
    ensures forall n | n in px.live :: px.all[n] == px.live[n].proxy
  {
    px := AddProxies(env, s.proxies, InitialProxies(env, s), d.proxies).value;
    assert [] + d.proxies == d.proxies;
    AddProxiesBuilds(env, s, [], InitialProxies(env, s), d.proxies);
    forall n | n in px.live
      ensures px.all[n] == px.live[n].proxy
    {
      var m :| m in d.proxies && Name(m) == n;
      assert ProxyBuilt(env, s, px, m);
    }
  }

  lemma ApplyBuildsGroups(env: Env, s: State, d: Desired, px: ProxyBuild) returns (gx: GroupBuild)
    requires Allocated(s) && DistinctGroups(s.groups) && WellFormed(d)
    requires px.live.Keys == NameSet(d.proxies) && px.live.Keys <= px.all.Keys && s.mihomo.next <= px.next
    requires forall n | n in px.live :: px.all[n] == px.live[n].proxy
    requires AddGroups(env, s, d, px.live, InitialGroups(s, px), d.groups).Success?
    ensures AddGroups(env, s, d, px.live, InitialGroups(s, px), d.groups) == Success(gx)
    ensures GroupsBuilt(env, s, d, px, d.groups, gx)
  {
    gx := AddGroups(env, s, d, px.live, InitialGroups(s, px), d.groups).value;
    assert [] + d.groups == d.groups;
    forall m, n | m in d.groups && n in Listed(m)
      ensures n in px.live
    {
      assert Name(m) in d.members;
    }
    AddGroupsBuilds(env, s, d, px, [], InitialGroups(s, px), d.groups);
  }

  lemma ApplyRebuilds(env: Env, s: State, d: Desired, now: int) returns (px: ProxyBuild, gx: GroupBuild)
    requires Allocated(s) && DistinctGroups(s.groups) && WellFormed(d) && Apply(env, s, d, now).Success?
    ensures Rebuilds(env, s, d, now, Apply(env, s, d, now).value.0, px, gx)
  {
    px := ApplyBuildsProxies(env, s, d);
    gx := ApplyBuildsGroups(env, s, d, px);
    RulesChecked(env, d.rules);
    ListenersChecked(env, d.listeners);
  }

  // Invariants after a successful apply

  lemma SwitchKeepsChecks(was: map<string, LiveGroup>, live: map<string, LiveGroup>, lo: nat, hi: nat,
                          created: seq<nat>,
                          starts: multiset<nat>, closes: multiset<nat>)
    requires ChecksMatch(was, starts, closes) && CreatedOnce(was, lo, hi, live, created)
    requires DistinctGroups(was) && DistinctGroups(live)
    requires forall p | p in starts :: p < lo
    requires forall n | n in was :: was[n].proxy < lo && was[n].provider < lo
    requires forall n | n in live :: (n in was && live[n] == was[n]) || lo <= live[n].proxy
    ensures ChecksMatch(live, starts + multiset(created), closes + multiset(Replaced(was, live)))
  {
    forall p: nat
      ensures (closes + multiset(Replaced(was, live)))[p] <= (starts + multiset(created))[p] <= 1
      ensures Running(live, p) <==> (closes + multiset(Replaced(was, live)))[p] < (starts + multiset(created))[p]
    {
      SwitchKeepsCheck(was, live, lo, hi, created, starts, closes, p);
    }
  }

  lemma SwitchKeepsCheck(was: map<string, LiveGroup>, live: map<string, LiveGroup>, lo: nat, hi: nat, created: seq<nat>,
                         starts: multiset<nat>, closes: multiset<nat>, p: nat)
    requires ChecksMatch(was, starts, closes) && CreatedOnce(was, lo, hi, live, created)
    requires DistinctGroups(was)
    requires forall q | q in starts :: q < lo
    requires forall n | n in was :: was[n].proxy < lo && was[n].provider < lo
    requires forall n | n in live :: (n in was && live[n] == was[n]) || lo <= live[n].proxy
    ensures var starts', closes' := starts + multiset(created), closes + multiset(Replaced(was, live));
            closes'[p] <= starts'[p] <= 1 && (Running(live, p) <==> closes'[p] < starts'[p])
  {
    var gone := Replaced(was, live);
    assert closes[p] <= starts[p] <= 1;
    if p in created {
      var n :| Replacement(was, live, n, p);
      assert live[n].provider == p;
      assert lo <= p && p !in starts && p !in gone;
      assert multiset(created)[p] == 1;
    } else {
      assert forall n | n in live && live[n].provider == p :: n in was && live[n] == was[n] by {
        forall n | n in live && live[n].provider == p
          ensures n in was && live[n] == was[n]
        {
          assert !Replacement(was, live, n, p);
        }
      }
      if p in gone {
        var n :| n in was && (n !in live || live[n].proxy != was[n].proxy) && was[n].provider == p;
        assert Running(was, p);
        forall n' | n' in live
          ensures live[n'].provider != p
        {
        }
      } else if Running(was, p) {
        var n :| n in was && was[n].provider == p;
        assert n in live && live[n] == was[n];
      }
    }
  }

  lemma ApplyKeepsChecks(env: Env, s: State, d: Desired, now: int)
    requires Inv(env, s) && WellFormed(d) && Apply(env, s, d, now).Success?
    ensures HealthChecksMatch(Apply(env, s, d, now).value.0)
  {
    var px, gx := ApplyRebuilds(env, s, d, now);
    SwitchKeepsChecks(s.groups, gx.live, px.next, gx.next, gx.created, s.mihomo.starts, s.mihomo.closes);
  }

  lemma BuiltProxiesAllocated(env: Env, s: State, done: seq<Config>, px: ProxyBuild)
    requires ProxiesBuilt(env, s, done, px)
    ensures forall n | n in px.live :: px.live[n].proxy in px.objects
  {
    forall n | n in px.live
      ensures px.live[n].proxy in px.objects
    {
      var m :| m in done && Name(m) == n;
      assert ProxyBuilt(env, s, px, m);
    }
  }

  lemma BuiltGroupsAllocated(env: Env, s: State, d: Desired, px: ProxyBuild, done: seq<Config>, gx: GroupBuild)
    requires GroupDomain(px, done, gx) && EachGroupBuilt(env, s, d, px, done, gx)
    ensures forall n | n in gx.live :: gx.live[n].proxy in gx.objects && gx.live[n].provider < gx.next
  {
    forall n | n in gx.live
      ensures gx.live[n].proxy in gx.objects && gx.live[n].provider < gx.next
    {
      var m :| m in done && Name(m) == n;
      assert GroupBuilt(env, s, d, px, gx, m);
    }
  }

  lemma StartsAllocated(starts: multiset<nat>, created: seq<nat>, lo: nat, hi: nat)
    requires lo <= hi && (forall p | p in starts :: p < lo) && (forall p | p in created :: p < hi)
    ensures forall p | p in starts + multiset(created) :: p < hi
  {
    forall p | p in starts + multiset(created)
      ensures p < hi
    {
      assert p in starts || p in created;
    }
  }

  lemma ApplyKeepsAllocated(env: Env, s: State, d: Desired, now: int)
    requires Inv(env, s) && WellFormed(d) && Apply(env, s, d, now).Success?
    ensures Allocated(Apply(env, s, d, now).value.0)
  {
    var px, gx := ApplyRebuilds(env, s, d, now);
    BuiltProxiesAllocated(env, s, d.proxies, px);
    BuiltGroupsAllocated(env, s, d, px, d.groups, gx);
    StartsAllocated(s.mihomo.starts, gx.created, s.mihomo.next, gx.next);
  }

  lemma ApplyMakesProxyLive(env: Env, s: State, d: Desired, now: int, m: Config)
    requires Inv(env, s) && WellFormed(d) && Apply(env, s, d, now).Success? && m in d.proxies
    ensures ProxyLive(env, Apply(env, s, d, now).value.0, m)
  {
    var px, gx := ApplyRebuilds(env, s, d, now);
    assert ProxyBuilt(env, s, px, m);
    if ProxyReused(env, s.proxies, m) {
      var was :| was in s.current.value.proxies && Name(was) == Name(m);
      assert ProxyLive(env, s, was);
    }
    assert Name(m) !in NameSet(d.groups);
  }

  lemma ApplyMakesGroupLive(env: Env, s: State, d: Desired, now: int, m: Config)
    requires Inv(env, s) && WellFormed(d) && Apply(env, s, d, now).Success? && m in d.groups
    ensures GroupLive(env, Apply(env, s, d, now).value.0, m)
  {
    var px, gx := ApplyRebuilds(env, s, d, now);
    assert GroupBuilt(env, s, d, px, gx, m);
    if GroupReused(env, s, d, px.live, m) {
      var was :| was in s.current.value.groups && Name(was) == Name(m);
      assert GroupLive(env, s, was);
    }
  }

  lemma ApplyKeepsInv(env: Env, s: State, d: Desired, now: int)
    requires Inv(env, s) && WellFormed(d) && Apply(env, s, d, now).Success?
    ensures Inv(env, Apply(env, s, d, now).value.0)
  {
    var px, gx := ApplyRebuilds(env, s, d, now);
    ApplyKeepsAllocated(env, s, d, now);
    ApplyKeepsChecks(env, s, d, now);
    forall m | m in d.proxies { ApplyMakesProxyLive(env, s, d, now, m); }
    forall m | m in d.groups { ApplyMakesGroupLive(env, s, d, now, m); }
  }
}
