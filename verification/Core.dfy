// The relay core as the program runs it (internal/relay/core.go): fields updated in place,
// each method proved against its function in CoreSpec.
module Core {
  import opened Wrappers
  import opened Values
  import opened RelayTypes
  import opened CoreSpec
  import CoreProofs

  ghost function Providers(groups: map<string, LiveGroup>, names: set<string>): set<nat>
    requires names <= groups.Keys
  {
    set n | n in names :: groups[n].provider
  }

  lemma ProvidersAdd(groups: map<string, LiveGroup>, names: set<string>, n: string)
    requires CoreProofs.DistinctGroups(groups) && names <= groups.Keys && n in groups && n !in names
    ensures multiset(Providers(groups, names + {n})) ==
            multiset(Providers(groups, names)) + multiset{groups[n].provider}
  {
    var p := groups[n].provider;
    assert p !in Providers(groups, names);
    assert Providers(groups, names + {n}) == Providers(groups, names) + {p};
  }

  lemma MarkAdd(draining: map<nat, int>, ids: set<nat>, id: nat, deadline: int)
    ensures Mark(draining, ids + {id}, deadline) == Mark(draining, ids, deadline)[id := deadline]
  {
  }

  lemma StaleIgnoresDraining(s: State, draining: map<nat, int>, c: Conn, d: Desired, next: map<string, LiveProxy>)
    requires s.current.Some?
    ensures Stale(s.(draining := draining), c, d, next) <==> Stale(s, c, d, next)
  {
  }

  /** One round of the loop over groups. */
  lemma NextGroup(env: Env, s: State, d: Desired, proxies: map<string, LiveProxy>, b: GroupBuild, ms: seq<Config>)
    requires ms != []
    ensures var m, all := ms[0], AddGroups(env, s, d, proxies, b, ms);
            if GroupReused(env, s, d, proxies, m) then
              all == AddGroups(env, s, d, proxies,
                               b.(live := b.live[Name(m) := s.groups[Name(m)]],
                                  all := b.all[Name(m) := s.groups[Name(m)].proxy]), ms[1..])
            else if !env.groupLoads(m) || exists n | n in Listed(m) :: n !in b.all then
              all == Failure(BadGroup(Name(m)))
            else
              all == AddGroups(env, s, d, proxies,
                               b.(live := b.live[Name(m) := LiveGroup(env.key(m), b.next, b.next + 1)],
                                  all := b.all[Name(m) := b.next],
                                  objects := b.objects[b.next := GroupObject(m, Objects(b.all, Listed(m)))],
                                  next := b.next + 2, created := b.created + [b.next + 1]), ms[1..])
  {
    hide SameProxies, Objects, Listed, Name;
  }

  // A sweep that has still to look at some connections

  ghost function LeftToSweep(s: State, now: int, todo: set<nat>): map<nat, int> {
    map id | id in s.draining && (id in todo || (id in s.mihomo.conns && now < s.draining[id])) :: s.draining[id]
  }

  ghost function ClosedBySweep(s: State, now: int, todo: set<nat>): set<nat> {
    Overdue(s, now) - todo
  }

  lemma NothingSwept(s: State, now: int)
    ensures LeftToSweep(s, now, s.draining.Keys) == s.draining && ClosedBySweep(s, now, s.draining.Keys) == {}
  {
  }

  lemma SweepOne(s: State, now: int, todo: set<nat>, id: nat)
    requires id in todo && todo <= s.draining.Keys
    ensures var left, closed := LeftToSweep(s, now, todo), ClosedBySweep(s, now, todo);
            && id in left && left[id] == s.draining[id] && id !in closed && closed <= Overdue(s, now)
            && (id in s.mihomo.conns - closed <==> id in s.mihomo.conns)
            && LeftToSweep(s, now, todo - {id}) ==
               (if id in s.mihomo.conns && now < s.draining[id] then left else left - {id})
            && ClosedBySweep(s, now, todo - {id}) ==
               (if id in s.mihomo.conns && !(now < s.draining[id]) then closed + {id} else closed)
  {
  }

  lemma AllSwept(s: State, now: int)
    ensures ClosedBySweep(s, now, {}) == Overdue(s, now)
    ensures s.(draining := LeftToSweep(s, now, {}),
               mihomo := s.mihomo.(conns := s.mihomo.conns - Overdue(s, now))) == CoreSpec.Sweep(s, now)
  {
    assert LeftToSweep(s, now, {}) == CoreSpec.Sweep(s, now).draining;
  }

  class Core {
    const env: Env

    var started: bool
    var current: Option<Desired>
    var proxies: map<string, LiveProxy>
    var groups: map<string, LiveGroup>
    var draining: map<nat, int>
    var mihomo: Mihomo  // process-wide

    function State(): State
      reads this
    {
      CoreSpec.State(current, proxies, groups, draining, mihomo)
    }

    ghost predicate Valid()
      reads this
    {
      CoreProofs.Inv(env, State())
    }

    constructor (env: Env, next: nat)
      ensures this.env == env && !started && State() == Initial(env, next) && Valid()
    {
      this.env := env;
      started, current, proxies, groups, draining := false, None, map[], map[], map[];
      mihomo := Mihomo(next, map[], map[], env.builtins, [], map[], multiset{}, multiset{}, map[]);
    }

    /** Parses the proxies of d, keeping the objects whose key is unchanged. */
    method BuildProxies(d: Desired) returns (r: Result<ProxyBuild, ApplyError>)
      ensures r == AddProxies(env, proxies, InitialProxies(env, State()), d.proxies)
    {
      var live: map<string, LiveProxy>, all: map<string, nat> := map[], env.builtins;
      var objects, next := mihomo.proxyObjects, mihomo.next;
      var reused: nat, built: nat := 0, 0;
      for i := 0 to |d.proxies|
        invariant AddProxies(env, proxies, ProxyBuild(live, all, objects, next, reused, built), d.proxies[i..])
               == AddProxies(env, proxies, InitialProxies(env, State()), d.proxies)
      {
        var m := d.proxies[i];
        var name, key := Name(m), env.key(m);
        assert d.proxies[i..][1..] == d.proxies[i + 1..];
        var lp: LiveProxy;
        if name in proxies && proxies[name].key == key {
          lp := proxies[name];
          reused := reused + 1;
        } else {
          if !env.proxyLoads(m) {
            return Failure(BadProxy(name));
          }
          lp := LiveProxy(key, next);
          objects := objects[next := m];
          next := next + 1;
          built := built + 1;
        }
        live := live[name := lp];
        all := all[name := lp.proxy];
      }
      return Success(ProxyBuild(live, all, objects, next, reused, built));
    }

    method CheckSameProxies(names: seq<string>, next: map<string, LiveProxy>) returns (same: bool)
      ensures same == SameProxies(proxies, names, next)
    {
      for i := 0 to |names|
        invariant forall j | 0 <= j < i ::
                  names[j] in proxies && names[j] in next && proxies[names[j]].proxy == next[names[j]].proxy
      {
        var n := names[i];
        if n !in proxies || n !in next || proxies[n].proxy != next[n].proxy {
          assert n in names;
          return false;
        }
      }
      return true;
    }

    /** Parses the groups of d, keeping those whose key and members are unchanged. */
    method BuildGroups(d: Desired, px: ProxyBuild) returns (r: Result<GroupBuild, ApplyError>)
      ensures r == AddGroups(env, State(), d, px.live, InitialGroups(State(), px), d.groups)
    {
      hide AddGroup, Listed, Objects, SameProxies, MembersAt, Name;
      var live: map<string, LiveGroup>, all: map<string, nat> := map[], px.all;
      var objects, next := mihomo.groupObjects, px.next;
      var created: seq<nat> := [];
      ghost var was, want := State(), AddGroups(env, State(), d, px.live, InitialGroups(State(), px), d.groups);
      for i := 0 to |d.groups|
        invariant AddGroups(env, was, d, px.live, GroupBuild(live, all, objects, next, created), d.groups[i..]) == want
      {
        var m := d.groups[i];
        var name, key := Name(m), env.key(m);
        assert d.groups[i..][1..] == d.groups[i + 1..];
        var lg: LiveGroup;
        var same := CheckSameProxies(MembersAt(d.members, name), px.live);
        ghost var before := GroupBuild(live, all, objects, next, created);
        NextGroup(env, was, d, px.live, before, d.groups[i..]);
        // A reused group would go on dialling the old objects of its members.
        if name !in groups || groups[name].key != key || !same {
          if !env.groupLoads(m) || exists n | n in Listed(m) :: n !in all {
            return Failure(BadGroup(name));
          }
          lg := LiveGroup(key, next, next + 1);
          objects := objects[next := GroupObject(m, Objects(all, Listed(m)))];
          next := next + 2;
          created := created + [lg.provider];
        } else {
          lg := groups[name];
        }
        live := live[name := lg];
        all := all[name := lg.proxy];
      }
      return Success(GroupBuild(live, all, objects, next, created));
    }

    method ParseRules(rules: seq<string>) returns (bad: Option<string>)
      ensures bad == FirstBadRule(env, rules)
    {
      for i := 0 to |rules|
        invariant FirstBadRule(env, rules[i..]) == FirstBadRule(env, rules)
      {
        assert rules[i..][1..] == rules[i + 1..];
        if !env.ruleLoads(rules[i]) {
          return Some(rules[i]);
        }
      }
      return None;
    }

    method ParseListeners(ms: seq<Config>) returns (r: Result<map<string, Config>, ApplyError>)
      ensures r == AddListeners(env, map[], ms)
    {
      var listeners := map[];
      for i := 0 to |ms|
        invariant AddListeners(env, listeners, ms[i..]) == AddListeners(env, map[], ms)
      {
        assert ms[i..][1..] == ms[i + 1..];
        if !env.listenerLoads(ms[i]) {
          return Failure(BadListener(Name(ms[i])));
        }
        listeners := listeners[Name(ms[i]) := ms[i]];
      }
      return Success(listeners);
    }

    /** Stops the health checks of every group that next drops or replaces. */
    method CloseReplaced(next: map<string, LiveGroup>)
      requires CoreProofs.DistinctGroups(groups)
      modifies this`mihomo
      ensures mihomo == old(mihomo).(closes := old(mihomo).closes + multiset(Replaced(groups, next)))
    {
      var todo := groups.Keys;
      ghost var gone: set<string> := {};
      while todo != {}
        invariant todo <= groups.Keys
        invariant gone == set n | n in groups && n !in todo && IsReplaced(groups, next, n)
        invariant mihomo == old(mihomo).(closes := old(mihomo).closes + multiset(Providers(groups, gone)))
        decreases todo
      {
        var name :| name in todo;
        var was := groups[name];
        if name !in next || next[name].proxy != was.proxy {
          ProvidersAdd(groups, gone, name);
          mihomo := mihomo.(closes := mihomo.closes + multiset{was.provider});
          gone := gone + {name};
        }
        todo := todo - {name};
      }
      assert Providers(groups, gone) == Replaced(groups, next);
    }

    /** Whether d moves a connection off its route or upstream. */
    method CheckStale(c: Conn, d: Desired, next: map<string, LiveProxy>) returns (stale: bool)
      requires current.Some?
      ensures stale == Stale(State(), c, d, next)
    {
      if RouteAt(current.value.routes, c.route) != RouteAt(d.routes, c.route) {
        return true;
      }
      if |c.chain| == 0 {
        return false;
      }
      var proxy, group := c.chain[0], c.chain[|c.chain| - 1];
      if proxy !in MembersAt(d.members, group) {
        return true;
      }
      return ObjectAt(proxies, proxy) != ObjectAt(next, proxy);
    }

    /** Gives a deadline to each connection that would not be where d puts its caller. */
    method MarkStale(d: Desired, next: map<string, LiveProxy>, now: int) returns (n: nat)
      modifies this`draining
      ensures draining == Mark(old(draining), NewlyStale(old(State()), d, next), now + DRAIN_TIMEOUT)
      ensures n == |NewlyStale(old(State()), d, next)|
    {
      hide Stale;
      if current.None? {
        assert Mark(draining, {}, now + DRAIN_TIMEOUT) == draining;
        return 0;
      }
      var deadline := now + DRAIN_TIMEOUT;
      n := 0;
      ghost var was := State();
      var todo := mihomo.conns.Keys;
      ghost var marked: set<nat> := {};
      while todo != {}
        invariant todo <= mihomo.conns.Keys
        invariant marked == set id | id in NewlyStale(was, d, next) && id !in todo
        invariant draining == Mark(was.draining, marked, deadline) && n == |marked|
        decreases todo
      {
        var id :| id in todo;
        if id !in draining {
          StaleIgnoresDraining(was, draining, mihomo.conns[id], d, next);
          var stale := CheckStale(mihomo.conns[id], d, next);
          if stale {
            MarkAdd(was.draining, marked, id, deadline);
            draining := draining[id := deadline];
            marked := marked + {id};
            n := n + 1;
          }
        }
        todo := todo - {id};
      }
      assert marked == NewlyStale(was, d, next);
    }

    /** Everything parsed; switch over. */
    method SwitchOver(d: Desired, now: int, px: ProxyBuild, gx: GroupBuild, listeners: map<string, Config>)
      returns (n: nat)
      requires CoreProofs.DistinctGroups(groups)
      modifies this
      ensures State() == Switch(old(State()), d, now, px, gx, listeners) && started == old(started)
      ensures n == |NewlyStale(old(State()), d, px.live)|
    {
      n := MarkStale(d, px.live, now);
      mihomo := mihomo.(starts := mihomo.starts + multiset(gx.created));
      mihomo := mihomo.(outbounds := gx.all, rules := d.rules, listeners := listeners);
      CloseReplaced(gx.live);
      mihomo := mihomo.(next := gx.next, proxyObjects := px.objects, groupObjects := gx.objects);
      current, proxies, groups := Some(d), px.live, gx.live;
    }

    /** One apply, all or nothing. */
    method Apply(d: Desired, now: int) returns (r: Result<Stats, ApplyError>)
      requires Valid() && WellFormed(d)
      modifies this
      ensures Valid() && started == old(started)
      ensures match CoreSpec.Apply(env, old(State()), d, now)
              case Success((after, stats)) => r == Success(stats) && State() == after
              case Failure(e) => r == Failure(e) && State() == old(State())
    {
      var px := BuildProxies(d);
      if px.Failure? {
        return Failure(px.error);
      }
      var gx := BuildGroups(d, px.value);
      if gx.Failure? {
        return Failure(gx.error);
      }
      var bad := ParseRules(d.rules);
      if bad.Some? {
        return Failure(BadRule(bad.value));
      }
      var listeners := ParseListeners(d.listeners);
      if listeners.Failure? {
        return Failure(listeners.error);
      }
      CoreProofs.ApplyKeepsInv(env, State(), d, now);
      var n := SwitchOver(d, now, px.value, gx.value, listeners.value);
      return Success(Stats(px.value.reused, px.value.built, n));
    }

    /** Ends what has drained for too long and forgets what ended by itself. */
    method Sweep(now: int) returns (n: nat)
      modifies this`draining, this`mihomo
      ensures State() == CoreSpec.Sweep(old(State()), now)
      ensures n == |Overdue(old(State()), now)|
    {
      hide LeftToSweep, ClosedBySweep;
      n := 0;
      var todo := draining.Keys;
      NothingSwept(State(), now);
      ghost var closed: set<nat> := {};
      while todo != {}
        invariant todo <= old(draining).Keys
        invariant draining == LeftToSweep(old(State()), now, todo) && closed == ClosedBySweep(old(State()), now, todo)
        invariant mihomo == old(mihomo).(conns := old(mihomo).conns - closed) && n == |closed|
        decreases todo
      {
        var id :| id in todo;
        SweepOne(old(State()), now, todo, id);
        if id !in mihomo.conns {
          draining := draining - {id};  // closed by its peers
        } else if !(now < draining[id]) {
          mihomo := mihomo.(conns := mihomo.conns - {id});
          draining := draining - {id};
          closed := closed + {id};
          n := n + 1;
        }
        todo := todo - {id};
      }
      AllSwept(old(State()), now);
    }

    /** The earliest drain deadline, if anything is draining. */
    method NextDeadline() returns (next: Option<int>)
      ensures IsNextDeadline(draining, next)
    {
      next := None;
      var todo := draining.Keys;
      while todo != {}
        invariant todo <= draining.Keys
        invariant IsNextDeadline(map id | id in draining && id !in todo :: draining[id], next)
        decreases todo
      {
        var id :| id in todo;
        ghost var seen := map i | i in draining && i !in todo :: draining[i];
        ghost var seen' := map i | i in draining && i !in todo - {id} :: draining[i];
        assert seen' == seen[id := draining[id]];
        var deadline := draining[id];
        if next.None? || deadline < next.value {
          next := Some(deadline);
          assert seen'[id] == deadline;
        } else {
          ghost var first :| first in seen && seen[first] == next.value;
          assert seen'[first] == next.value;
        }
        todo := todo - {id};
      }
      assert draining == map id | id in draining && id !in todo :: draining[id];
    }

    /** Ends every health check and closes the listeners; nothing to do if never started. */
    method Stop()
      requires Valid()
      modifies this`mihomo
      ensures State() == if started then CoreSpec.Stop(old(State())) else old(State())
    {
      if !started {
        return;
      }
      mihomo := mihomo.(listeners := map[]);
      CloseReplaced(map[]);
    }
  }
}
