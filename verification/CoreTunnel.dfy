// The steps of an apply that only check or load: which rules, listeners, proxies and groups pass, and
// which listeners mihomo has afterwards.
module CoreTunnel {
  import opened Wrappers
  import opened Values
  import opened RelayTypes
  import opened CoreSpec

  // Rules

  ghost predicate RulesLoad(env: Env, rules: seq<string>) {
    forall line | line in rules :: env.ruleLoads(line)
  }

  /** The i-th element is the first that does not pass. */
  ghost predicate FirstFailing<T>(passes: T -> bool, xs: seq<T>, i: nat) {
    i < |xs| && !passes(xs[i]) && forall j | 0 <= j < i :: passes(xs[j])
  }

  /** The rule check finds the first line that does not load, and none exactly when all do. */
  lemma {:induction false} RulesChecked(env: Env, rules: seq<string>)
    ensures FirstBadRule(env, rules).None? <==> RulesLoad(env, rules)
    ensures FirstBadRule(env, rules).Some? ==>
              exists i: nat :: FirstFailing(env.ruleLoads, rules, i) && FirstBadRule(env, rules) == Some(rules[i])
  {
    if rules != [] {
      RulesChecked(env, rules[1..]);
      assert rules == [rules[0]] + rules[1..];
      if !env.ruleLoads(rules[0]) {
        assert FirstFailing(env.ruleLoads, rules, 0);
      } else if FirstBadRule(env, rules).Some? {
        var i: nat :| FirstFailing(env.ruleLoads, rules[1..], i) &&
          FirstBadRule(env, rules[1..]) == Some(rules[1..][i]);
        assert FirstFailing(env.ruleLoads, rules, i + 1);
      }
    }
  }

  // Listeners

  ghost predicate ListenersLoad(env: Env, ms: seq<Config>) {
    forall m | m in ms :: env.listenerLoads(m)
  }

  /** No later config has this one's name. */
  ghost predicate IsLast(ms: seq<Config>, i: nat) {
    i < |ms| && forall j | i < j < |ms| :: Name(ms[j]) != Name(ms[i])
  }

  /** One listener for each name, of the last config that has it. */
  ghost predicate ListenersAre(ms: seq<Config>, listeners: map<string, Config>) {
    && listeners.Keys == NameSet(ms)
    && forall i: nat | IsLast(ms, i) :: ms[i] in ms && listeners[Name(ms[i])] == ms[i]
  }

  lemma ListenersAppend(ms: seq<Config>, listeners: map<string, Config>, m: Config)
    requires ListenersAre(ms, listeners)
    ensures ListenersAre(ms + [m], listeners[Name(m) := m])
  {
    var all := ms + [m];
    NameSetAppend(ms, m);
    forall i: nat | IsLast(all, i)
      ensures all[i] in all && listeners[Name(m) := m][Name(all[i])] == all[i]
    {
      if i < |ms| {
        assert all[|ms|] == m && Name(m) != Name(ms[i]);
        assert forall j | i < j < |ms| :: all[j] == ms[j];
        assert IsLast(ms, i);
      }
    }
  }

  lemma {:induction false} AddListenersChecked(env: Env, done: seq<Config>, b: map<string, Config>, ms: seq<Config>)
    requires ListenersAre(done, b)
    ensures var r := AddListeners(env, b, ms);
            && (r.Success? <==> ListenersLoad(env, ms))
            && (r.Success? ==> ListenersAre(done + ms, r.value))
            && (r.Failure? ==>
                  exists i: nat :: FirstFailing(env.listenerLoads, ms, i) && r.error == BadListener(Name(ms[i])))
    decreases |ms|
  {
    hide ListenersAre;
    if ms == [] {
      assert done + ms == done;
    } else {
      assert ms == [ms[0]] + ms[1..];
      if !env.listenerLoads(ms[0]) {
        assert FirstFailing(env.listenerLoads, ms, 0);
      } else {
        ListenersAppend(done, b, ms[0]);
        AddListenersChecked(env, done + [ms[0]], b[Name(ms[0]) := ms[0]], ms[1..]);
        assert done + [ms[0]] + ms[1..] == done + ms;
        var r := AddListeners(env, b, ms);
        if r.Failure? {
          var i: nat :| FirstFailing(env.listenerLoads, ms[1..], i) && r.error == BadListener(Name(ms[1..][i]));
          assert FirstFailing(env.listenerLoads, ms, i + 1);
        }
      }
    }
  }

  /** Every listener that loads is there afterwards; the first that does not fails the apply. */
  lemma ListenersChecked(env: Env, ms: seq<Config>)
    ensures var r := AddListeners(env, map[], ms);
            && (r.Success? <==> ListenersLoad(env, ms))
            && (r.Success? ==> ListenersAre(ms, r.value))
            && (r.Failure? ==>
                  exists i: nat :: FirstFailing(env.listenerLoads, ms, i) && r.error == BadListener(Name(ms[i])))
  {
    assert [] + ms == ms;
    AddListenersChecked(env, [], map[], ms);
  }

  lemma {:induction false} LastOfName(ms: seq<Config>, n: string) returns (i: nat)
    requires n in NameSet(ms)
    ensures IsLast(ms, i) && Name(ms[i]) == n
  {
    var k := |ms| - 1;
    if Name(ms[k]) == n {
      i := k;
    } else {
      assert ms == ms[..k] + [ms[k]];
      NameSetAppend(ms[..k], ms[k]);
      i := LastOfName(ms[..k], n);
    }
  }

  lemma ListenersUnique(ms: seq<Config>, a: map<string, Config>, b: map<string, Config>)
    requires ListenersAre(ms, a) && ListenersAre(ms, b)
    ensures a == b
  {
    forall n | n in a
      ensures a[n] == b[n]
    {
      var i := LastOfName(ms, n);
    }
  }

  /** Of distinct names, each has its own listener. */
  lemma DistinctListeners(ms: seq<Config>, listeners: map<string, Config>, m: Config)
    requires ListenersAre(ms, listeners) && DistinctNames(ms) && m in ms
    ensures Name(m) in listeners && listeners[Name(m)] == m
  {
    var i: nat :| i < |ms| && ms[i] == m;
    assert IsLast(ms, i);
  }

  // Proxies and groups

  predicate ProxyPasses(env: Env, was: map<string, LiveProxy>, m: Config) {
    ProxyReused(env, was, m) || env.proxyLoads(m)
  }

  ghost predicate FirstBadProxy(env: Env, was: map<string, LiveProxy>, ms: seq<Config>, i: nat) {
    i < |ms| && !ProxyPasses(env, was, ms[i]) && forall j | 0 <= j < i :: ProxyPasses(env, was, ms[j])
  }

  /** The loop over proxies fails on the first that is neither running nor loads, and counts the others. */
  lemma {:induction false} ProxiesChecked(env: Env, was: map<string, LiveProxy>, b: ProxyBuild, ms: seq<Config>)
    ensures var r := AddProxies(env, was, b, ms);
            && (r.Success? <==> forall m | m in ms :: ProxyPasses(env, was, m))
            && (r.Failure? ==>
                  exists i: nat :: FirstBadProxy(env, was, ms, i) && r.error == BadProxy(Name(ms[i])))
            && (r.Success? ==> r.value.reused + r.value.built == b.reused + b.built + |ms|)
            && (r.Success? ==> (r.value.built == b.built <==> forall m | m in ms :: ProxyReused(env, was, m)))
    decreases |ms|
  {
    hide ProxyReused;
    if ms != [] {
      assert ms == [ms[0]] + ms[1..];
      var one := AddProxy(env, was, b, ms[0]);
      if one.Failure? {
        assert FirstBadProxy(env, was, ms, 0);
      } else {
        ProxiesChecked(env, was, one.value, ms[1..]);
        if AddProxies(env, was, one.value, ms[1..]).Success? { BuiltGrows(env, was, one.value, ms[1..]); }
        var r := AddProxies(env, was, b, ms);
        if r.Failure? {
          var i: nat :| FirstBadProxy(env, was, ms[1..], i) && r.error == BadProxy(Name(ms[1..][i]));
          assert FirstBadProxy(env, was, ms, i + 1);
        }
      }
    }
  }

  lemma {:induction false} BuiltGrows(env: Env, was: map<string, LiveProxy>, b: ProxyBuild, ms: seq<Config>)
    requires AddProxies(env, was, b, ms).Success?
    ensures AddProxies(env, was, b, ms).value.built >= b.built
    decreases |ms|
  {
    if ms != [] { BuiltGrows(env, was, AddProxy(env, was, b, ms[0]).value, ms[1..]); }
  }

  predicate GroupPasses(env: Env, s: State, d: Desired, proxies: map<string, LiveProxy>, m: Config) {
    GroupReused(env, s, d, proxies, m) || env.groupLoads(m)
  }

  ghost predicate FirstBadGroup(env: Env, s: State, d: Desired, proxies: map<string, LiveProxy>, ms: seq<Config>,
                                i: nat) {
    && i < |ms| && !GroupPasses(env, s, d, proxies, ms[i])
    && forall j | 0 <= j < i :: GroupPasses(env, s, d, proxies, ms[j])
  }

  /** Groups whose members are all there fail only for themselves. */
  lemma GroupChecked(env: Env, s: State, d: Desired, proxies: map<string, LiveProxy>, b: GroupBuild, m: Config)
    requires forall n | n in Listed(m) :: n in b.all
    ensures var r := AddGroup(env, s, d, proxies, b, m);
            && (r.Success? <==> GroupPasses(env, s, d, proxies, m))
            && (r.Success? ==> b.all.Keys <= r.value.all.Keys)
            && (r.Failure? ==> r.error == BadGroup(Name(m)))
  {
    hide GroupReused, Listed, Objects;
  }

  lemma {:induction false} GroupsChecked(env: Env, s: State, d: Desired, proxies: map<string, LiveProxy>, b: GroupBuild,
                                         ms: seq<Config>)
    requires forall m, n | m in ms && n in Listed(m) :: n in b.all
    ensures var r := AddGroups(env, s, d, proxies, b, ms);
            && (r.Success? <==> forall m | m in ms :: GroupPasses(env, s, d, proxies, m))
            && (r.Failure? ==>
                  exists i: nat :: FirstBadGroup(env, s, d, proxies, ms, i) && r.error == BadGroup(Name(ms[i])))
    decreases |ms|
  {
    hide AddGroup, GroupPasses, Listed, Name;
    if ms != [] {
      assert ms == [ms[0]] + ms[1..];
      var one := AddGroup(env, s, d, proxies, b, ms[0]);
      GroupChecked(env, s, d, proxies, b, ms[0]);
      if one.Failure? {
        assert FirstBadGroup(env, s, d, proxies, ms, 0);
      } else {
        GroupsChecked(env, s, d, proxies, one.value, ms[1..]);
        var r := AddGroups(env, s, d, proxies, b, ms);
        if r.Failure? {
          var i: nat :| FirstBadGroup(env, s, d, proxies, ms[1..], i) && r.error == BadGroup(Name(ms[1..][i]));
          assert FirstBadGroup(env, s, d, proxies, ms, i + 1);
        }
      }
    }
  }

  // Outbounds

  /** The names outside ns stand for the same objects. */
  ghost predicate SameOutside(ns: set<string>, a: map<string, nat>, b: map<string, nat>) {
    && (forall n | n !in ns :: n in a <==> n in b)
    && (forall n | n !in ns && n in a :: a[n] == b[n])
  }

  lemma {:induction false} ProxiesTouchOwnNames(env: Env, was: map<string, LiveProxy>, b: ProxyBuild, ms: seq<Config>)
    requires AddProxies(env, was, b, ms).Success?
    ensures SameOutside(NameSet(ms), b.all, AddProxies(env, was, b, ms).value.all)
    decreases |ms|
  {
    hide ProxyReused, Name;
    if ms != [] {
      ProxiesTouchOwnNames(env, was, AddProxy(env, was, b, ms[0]).value, ms[1..]);
      assert ms[0] in ms && NameSet(ms[1..]) <= NameSet(ms);
    }
  }

  lemma {:induction false} GroupsTouchOwnNames(env: Env, s: State, d: Desired, proxies: map<string, LiveProxy>,
                                               b: GroupBuild, ms: seq<Config>)
    requires AddGroups(env, s, d, proxies, b, ms).Success?
    ensures SameOutside(NameSet(ms), b.all, AddGroups(env, s, d, proxies, b, ms).value.all)
    decreases |ms|
  {
    hide GroupReused, Name, Objects, Listed;
    if ms != [] {
      GroupsTouchOwnNames(env, s, d, proxies, AddGroup(env, s, d, proxies, b, ms[0]).value, ms[1..]);
      assert ms[0] in ms && NameSet(ms[1..]) <= NameSet(ms);
    }
  }
}
