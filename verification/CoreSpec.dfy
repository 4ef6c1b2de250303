// The relay core (internal/relay/core.go) as functions on values: one apply, the marking of
// stale connections, the sweep and the stop, over the core's fields and mihomo's global state.
module CoreSpec {
  import opened Wrappers
  import opened Values
  import opened RelayTypes

  // In seconds.
  const DRAIN_TIMEOUT := 300

  /**
   * What the core is given: the reuse key of a config (fmt.Sprint, Values.Key), and mihomo's
   * side, that is its built-in outbounds and which configs and lines it loads.
   */
  datatype Env = Env(
    key: Config -> string,
    builtins: map<string, nat>,
    proxyLoads: Config -> bool,
    groupLoads: Config -> bool,
    ruleLoads: string -> bool,
    listenerLoads: Config -> bool)

  datatype LiveProxy = LiveProxy(key: string, proxy: nat)

  datatype LiveGroup = LiveGroup(key: string, proxy: nat, provider: nat)

  /** A group holds the member objects it was built with. */
  datatype GroupObject = GroupObject(config: Config, members: seq<nat>)

  /**
   * A tracked connection. The chain has the upstream proxy first and the relay group last.
   * entry and dialled are history: the route entry that accepted the caller and the upstream
   * object that was dialled. The program reads neither.
   */
  datatype Conn = Conn(route: Route, chain: seq<string>, entry: RouteTarget, dialled: nat)

  /**
   * mihomo's global state. Objects are identified by numbers handed out once; the two object
   * tables record what each was built from. starts and closes count the calls to a group
   * provider's Initial and Close.
   */
  datatype Mihomo = Mihomo(
    next: nat,
    proxyObjects: map<nat, Config>,
    groupObjects: map<nat, GroupObject>,
    outbounds: map<string, nat>,
    rules: seq<string>,
    listeners: map<string, Config>,
    starts: multiset<nat>,
    closes: multiset<nat>,
    conns: map<nat, Conn>)

  datatype State = State(
    current: Option<Desired>,
    proxies: map<string, LiveProxy>,
    groups: map<string, LiveGroup>,
    draining: map<nat, int>,
    mihomo: Mihomo)

  datatype Stats = Stats(reused: nat, built: nat, draining: nat)

  datatype ApplyError =
    | BadProxy(name: string)
    | BadGroup(name: string)
    | BadRule(line: string)
    | BadListener(name: string)

  // Proxies

  datatype ProxyBuild = ProxyBuild(
    live: map<string, LiveProxy>, all: map<string, nat>, objects: map<nat, Config>, next: nat,
    reused: nat, built: nat)

  predicate ProxyReused(env: Env, was: map<string, LiveProxy>, m: Config) {
    Name(m) in was && was[Name(m)].key == env.key(m)
  }

  function AddProxy(env: Env, was: map<string, LiveProxy>, b: ProxyBuild, m: Config): Result<ProxyBuild, ApplyError> {
    var name := Name(m);
    if ProxyReused(env, was, m) then
      Success(b.(live := b.live[name := was[name]], all := b.all[name := was[name].proxy], reused := b.reused + 1))
    else if !env.proxyLoads(m) then
      Failure(BadProxy(name))
    else
      Success(b.(live := b.live[name := LiveProxy(env.key(m), b.next)], all := b.all[name := b.next],
                 objects := b.objects[b.next := m], next := b.next + 1, built := b.built + 1))
  }

  function AddProxies(env: Env, was: map<string, LiveProxy>, b: ProxyBuild,
                      ms: seq<Config>): Result<ProxyBuild, ApplyError>
    decreases |ms|
  {
    if ms == [] then Success(b) else
      match AddProxy(env, was, b, ms[0])
      case Failure(e) => Failure(e)
      case Success(b') => AddProxies(env, was, b', ms[1..])
  }

  // Groups

  datatype GroupBuild = GroupBuild(
    live: map<string, LiveGroup>, all: map<string, nat>, objects: map<nat, GroupObject>, next: nat,
    created: seq<nat>)

  /** No name changes its object. A name without one never counts as the same. */
  predicate SameProxies(was: map<string, LiveProxy>, names: seq<string>, next: map<string, LiveProxy>) {
    forall n | n in names :: n in was && n in next && was[n].proxy == next[n].proxy
  }

  predicate GroupReused(env: Env, s: State, d: Desired, proxies: map<string, LiveProxy>, m: Config) {
    && Name(m) in s.groups
    && s.groups[Name(m)].key == env.key(m)
    && SameProxies(s.proxies, MembersAt(d.members, Name(m)), proxies)
  }

  /** The objects a new group takes its members from. */
  function Objects(all: map<string, nat>, names: seq<string>): seq<nat>
    requires forall n | n in names :: n in all
  {
    seq(|names|, i requires 0 <= i < |names| => assert names[i] in names; all[names[i]])
  }

  function AddGroup(env: Env, s: State, d: Desired, proxies: map<string, LiveProxy>, b: GroupBuild,
                    m: Config): Result<GroupBuild, ApplyError> {
    var name := Name(m);
    if GroupReused(env, s, d, proxies, m) then
      Success(b.(live := b.live[name := s.groups[name]], all := b.all[name := s.groups[name].proxy]))
    else if !env.groupLoads(m) || exists n | n in Listed(m) :: n !in b.all then
      Failure(BadGroup(name))
    else
      var g := GroupObject(m, Objects(b.all, Listed(m)));
      Success(b.(live := b.live[name := LiveGroup(env.key(m), b.next, b.next + 1)], all := b.all[name := b.next],
                 objects := b.objects[b.next := g], next := b.next + 2, created := b.created + [b.next + 1]))
  }

  function AddGroups(env: Env, s: State, d: Desired, proxies: map<string, LiveProxy>, b: GroupBuild,
                     ms: seq<Config>): Result<GroupBuild, ApplyError>
    decreases |ms|
  {
    if ms == [] then Success(b) else
      match AddGroup(env, s, d, proxies, b, ms[0])
      case Failure(e) => Failure(e)
      case Success(b') => AddGroups(env, s, d, proxies, b', ms[1..])
  }

  // Rules and listeners

  function FirstBadRule(env: Env, rules: seq<string>): Option<string> {
    if rules == [] then None
    else if !env.ruleLoads(rules[0]) then Some(rules[0])
    else FirstBadRule(env, rules[1..])
  }

  function AddListeners(env: Env, b: map<string, Config>, ms: seq<Config>): Result<map<string, Config>, ApplyError>
    decreases |ms|
  {
    if ms == [] then Success(b)
    else if !env.listenerLoads(ms[0]) then Failure(BadListener(Name(ms[0])))
    else AddListeners(env, b[Name(ms[0]) := ms[0]], ms[1..])
  }

  // The switch-over

  /** Whether the new groups drop or replace a group. */
  predicate IsReplaced(was: map<string, LiveGroup>, next: map<string, LiveGroup>, n: string) {
    n in was && (n !in next || next[n].proxy != was[n].proxy)
  }

  function Replaced(was: map<string, LiveGroup>, next: map<string, LiveGroup>): set<nat> {
    set n | n in was && IsReplaced(was, next, n) :: was[n].provider
  }

  /** Whether d moves a connection off its route or upstream. A missing object is nil. */
  predicate Stale(s: State, c: Conn, d: Desired, proxies: map<string, LiveProxy>)
    requires s.current.Some?
  {
    if RouteAt(s.current.value.routes, c.route) != RouteAt(d.routes, c.route) then true
    else if c.chain == [] then false
    else
      var proxy, group := c.chain[0], c.chain[|c.chain| - 1];
      proxy !in MembersAt(d.members, group) || ObjectAt(s.proxies, proxy) != ObjectAt(proxies, proxy)
  }

  function ObjectAt(proxies: map<string, LiveProxy>, name: string): Option<nat> {
    if name in proxies then Some(proxies[name].proxy) else None
  }

  function NewlyStale(s: State, d: Desired, proxies: map<string, LiveProxy>): set<nat> {
    if s.current.None? then {}
    else set id | id in s.mihomo.conns && id !in s.draining && Stale(s, s.mihomo.conns[id], d, proxies)
  }

  function Mark(draining: map<nat, int>, ids: set<nat>, deadline: int): map<nat, int> {
    draining + map id | id in ids :: deadline
  }

  function Switch(s: State, d: Desired, now: int, px: ProxyBuild, gx: GroupBuild,
                  listeners: map<string, Config>): State {
    State(
      Some(d), px.live, gx.live,
      Mark(s.draining, NewlyStale(s, d, px.live), now + DRAIN_TIMEOUT),
      s.mihomo.(
        next := gx.next, proxyObjects := px.objects, groupObjects := gx.objects,
        outbounds := gx.all, rules := d.rules, listeners := listeners,
        starts := s.mihomo.starts + multiset(gx.created),
        closes := s.mihomo.closes + multiset(Replaced(s.groups, gx.live))))
  }

  function InitialProxies(env: Env, s: State): ProxyBuild {
    ProxyBuild(map[], env.builtins, s.mihomo.proxyObjects, s.mihomo.next, 0, 0)
  }

  function InitialGroups(s: State, px: ProxyBuild): GroupBuild {
    GroupBuild(map[], px.all, s.mihomo.groupObjects, px.next, [])
  }

  /** core.apply: on success the new state and statistics, otherwise why mihomo kept its state. */
  function Apply(env: Env, s: State, d: Desired, now: int): Result<(State, Stats), ApplyError> {
    match AddProxies(env, s.proxies, InitialProxies(env, s), d.proxies)
    case Failure(e) => Failure(e)
    case Success(px) =>
      match AddGroups(env, s, d, px.live, InitialGroups(s, px), d.groups)
      case Failure(e) => Failure(e)
      case Success(gx) =>
        match FirstBadRule(env, d.rules)
        case Some(line) => Failure(BadRule(line))
        case None =>
          match AddListeners(env, map[], d.listeners)
          case Failure(e) => Failure(e)
          case Success(listeners) =>
            Success((Switch(s, d, now, px, gx, listeners),
                     Stats(px.reused, px.built, |NewlyStale(s, d, px.live)|)))
  }

  /** The state after an attempt to apply. */
  function AfterApply(env: Env, s: State, d: Desired, now: int): State {
    match Apply(env, s, d, now)
    case Success((s', _)) => s'
    case Failure(_) => s
  }

  // Draining

  function Overdue(s: State, now: int): set<nat> {
    set id | id in s.draining && id in s.mihomo.conns && now >= s.draining[id]
  }

  function Sweep(s: State, now: int): State {
    s.(draining := map id | id in s.draining && id in s.mihomo.conns && now < s.draining[id] :: s.draining[id],
       mihomo := s.mihomo.(conns := s.mihomo.conns - Overdue(s, now)))
  }

  ghost predicate IsNextDeadline(draining: map<nat, int>, next: Option<int>) {
    match next
    case None => draining == map[]
    case Some(t) => (exists id | id in draining :: draining[id] == t) && forall id | id in draining :: t <= draining[id]
  }

  /** core.stop on a started core: every live group's health checks end and no listener is left. */
  function Stop(s: State): State {
    s.(mihomo := s.mihomo.(listeners := map[],
                           closes := s.mihomo.closes + multiset(Replaced(s.groups, map[]))))
  }

  function Initial(env: Env, next: nat): State {
    State(None, map[], map[], map[],
          Mihomo(next, map[], map[], env.builtins, [], map[], multiset{}, multiset{}, map[]))
  }
}
