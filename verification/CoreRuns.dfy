// Whole runs of the relay core: incremental apply against full rebuild, drain safety, drain
// deadlines, and health checks up to the final stop.
module CoreRuns {
  import opened Wrappers
  import opened Values
  import opened RelayTypes
  import opened CoreSpec
  import opened CoreProofs

  // Incremental apply against the configs in the current desired state

  ghost predicate ProxyFaithful(s: State, m: Config) {
    var n := Name(m);
    n in s.proxies && s.proxies[n].proxy in s.mihomo.proxyObjects && s.mihomo.proxyObjects[s.proxies[n].proxy] == m
  }

  ghost predicate GroupFaithful(s: State, m: Config) {
    var n := Name(m);
    && n in s.groups && s.groups[n].proxy in s.mihomo.groupObjects
    && (forall x | x in Listed(m) :: x in s.proxies)
    && s.mihomo.groupObjects[s.groups[n].proxy] == GroupObject(m, LiveObjects(s.proxies, Listed(m)))
  }

  /**
   * Each live proxy was built from exactly its config in the current desired state, and each
   * live group from exactly its config, holding the current objects of its listed members in order.
   */
  ghost predicate Faithful(s: State) {
    s.current.Some? ==>
      && (forall m | m in s.current.value.proxies :: ProxyFaithful(s, m))
      && (forall m | m in s.current.value.groups :: GroupFaithful(s, m))
  }

  ghost predicate Unchanged(env: Env, cur: Desired, d: Desired, name: string) {
    exists m, m' | m in cur.proxies && m' in d.proxies :: Name(m) == Name(m') == name && env.key(m) == env.key(m')
  }

  ghost predicate ProxiesCollide(env: Env, cur: Desired, d: Desired, m: Config, m': Config) {
    m in cur.proxies && m' in d.proxies && Name(m) == Name(m') && env.key(m) == env.key(m') && m != m'
  }

  /** apply takes g' for the group g that is running. */
  ghost predicate SameGroup(env: Env, cur: Desired, d: Desired, g: Config, g': Config) {
    && g in cur.groups && g' in d.groups && Name(g) == Name(g') && env.key(g) == env.key(g')
    && forall x | x in Listed(g') :: Unchanged(env, cur, d, x)
  }

  ghost predicate GroupsCollide(env: Env, cur: Desired, d: Desired, g: Config, g': Config) {
    SameGroup(env, cur, d, g, g') && g != g'
  }

  /** No two configs that apply would take for the same one differ. */
  ghost predicate NoReuseCollision(env: Env, current: Option<Desired>, d: Desired) {
    current.Some? ==>
      && (forall m, m' :: !ProxiesCollide(env, current.value, d, m, m'))
      && (forall g, g' :: !GroupsCollide(env, current.value, d, g, g'))
  }

  lemma ReusedProxy(env: Env, s: State, d: Desired, m: Config) returns (was: Config)
    requires Inv(env, s) && s.current.Some? && ProxyReused(env, s.proxies, m)
    ensures was in s.current.value.proxies && Name(was) == Name(m) && env.key(was) == env.key(m)
  {
    was :| was in s.current.value.proxies && Name(was) == Name(m);
    assert ProxyLive(env, s, was);
  }

  lemma ReusedGroup(env: Env, s: State, d: Desired, px: ProxyBuild, g: Config) returns (was: Config)
    requires Inv(env, s) && s.current.Some? && GroupReused(env, s, d, px.live, g)
    ensures was in s.current.value.groups && Name(was) == Name(g) && env.key(was) == env.key(g)
  {
    was :| was in s.current.value.groups && Name(was) == Name(g);
    assert GroupLive(env, s, was);
  }

  lemma ProxyReuseKeepsFaith(env: Env, s: State, d: Desired, now: int, m: Config)
    requires Inv(env, s) && Faithful(s) && WellFormed(d) && Apply(env, s, d, now).Success?
    requires m in d.proxies && (s.current.Some? ==> forall m0 :: !ProxiesCollide(env, s.current.value, d, m0, m))
    ensures ProxyFaithful(Apply(env, s, d, now).value.0, m)
  {
    hide Apply, TunnelMatches, HealthChecksMatch, Allocated;
    var px, gx := ApplyRebuilds(env, s, d, now);
    assert ProxyBuilt(env, s, px, m);
    if ProxyReused(env, s.proxies, m) {
      var was := ReusedProxy(env, s, d, m);
      assert !ProxiesCollide(env, s.current.value, d, was, m);
      assert ProxyFaithful(s, was);
    }
  }

  lemma SameObjects(was: map<string, LiveProxy>, next: map<string, LiveProxy>, names: seq<string>)
    requires SameProxies(was, names, next)
    ensures LiveObjects(was, names) == LiveObjects(next, names)
  {
  }

  lemma ReusedGroupIsSame(env: Env, s: State, d: Desired, px: ProxyBuild, g: Config)
    requires Inv(env, s) && s.current.Some? && WellFormed(d) && ProxiesBuilt(env, s, d.proxies, px)
    requires g in d.groups && GroupReused(env, s, d, px.live, g) && NoReuseCollision(env, s.current, d)
    ensures g in s.current.value.groups
  {
    hide Allocated, HealthChecksMatch, TunnelMatches, DistinctGroups, ProxyLive, GroupLive, ProxiesBuilt;
    var was := ReusedGroup(env, s, d, px, g);
    assert Listed(g) == MembersAt(d.members, Name(g)) && Name(g) in d.members;
    forall x | x in Listed(g) { MemberUnchanged(env, s, d, px, x); }
    assert !GroupsCollide(env, s.current.value, d, was, g);
  }

  lemma GroupReuseKeepsFaith(env: Env, s: State, d: Desired, now: int, g: Config)
    requires Inv(env, s) && Faithful(s) && WellFormed(d) && Apply(env, s, d, now).Success?
    requires g in d.groups && NoReuseCollision(env, s.current, d)
    ensures GroupFaithful(Apply(env, s, d, now).value.0, g)
  {
    hide Apply, TunnelMatches, HealthChecksMatch, Allocated;
    var px, gx := ApplyRebuilds(env, s, d, now);
    assert GroupBuilt(env, s, d, px, gx, g);
    if GroupReused(env, s, d, px.live, g) {
      ReusedGroupIsSame(env, s, d, px, g);
      assert GroupFaithful(s, g);
      assert Listed(g) == MembersAt(d.members, Name(g)) && Name(g) in d.members;
      SameObjects(s.proxies, px.live, Listed(g));
    }
  }

  /** A member whose object survives has a config with the same key on both sides. */
  lemma MemberUnchanged(env: Env, s: State, d: Desired, px: ProxyBuild, x: string)
    requires Inv(env, s) && s.current.Some? && ProxiesBuilt(env, s, d.proxies, px)
    requires x in s.proxies && x in px.live && s.proxies[x].proxy == px.live[x].proxy
    ensures Unchanged(env, s.current.value, d, x)
  {
    var m :| m in d.proxies && Name(m) == x;
    assert ProxyBuilt(env, s, px, m);
    assert ProxyReused(env, s.proxies, m);
    var was := ReusedProxy(env, s, d, m);
  }

  lemma UnchangedMember(env: Env, s: State, d: Desired, px: ProxyBuild, x: string)
    requires Inv(env, s) && s.current.Some? && WellFormed(d) && ProxiesBuilt(env, s, d.proxies, px)
    requires Unchanged(env, s.current.value, d, x)
    ensures x in s.proxies && x in px.live && s.proxies[x].proxy == px.live[x].proxy
  {
    var was, m :| was in s.current.value.proxies && m in d.proxies && Name(was) == Name(m) == x &&
      env.key(was) == env.key(m);
    assert ProxyLive(env, s, was);
    assert ProxyBuilt(env, s, px, m);
  }

  lemma ProxyCollisionBreaksFaith(env: Env, s: State, d: Desired, now: int, m: Config, m': Config)
    requires Inv(env, s) && Faithful(s) && s.current.Some? && WellFormed(d) && Apply(env, s, d, now).Success?
    requires ProxiesCollide(env, s.current.value, d, m, m')
    ensures !Faithful(Apply(env, s, d, now).value.0)
  {
    hide Apply, TunnelMatches, HealthChecksMatch, Allocated;
    var px, gx := ApplyRebuilds(env, s, d, now);
    assert ProxyLive(env, s, m) && ProxyFaithful(s, m);
    assert ProxyBuilt(env, s, px, m');
    assert !ProxyFaithful(Apply(env, s, d, now).value.0, m');
  }

  lemma SameGroupReused(env: Env, s: State, d: Desired, px: ProxyBuild, g: Config, g': Config)
    requires Inv(env, s) && s.current.Some? && WellFormed(d) && ProxiesBuilt(env, s, d.proxies, px)
    requires SameGroup(env, s.current.value, d, g, g')
    ensures GroupReused(env, s, d, px.live, g')
  {
    hide TunnelMatches, HealthChecksMatch, Allocated;
    assert GroupLive(env, s, g);
    assert Listed(g') == MembersAt(d.members, Name(g')) && Name(g') in d.members;
    forall x | x in Listed(g')
      ensures x in s.proxies && x in px.live && s.proxies[x].proxy == px.live[x].proxy
    {
      UnchangedMember(env, s, d, px, x);
    }
  }

  lemma ReusedGroupUnfaithful(env: Env, s: State, d: Desired, now: int, s': State, px: ProxyBuild, gx: GroupBuild,
                              g: Config, g': Config)
    requires Rebuilds(env, s, d, now, s', px, gx) && GroupFaithful(s, g)
    requires g' in d.groups && Name(g) == Name(g') && g != g' && GroupReused(env, s, d, px.live, g')
    ensures !Faithful(s')
  {
    hide TunnelMatches, ProxiesBuilt, GroupReused;
    assert GroupBuilt(env, s, d, px, gx, g');
    assert !GroupFaithful(s', g');
  }

  lemma GroupCollisionBreaksFaith(env: Env, s: State, d: Desired, now: int, g: Config, g': Config)
    requires Inv(env, s) && Faithful(s) && s.current.Some? && WellFormed(d) && Apply(env, s, d, now).Success?
    requires GroupsCollide(env, s.current.value, d, g, g')
    ensures !Faithful(Apply(env, s, d, now).value.0)
  {
    hide Apply, Allocated, DistinctGroups, HealthChecksMatch, WellFormed, GroupReused, GroupsBuilt, TunnelMatches,
      Switch;
    var px, gx := ApplyRebuilds(env, s, d, now);
    assert GroupFaithful(s, g);
    SameGroupReused(env, s, d, px, g, g');
    ReusedGroupUnfaithful(env, s, d, now, Apply(env, s, d, now).value.0, px, gx, g, g');
  }

  lemma NoCollisionKeepsFaith(env: Env, s: State, d: Desired, now: int)
    requires Inv(env, s) && Faithful(s) && WellFormed(d) && Apply(env, s, d, now).Success?
    requires NoReuseCollision(env, s.current, d)
    ensures Faithful(Apply(env, s, d, now).value.0)
  {
    forall m | m in d.proxies { ProxyReuseKeepsFaith(env, s, d, now, m); }
    forall g | g in d.groups { GroupReuseKeepsFaith(env, s, d, now, g); }
  }

  lemma CollisionBreaksFaith(env: Env, s: State, d: Desired, now: int)
    requires Inv(env, s) && Faithful(s) && WellFormed(d) && Apply(env, s, d, now).Success?
    requires !NoReuseCollision(env, s.current, d)
    ensures !Faithful(Apply(env, s, d, now).value.0)
  {
    hide Faithful, Apply, Inv, ProxiesCollide, GroupsCollide;
    if m, m' :| ProxiesCollide(env, s.current.value, d, m, m') {
      ProxyCollisionBreaksFaith(env, s, d, now, m, m');
    } else {
      var g, g' :| GroupsCollide(env, s.current.value, d, g, g');
      GroupCollisionBreaksFaith(env, s, d, now, g, g');
    }
  }

  /** After a successful apply the live objects match their configs exactly when no keys collided. */
  lemma FaithfulIffNoCollision(env: Env, s: State, d: Desired, now: int)
    requires Inv(env, s) && Faithful(s) && WellFormed(d) && Apply(env, s, d, now).Success?
    ensures Faithful(Apply(env, s, d, now).value.0) <==> NoReuseCollision(env, s.current, d)
  {
    if NoReuseCollision(env, s.current, d) {
      NoCollisionKeepsFaith(env, s, d, now);
    } else {
      CollisionBreaksFaith(env, s, d, now);
    }
  }

  // Connections

  /** The connection was accepted under a route entry that leads to a relay. */
  predicate Relayed(c: Conn) {
    c.entry.target != "" && c.entry.target != "REJECT"
  }

  /**
   * The entry that accepted the caller is still its route, the upstream is still a member of its
   * group, and the object it dialled is the live one.
   */
  predicate OnRoute(s: State, c: Conn) {
    && s.current.Some?
    && c.route in s.current.value.routes && s.current.value.routes[c.route] == c.entry
    && c.chain != [] && c.chain[|c.chain| - 1] == c.entry.target
    && c.chain[0] in MembersAt(s.current.value.members, c.entry.target)
    && c.chain[0] in s.proxies && s.proxies[c.chain[0]].proxy == c.dialled
  }

  ghost predicate DrainSafe(s: State) {
    forall id | id in s.mihomo.conns && id !in s.draining && Relayed(s.mihomo.conns[id]) ::
      OnRoute(s, s.mihomo.conns[id])
  }

  /** A relayed connection as mihomo opens it: through member i of the installed group object. */
  ghost predicate OpenedThrough(s: State, c: Conn, i: nat) {
    && s.current.Some?
    && c.route in s.current.value.routes && c.entry == s.current.value.routes[c.route]
    && c.entry.target in s.mihomo.outbounds && c.entry.target in s.current.value.members
    && s.mihomo.outbounds[c.entry.target] in s.mihomo.groupObjects
    && var group := s.mihomo.groupObjects[s.mihomo.outbounds[c.entry.target]];
       && i < |group.members| && i < |Listed(group.config)|
       && c.chain != [] && c.chain[|c.chain| - 1] == c.entry.target
       && c.chain[0] == Listed(group.config)[i]
       && c.dialled == group.members[i]
  }

  ghost predicate CanOpen(s: State, c: Conn) {
    Relayed(c) ==> exists i :: OpenedThrough(s, c, i)
  }

  /** An apply marks a relayed connection exactly when it takes away its route, membership or object. */
  lemma StaleIffOffRoute(env: Env, s: State, d: Desired, now: int, id: nat)
    requires Inv(env, s) && WellFormed(d) && Apply(env, s, d, now).Success?
    requires id in s.mihomo.conns && id !in s.draining
    requires Relayed(s.mihomo.conns[id]) && OnRoute(s, s.mihomo.conns[id])
    ensures var s' := Apply(env, s, d, now).value.0;
            id in s'.draining <==> !OnRoute(s', s'.mihomo.conns[id])
  {
    hide Apply, TunnelMatches, HealthChecksMatch, Allocated;
    var px, gx := ApplyRebuilds(env, s, d, now);
    var c := s.mihomo.conns[id];
    assert RouteAt(s.current.value.routes, c.route) == c.entry;
    assert RouteAt(d.routes, c.route) == c.entry ==> c.route in d.routes;
    assert Stale(s, c, d, px.live) <==> id in NewlyStale(s, d, px.live);
  }

  lemma ApplyKeepsDrainSafe(env: Env, s: State, d: Desired, now: int)
    requires Inv(env, s) && WellFormed(d) && Apply(env, s, d, now).Success?
    requires DrainSafe(s)
    ensures DrainSafe(Apply(env, s, d, now).value.0)
  {
    var s' := Apply(env, s, d, now).value.0;
    forall id | id in s'.mihomo.conns && id !in s'.draining && Relayed(s'.mihomo.conns[id])
      ensures OnRoute(s', s'.mihomo.conns[id])
    {
      assert id !in s.draining;
      StaleIffOffRoute(env, s, d, now, id);
    }
  }

  // Runs

  datatype Event =
    | ApplyEvent(desired: Desired, now: int)
    | SweepEvent(now: int)
    | OpenEvent(id: nat, conn: Conn)
    | FinishEvent(id: nat)

  ghost predicate Next(env: Env, s: State, e: Event, s': State) {
    match e
    case ApplyEvent(d, now) =>
      WellFormed(d) && s' == AfterApply(env, s, d, now)
    case SweepEvent(now) => s' == Sweep(s, now)
    case OpenEvent(id, c) =>
      && id !in s.mihomo.conns && id !in s.draining && CanOpen(s, c)
      && s' == s.(mihomo := s.mihomo.(conns := s.mihomo.conns[id := c]))
    case FinishEvent(id) => s' == s.(mihomo := s.mihomo.(conns := s.mihomo.conns - {id}))
  }

  ghost predicate Run(env: Env, states: seq<State>, events: seq<Event>) {
    && |states| == |events| + 1
    && (exists next :: states[0] == Initial(env, next))
    && forall i | 0 <= i < |events| :: Next(env, states[i], events[i], states[i + 1])
  }

  /** The event is an apply, and it succeeds. */
  ghost predicate Succeeds(env: Env, s: State, e: Event) {
    e.ApplyEvent? && Apply(env, s, e.desired, e.now).Success?
  }

  /** No apply before the n-th event that succeeds shares a reuse key with a different running config. */
  ghost predicate NoCollisions(env: Env, states: seq<State>, events: seq<Event>, n: nat)
    requires n <= |events| < |states|
  {
    forall i | 0 <= i < n && Succeeds(env, states[i], events[i]) ::
      NoReuseCollision(env, states[i].current, events[i].desired)
  }

  lemma InitialInv(env: Env, next: nat)
    ensures Inv(env, Initial(env, next)) && Faithful(Initial(env, next)) && DrainSafe(Initial(env, next))
  {
  }

  lemma NextKeepsInv(env: Env, s: State, e: Event, s': State)
    requires Inv(env, s) && Next(env, s, e, s')
    ensures Inv(env, s')
  {
    match e
    case ApplyEvent(d, now) =>
      if Apply(env, s, d, now).Success? { ApplyKeepsInv(env, s, d, now); }
    case SweepEvent(_) => SameObjectsSameInv(env, s, s');
    case OpenEvent(_, _) => SameObjectsSameInv(env, s, s');
    case FinishEvent(_) => SameObjectsSameInv(env, s, s');
  }

  /** Inv says nothing about connections, and of draining only that it starts empty. */
  lemma SameObjectsSameInv(env: Env, s: State, s': State)
    requires Inv(env, s)
    requires s' == s.(draining := s'.draining, mihomo := s.mihomo.(conns := s'.mihomo.conns))
    requires s'.draining.Keys <= s.draining.Keys
    ensures Inv(env, s')
  {
    hide ChecksMatch, WellFormed, FirstBadRule, AddListeners;
    forall m | s.current.Some? && m in s.current.value.proxies
      ensures ProxyLive(env, s', m)
    {
      assert ProxyLive(env, s, m);
    }
    forall m | s.current.Some? && m in s.current.value.groups
      ensures GroupLive(env, s', m)
    {
      assert GroupLive(env, s, m);
    }
  }

  lemma SameObjectsFaithful(s: State, s': State)
    requires s' == s.(draining := s'.draining, mihomo := s.mihomo.(conns := s'.mihomo.conns)) && Faithful(s)
    ensures Faithful(s')
  {
    if s.current.Some? {
      assert forall m | m in s.current.value.proxies :: ProxyFaithful(s, m) && ProxyFaithful(s', m);
      assert forall m | m in s.current.value.groups :: GroupFaithful(s, m) && GroupFaithful(s', m);
    }
  }

  lemma NextFaithfulIff(env: Env, s: State, e: Event, s': State)
    requires Inv(env, s) && Faithful(s) && Next(env, s, e, s')
    ensures Faithful(s') <==> (Succeeds(env, s, e) ==> NoReuseCollision(env, s.current, e.desired))
  {
    hide Inv, Apply, Faithful, WellFormed, NoReuseCollision, CanOpen;
    match e
    case ApplyEvent(d, now) =>
      if Apply(env, s, d, now).Success? { FaithfulIffNoCollision(env, s, d, now); }
    case _ => SameObjectsFaithful(s, s');
  }

  lemma SameRoutesSafe(s: State, s': State)
    requires s' == s.(draining := s'.draining, mihomo := s.mihomo.(conns := s'.mihomo.conns))
    requires forall id | id in s'.mihomo.conns && id !in s'.draining && Relayed(s'.mihomo.conns[id]) ::
               (id in s.mihomo.conns && id !in s.draining && s'.mihomo.conns[id] == s.mihomo.conns[id]) ||
                OnRoute(s, s'.mihomo.conns[id])
    requires DrainSafe(s)
    ensures DrainSafe(s')
  {
    forall id | id in s'.mihomo.conns && id !in s'.draining && Relayed(s'.mihomo.conns[id])
      ensures OnRoute(s', s'.mihomo.conns[id])
    {
      assert OnRoute(s, s'.mihomo.conns[id]);
    }
  }

  /** In every reachable state the health checks running are those of the live groups, and so on: see Inv. */
  lemma {:induction false} RunKeepsInv(env: Env, states: seq<State>, events: seq<Event>, i: nat)
    requires Run(env, states, events) && i < |states|
    ensures Inv(env, states[i])
  {
    if i == 0 {
      var next :| states[0] == Initial(env, next);
      InitialInv(env, next);
    } else {
      RunKeepsInv(env, states, events, i - 1);
      NextKeepsInv(env, states[i - 1], events[i - 1], states[i]);
    }
  }

  /** In a run the live objects match their configs, in every state, exactly when no successful apply collides. */
  lemma {:induction false} RunFaithfulIff(env: Env, states: seq<State>, events: seq<Event>, n: nat)
    requires Run(env, states, events) && n <= |events|
    ensures (forall i | 0 <= i <= n :: Faithful(states[i])) <==> NoCollisions(env, states, events, n)
  {
    hide Faithful, NoReuseCollision, Next, Succeeds;
    if n == 0 {
      var next :| states[0] == Initial(env, next);
      InitialInv(env, next);
    } else {
      RunFaithfulIff(env, states, events, n - 1);
      RunKeepsInv(env, states, events, n - 1);
      if Faithful(states[n - 1]) {
        NextFaithfulIff(env, states[n - 1], events[n - 1], states[n - 1 + 1]);
      }
    }
  }

  // Drain deadlines

  /** A deadline never moves, and only an apply sets one, a full drain timeout ahead. */
  ghost predicate DrainStep(s: State, e: Event, s': State) {
    forall id | id in s'.draining ::
      if id in s.draining then s'.draining[id] == s.draining[id]
      else e.ApplyEvent? && s'.draining[id] == e.now + DRAIN_TIMEOUT
  }

  lemma NextDrains(env: Env, s: State, e: Event, s': State)
    requires Next(env, s, e, s')
    ensures DrainStep(s, e, s')
  {
  }

  lemma RunDrains(env: Env, states: seq<State>, events: seq<Event>)
    requires Run(env, states, events)
    ensures states[0].draining == map[]
    ensures forall i | 0 <= i < |events| :: DrainStep(states[i], events[i], states[i + 1])
  {
    forall i | 0 <= i < |events|
      ensures DrainStep(states[i], events[i], states[i + 1])
    {
      NextDrains(env, states[i], events[i], states[i + 1]);
    }
  }

  /** A draining connection was marked by some apply, has been draining since, and its deadline never moved. */
  lemma {:induction false} DrainingSince(states: seq<State>, events: seq<Event>, k: nat, id: nat) returns (j: nat)
    requires |states| == |events| + 1 && states[0].draining == map[]
    requires forall i | 0 <= i < |events| :: DrainStep(states[i], events[i], states[i + 1])
    requires k < |states| && id in states[k].draining
    ensures j < k && events[j].ApplyEvent?
    ensures id !in states[j].draining && forall i | j < i <= k :: id in states[i].draining
    ensures states[k].draining[id] == events[j].now + 5 * 60
  {
    assert k > 0;
    assert DrainStep(states[k - 1], events[k - 1], states[k - 1 + 1]);
    if id in states[k - 1].draining {
      j := DrainingSince(states, events, k - 1, id);
    } else {
      j := k - 1;
    }
  }

  /** A sweep closes only connections that some apply marked at least the drain timeout earlier. */
  lemma ForceClosedLate(env: Env, states: seq<State>, events: seq<Event>, k: nat, id: nat) returns (j: nat)
    requires Run(env, states, events) && k < |events| && events[k].SweepEvent?
    requires id in states[k].mihomo.conns && id !in states[k + 1].mihomo.conns
    ensures j < k && events[j].ApplyEvent? && id !in states[j].draining && id in states[j + 1].draining
    ensures events[k].now >= events[j].now + 5 * 60
  {
    assert Next(env, states[k], events[k], states[k + 1]);
    assert id in Overdue(states[k], events[k].now);
    RunDrains(env, states, events);
    j := DrainingSince(states, events, k, id);
  }

  /** What is left after a sweep is open and not yet due; every overdue connection is gone. */
  lemma SweepLeavesOpenAndTimely(s: State, now: int)
    ensures forall id | id in Sweep(s, now).draining ::
              id in Sweep(s, now).mihomo.conns && Sweep(s, now).draining[id] > now
    ensures forall id | id in s.draining && now >= s.draining[id] :: id !in Sweep(s, now).mihomo.conns
    ensures forall id | id in s.mihomo.conns && id !in s.draining :: id in Sweep(s, now).mihomo.conns
  {
  }

  // Health checks at the end

  /** After stop every started health check has been closed exactly once. */
  lemma StopEndsHealthChecks(env: Env, s: State)
    requires Inv(env, s)
    ensures Stop(s).mihomo.starts == Stop(s).mihomo.closes
  {
    var live, closes := Replaced(s.groups, map[]), Stop(s).mihomo.closes;
    forall p: nat
      ensures s.mihomo.starts[p] == closes[p]
    {
      assert s.mihomo.closes[p] <= s.mihomo.starts[p] <= 1;
      if Running(s.groups, p) {
        var n :| n in s.groups && s.groups[n].provider == p;
        assert p in live;
      } else {
        assert p !in live;
      }
    }
  }
}
