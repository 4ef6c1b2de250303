// Drain safety over whole runs of the relay core, and exactly when a reused group breaks it.
module CoreDrain {
  import opened Wrappers
  import opened Values
  import opened RelayTypes
  import opened CoreSpec
  import opened CoreProofs
  import opened CoreRuns
  import opened Sorting

  // The groups installed

  ghost predicate Installed(s: State, n: string) {
    n in s.groups && s.groups[n].proxy in s.mihomo.groupObjects
  }

  function ObjectOf(s: State, n: string): GroupObject
    requires Installed(s, n)
  {
    s.mihomo.groupObjects[s.groups[n].proxy]
  }

  /** The group's object lists exactly its current members and holds their current objects. */
  ghost predicate GroupHolds(s: State, n: string)
    requires s.current.Some?
  {
    && Installed(s, n)
    && (forall x | x in Listed(ObjectOf(s, n).config) :: x in s.proxies)
    && Listed(ObjectOf(s, n).config) == MembersAt(s.current.value.members, n)
    && ObjectOf(s, n).members == LiveObjects(s.proxies, Listed(ObjectOf(s, n).config))
  }

  /** The i-th entry of the group's object is a current member and its current object. */
  ghost predicate EntryCurrent(s: State, n: string, i: nat)
    requires s.current.Some? && Installed(s, n)
  {
    var o := ObjectOf(s, n);
    i < |o.members| && i < |Listed(o.config)| ==>
      var x := Listed(o.config)[i];
      x in MembersAt(s.current.value.members, n) && x in s.proxies && s.proxies[x].proxy == o.members[i]
  }

  /** The group's object holds nothing but current members and their current objects. */
  ghost predicate GroupWithin(s: State, n: string)
    requires s.current.Some?
  {
    Installed(s, n) && forall i: nat :: EntryCurrent(s, n, i)
  }

  ghost predicate GroupsHold(s: State) {
    s.current.Some? ==> forall n | n in s.current.value.members :: GroupHolds(s, n)
  }

  ghost predicate GroupsWithin(s: State) {
    s.current.Some? ==> forall n | n in s.current.value.members :: GroupWithin(s, n)
  }

  // What an apply does to a group

  lemma ReusedIsSame(env: Env, s: State, d: Desired, px: ProxyBuild, g': Config) returns (g: Config)
    requires Inv(env, s) && s.current.Some? && WellFormed(d) && ProxiesBuilt(env, s, d.proxies, px)
    requires g' in d.groups && GroupReused(env, s, d, px.live, g')
    ensures SameGroup(env, s.current.value, d, g, g')
  {
    g := ReusedGroup(env, s, d, px, g');
    assert Listed(g') == MembersAt(d.members, Name(g')) && Name(g') in d.members;
    forall x | x in Listed(g') { MemberUnchanged(env, s, d, px, x); }
  }

  /** A proxy whose key is unchanged keeps its object. */
  lemma UnchangedObject(env: Env, s: State, d: Desired, now: int, x: string)
    requires Inv(env, s) && s.current.Some? && WellFormed(d) && Apply(env, s, d, now).Success?
    requires Unchanged(env, s.current.value, d, x)
    ensures var s' := Apply(env, s, d, now).value.0;
            && x in s.proxies && x in s'.proxies && s'.proxies[x].proxy == s.proxies[x].proxy
            && s.proxies[x].proxy in s.mihomo.proxyObjects && s.proxies[x].proxy in s'.mihomo.proxyObjects
            && s'.mihomo.proxyObjects[s.proxies[x].proxy] == s.mihomo.proxyObjects[s.proxies[x].proxy]
  {
    hide Apply, DistinctGroups, HealthChecksMatch, TunnelMatches;
    var px, gx := ApplyRebuilds(env, s, d, now);
    UnchangedMember(env, s, d, px, x);
  }

  /** A group taken for a running one keeps its object, and its new members keep theirs. */
  lemma ReusedObject(env: Env, s: State, d: Desired, now: int, g: Config, g': Config)
    requires Inv(env, s) && s.current.Some? && WellFormed(d) && Apply(env, s, d, now).Success?
    requires SameGroup(env, s.current.value, d, g, g')
    ensures var s' := Apply(env, s, d, now).value.0;
            && Installed(s, Name(g)) && Installed(s', Name(g)) && ObjectOf(s', Name(g)) == ObjectOf(s, Name(g))
            && forall x | x in Listed(g') ::
               x in s.proxies && x in s'.proxies && s'.proxies[x].proxy == s.proxies[x].proxy
  {
    hide Apply, Allocated, DistinctGroups, HealthChecksMatch, TunnelMatches;
    var px, gx := ApplyRebuilds(env, s, d, now);
    assert GroupLive(env, s, g);
    SameGroupReused(env, s, d, px, g, g');
    assert GroupBuilt(env, s, d, px, gx, g');
    forall x | x in Listed(g') { UnchangedMember(env, s, d, px, x); }
  }

  /** Any other group gets an object of its own members. */
  lemma BuiltObject(env: Env, s: State, d: Desired, now: int, g': Config)
    requires Inv(env, s) && WellFormed(d) && Apply(env, s, d, now).Success? && g' in d.groups
    requires s.current.Some? ==> forall g :: !SameGroup(env, s.current.value, d, g, g')
    ensures var s' := Apply(env, s, d, now).value.0;
            && Installed(s', Name(g')) && (forall x | x in Listed(g') :: x in s'.proxies)
            && ObjectOf(s', Name(g')) == GroupObject(g', LiveObjects(s'.proxies, Listed(g')))
  {
    hide Apply, Allocated, DistinctGroups, HealthChecksMatch, TunnelMatches;
    var px, gx := ApplyRebuilds(env, s, d, now);
    assert GroupBuilt(env, s, d, px, gx, g');
    if GroupReused(env, s, d, px.live, g') {
      var g := ReusedIsSame(env, s, d, px, g');
    }
  }

  lemma AppliedCurrent(env: Env, s: State, d: Desired, now: int)
    requires Apply(env, s, d, now).Success?
    ensures Apply(env, s, d, now).value.0.current == Some(d)
  {
  }

  // Mix-ups

  /** A group is taken for a running one that lists other members. */
  ghost predicate MixedUp(env: Env, cur: Desired, d: Desired, g: Config, g': Config) {
    SameGroup(env, cur, d, g, g') && Listed(g) != Listed(g')
  }

  /** A group is taken for a running one that lists a name it does not. */
  ghost predicate Drops(env: Env, cur: Desired, d: Desired, g: Config, g': Config) {
    SameGroup(env, cur, d, g, g') && exists x | x in Listed(g) :: x !in Listed(g')
  }

  ghost predicate NoMixUp(env: Env, current: Option<Desired>, d: Desired) {
    current.Some? ==> forall g, g' :: !MixedUp(env, current.value, d, g, g')
  }

  ghost predicate NoDrop(env: Env, current: Option<Desired>, d: Desired) {
    current.Some? ==> forall g, g' :: !Drops(env, current.value, d, g, g')
  }

  /** Drops are mix-ups, and mix-ups are key collisions. */
  lemma CollisionFreeIsDropFree(env: Env, current: Option<Desired>, d: Desired)
    ensures NoReuseCollision(env, current, d) ==> NoMixUp(env, current, d)
    ensures NoMixUp(env, current, d) ==> NoDrop(env, current, d)
  {
    if NoReuseCollision(env, current, d) && current.Some? {
      forall g, g'
        ensures !MixedUp(env, current.value, d, g, g')
      {
        assert !GroupsCollide(env, current.value, d, g, g');
      }
    }
    if NoMixUp(env, current, d) && current.Some? {
      forall g, g'
        ensures !Drops(env, current.value, d, g, g')
      {
        assert !MixedUp(env, current.value, d, g, g');
      }
    }
  }

  lemma GroupNamed(d: Desired, n: string) returns (g: Config)
    requires WellFormed(d) && n in d.members
    ensures g in d.groups && Name(g) == n && Listed(g) == d.members[n]
  {
    g :| g in d.groups && Name(g) == n;
  }

  lemma SameGroupLists(env: Env, s: State, d: Desired, g: Config, g': Config)
    requires Inv(env, s) && s.current.Some? && SameGroup(env, s.current.value, d, g, g')
    ensures Name(g) in s.current.value.members && s.current.value.members[Name(g)] == Listed(g)
  {
  }

  lemma NoMixUpKeepsGroups(env: Env, s: State, d: Desired, now: int, n: string)
    requires Inv(env, s) && GroupsHold(s) && WellFormed(d) && Apply(env, s, d, now).Success?
    requires NoMixUp(env, s.current, d) && n in d.members
    ensures Apply(env, s, d, now).value.0.current == Some(d) && GroupHolds(Apply(env, s, d, now).value.0, n)
  {
    hide Apply, Inv, WellFormed;
    AppliedCurrent(env, s, d, now);
    var g' := GroupNamed(d, n);
    if s.current.Some? && exists g :: SameGroup(env, s.current.value, d, g, g') {
      var g :| SameGroup(env, s.current.value, d, g, g');
      ReusedObject(env, s, d, now, g, g');
      SameGroupLists(env, s, d, g, g');
      assert !MixedUp(env, s.current.value, d, g, g') && GroupHolds(s, n);
    } else {
      BuiltObject(env, s, d, now, g');
    }
  }

  lemma MixUpBreaksGroup(env: Env, s: State, d: Desired, now: int, g: Config, g': Config)
    requires Inv(env, s) && GroupsHold(s) && WellFormed(d) && Apply(env, s, d, now).Success?
    requires s.current.Some? && MixedUp(env, s.current.value, d, g, g')
    ensures !GroupsHold(Apply(env, s, d, now).value.0)
  {
    hide Apply, Inv;
    AppliedCurrent(env, s, d, now);
    ReusedObject(env, s, d, now, g, g');
    SameGroupLists(env, s, d, g, g');
    assert GroupHolds(s, Name(g)) && Name(g') in d.members;
    assert !GroupHolds(Apply(env, s, d, now).value.0, Name(g'));
  }

  /** After a successful apply every group holds its members exactly when no groups were mixed up. */
  lemma GroupsHoldIffNoMixUp(env: Env, s: State, d: Desired, now: int)
    requires Inv(env, s) && GroupsHold(s) && WellFormed(d) && Apply(env, s, d, now).Success?
    ensures GroupsHold(Apply(env, s, d, now).value.0) <==> NoMixUp(env, s.current, d)
  {
    hide Apply, Inv, GroupHolds, MixedUp, WellFormed;
    AppliedCurrent(env, s, d, now);
    if NoMixUp(env, s.current, d) {
      forall n | n in d.members { NoMixUpKeepsGroups(env, s, d, now, n); }
    } else {
      var g, g' :| MixedUp(env, s.current.value, d, g, g');
      MixUpBreaksGroup(env, s, d, now, g, g');
    }
  }

  /** Without drops no group is left with a member it no longer has. */
  lemma NoDropKeepsGroup(env: Env, s: State, d: Desired, now: int, n: string)
    requires Inv(env, s) && GroupsWithin(s) && WellFormed(d) && Apply(env, s, d, now).Success?
    requires NoDrop(env, s.current, d) && n in d.members
    ensures Apply(env, s, d, now).value.0.current == Some(d) && GroupWithin(Apply(env, s, d, now).value.0, n)
  {
    hide Apply, Inv, WellFormed;
    AppliedCurrent(env, s, d, now);
    var g' := GroupNamed(d, n);
    if s.current.Some? && exists g :: SameGroup(env, s.current.value, d, g, g') {
      var g :| SameGroup(env, s.current.value, d, g, g');
      ReusedObject(env, s, d, now, g, g');
      SameGroupLists(env, s, d, g, g');
      assert !Drops(env, s.current.value, d, g, g') && GroupWithin(s, n);
      forall i: nat
        ensures EntryCurrent(Apply(env, s, d, now).value.0, n, i)
      {
        assert EntryCurrent(s, n, i);
      }
    } else {
      BuiltObject(env, s, d, now, g');
    }
  }

  lemma NoDropKeepsGroups(env: Env, s: State, d: Desired, now: int)
    requires Inv(env, s) && GroupsWithin(s) && WellFormed(d) && Apply(env, s, d, now).Success?
    requires NoDrop(env, s.current, d)
    ensures GroupsWithin(Apply(env, s, d, now).value.0)
  {
    hide Apply, Inv, GroupWithin, NoDrop, WellFormed;
    AppliedCurrent(env, s, d, now);
    forall n | n in d.members { NoDropKeepsGroup(env, s, d, now, n); }
  }

  // Connections

  lemma InstalledOutbound(env: Env, s: State, n: string)
    requires Inv(env, s) && s.current.Some? && n in s.current.value.members
    ensures n in s.groups && n in s.mihomo.outbounds && s.mihomo.outbounds[n] == s.groups[n].proxy && Installed(s, n)
  {
    var g := GroupNamed(s.current.value, n);
    assert GroupLive(env, s, g);
  }

  /** Every relayed connection that mihomo may open is on its route. */
  ghost predicate OpensOnRoute(s: State) {
    forall c | CanOpen(s, c) && Relayed(c) :: OnRoute(s, c)
  }

  lemma OpenedOnRoute(env: Env, s: State)
    requires Inv(env, s) && GroupsWithin(s)
    ensures OpensOnRoute(s)
  {
    hide Inv;
    forall c | CanOpen(s, c) && Relayed(c)
      ensures OnRoute(s, c)
    {
      var i: nat :| OpenedThrough(s, c, i);
      InstalledOutbound(env, s, c.entry.target);
      assert GroupWithin(s, c.entry.target) && EntryCurrent(s, c.entry.target, i);
    }
  }

  // One apply

  /** A route leads to the group. */
  ghost predicate Routed(d: Desired, n: string) {
    n != "" && n != "REJECT" && exists r | r in d.routes :: d.routes[r].target == n
  }

  /** The i-th entry of the running object is a member of the new group, with its running object. */
  ghost predicate EntryStays(s: State, g': Config, i: nat)
    requires Installed(s, Name(g'))
  {
    var o := ObjectOf(s, Name(g'));
    i < |o.members| && i < |Listed(o.config)| ==>
      var x := Listed(o.config)[i];
      x in Listed(g') && x in s.proxies && s.proxies[x].proxy == o.members[i]
  }

  /** The running object of a group holds nothing but members of the new group and their objects. */
  ghost predicate Stays(s: State, g': Config) {
    Installed(s, Name(g')) && forall i: nat :: EntryStays(s, g', i)
  }

  /** Each group that d leads a route to and that keeps its object may keep it. */
  ghost predicate KeepsRoutes(env: Env, s: State, d: Desired) {
    s.current.Some? ==>
      forall g, g' | SameGroup(env, s.current.value, d, g, g') && Routed(d, Name(g')) :: Stays(s, g')
  }

  lemma OpenedThroughGroup(env: Env, s: State, d: Desired, now: int, c: Conn, i: nat) returns (g': Config)
    requires Inv(env, s) && WellFormed(d) && Apply(env, s, d, now).Success?
    requires OpenedThrough(Apply(env, s, d, now).value.0, c, i) && Relayed(c)
    ensures var s' := Apply(env, s, d, now).value.0;
            && g' in d.groups && Name(g') == c.entry.target && Routed(d, Name(g')) && Listed(g') == d.members[Name(g')]
            && s'.current == Some(d) && c.route in d.routes && d.routes[c.route] == c.entry
            && Installed(s', Name(g')) && i < |ObjectOf(s', Name(g')).members|
            && i < |Listed(ObjectOf(s', Name(g')).config)|
            && c.chain != [] && c.chain[|c.chain| - 1] == Name(g')
            && c.chain[0] == Listed(ObjectOf(s', Name(g')).config)[i]
            && c.dialled == ObjectOf(s', Name(g')).members[i]
  {
    hide Apply, Inv, WellFormed;
    AppliedCurrent(env, s, d, now);
    ApplyKeepsInv(env, s, d, now);
    InstalledOutbound(env, Apply(env, s, d, now).value.0, c.entry.target);
    g' := GroupNamed(d, c.entry.target);
  }

  lemma KeptRouteOpensOnRoute(env: Env, s: State, d: Desired, now: int, c: Conn)
    requires Inv(env, s) && WellFormed(d) && Apply(env, s, d, now).Success? && KeepsRoutes(env, s, d)
    requires CanOpen(Apply(env, s, d, now).value.0, c) && Relayed(c)
    ensures OnRoute(Apply(env, s, d, now).value.0, c)
  {
    var i: nat :| OpenedThrough(Apply(env, s, d, now).value.0, c, i);
    hide Apply, Inv, WellFormed, OpenedThrough, Routed;
    var g' := OpenedThroughGroup(env, s, d, now, c, i);
    if s.current.Some? && exists g :: SameGroup(env, s.current.value, d, g, g') {
      var g :| SameGroup(env, s.current.value, d, g, g');
      ReusedObject(env, s, d, now, g, g');
      assert Stays(s, g') && EntryStays(s, g', i);
    } else {
      BuiltObject(env, s, d, now, g');
      assert Listed(g')[i] in Listed(g');
    }
  }

  /** An entry that is not the new group's can still be dialled. */
  lemma StrayStillOpens(env: Env, s: State, d: Desired, now: int, g: Config, g': Config) returns (c: Conn)
    requires Inv(env, s) && WellFormed(d) && Apply(env, s, d, now).Success? && s.current.Some?
    requires SameGroup(env, s.current.value, d, g, g') && Routed(d, Name(g')) && !Stays(s, g')
    ensures var s' := Apply(env, s, d, now).value.0; CanOpen(s', c) && Relayed(c) && !OnRoute(s', c)
  {
    hide Apply, Inv;
    var s', n := Apply(env, s, d, now).value.0, Name(g');
    AppliedCurrent(env, s, d, now);
    ApplyKeepsInv(env, s, d, now);
    ReusedObject(env, s, d, now, g, g');
    assert n in d.members && d.members[n] == Listed(g');
    InstalledOutbound(env, s', n);
    c := StrayOpens(s, s', d, g');
  }

  lemma StrayOpens(s: State, s': State, d: Desired, g': Config) returns (c: Conn)
    requires Routed(d, Name(g')) && Name(g') in d.members && d.members[Name(g')] == Listed(g') && s'.current == Some(d)
    requires Installed(s, Name(g')) && Installed(s', Name(g')) && ObjectOf(s', Name(g')) == ObjectOf(s, Name(g'))
    requires Name(g') in s'.mihomo.outbounds && s'.mihomo.outbounds[Name(g')] == s'.groups[Name(g')].proxy
    requires forall x | x in Listed(g') ::
             x in s.proxies && x in s'.proxies && s'.proxies[x].proxy == s.proxies[x].proxy
    requires !Stays(s, g')
    ensures CanOpen(s', c) && Relayed(c) && !OnRoute(s', c)
  {
    var n := Name(g');
    var i: nat :| !EntryStays(s, g', i);
    var o := ObjectOf(s', n);
    var r :| r in d.routes && d.routes[r].target == n;
    c := Conn(r, [Listed(o.config)[i], n], d.routes[r], o.members[i]);
    assert OpenedThrough(s', c, i);
  }

  /**
   * After a successful apply every relayed connection that may open is on its route exactly when
   * each group that a route leads to and that kept its object could keep it.
   */
  lemma OpensOnRouteIffKeepsRoutes(env: Env, s: State, d: Desired, now: int)
    requires Inv(env, s) && WellFormed(d) && Apply(env, s, d, now).Success?
    ensures OpensOnRoute(Apply(env, s, d, now).value.0) <==> KeepsRoutes(env, s, d)
  {
    hide Apply, Inv, WellFormed, CanOpen, OnRoute, SameGroup, Routed, Stays;
    if KeepsRoutes(env, s, d) {
      forall c | CanOpen(Apply(env, s, d, now).value.0, c) && Relayed(c) {
        KeptRouteOpensOnRoute(env, s, d, now, c);
      }
    } else {
      var g, g' :| SameGroup(env, s.current.value, d, g, g') && Routed(d, Name(g')) && !Stays(s, g');
      var c := StrayStillOpens(env, s, d, now, g, g');
    }
  }

  ghost predicate NoRoutedDrop(env: Env, current: Option<Desired>, d: Desired) {
    current.Some? ==> forall g, g' | Drops(env, current.value, d, g, g') :: !Routed(d, Name(g'))
  }

  lemma HeldEntries(env: Env, s: State, d: Desired, g: Config, g': Config)
    requires Inv(env, s) && GroupsHold(s) && s.current.Some? && SameGroup(env, s.current.value, d, g, g')
    ensures Installed(s, Name(g')) && Listed(ObjectOf(s, Name(g')).config) == Listed(g)
    ensures |ObjectOf(s, Name(g')).members| == |Listed(g)|
    ensures forall i: nat | i < |Listed(g)| ::
              Listed(g)[i] in s.proxies && s.proxies[Listed(g)[i]].proxy == ObjectOf(s, Name(g')).members[i]
  {
    hide Inv;
    SameGroupLists(env, s, d, g, g');
    assert GroupHolds(s, Name(g));
    assert forall i: nat | i < |Listed(g)| :: Listed(g)[i] in Listed(g);
  }

  lemma StaysIffNotDropped(env: Env, s: State, d: Desired, g: Config, g': Config)
    requires Inv(env, s) && GroupsHold(s) && s.current.Some? && SameGroup(env, s.current.value, d, g, g')
    ensures Stays(s, g') <==> !Drops(env, s.current.value, d, g, g')
  {
    hide Inv, SameGroup, GroupsHold, Installed, ObjectOf, Listed;
    HeldEntries(env, s, d, g, g');
    if Stays(s, g') {
      forall x | x in Listed(g)
        ensures x in Listed(g')
      {
        var i: nat :| i < |Listed(g)| && Listed(g)[i] == x;
        assert EntryStays(s, g', i);
      }
    }
  }

  /** Where groups hold their members, that is to say that no group with a route dropped a name. */
  lemma KeepsRoutesIffNoRoutedDrop(env: Env, s: State, d: Desired)
    requires Inv(env, s) && GroupsHold(s)
    ensures KeepsRoutes(env, s, d) <==> NoRoutedDrop(env, s.current, d)
  {
    hide Inv, GroupsHold, Stays, Routed, SameGroup;
    if s.current.Some? {
      forall g, g' | SameGroup(env, s.current.value, d, g, g') { StaysIffNotDropped(env, s, d, g, g'); }
      assert forall g, g' | Drops(env, s.current.value, d, g, g') :: SameGroup(env, s.current.value, d, g, g');
    }
  }

  // Whole runs

  /** The groups named in this state decide which connections may open. */
  lemma SameObjectsOpen(s: State, s': State)
    requires s' == s.(draining := s'.draining, mihomo := s.mihomo.(conns := s'.mihomo.conns))
    ensures OpensOnRoute(s') <==> OpensOnRoute(s)
  {
    forall c
      ensures CanOpen(s', c) <==> CanOpen(s, c)
      ensures OnRoute(s', c) <==> OnRoute(s, c)
    {
      assert forall i: nat :: OpenedThrough(s', c, i) <==> OpenedThrough(s, c, i);
    }
  }

  lemma NextOpensOnRouteIff(env: Env, s: State, e: Event, s': State)
    requires Inv(env, s) && OpensOnRoute(s) && Next(env, s, e, s')
    ensures OpensOnRoute(s') <==> (Succeeds(env, s, e) ==> KeepsRoutes(env, s, e.desired))
  {
    hide Inv, Apply, OpensOnRoute, KeepsRoutes, WellFormed, CanOpen;
    match e
    case ApplyEvent(d, now) =>
      if Apply(env, s, d, now).Success? { OpensOnRouteIffKeepsRoutes(env, s, d, now); }
    case _ => SameObjectsOpen(s, s');
  }

  lemma NextKeepsSafe(env: Env, s: State, e: Event, s': State)
    requires Inv(env, s) && OpensOnRoute(s) && DrainSafe(s) && Next(env, s, e, s')
    ensures DrainSafe(s')
  {
    hide Inv, Apply, WellFormed, CanOpen, OnRoute;
    match e
    case ApplyEvent(d, now) =>
      if Apply(env, s, d, now).Success? { ApplyKeepsDrainSafe(env, s, d, now); }
    case _ => SameRoutesSafe(s, s');
  }

  /** Every apply before the n-th event that succeeds keeps routes. */
  ghost predicate AppliesKeepRoutes(env: Env, states: seq<State>, events: seq<Event>, n: nat)
    requires n <= |events| < |states|
  {
    forall i | 0 <= i < n && Succeeds(env, states[i], events[i]) :: KeepsRoutes(env, states[i], events[i].desired)
  }

  /** In a run every connection that may open is on its route exactly when every successful apply keeps routes. */
  lemma {:induction false} RunOpensOnRouteIff(env: Env, states: seq<State>, events: seq<Event>, n: nat)
    requires Run(env, states, events) && n <= |events|
    ensures (forall i | 0 <= i <= n :: OpensOnRoute(states[i])) <==> AppliesKeepRoutes(env, states, events, n)
  {
    hide OpensOnRoute, KeepsRoutes, Succeeds, Next;
    if n == 0 {
      var next :| states[0] == Initial(env, next);
      NothingOpens(env, next);
    } else {
      RunOpensOnRouteIff(env, states, events, n - 1);
      RunKeepsInv(env, states, events, n - 1);
      if OpensOnRoute(states[n - 1]) {
        NextOpensOnRouteIff(env, states[n - 1], events[n - 1], states[n - 1 + 1]);
      }
    }
  }

  lemma NothingOpens(env: Env, next: nat)
    ensures OpensOnRoute(Initial(env, next))
  {
  }

  lemma {:induction false} RunOpensSafely(env: Env, states: seq<State>, events: seq<Event>, n: nat)
    requires Run(env, states, events) && n <= |events| && forall i | 0 <= i <= n :: OpensOnRoute(states[i])
    ensures DrainSafe(states[n])
  {
    hide OpensOnRoute, Next, DrainSafe;
    if n == 0 {
      var next :| states[0] == Initial(env, next);
      InitialInv(env, next);
    } else {
      RunOpensSafely(env, states, events, n - 1);
      RunKeepsInv(env, states, events, n - 1);
      NextKeepsSafe(env, states[n - 1], events[n - 1], states[n - 1 + 1]);
    }
  }

  // Drain safety itself

  /** No open relayed connection is on a changed route undrained, and none will be that opens next. */
  ghost predicate StaysDrainSafe(env: Env, s: State) {
    DrainSafe(s) && forall id, c, s' | Next(env, s, OpenEvent(id, c), s') :: DrainSafe(s')
  }

  lemma {:induction false} FreshId(ids: set<nat>) returns (id: nat)
    ensures forall x | x in ids :: x < id
  {
    if ids == {} {
      id := 0;
    } else {
      var x := Pick(ids);
      var y := FreshId(ids - {x});
      id := if x < y then y else x + 1;
      assert forall z | z in ids :: z == x || z in ids - {x};
    }
  }

  /** Otherwise one connection that opens now breaks drain safety. */
  lemma OffRouteBreaks(env: Env, s: State) returns (id: nat, c: Conn, s': State)
    requires !OpensOnRoute(s)
    ensures Next(env, s, OpenEvent(id, c), s') && Relayed(c) && !DrainSafe(s')
  {
    c :| CanOpen(s, c) && Relayed(c) && !OnRoute(s, c);
    hide CanOpen;
    id := FreshId(s.mihomo.conns.Keys + s.draining.Keys);
    assert id !in s.mihomo.conns.Keys + s.draining.Keys;
    s' := s.(mihomo := s.mihomo.(conns := s.mihomo.conns[id := c]));
    assert s'.mihomo.conns[id] == c && !OnRoute(s', c);
  }

  lemma SafeIffOpensOnRoute(env: Env, s: State)
    requires Inv(env, s) && DrainSafe(s)
    ensures StaysDrainSafe(env, s) <==> OpensOnRoute(s)
  {
    hide Inv, DrainSafe, OpensOnRoute, Next;
    if OpensOnRoute(s) {
      forall id, c, s' | Next(env, s, OpenEvent(id, c), s') { NextKeepsSafe(env, s, OpenEvent(id, c), s'); }
    } else {
      var id, c, s' := OffRouteBreaks(env, s);
    }
  }

  /**
   * Drain safety over whole runs: no open relayed connection is left on a changed route undrained,
   * in any state or after one more connection opens there, exactly when every apply that succeeds
   * keeps routes.
   */
  lemma RunDrainsStaleConnections(env: Env, states: seq<State>, events: seq<Event>, n: nat)
    requires Run(env, states, events) && n <= |events|
    ensures (forall i | 0 <= i <= n :: StaysDrainSafe(env, states[i])) <==> AppliesKeepRoutes(env, states, events, n)
  {
    hide StaysDrainSafe, OpensOnRoute, DrainSafe, Inv, Next, AppliesKeepRoutes;
    RunOpensOnRouteIff(env, states, events, n);
    if forall i | 0 <= i <= n :: OpensOnRoute(states[i]) {
      forall i | 0 <= i <= n
        ensures StaysDrainSafe(env, states[i])
      {
        RunOpensSafely(env, states, events, i);
        RunKeepsInv(env, states, events, i);
        SafeIffOpensOnRoute(env, states[i]);
      }
    }
    forall i | 0 <= i <= n && StaysDrainSafe(env, states[i])
      ensures OpensOnRoute(states[i])
    {
      RunKeepsInv(env, states, events, i);
      SafeNow(env, states[i]);
      SafeIffOpensOnRoute(env, states[i]);
    }
  }

  lemma SafeNow(env: Env, s: State)
    requires StaysDrainSafe(env, s)
    ensures DrainSafe(s)
  {
  }

  // Conditions on the desired states alone

  ghost predicate NoDrops(env: Env, states: seq<State>, events: seq<Event>, n: nat)
    requires n <= |events| < |states|
  {
    forall i | 0 <= i < n && Succeeds(env, states[i], events[i]) :: NoDrop(env, states[i].current, events[i].desired)
  }

  /** Sweeps and connections that come and go leave the groups alone. */
  lemma SameObjectsSameGroups(s: State, s': State)
    requires s' == s.(draining := s'.draining, mihomo := s.mihomo.(conns := s'.mihomo.conns))
    ensures GroupsWithin(s) ==> GroupsWithin(s')
    ensures GroupsHold(s) ==> GroupsHold(s')
  {
    forall n, i: nat | GroupsWithin(s) && s.current.Some? && n in s.current.value.members
      ensures Installed(s', n) && EntryCurrent(s', n, i)
    {
      assert GroupWithin(s, n) && EntryCurrent(s, n, i);
    }
    forall n | GroupsHold(s) && s.current.Some? && n in s.current.value.members
      ensures GroupHolds(s', n)
    {
      assert GroupHolds(s, n);
    }
  }

  lemma NextKeepsWithin(env: Env, s: State, e: Event, s': State)
    requires Inv(env, s) && GroupsWithin(s) && Next(env, s, e, s')
    requires Succeeds(env, s, e) ==> NoDrop(env, s.current, e.desired)
    ensures GroupsWithin(s')
  {
    hide Inv, Apply, GroupsWithin, GroupsHold, WellFormed, NoDrop, CanOpen;
    match e
    case ApplyEvent(d, now) =>
      if Apply(env, s, d, now).Success? { NoDropKeepsGroups(env, s, d, now); }
    case _ => SameObjectsSameGroups(s, s');
  }

  lemma {:induction false} RunKeepsWithin(env: Env, states: seq<State>, events: seq<Event>, n: nat)
    requires Run(env, states, events) && n <= |events| && NoDrops(env, states, events, n)
    ensures GroupsWithin(states[n])
  {
    hide GroupsWithin, NoDrop, Next, Succeeds;
    if n == 0 {
      var next :| states[0] == Initial(env, next);
      NothingInstalled(env, next);
    } else {
      RunKeepsWithin(env, states, events, n - 1);
      RunKeepsInv(env, states, events, n - 1);
      NextKeepsWithin(env, states[n - 1], events[n - 1], states[n - 1 + 1]);
    }
  }

  lemma NothingInstalled(env: Env, next: nat)
    ensures GroupsWithin(Initial(env, next)) && GroupsHold(Initial(env, next))
  {
  }

  /** Runs that drop no member from a group that keeps its object are drain safe. */
  lemma RunWithoutDropsIsSafe(env: Env, states: seq<State>, events: seq<Event>, n: nat)
    requires Run(env, states, events) && n <= |events| && NoDrops(env, states, events, n)
    ensures AppliesKeepRoutes(env, states, events, n) && DrainSafe(states[n])
  {
    hide OpensOnRoute, GroupsWithin, Inv, Next, AppliesKeepRoutes, Succeeds, NoDrop;
    forall i | 0 <= i <= n
      ensures OpensOnRoute(states[i])
    {
      RunKeepsWithin(env, states, events, i);
      RunKeepsInv(env, states, events, i);
      OpenedOnRoute(env, states[i]);
    }
    RunOpensOnRouteIff(env, states, events, n);
    RunOpensSafely(env, states, events, n);
  }

  ghost predicate NoMixUps(env: Env, states: seq<State>, events: seq<Event>, n: nat)
    requires n <= |events| < |states|
  {
    forall i | 0 <= i < n && Succeeds(env, states[i], events[i]) :: NoMixUp(env, states[i].current, events[i].desired)
  }

  lemma NextGroupsHoldIff(env: Env, s: State, e: Event, s': State)
    requires Inv(env, s) && GroupsHold(s) && Next(env, s, e, s')
    ensures GroupsHold(s') <==> (Succeeds(env, s, e) ==> NoMixUp(env, s.current, e.desired))
  {
    hide Inv, Apply, GroupsHold, GroupsWithin, WellFormed, NoMixUp, CanOpen;
    match e
    case ApplyEvent(d, now) =>
      if Apply(env, s, d, now).Success? { GroupsHoldIffNoMixUp(env, s, d, now); }
    case _ => SameObjectsSameGroups(s, s');
  }

  /**
   * In a run every group holds exactly its members, in every state, exactly when no successful apply
   * mixes up groups.
   */
  lemma {:induction false} RunGroupsHoldIff(env: Env, states: seq<State>, events: seq<Event>, n: nat)
    requires Run(env, states, events) && n <= |events|
    ensures (forall i | 0 <= i <= n :: GroupsHold(states[i])) <==> NoMixUps(env, states, events, n)
  {
    hide GroupsHold, NoMixUp, Next, Succeeds;
    if n == 0 {
      var next :| states[0] == Initial(env, next);
      NothingInstalled(env, next);
    } else {
      RunGroupsHoldIff(env, states, events, n - 1);
      RunKeepsInv(env, states, events, n - 1);
      if GroupsHold(states[n - 1]) {
        NextGroupsHoldIff(env, states[n - 1], events[n - 1], states[n - 1 + 1]);
      }
    }
  }
}
