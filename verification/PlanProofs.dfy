// What a plan guarantees: kept relays can be told apart, each port has one listener that serves
// all of them, and the plan does not depend on the order of relays or on invalid ones.
module PlanProofs {
  import opened Wrappers
  import opened Sorting
  import opened ConfigTypes
  import opened PlanSpec
  import opened PlanValid

  // Which relays and endpoints are in a plan

  lemma {:induction false} ValidRelaysAre(loads: Loads, names: multiset<string>, relays: seq<Relay>,
                                          knownSubs: set<string>, ownPort: int, v: ValidRelay)
    ensures v in ValidRelays(loads, names, relays, knownSubs, ownPort) <==>
            exists r | r in relays :: JudgeRelay(loads, names, r, knownSubs, ownPort) == Success(v)
  {
    if relays != [] {
      ValidRelaysAre(loads, names, relays[1..], knownSubs, ownPort, v);
      assert relays == [relays[0]] + relays[1..];
      if r :| r in relays && JudgeRelay(loads, names, r, knownSubs, ownPort) == Success(v) {
        assert r == relays[0] || r in relays[1..];
      }
    }
  }

  lemma {:induction false} EndpointsAre(vs: seq<ValidRelay>, e: Endpoint)
    ensures e in EndpointsOf(vs) <==> exists v | v in vs :: e in v.endpoints
  {
    if vs != [] {
      EndpointsAre(vs[1..], e);
      assert vs == [vs[0]] + vs[1..];
    }
  }

  lemma {:induction false} KeptRelaysAre(vs: seq<ValidRelay>, rejected: set<string>, spec: RelaySpec)
    ensures spec in KeepRelays(vs, rejected) <==> spec.name !in rejected && exists v | v in vs :: v.spec == spec
  {
    if vs != [] {
      KeptRelaysAre(vs[1..], rejected, spec);
      assert vs == [vs[0]] + vs[1..];
    }
  }

  ghost predicate GoodRelays(vs: seq<ValidRelay>, ownPort: int) {
    && (forall v | v in vs :: GoodRelay(v, ownPort))
    && (forall v, v' | v in vs && v' in vs && v.spec.name == v'.spec.name :: v == v')
  }

  lemma CountedTwice(relays: seq<Relay>, r: Relay, r': Relay)
    requires r in relays && r' in relays && r != r' && r.name == r'.name
    ensures multiset(RelayNames(relays))[r.name] > 1
  {
    var names := RelayNames(relays);
    var i :| 0 <= i < |relays| && relays[i] == r;
    var j :| 0 <= j < |relays| && relays[j] == r';
    var lo, hi := if i < j then i else j, if i < j then j else i;
    assert names[lo] == names[hi] == r.name;
    assert names == names[..hi] + [names[hi]] + names[hi + 1..];
    assert names[lo] in names[..hi];
  }

  lemma ValidOfIsGood(loads: Loads, relays: seq<Relay>, knownSubs: set<string>, ownPort: int)
    ensures GoodRelays(ValidOf(loads, relays, knownSubs, ownPort), ownPort)
  {
    var names := multiset(RelayNames(relays));
    var vs := ValidOf(loads, relays, knownSubs, ownPort);
    forall v | v in vs
      ensures GoodRelay(v, ownPort)
    {
      ValidRelaysAre(loads, names, relays, knownSubs, ownPort, v);
      var r :| r in relays && JudgeRelay(loads, names, r, knownSubs, ownPort) == Success(v);
      ValidIsGood(loads, r, knownSubs, ownPort);
    }
    forall v, v' | v in vs && v' in vs && v.spec.name == v'.spec.name
      ensures v == v'
    {
      SameNameSameRelay(loads, relays, knownSubs, ownPort, v, v');
    }
  }

  lemma SameNameSameRelay(loads: Loads, relays: seq<Relay>, knownSubs: set<string>, ownPort: int, v: ValidRelay,
                          v': ValidRelay)
    requires v in ValidOf(loads, relays, knownSubs, ownPort) && v' in ValidOf(loads, relays, knownSubs, ownPort)
    requires v.spec.name == v'.spec.name
    ensures v == v'
  {
    var names := multiset(RelayNames(relays));
    ValidRelaysAre(loads, names, relays, knownSubs, ownPort, v);
    ValidRelaysAre(loads, names, relays, knownSubs, ownPort, v');
    var r :| r in relays && JudgeRelay(loads, names, r, knownSubs, ownPort) == Success(v);
    var r' :| r' in relays && JudgeRelay(loads, names, r', knownSubs, ownPort) == Success(v');
    ValidIsGood(loads, r, knownSubs, ownPort);
    ValidIsGood(loads, r', knownSubs, ownPort);
    if r != r' {
      CountedTwice(relays, r, r');
    }
  }

  // Kept plans are unambiguous

  /** Callers on one port can be told apart by username alone, and agree on the address. */
  ghost predicate ToldApart(e: Endpoint, e': Endpoint) {
    e.port == e'.port ==>
      && e.listen == e'.listen
      && (e.username == "" <==> e'.username == "")
      && (e.username == "" ==> e.relay == e'.relay)
      && (e.username == e'.username ==> e.relay == e'.relay && e.password == e'.password)
  }

  ghost predicate Unambiguous(eps: seq<Endpoint>) {
    forall e, e' | e in eps && e' in eps :: ToldApart(e, e')
  }

  lemma EndpointOwner(vs: seq<ValidRelay>, ownPort: int, e: Endpoint) returns (v: ValidRelay)
    requires GoodRelays(vs, ownPort) && e in EndpointsOf(vs)
    ensures v in vs && e in v.endpoints && v.spec.name == e.relay && GoodEndpoint(e, ownPort)
  {
    EndpointsAre(vs, e);
    v :| v in vs && e in v.endpoints;
  }

  lemma KeptToldApart(vs: seq<ValidRelay>, ownPort: int, e: Endpoint, e': Endpoint)
    requires GoodRelays(vs, ownPort)
    requires e in EndpointsOf(vs) && e' in EndpointsOf(vs)
    requires !InConflict(EndpointsOf(vs), e.relay)
    ensures ToldApart(e, e')
  {
    var eps := EndpointsOf(vs);
    var v := EndpointOwner(vs, ownPort, e);
    var v' := EndpointOwner(vs, ownPort, e');
    if e.relay == e'.relay {
      assert Compatible(e, e');
    } else if e.port == e'.port {
      assert !ConflictOn(eps, e.relay, e.port);
      assert OnPort(eps, e.relay, e.port) && Shared(eps, e.port);
    }
  }

  lemma KeptUnambiguous(loads: Loads, relays: seq<Relay>, knownSubs: set<string>, ownPort: int)
    ensures var eps := EndpointsOf(ValidOf(loads, relays, knownSubs, ownPort));
            Unambiguous(KeepEndpoints(eps, Rejected(eps)))
  {
    var vs := ValidOf(loads, relays, knownSubs, ownPort);
    var eps := EndpointsOf(vs);
    ValidOfIsGood(loads, relays, knownSubs, ownPort);
    forall e, e' | e in KeepEndpoints(eps, Rejected(eps)) && e' in KeepEndpoints(eps, Rejected(eps))
      ensures ToldApart(e, e')
    {
      KeptToldApart(vs, ownPort, e, e');
    }
  }

  /** A valid relay is kept exactly when no conflict involves it. */
  lemma KeptIffNoConflict(loads: Loads, relays: seq<Relay>, knownSubs: set<string>, ownPort: int, v: ValidRelay)
    requires v in ValidOf(loads, relays, knownSubs, ownPort)
    ensures v.spec in NewPlan(loads, relays, knownSubs, ownPort).relays <==>
            !InConflict(EndpointsOf(ValidOf(loads, relays, knownSubs, ownPort)), v.spec.name)
  {
    var vs := ValidOf(loads, relays, knownSubs, ownPort);
    var eps := EndpointsOf(vs);
    ValidOfIsGood(loads, relays, knownSubs, ownPort);
    KeptRelaysAre(vs, Rejected(eps), v.spec);
    assert v.endpoints[0] in v.endpoints;
    EndpointsAre(vs, v.endpoints[0]);
  }

  // Listeners

  ghost predicate Users(l: ListenerSpec, u: Endpoint) {
    u in l.users
  }

  /** A listener that serves the endpoint: its port, address and type, and its owner or user entry. */
  ghost predicate Serves(l: ListenerSpec, e: Endpoint) {
    && l.port == e.port && l.listen == e.listen
    && (l.typ == ListenerType(e.typ) || l.typ == "mixed")
    && if e.username == "" then l.relay == e.relay && l.users == []
       else l.relay == "" && exists u ::
         Users(l, u) && u.username == e.username && u.relay == e.relay && u.password == e.password
  }

  ghost predicate HasUser(us: seq<Endpoint>, username: string) {
    exists u :: u in us && u.username == username
  }

  ghost predicate DistinctUsernames(us: seq<Endpoint>) {
    forall i, j | 0 <= i < j < |us| :: us[i].username != us[j].username
  }

  lemma UsernamesCons(e: Endpoint, rest: seq<Endpoint>)
    requires DistinctUsernames(rest) && forall u | u in rest :: u.username != e.username
    ensures DistinctUsernames([e] + rest)
  {
    var us := [e] + rest;
    forall i, j | 0 <= i < j < |us|
      ensures us[i].username != us[j].username
    {
      assert us[j] == rest[j - 1] && us[j] in rest;
      assert i > 0 ==> us[i] == rest[i - 1];
    }
  }

  lemma {:induction false} FirstUsersAreNew(list: seq<Endpoint>, seen: set<string>)
    ensures forall u | u in FirstPerUsername(list, seen) :: u in list && u.username !in seen
    ensures DistinctUsernames(FirstPerUsername(list, seen))
  {
    if list != [] {
      assert list == [list[0]] + list[1..];
      var seen' := if list[0].username in seen then seen else seen + {list[0].username};
      FirstUsersAreNew(list[1..], seen');
      if list[0].username !in seen {
        UsernamesCons(list[0], FirstPerUsername(list[1..], seen'));
      }
    }
  }

  lemma {:induction false} FirstUsersCover(list: seq<Endpoint>, seen: set<string>, e: Endpoint)
    requires e in list && e.username !in seen
    ensures HasUser(FirstPerUsername(list, seen), e.username)
  {
    var us := FirstPerUsername(list, seen);
    assert list == [list[0]] + list[1..];
    if list[0].username == e.username {
      assert us[0] in us;
    } else if list[0].username in seen {
      FirstUsersCover(list[1..], seen, e);
    } else {
      FirstUsersCover(list[1..], seen + {list[0].username}, e);
      var u :| u in us[1..] && u.username == e.username;
      assert u in us;
    }
  }

  lemma FirstUsers(list: seq<Endpoint>)
    ensures var us := FirstPerUsername(list, {});
            && (forall u | u in us :: u in list)
            && (forall e | e in list :: HasUser(us, e.username))
            && DistinctUsernames(us)
  {
    FirstUsersAreNew(list, {});
    forall e | e in list { FirstUsersCover(list, {}, e); }
  }

  lemma ListenerServes(eps: seq<Endpoint>, e: Endpoint)
    requires Unambiguous(eps) && e in eps
    ensures AtPort(eps, e.port) != [] && Serves(ListenerFor(e.port, AtPort(eps, e.port)), e)
  {
    var list := AtPort(eps, e.port);
    assert e in list;
    var l := ListenerFor(e.port, list);
    assert list[0] in list && ToldApart(list[0], e);
    if e.username != "" {
      var u := UserServed(list, e);
      assert Users(l, u);
    }
  }

  lemma UserServed(list: seq<Endpoint>, e: Endpoint) returns (u: Endpoint)
    requires Unambiguous(list) && e in list && forall e' | e' in list :: e'.port == e.port
    ensures u in FirstPerUsername(list, {}) && u.username == e.username && u.relay == e.relay &&
            u.password == e.password
  {
    FirstUsers(list);
    u :| u in FirstPerUsername(list, {}) && u.username == e.username;
    assert ToldApart(u, e);
  }

  lemma ListenerPort(eps: seq<Endpoint>, i: nat) returns (port: int)
    requires i < |BuildListeners(eps)|
    ensures port == Sorted(Ports(eps))[i] && port in Ports(eps) && AtPort(eps, port) != []
    ensures BuildListeners(eps)[i] == ListenerFor(port, AtPort(eps, port)) && BuildListeners(eps)[i].port == port
  {
    port := Sorted(Ports(eps))[i];
    assert port in Sorted(Ports(eps));
    AtPortOccupied(eps, port);
  }

  /**
   * Each port has one listener, and it carries every kept endpoint of that port: on its address,
   * wholly without authentication and with one owner, or with one entry per username.
   */
  lemma PlanServesEveryone(eps: seq<Endpoint>, e: Endpoint) returns (l: ListenerSpec)
    requires Unambiguous(eps) && e in eps
    ensures l in BuildListeners(eps) && Serves(l, e)
    ensures forall l' | l' in BuildListeners(eps) && l'.port == e.port :: l' == l
  {
    hide Unambiguous, Serves, ListenerFor, AtPort;
    var ports, ls := Sorted(Ports(eps)), BuildListeners(eps);
    assert e.port in Ports(eps) && e.port in ports;
    var i :| 0 <= i < |ports| && ports[i] == e.port;
    var _ := ListenerPort(eps, i);
    l := ls[i];
    ListenerServes(eps, e);
    forall l' | l' in ls && l'.port == e.port
      ensures l' == l
    {
      var j :| 0 <= j < |ls| && ls[j] == l';
      var port := ListenerPort(eps, j);
      assert port == ports[i] ==> j == i;
    }
  }

  /** Conversely every owner and user entry of a listener comes from a kept endpoint. */
  lemma ListenersComeFromEndpoints(eps: seq<Endpoint>, l: ListenerSpec)
    requires Unambiguous(eps) && l in BuildListeners(eps)
    ensures forall u | u in l.users :: u in eps && u.port == l.port && u.username != ""
    ensures l.users == [] ==> exists e | e in eps :: e.port == l.port && e.relay == l.relay && e.username == ""
    ensures DistinctUsernames(l.users)
  {
    var i :| 0 <= i < |BuildListeners(eps)| && BuildListeners(eps)[i] == l;
    var port := ListenerPort(eps, i);
    var list := AtPort(eps, port);
    FirstUsers(list);
    assert list[0] in list;
    forall u | u in l.users
      ensures u.username != ""
    {
      assert u in list && ToldApart(list[0], u);
    }
  }

  // Order of relays

  lemma NamesCount(a: seq<Relay>, x: Relay, b: seq<Relay>)
    ensures multiset(RelayNames(a + [x] + b)) == multiset(RelayNames(a + b)) + multiset{x.name}
  {
    assert RelayNames(a + [x] + b) == RelayNames(a) + [x.name] + RelayNames(b);
    assert RelayNames(a + b) == RelayNames(a) + RelayNames(b);
  }

  lemma RemoveOne(xs: seq<Relay>, x: Relay) returns (rest: seq<Relay>)
    requires x in xs
    ensures multiset(xs) == multiset(rest) + multiset{x} && |rest| < |xs|
    ensures multiset(RelayNames(xs)) == multiset(RelayNames(rest)) + multiset{x.name}
  {
    var i :| 0 <= i < |xs| && xs[i] == x;
    var a, b := xs[..i], xs[i + 1..];
    rest := a + b;
    assert xs == a + [x] + b;
    NamesCount(a, x, b);
    assert multiset(a + [x] + b) == multiset(a) + multiset{x} + multiset(b);
    assert multiset(rest) == multiset(a) + multiset(b);
  }

  lemma {:induction false} PermutedNames(xs: seq<Relay>, ys: seq<Relay>)
    requires multiset(xs) == multiset(ys)
    ensures multiset(RelayNames(xs)) == multiset(RelayNames(ys))
    decreases |xs|
  {
    if xs == [] {
      assert |multiset(ys)| == 0;
    } else {
      assert xs[0] in xs && xs[0] in multiset(ys);
      var xs' := RemoveOne(xs, xs[0]);
      var ys' := RemoveOne(ys, xs[0]);
      assert multiset(xs') == multiset(xs) - multiset{xs[0]};
      assert multiset(ys') == multiset(ys) - multiset{xs[0]};
      PermutedNames(xs', ys');
    }
  }

  ghost predicate SameMembers<T(!new)>(xs: seq<T>, ys: seq<T>) {
    forall x :: x in xs <==> x in ys
  }

  lemma PermutedValid(loads: Loads, xs: seq<Relay>, ys: seq<Relay>, knownSubs: set<string>, ownPort: int)
    requires multiset(xs) == multiset(ys)
    ensures SameMembers(ValidOf(loads, xs, knownSubs, ownPort), ValidOf(loads, ys, knownSubs, ownPort))
  {
    PermutedNames(xs, ys);
    var names := multiset(RelayNames(xs));
    assert forall r :: r in xs <==> r in multiset(xs);
    assert forall r :: r in ys <==> r in multiset(ys);
    forall v
      ensures v in ValidOf(loads, xs, knownSubs, ownPort) <==> v in ValidOf(loads, ys, knownSubs, ownPort)
    {
      ValidRelaysAre(loads, names, xs, knownSubs, ownPort, v);
      ValidRelaysAre(loads, names, ys, knownSubs, ownPort, v);
    }
  }

  lemma SameEndpoints(vs: seq<ValidRelay>, ws: seq<ValidRelay>)
    requires SameMembers(vs, ws)
    ensures SameMembers(EndpointsOf(vs), EndpointsOf(ws))
  {
    forall e
      ensures e in EndpointsOf(vs) <==> e in EndpointsOf(ws)
    {
      EndpointsAre(vs, e);
      EndpointsAre(ws, e);
    }
  }

  lemma SameConflicts(eps: seq<Endpoint>, eps': seq<Endpoint>, r: string, port: int)
    requires SameMembers(eps, eps')
    ensures ConflictOn(eps, r, port) <==> ConflictOn(eps', r, port)
  {
    assert OnPort(eps, r, port) <==> OnPort(eps', r, port);
    assert Shared(eps, port) <==> Shared(eps', port);
    assert MixedListen(eps, port) <==> MixedListen(eps', port);
    assert WithoutUsername(eps, port) <==> WithoutUsername(eps', port);
    assert SharesUsername(eps, r, port) <==> SharesUsername(eps', r, port);
  }

  lemma SameRejected(eps: seq<Endpoint>, eps': seq<Endpoint>)
    requires SameMembers(eps, eps')
    ensures Rejected(eps) == Rejected(eps')
  {
    forall r
      ensures InConflict(eps, r) <==> InConflict(eps', r)
    {
      forall port { SameConflicts(eps, eps', r, port); }
    }
  }

  /** A listener's user table: who may log in with which password, and where that leads. */
  function UserTable(l: ListenerSpec): set<(string, string, string)> {
    set u | u in l.users :: (u.username, u.password, u.relay)
  }

  ghost predicate SameListener(l: ListenerSpec, l': ListenerSpec) {
    l.name == l'.name && l.typ == l'.typ && l.listen == l'.listen && l.port == l'.port && l.relay == l'.relay &&
      UserTable(l) == UserTable(l')
  }

  lemma UserTableIncluded(port: int, list: seq<Endpoint>, list': seq<Endpoint>)
    requires list != [] && list' != [] && list[0].username != "" && list'[0].username != ""
    requires SameMembers(list, list') && Unambiguous(list')
    requires forall e, e' | e in list' && e' in list' :: e.port == e'.port
    ensures UserTable(ListenerFor(port, list)) <= UserTable(ListenerFor(port, list'))
  {
    FirstUsers(list);
    forall entry | entry in UserTable(ListenerFor(port, list))
      ensures entry in UserTable(ListenerFor(port, list'))
    {
      var e :| e in FirstPerUsername(list, {}) && entry == (e.username, e.password, e.relay);
      var u := UserServed(list', e);
    }
  }

  lemma SameListenerFor(port: int, list: seq<Endpoint>, list': seq<Endpoint>)
    requires list != [] && list' != []
    requires SameMembers(list, list') && Unambiguous(list) && Unambiguous(list')
    requires forall e, e' | e in list && e' in list :: e.port == e'.port
    ensures SameListener(ListenerFor(port, list), ListenerFor(port, list'))
  {
    assert list[0] in list && list'[0] in list';
    assert list[0] in list' && list'[0] in list;
    assert ToldApart(list[0], list'[0]);
    if list[0].username != "" {
      UserTableIncluded(port, list, list');
      UserTableIncluded(port, list', list);
    }
  }

  lemma SameListeners(eps: seq<Endpoint>, eps': seq<Endpoint>)
    requires SameMembers(eps, eps') && Unambiguous(eps) && Unambiguous(eps')
    ensures |BuildListeners(eps)| == |BuildListeners(eps')|
    ensures forall i | 0 <= i < |BuildListeners(eps)| :: SameListener(BuildListeners(eps)[i], BuildListeners(eps')[i])
  {
    assert Ports(eps) == Ports(eps');
    forall i | 0 <= i < |BuildListeners(eps)|
      ensures SameListener(BuildListeners(eps)[i], BuildListeners(eps')[i])
    {
      var port := ListenerPort(eps, i);
      var port' := ListenerPort(eps', i);
      SameListenerFor(port, AtPort(eps, port), AtPort(eps', port));
    }
  }

  /**
   * Permuting the relays changes neither which are kept nor any port's name, type, address, owner
   * and user table.
   */
  lemma PlanIgnoresOrder(loads: Loads, xs: seq<Relay>, ys: seq<Relay>, knownSubs: set<string>, ownPort: int)
    requires multiset(xs) == multiset(ys)
    ensures var p, q := NewPlan(loads, xs, knownSubs, ownPort), NewPlan(loads, ys, knownSubs, ownPort);
            && SameMembers(p.relays, q.relays)
            && |p.listeners| == |q.listeners|
            && forall i | 0 <= i < |p.listeners| :: SameListener(p.listeners[i], q.listeners[i])
  {
    var vs, ws := ValidOf(loads, xs, knownSubs, ownPort), ValidOf(loads, ys, knownSubs, ownPort);
    var eps, eps' := EndpointsOf(vs), EndpointsOf(ws);
    PermutedValid(loads, xs, ys, knownSubs, ownPort);
    SameEndpoints(vs, ws);
    SameRejected(eps, eps');
    KeptUnambiguous(loads, xs, knownSubs, ownPort);
    KeptUnambiguous(loads, ys, knownSubs, ownPort);
    forall spec
      ensures spec in KeepRelays(vs, Rejected(eps)) <==> spec in KeepRelays(ws, Rejected(eps'))
    {
      KeptRelaysAre(vs, Rejected(eps), spec);
      KeptRelaysAre(ws, Rejected(eps'), spec);
    }
    SameListeners(KeepEndpoints(eps, Rejected(eps)), KeepEndpoints(eps', Rejected(eps')));
  }

  // Invalid relays

  lemma {:induction false} ValidIgnoresOthers(loads: Loads, names: multiset<string>, names': multiset<string>,
                                              relays: seq<Relay>, knownSubs: set<string>, ownPort: int)
    requires forall r | r in relays :: Duplicated(names, r) <==> Duplicated(names', r)
    ensures ValidRelays(loads, names, relays, knownSubs, ownPort) ==
            ValidRelays(loads, names', relays, knownSubs, ownPort)
  {
    if relays != [] {
      assert relays[0] in relays && forall r | r in relays[1..] :: r in relays;
      ValidIgnoresOthers(loads, names, names', relays[1..], knownSubs, ownPort);
    }
  }

  lemma {:induction false} ValidConcat(loads: Loads, names: multiset<string>, a: seq<Relay>, b: seq<Relay>,
                                       knownSubs: set<string>, ownPort: int)
    ensures ValidRelays(loads, names, a + b, knownSubs, ownPort) ==
            ValidRelays(loads, names, a, knownSubs, ownPort) + ValidRelays(loads, names, b, knownSubs, ownPort)
  {
    hide JudgeRelay;
    if a == [] {
      assert a + b == b;
    } else {
      assert (a + b)[1..] == a[1..] + b;
      ValidConcat(loads, names, a[1..], b, knownSubs, ownPort);
    }
  }

  /** Adding an invalid relay with a fresh name, anywhere, changes nothing. */
  lemma InvalidRelayChangesNothing(loads: Loads, a: seq<Relay>, r: Relay, b: seq<Relay>, knownSubs: set<string>,
                                   ownPort: int)
    requires ValidateRelay(loads, r, knownSubs, ownPort).Failure?
    requires r.name == "" || forall x | x in a + b :: x.name != r.name
    ensures NewPlan(loads, a + [r] + b, knownSubs, ownPort) == NewPlan(loads, a + b, knownSubs, ownPort)
  {
    var names, names' := multiset(RelayNames(a + b)), multiset(RelayNames(a + [r] + b));
    NamesCount(a, r, b);
    InvalidRelaySkipped(loads, names', a, r, b, knownSubs, ownPort);
    forall x | x in a + b
      ensures Duplicated(names, x) <==> Duplicated(names', x)
    {
    }
    ValidIgnoresOthers(loads, names, names', a + b, knownSubs, ownPort);
  }

  lemma InvalidRelaySkipped(loads: Loads, names: multiset<string>, a: seq<Relay>, r: Relay, b: seq<Relay>,
                            knownSubs: set<string>, ownPort: int)
    requires JudgeRelay(loads, names, r, knownSubs, ownPort).Failure?
    ensures ValidRelays(loads, names, a + [r] + b, knownSubs, ownPort) ==
            ValidRelays(loads, names, a + b, knownSubs, ownPort)
  {
    assert a + [r] + b == a + ([r] + b) && ([r] + b)[1..] == b;
    ValidConcat(loads, names, a, [r] + b, knownSubs, ownPort);
    ValidConcat(loads, names, a, b, knownSubs, ownPort);
  }

  // Kept relays have distinct names

  ghost predicate DistinctValid(vs: seq<ValidRelay>) {
    forall i, j | 0 <= i < j < |vs| :: vs[i].spec.name != vs[j].spec.name
  }

  lemma DistinctCons(v: ValidRelay, more: seq<ValidRelay>)
    requires DistinctValid(more) && forall w | w in more :: w.spec.name != v.spec.name
    ensures DistinctValid([v] + more)
  {
  }

  lemma {:induction false} ValidNamesDistinct(loads: Loads, names: multiset<string>, relays: seq<Relay>,
                                              knownSubs: set<string>, ownPort: int)
    requires multiset(RelayNames(relays)) <= names
    ensures DistinctValid(ValidRelays(loads, names, relays, knownSubs, ownPort))
  {
    hide ValidateRelay, GoodRelay;
    if relays != [] {
      var r, rest := relays[0], relays[1..];
      var vs, more := ValidRelays(loads, names, relays, knownSubs, ownPort),
        ValidRelays(loads, names, rest, knownSubs, ownPort);
      assert RelayNames(relays) == [r.name] + RelayNames(rest);
      ValidNamesDistinct(loads, names, rest, knownSubs, ownPort);
      if JudgeRelay(loads, names, r, knownSubs, ownPort).Success? {
        forall v | v in more
          ensures v.spec.name != r.name
        {
          NameNotRepeated(loads, names, r, rest, knownSubs, ownPort, v);
        }
        ValidIsGood(loads, r, knownSubs, ownPort);
        DistinctCons(vs[0], more);
      }
    }
  }

  lemma NameNotRepeated(loads: Loads, names: multiset<string>, r: Relay, rest: seq<Relay>, knownSubs: set<string>,
                        ownPort: int, v: ValidRelay)
    requires multiset([r.name] + RelayNames(rest)) <= names
    requires JudgeRelay(loads, names, r, knownSubs, ownPort).Success?
    requires v in ValidRelays(loads, names, rest, knownSubs, ownPort)
    ensures v.spec.name != r.name
  {
    hide ValidateRelay, GoodEndpoint, Compatible;
    ValidRelaysAre(loads, names, rest, knownSubs, ownPort, v);
    var r' :| r' in rest && JudgeRelay(loads, names, r', knownSubs, ownPort) == Success(v);
    ValidIsGood(loads, r', knownSubs, ownPort);
    var i :| 0 <= i < |rest| && rest[i] == r';
    assert RelayNames(rest)[i] == r'.name && r'.name in multiset(RelayNames(rest));
    assert multiset([r.name] + RelayNames(rest)) == multiset{r.name} + multiset(RelayNames(rest));
  }

  lemma {:induction false} KeptNamesDistinct(vs: seq<ValidRelay>, rejected: set<string>)
    requires DistinctValid(vs)
    ensures DistinctRelays(KeepRelays(vs, rejected))
  {
    if vs != [] {
      var rest := KeepRelays(vs[1..], rejected);
      KeptNamesDistinct(vs[1..], rejected);
      if vs[0].spec.name !in rejected {
        var all := KeepRelays(vs, rejected);
        assert all == [vs[0].spec] + rest;
        forall j | 1 <= j < |all|
          ensures all[j].name != vs[0].spec.name && all[j] == rest[j - 1]
        {
          assert rest[j - 1] in rest;
          KeptRelaysAre(vs[1..], rejected, rest[j - 1]);
          var v :| v in vs[1..] && v.spec == rest[j - 1];
          var k :| 0 <= k < |vs[1..]| && vs[1..][k] == v;
          assert vs[k + 1] == v;
        }
      }
    }
  }

  /** The kept endpoints of a config. */
  ghost function Kept(loads: Loads, relays: seq<Relay>, knownSubs: set<string>, ownPort: int): seq<Endpoint> {
    var eps := EndpointsOf(ValidOf(loads, relays, knownSubs, ownPort));
    KeepEndpoints(eps, Rejected(eps))
  }

  /** Everything rendering relies on: see NewPlanReady. */
  ghost predicate Ready(p: Plan, eps: seq<Endpoint>, ownPort: int) {
    && Unambiguous(eps)
    && p.listeners == BuildListeners(eps)
    && DistinctRelays(p.relays)
    && (forall r | r in p.relays :: GoodName(r.name) && r.strategy in STRATEGIES)
    && (forall e | e in eps :: GoodEndpoint(e, ownPort))
    && (forall e | e in eps :: exists r | r in p.relays :: r.name == e.relay)
  }

  lemma NewPlanReady(loads: Loads, relays: seq<Relay>, knownSubs: set<string>, ownPort: int)
    ensures Ready(NewPlan(loads, relays, knownSubs, ownPort), Kept(loads, relays, knownSubs, ownPort), ownPort)
  {
    var vs := ValidOf(loads, relays, knownSubs, ownPort);
    var eps := EndpointsOf(vs);
    var p := NewPlan(loads, relays, knownSubs, ownPort);
    ValidOfIsGood(loads, relays, knownSubs, ownPort);
    KeptUnambiguous(loads, relays, knownSubs, ownPort);
    ValidNamesDistinct(loads, multiset(RelayNames(relays)), relays, knownSubs, ownPort);
    KeptNamesDistinct(vs, Rejected(eps));
    forall r | r in p.relays
      ensures GoodName(r.name) && r.strategy in STRATEGIES
    {
      KeptRelaysAre(vs, Rejected(eps), r);
      var v :| v in vs && v.spec == r;
    }
    forall e | e in Kept(loads, relays, knownSubs, ownPort)
      ensures GoodEndpoint(e, ownPort) && exists r | r in p.relays :: r.name == e.relay
    {
      var v := EndpointOwner(vs, ownPort, e);
      KeptRelaysAre(vs, Rejected(eps), v.spec);
    }
  }
}
