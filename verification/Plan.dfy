// The relay plan as the program computes it (internal/relay/plan.go), loop by loop, proved
// against PlanSpec.
module Plan {
  import opened Wrappers
  import opened Decimal
  import opened Sorting
  import opened Text
  import opened ConfigTypes
  import opened PlanSpec

  // The lists that appendUnique builds

  function Uniques(xs: seq<string>): (list: seq<string>)
    ensures forall x :: x in list <==> x in xs
    ensures forall i, j | 0 <= i < j < |list| :: list[i] != list[j]
  {
    if xs == [] then []
    else
      assert xs == xs[..|xs| - 1] + [xs[|xs| - 1]];
      AppendUnique(Uniques(xs[..|xs| - 1]), xs[|xs| - 1])
  }

  lemma UniquesAppend(xs: seq<string>, x: string)
    ensures Uniques(xs + [x]) == AppendUnique(Uniques(xs), x)
  {
    assert (xs + [x])[..|xs|] == xs;
  }

  lemma SeveralUniques(xs: seq<string>)
    ensures |Uniques(xs)| > 1 <==> exists x, y :: x in xs && y in xs && x != y
  {
    var list := Uniques(xs);
    if |list| > 1 {
      assert list[0] in list && list[1] in list && list[0] != list[1];
    }
    assert forall x | x in xs :: x in list;
  }

  function RelaysIn(list: seq<Endpoint>): seq<string> {
    seq(|list|, i requires 0 <= i < |list| => list[i].relay)
  }

  function ListensIn(list: seq<Endpoint>): seq<string> {
    seq(|list|, i requires 0 <= i < |list| => list[i].listen)
  }

  function UsernamesIn(list: seq<Endpoint>): seq<string> {
    seq(|list|, i requires 0 <= i < |list| => list[i].username)
  }

  function WithUsername(list: seq<Endpoint>, u: string): (r: seq<Endpoint>)
    ensures forall e :: e in r <==> e in list && e.username == u
  {
    if list == [] then []
    else
      var front, last := list[..|list| - 1], list[|list| - 1];
      assert list == front + [last];
      WithUsername(front, u) + if last.username == u then [last] else []
  }

  function Owners(list: seq<Endpoint>, u: string): seq<string> {
    Uniques(RelaysIn(WithUsername(list, u)))
  }

  lemma OwnersAppend(list: seq<Endpoint>, e: Endpoint, u: string)
    ensures Owners(list + [e], u) == if e.username == u then AppendUnique(Owners(list, u), e.relay) else Owners(list, u)
  {
    assert (list + [e])[..|list|] == list;
    if e.username == u {
      assert RelaysIn(WithUsername(list, u) + [e]) == RelaysIn(WithUsername(list, u)) + [e.relay];
      UniquesAppend(RelaysIn(WithUsername(list, u)), e.relay);
    } else {
      assert WithUsername(list, u) + [] == WithUsername(list, u);
    }
  }

  lemma OwnersAre(list: seq<Endpoint>, u: string, r: string)
    ensures r in Owners(list, u) <==> exists e | e in list :: e.username == u && e.relay == r
  {
    var w := WithUsername(list, u);
    if r in Owners(list, u) {
      var i :| 0 <= i < |w| && RelaysIn(w)[i] == r;
      assert w[i] in w;
    }
    if e :| e in list && e.username == u && e.relay == r {
      var i :| 0 <= i < |w| && w[i] == e;
      assert RelaysIn(w)[i] == r;
    }
  }

  // groupByPort

  lemma AtPortAppend(eps: seq<Endpoint>, e: Endpoint, port: int)
    ensures AtPort(eps + [e], port) == AtPort(eps, port) + if e.port == port then [e] else []
  {
    if eps != [] {
      assert (eps + [e])[1..] == eps[1..] + [e];
      AtPortAppend(eps[1..], e, port);
    }
  }

  lemma AtPortAbsent(eps: seq<Endpoint>, port: int)
    requires port !in Ports(eps)
    ensures AtPort(eps, port) == []
  {
    assert forall e :: e !in AtPort(eps, port);
  }

  ghost predicate IsGrouped(eps: seq<Endpoint>, byPort: map<int, seq<Endpoint>>) {
    byPort.Keys == Ports(eps) && forall p | p in byPort :: byPort[p] == AtPort(eps, p)
  }

  lemma GroupAppend(eps: seq<Endpoint>, e: Endpoint, byPort: map<int, seq<Endpoint>>)
    requires IsGrouped(eps, byPort)
    ensures IsGrouped(eps + [e], byPort[e.port := (if e.port in byPort then byPort[e.port] else []) + [e]])
  {
    hide AtPort, Ports;
    PortsAppend(eps, e);
    forall p { AtPortAppend(eps, e, p); }
    if e.port !in byPort { AtPortAbsent(eps, e.port); }
  }

  lemma PortsAppend(eps: seq<Endpoint>, e: Endpoint)
    ensures Ports(eps + [e]) == Ports(eps) + {e.port}
  {
    assert forall x :: x in eps + [e] <==> x in eps || x == e;
  }

  /** The ports in use, ascending, and who is on each. */
  method GroupByPort(eps: seq<Endpoint>) returns (ports: seq<int>, byPort: map<int, seq<Endpoint>>)
    ensures ports == Sorted(Ports(eps)) && IsGrouped(eps, byPort)
  {
    byPort := map[];
    for i := 0 to |eps|
      invariant IsGrouped(eps[..i], byPort)
    {
      var e := eps[i];
      assert eps[..i + 1] == eps[..i] + [e];
      GroupAppend(eps[..i], e, byPort);
      byPort := byPort[e.port := (if e.port in byPort then byPort[e.port] else []) + [e]];
    }
    assert eps[..|eps|] == eps;
    ports := Sorted(byPort.Keys);
  }

  // validateRelay

  method ValidateUpstreams(loads: Loads, ups: seq<Upstream>, knownSubs: set<string>)
    returns (r: Result<seq<UpstreamSpec>, RelayError>)
    ensures r == CheckUpstreams(loads, ups, knownSubs, 0, [])
  {
    var specs: seq<UpstreamSpec> := [];
    for i := 0 to |ups|
      invariant CheckUpstreams(loads, ups, knownSubs, i, specs) == CheckUpstreams(loads, ups, knownSubs, 0, [])
    {
      var spec := CheckUpstream(loads, ups[i], i, knownSubs);
      if spec.Failure? {
        return Failure(spec.error);
      }
      specs := specs + [spec.value];
    }
    return Success(specs);
  }

  method ValidateDownstreams(ds: seq<Downstream>, relay: string, ownPort: int)
    returns (r: Result<seq<Endpoint>, RelayError>)
    ensures r == CheckDownstreams(ds, relay, ownPort, 0, [])
  {
    var eps: seq<Endpoint> := [];
    for i := 0 to |ds|
      invariant CheckDownstreams(ds, relay, ownPort, i, eps) == CheckDownstreams(ds, relay, ownPort, 0, [])
    {
      var e := CheckDownstream(ds[i], relay, ownPort);
      if e.Failure? {
        return Failure(BadDownstream(i, e.error));
      }
      eps := eps + [e.value];
    }
    return Success(eps);
  }

  method FindOwnClash(eps: seq<Endpoint>) returns (r: Option<RelayError>)
    ensures r == CheckOwnPorts(eps, 0)
  {
    for i := 0 to |eps|
      invariant CheckOwnPorts(eps, 0) == CheckOwnPorts(eps, i)
    {
      for j := 0 to i
        invariant ClashBefore(eps, i, 0) == ClashBefore(eps, i, j)
      {
        var clash := Clash(eps[j], eps[i]);
        if clash.Some? {
          return clash;
        }
      }
    }
    return None;
  }

  method Validate(loads: Loads, r: Relay, knownSubs: set<string>, ownPort: int)
    returns (v: Result<ValidRelay, RelayError>)
    ensures v == ValidateRelay(loads, r, knownSubs, ownPort)
  {
    var bad := CheckRelayName(r.name);
    if bad.Some? {
      return Failure(bad.value);
    }
    var strategy := if r.strategy == "" then "url-test" else r.strategy;
    if strategy !in STRATEGIES {
      return Failure(UnknownStrategy);
    }
    if |r.upstream| == 0 {
      return Failure(NoUpstream);
    }
    var ups := ValidateUpstreams(loads, r.upstream, knownSubs);
    if ups.Failure? {
      return Failure(ups.error);
    }
    if |r.downstream| == 0 {
      return Failure(NoDownstream);
    }
    var eps := ValidateDownstreams(r.downstream, r.name, ownPort);
    if eps.Failure? {
      return Failure(eps.error);
    }
    var clash := FindOwnClash(eps.value);
    if clash.Some? {
      return Failure(clash.value);
    }
    return Success(ValidRelay(RelaySpec(r.name, strategy, ups.value), eps.value));
  }

  // findConflicts

  datatype Reason = DifferentListens | NotShareable | SharedUsername(username: string)

  datatype Conflict = Conflict(port: int, reason: Reason, relays: seq<string>)

  ghost predicate Blamed(errs: seq<Conflict>, r: string) {
    exists c | c in errs :: r in c.relays
  }

  /** Two relays have this username on the port. */
  ghost predicate SharedName(eps: seq<Endpoint>, port: int, u: string) {
    exists e, e' | e in eps && e' in eps ::
      e.port == e'.port == port && e.relay != e'.relay && e.username == e'.username == u
  }

  /** What there is to report about a port: the first of the three reasons that applies. */
  ghost predicate Conflicting(eps: seq<Endpoint>, port: int, reason: Reason) {
    && Shared(eps, port)
    && match reason
       case DifferentListens => MixedListen(eps, port)
       case NotShareable => !MixedListen(eps, port) && WithoutUsername(eps, port)
       case SharedUsername(u) => !MixedListen(eps, port) && !WithoutUsername(eps, port) && SharedName(eps, port, u)
  }

  /** The relay is part of what is reported. */
  ghost predicate Involved(eps: seq<Endpoint>, port: int, reason: Reason, r: string) {
    exists e | e in eps :: e.port == port && e.relay == r && (reason.SharedUsername? ==> e.username == reason.username)
  }

  /** The report is true of its port and names exactly the relays involved. */
  ghost predicate Exact(eps: seq<Endpoint>, c: Conflict) {
    Conflicting(eps, c.port, c.reason) && forall r :: r in c.relays <==> Involved(eps, c.port, c.reason, r)
  }

  ghost predicate Reported(errs: seq<Conflict>, port: int, reason: Reason) {
    exists c | c in errs :: c.port == port && c.reason == reason
  }

  /** Everything reported of these ports is exact, and every conflict on them is reported. */
  ghost predicate Reports(eps: seq<Endpoint>, ports: set<int>, errs: seq<Conflict>) {
    && (forall c | c in errs :: c.port in ports && Exact(eps, c))
    && (forall port, reason | port in ports && Conflicting(eps, port, reason) :: Reported(errs, port, reason))
  }

  lemma SharedIffSeveral(list: seq<Endpoint>, port: int)
    requires forall e | e in list :: e.port == port
    ensures Shared(list, port) <==> |Uniques(RelaysIn(list))| > 1
    ensures MixedListen(list, port) <==> |Uniques(ListensIn(list))| > 1
  {
    SeveralUniques(RelaysIn(list));
    SeveralUniques(ListensIn(list));
    if Shared(list, port) {
      var e, e' :| e in list && e' in list && e.relay != e'.relay;
      RelayIn(list, e);
      RelayIn(list, e');
    }
    if MixedListen(list, port) {
      var e, e' :| e in list && e' in list && e.listen != e'.listen;
      RelayIn(list, e);
      RelayIn(list, e');
    }
  }

  lemma RelayIn(list: seq<Endpoint>, e: Endpoint)
    requires e in list
    ensures e.relay in RelaysIn(list) && e.listen in ListensIn(list) && e.username in UsernamesIn(list)
  {
    var i :| 0 <= i < |list| && list[i] == e;
    assert RelaysIn(list)[i] == e.relay && ListensIn(list)[i] == e.listen && UsernamesIn(list)[i] == e.username;
  }

  lemma OwnersInvolved(list: seq<Endpoint>, port: int, u: string)
    requires forall e | e in list :: e.port == port
    ensures forall r :: r in Owners(list, u) <==> Involved(list, port, SharedUsername(u), r)
    ensures |Owners(list, u)| > 1 <==> SharedName(list, port, u)
  {
    forall r
      ensures r in Owners(list, u) <==> Involved(list, port, SharedUsername(u), r)
    {
      OwnersAre(list, u, r);
    }
    SeveralUniques(RelaysIn(WithUsername(list, u)));
    if SharedName(list, port, u) {
      var e, e' :| e in list && e' in list && e.relay != e'.relay && e.username == e'.username == u;
      assert Involved(list, port, SharedUsername(u), e.relay) && Involved(list, port, SharedUsername(u), e'.relay);
      assert e.relay in Owners(list, u) && e'.relay in Owners(list, u);
    }
    if |Owners(list, u)| > 1 {
      var os := Owners(list, u);
      assert os[0] in os && os[1] in os;
      var e :| e in list && e.username == u && e.relay == os[0];
      var e' :| e' in list && e'.username == u && e'.relay == os[1];
    }
  }

  lemma RelaysInvolved(list: seq<Endpoint>, port: int, reason: Reason)
    requires (forall e | e in list :: e.port == port) && !reason.SharedUsername?
    ensures forall r :: r in Uniques(RelaysIn(list)) <==> Involved(list, port, reason, r)
  {
    forall r
      ensures r in Uniques(RelaysIn(list)) <==> Involved(list, port, reason, r)
    {
      if r in RelaysIn(list) {
        var i :| 0 <= i < |list| && RelaysIn(list)[i] == r;
        assert list[i] in list;
      }
      if Involved(list, port, reason, r) {
        var e :| e in list && e.relay == r;
        RelayIn(list, e);
      }
    }
  }

  lemma PrefixNext(list: seq<Endpoint>, i: nat)
    requires i < |list|
    ensures RelaysIn(list[..i + 1]) == RelaysIn(list[..i]) + [list[i].relay]
    ensures ListensIn(list[..i + 1]) == ListensIn(list[..i]) + [list[i].listen]
    ensures UsernamesIn(list[..i + 1]) == UsernamesIn(list[..i]) + [list[i].username]
  {
  }

  lemma WithoutUsernameIn(list: seq<Endpoint>)
    ensures "" in UsernamesIn(list) <==> exists e | e in list :: e.username == ""
  {
    if "" in UsernamesIn(list) {
      var i :| 0 <= i < |list| && UsernamesIn(list)[i] == "";
      assert list[i] in list;
    }
    if e :| e in list && e.username == "" {
      RelayIn(list, e);
    }
  }

  /** Who is on a port, on which addresses, and whether anyone has no username. */
  method Survey(list: seq<Endpoint>) returns (relays: seq<string>, listens: seq<string>, noAuth: bool)
    ensures relays == Uniques(RelaysIn(list)) && listens == Uniques(ListensIn(list))
    ensures noAuth <==> exists e | e in list :: e.username == ""
  {
    relays, listens, noAuth := [], [], false;
    assert Uniques(RelaysIn(list[..0])) == [] && Uniques(ListensIn(list[..0])) == [] && UsernamesIn(list[..0]) == [];
    hide Uniques, AppendUnique, RelaysIn, ListensIn, UsernamesIn;
    for i := 0 to |list|
      invariant relays == Uniques(RelaysIn(list[..i])) && listens == Uniques(ListensIn(list[..i]))
      invariant noAuth <==> "" in UsernamesIn(list[..i])
    {
      var e := list[i];
      PrefixNext(list, i);
      UniquesAppend(RelaysIn(list[..i]), e.relay);
      UniquesAppend(ListensIn(list[..i]), e.listen);
      relays := AppendUnique(relays, e.relay);
      listens := AppendUnique(listens, e.listen);
      noAuth := noAuth || e.username == "";
    }
    assert list[..|list|] == list;
    WithoutUsernameIn(list);
  }

  /** The one report about the whole port, when there is one. */
  lemma OneReport(list: seq<Endpoint>, port: int, c: Conflict)
    requires (forall e | e in list :: e.port == port) && c.port == port && !c.reason.SharedUsername?
    requires Conflicting(list, port, c.reason) && c.relays == Uniques(RelaysIn(list))
    ensures Reports(list, {port}, [c])
  {
    RelaysInvolved(list, port, c.reason);
    forall p, reason | p in {port} && Conflicting(list, p, reason)
      ensures Reported([c], p, reason)
    {
      assert c in [c] && reason == c.reason;
    }
  }

  /** The conflicts on one port, given its endpoints. */
  method ConflictsAt(port: int, list: seq<Endpoint>) returns (errs: seq<Conflict>)
    requires forall e | e in list :: e.port == port
    ensures Reports(list, {port}, errs)
  {
    hide Reports, Uniques, RelaysIn, ListensIn;
    var relays, listens, noAuth := Survey(list);
    SharedIffSeveral(list, port);
    if |relays| < 2 {
      NothingToReport(list, port);
      return [];
    }
    assert noAuth <==> WithoutUsername(list, port);
    if |listens| > 1 {
      OneReport(list, port, Conflict(port, DifferentListens, relays));
      return [Conflict(port, DifferentListens, relays)];
    }
    if noAuth {
      OneReport(list, port, Conflict(port, NotShareable, relays));
      return [Conflict(port, NotShareable, relays)];
    }
    errs := UsernameConflicts(port, list);
  }

  lemma NothingToReport(list: seq<Endpoint>, port: int)
    requires !Shared(list, port)
    ensures Reports(list, {port}, [])
  {
  }

  ghost predicate IsOwners(list: seq<Endpoint>, owners: map<string, seq<string>>) {
    && owners.Keys == (set u | u in UsernamesIn(list))
    && (forall u | u in owners :: owners[u] == Owners(list, u))
  }

  lemma UsernamesAppend(list: seq<Endpoint>, e: Endpoint)
    ensures UsernamesIn(list + [e]) == UsernamesIn(list) + [e.username]
  {
  }

  lemma OwnersOfOne(list: seq<Endpoint>, e: Endpoint, owners: map<string, seq<string>>, u: string)
    requires IsOwners(list, owners)
    ensures Owners(list + [e], u) ==
            if u == e.username then AppendUnique(if u in owners then owners[u] else [], e.relay)
            else if u in owners then owners[u] else []
  {
    OwnersAppend(list, e, u);
    if u !in owners { NoOwners(list, u); }
  }

  lemma OwnersStep(list: seq<Endpoint>, e: Endpoint, owners: map<string, seq<string>>, own: seq<string>)
    requires IsOwners(list, owners)
    requires own == AppendUnique(if e.username in owners then owners[e.username] else [], e.relay)
    ensures IsOwners(list + [e], owners[e.username := own])
  {
    UsernamesAppend(list, e);
    var owners' := owners[e.username := own];
    assert owners'.Keys == set u | u in UsernamesIn(list) + [e.username];
    forall u | u in owners'
      ensures owners'[u] == Owners(list + [e], u)
    {
      OwnersOfOne(list, e, owners, u);
    }
  }

  /** The usernames on a port, and for each the relays that have it. */
  method CollectOwners(list: seq<Endpoint>) returns (usernames: seq<string>, owners: map<string, seq<string>>)
    ensures usernames == Uniques(UsernamesIn(list)) && IsOwners(list, owners)
  {
    usernames, owners := [], map[];
    for i := 0 to |list|
      invariant usernames == Uniques(UsernamesIn(list[..i])) && IsOwners(list[..i], owners)
    {
      var e := list[i];
      assert list[..i + 1] == list[..i] + [e];
      var own := AppendUnique(if e.username in owners then owners[e.username] else [], e.relay);
      OwnersStep(list[..i], e, owners, own);
      UsernamesAppend(list[..i], e);
      UniquesAppend(UsernamesIn(list[..i]), e.username);
      usernames := AppendUnique(usernames, e.username);
      owners := owners[e.username := own];
    }
    assert list[..|list|] == list;
  }

  /** The reports about the given usernames. */
  ghost predicate NamesReported(list: seq<Endpoint>, port: int, usernames: seq<string>, errs: seq<Conflict>) {
    && (forall c | c in errs :: c.port == port && Exact(list, c))
    && (forall u | u in usernames && SharedName(list, port, u) :: Reported(errs, port, SharedUsername(u)))
  }

  lemma NamesReportedStep(list: seq<Endpoint>, port: int, usernames: seq<string>, u: string, errs: seq<Conflict>,
                          more: seq<Conflict>)
    requires NamesReported(list, port, usernames, errs) && (forall e | e in list :: e.port == port)
    requires Shared(list, port) && !MixedListen(list, port) && !WithoutUsername(list, port)
    requires more == if |Owners(list, u)| > 1 then [Conflict(port, SharedUsername(u), Owners(list, u))] else []
    ensures NamesReported(list, port, usernames + [u], errs + more)
  {
    hide Owners, Shared, MixedListen, WithoutUsername, SharedName, Involved;
    OwnersInvolved(list, port, u);
    assert |Owners(list, u)| > 1 ==> Exact(list, Conflict(port, SharedUsername(u), Owners(list, u)));
    forall c | c in errs + more
      ensures c.port == port && Exact(list, c)
    {
      assert c in errs || c in more;
    }
    forall v | v in usernames + [u] && SharedName(list, port, v)
      ensures Reported(errs + more, port, SharedUsername(v))
    {
      if v in usernames {
        var c :| c in errs && c.port == port && c.reason == SharedUsername(v);
        assert c in errs + more;
      } else {
        assert more[0] in errs + more;
      }
    }
  }

  lemma AllNamesReported(list: seq<Endpoint>, port: int, errs: seq<Conflict>)
    requires NamesReported(list, port, Uniques(UsernamesIn(list)), errs) && (forall e | e in list :: e.port == port)
    requires !MixedListen(list, port) && !WithoutUsername(list, port)
    ensures Reports(list, {port}, errs)
  {
    hide Exact, MixedListen, WithoutUsername, Shared, Uniques;
    forall p, reason | p in {port} && Conflicting(list, p, reason)
      ensures Reported(errs, p, reason)
    {
      var u := reason.username;
      var e :| e in list && e.username == u;
      RelayIn(list, e);
    }
  }

  method UsernameConflicts(port: int, list: seq<Endpoint>) returns (errs: seq<Conflict>)
    requires forall e | e in list :: e.port == port
    requires Shared(list, port) && !MixedListen(list, port) && !WithoutUsername(list, port)
    ensures Reports(list, {port}, errs)
  {
    hide Shared, MixedListen, WithoutUsername, NamesReported, Reports;
    errs := [];
    var usernames, owners := CollectOwners(list);
    NoNamesReported(list, port);
    for i := 0 to |usernames|
      invariant NamesReported(list, port, usernames[..i], errs)
    {
      var u := usernames[i];
      assert u in usernames;
      TakeNext(usernames, i);
      var more := if |owners[u]| > 1 then [Conflict(port, SharedUsername(u), owners[u])] else [];
      NamesReportedStep(list, port, usernames[..i], u, errs, more);
      errs := errs + more;
    }
    assert usernames[..|usernames|] == usernames;
    AllNamesReported(list, port, errs);
  }

  lemma NoNamesReported(list: seq<Endpoint>, port: int)
    ensures NamesReported(list, port, [], [])
  {
  }

  lemma NoOwners(list: seq<Endpoint>, u: string)
    requires u !in UsernamesIn(list)
    ensures Owners(list, u) == []
  {
    var w := WithUsername(list, u);
    if w != [] {
      assert w[0] in w;
      RelayIn(list, w[0]);
    }
  }

  function BlamedIn(errs: seq<Conflict>): (names: set<string>)
    ensures forall r :: r in names <==> Blamed(errs, r)
  {
    set c, r | c in errs && r in c.relays :: r
  }

  lemma BlamedConcat(errs: seq<Conflict>, more: seq<Conflict>)
    ensures BlamedIn(errs + more) == BlamedIn(errs) + BlamedIn(more)
  {
    assert forall c :: c in errs + more <==> c in errs || c in more;
  }

  /** What there is to report about a port depends on its endpoints only. */
  lemma ConflictingAtPort(eps: seq<Endpoint>, port: int, reason: Reason)
    ensures Conflicting(AtPort(eps, port), port, reason) <==> Conflicting(eps, port, reason)
    ensures forall r :: Involved(AtPort(eps, port), port, reason, r) <==> Involved(eps, port, reason, r)
  {
    var list := AtPort(eps, port);
    assert Shared(list, port) <==> Shared(eps, port);
    assert MixedListen(list, port) <==> MixedListen(eps, port);
    assert WithoutUsername(list, port) <==> WithoutUsername(eps, port);
    if reason.SharedUsername? {
      assert SharedName(list, port, reason.username) <==> SharedName(eps, port, reason.username);
    }
    assert forall r :: Involved(list, port, reason, r) <==> Involved(eps, port, reason, r);
  }

  lemma ReportsAtPort(eps: seq<Endpoint>, port: int, errs: seq<Conflict>)
    requires Reports(AtPort(eps, port), {port}, errs)
    ensures Reports(eps, {port}, errs)
  {
    hide Conflicting, Involved, AtPort, Reported;
    forall c | c in errs
      ensures c.port in {port} && Exact(eps, c)
    {
      ConflictingAtPort(eps, port, c.reason);
    }
    forall p, reason | p in {port} && Conflicting(eps, p, reason)
      ensures Reported(errs, p, reason)
    {
      ConflictingAtPort(eps, port, reason);
    }
  }

  lemma ReportsConcat(eps: seq<Endpoint>, ports: set<int>, port: int, errs: seq<Conflict>, more: seq<Conflict>)
    requires Reports(eps, ports, errs) && Reports(eps, {port}, more)
    ensures Reports(eps, ports + {port}, errs + more)
  {
    hide Conflicting, Exact;
    forall c | c in errs + more
      ensures c.port in ports + {port} && Exact(eps, c)
    {
      assert c in errs || c in more;
    }
    forall p, reason | p in ports + {port} && Conflicting(eps, p, reason)
      ensures Reported(errs + more, p, reason)
    {
      var c :| (c in errs || c in more) && c.port == p && c.reason == reason;
      assert c in errs + more;
    }
  }

  /** A relay is in a conflict on a port exactly when something that involves it is to be reported there. */
  lemma ConflictIsReason(eps: seq<Endpoint>, r: string, port: int)
    ensures ConflictOn(eps, r, port) <==>
            exists reason :: Conflicting(eps, port, reason) && Involved(eps, port, reason, r)
  {
    hide MixedListen, WithoutUsername;
    if ConflictOn(eps, r, port) {
      if MixedListen(eps, port) {
        assert Conflicting(eps, port, DifferentListens) && Involved(eps, port, DifferentListens, r);
      } else if WithoutUsername(eps, port) {
        assert Conflicting(eps, port, NotShareable) && Involved(eps, port, NotShareable, r);
      } else {
        var e, e' :| e in eps && e' in eps && e.port == e'.port == port && e.relay == r != e'.relay &&
          e.username == e'.username;
        assert SharedName(eps, port, e.username);
        assert Conflicting(eps, port, SharedUsername(e.username)) && Involved(eps, port, SharedUsername(e.username), r);
      }
    }
    if reason :| Conflicting(eps, port, reason) && Involved(eps, port, reason, r) {
      if reason.SharedUsername? {
        NamedIsShared(eps, r, port, reason.username);
      }
    }
  }

  lemma NamedIsShared(eps: seq<Endpoint>, r: string, port: int, u: string)
    requires SharedName(eps, port, u) && Involved(eps, port, SharedUsername(u), r)
    ensures SharesUsername(eps, r, port)
  {
    var e :| e in eps && e.port == port && e.relay == r && e.username == u;
    var x, x' :| x in eps && x' in eps && x.port == x'.port == port && x.relay != x'.relay &&
      x.username == x'.username == u;
    var other := if x.relay == r then x' else x;
    assert e.relay == r != other.relay && e.username == other.username;
  }

  /** Reports on all ports blame exactly the relays in conflict. */
  lemma ReportsBlame(eps: seq<Endpoint>, errs: seq<Conflict>)
    requires Reports(eps, Ports(eps), errs)
    ensures BlamedIn(errs) == Rejected(eps)
  {
    hide Conflicting, Involved, ConflictOn;
    forall r
      ensures r in BlamedIn(errs) <==> r in Rejected(eps)
    {
      if Blamed(errs, r) {
        var c :| c in errs && r in c.relays;
        assert Exact(eps, c);
        ConflictIsReason(eps, r, c.port);
        ConflictOnPort(eps, r, c.port);
      }
      if r in Rejected(eps) {
        var port :| ConflictOn(eps, r, port);
        ConflictIsReason(eps, r, port);
        ConflictOnPort(eps, r, port);
        var reason :| Conflicting(eps, port, reason) && Involved(eps, port, reason, r);
        var c :| c in errs && c.port == port && c.reason == reason;
        assert r in c.relays;
      }
    }
  }

  lemma ConflictOnPort(eps: seq<Endpoint>, r: string, port: int)
    requires ConflictOn(eps, r, port)
    ensures port in Ports(eps) && exists e :: e in eps && e.relay == r
  {
    var e :| e in eps && e.port == port && e.relay == r;
  }

  function Elements(list: seq<int>): set<int> {
    set p | p in list
  }

  lemma ElementsAppend(list: seq<int>, p: int)
    ensures Elements(list + [p]) == Elements(list) + {p}
  {
  }

  lemma ElementsSorted(ns: set<int>)
    ensures Elements(Sorted(ns)) == ns
  {
  }

  lemma NothingReported(eps: seq<Endpoint>)
    ensures Reports(eps, Elements([]), []) && BlamedIn([]) == {}
  {
  }

  /** The relays to leave out because of a port they share, and the reports that say why. */
  method FindConflicts(eps: seq<Endpoint>) returns (rejected: set<string>, errs: seq<Conflict>)
    ensures Reports(eps, Ports(eps), errs)
    ensures rejected == Rejected(eps) && forall r :: r in rejected <==> Blamed(errs, r)
  {
    hide Reports, BlamedIn, Rejected, Blamed, AtPort, Ports, Elements;
    errs := [];
    rejected := {};
    var ports, byPort := GroupByPort(eps);
    NothingReported(eps);
    for i := 0 to |ports|
      invariant Reports(eps, Elements(ports[..i]), errs) && rejected == BlamedIn(errs)
    {
      var port := ports[i];
      assert port in ports;
      TakeNext(ports, i);
      var list := byPort[port];
      var more := ConflictsAt(port, list);
      ReportsAtPort(eps, port, more);
      ElementsAppend(ports[..i], port);
      ReportsConcat(eps, Elements(ports[..i]), port, errs, more);
      BlamedConcat(errs, more);
      rejected := rejected + BlamedIn(more);
      errs := errs + more;
    }
    assert ports[..|ports|] == ports;
    ElementsSorted(Ports(eps));
    ReportsBlame(eps, errs);
  }

  // buildListeners

  method BuildListener(port: int, list: seq<Endpoint>) returns (l: ListenerSpec)
    requires list != []
    ensures l == ListenerFor(port, list)
  {
    var typ := ListenerType(list[0].typ);
    for i := 1 to |list|
      invariant typ == CommonType(list[..i])
    {
      assert list[..i + 1] == list[..i] + [list[i]];
      if ListenerType(list[i].typ) != typ {
        typ := "mixed";  // two types share the port
      }
      CommonTypeAppend(list[..i], list[i]);
    }
    assert list[..|list|] == list;
    var relay, users := "", [];
    if list[0].username == "" {
      relay := list[0].relay;
    } else {
      var seen: set<string> := {};
      for i := 0 to |list|
        invariant users + FirstPerUsername(list[i..], seen) == FirstPerUsername(list, {})
      {
        var e := list[i];
        assert list[i..][1..] == list[i + 1..];
        if e.username !in seen {
          seen := seen + {e.username};
          users := users + [e];
        }
      }
    }
    l := ListenerSpec("relay-" + Itoa(port), typ, list[0].listen, port, relay, users);
  }

  lemma CommonTypeAppend(list: seq<Endpoint>, e: Endpoint)
    requires list != []
    ensures CommonType(list + [e]) == if ListenerType(e.typ) != CommonType(list) then "mixed" else CommonType(list)
  {
    var all := list + [e];
    assert all[0] == list[0] && e in all;
    if x :| x in list && ListenerType(x.typ) != ListenerType(list[0].typ) {
      assert x in all;
    }
  }

  method MakeListeners(eps: seq<Endpoint>) returns (out: seq<ListenerSpec>)
    ensures out == BuildListeners(eps)
  {
    hide ListenerFor, AtPort, Ports;
    var ports, byPort := GroupByPort(eps);
    out := [];
    for i := 0 to |ports|
      invariant |out| == i && forall j | 0 <= j < i ::
                byPort[ports[j]] != [] && out[j] == ListenerFor(ports[j], byPort[ports[j]])
    {
      assert ports[i] in ports;
      AtPortOccupied(eps, ports[i]);
      var l := BuildListener(ports[i], byPort[ports[i]]);
      out := out + [l];
    }
  }

  // NewPlan

  datatype PlanError = BadRelay(index: nat, error: RelayError) | BadPort(conflict: Conflict)

  method CountNames(relays: seq<Relay>) returns (nameCount: multiset<string>)
    ensures nameCount == multiset(RelayNames(relays))
  {
    nameCount := multiset{};
    for i := 0 to |relays|
      invariant nameCount == multiset(RelayNames(relays[..i]))
    {
      assert RelayNames(relays[..i + 1]) == RelayNames(relays[..i]) + [relays[i].name];
      nameCount := nameCount + multiset{relays[i].name};
    }
    assert relays[..|relays|] == relays;
  }

  /** The error of a bad relay, at its index. */
  ghost predicate BadAt(loads: Loads, names: multiset<string>, relays: seq<Relay>, knownSubs: set<string>, ownPort: int,
                        e: PlanError) {
    && e.BadRelay? && e.index < |relays|
    && JudgeRelay(loads, names, relays[e.index], knownSubs, ownPort) == Failure(e.error)
  }

  /** The errors are those of the bad relays before n, each once, in config order. */
  ghost predicate JudgedBad(loads: Loads, names: multiset<string>, relays: seq<Relay>, knownSubs: set<string>,
                            ownPort: int,
                            n: nat, errs: seq<PlanError>) {
    && (forall e :: e in errs <==> BadAt(loads, names, relays, knownSubs, ownPort, e) && e.index < n)
    && (forall e | e in errs :: e.BadRelay?)
    && (forall i, j | 0 <= i < j < |errs| :: errs[i].BadRelay? && errs[j].BadRelay? && errs[i].index < errs[j].index)
  }

  lemma JudgedBadStep(loads: Loads, names: multiset<string>, relays: seq<Relay>, knownSubs: set<string>, ownPort: int,
                      n: nat, errs: seq<PlanError>)
    requires JudgedBad(loads, names, relays, knownSubs, ownPort, n, errs) && n < |relays|
    ensures var v := JudgeRelay(loads, names, relays[n], knownSubs, ownPort);
            JudgedBad(loads, names, relays, knownSubs, ownPort, n + 1,
                      if v.Failure? then errs + [BadRelay(n, v.error)] else errs)
  {
    hide JudgeRelay;
    var v := JudgeRelay(loads, names, relays[n], knownSubs, ownPort);
    var errs' := if v.Failure? then errs + [BadRelay(n, v.error)] else errs;
    forall i, j | 0 <= i < j < |errs'|
      ensures errs'[i].BadRelay? && errs'[j].BadRelay? && errs'[i].index < errs'[j].index
    {
      assert errs'[i] in errs;
    }
  }

  method CollectValid(loads: Loads, relays: seq<Relay>, knownSubs: set<string>, ownPort: int)
    returns (valid: seq<ValidRelay>, endpoints: seq<Endpoint>, errs: seq<PlanError>)
    ensures valid == ValidOf(loads, relays, knownSubs, ownPort) && endpoints == EndpointsOf(valid)
    ensures JudgedBad(loads, multiset(RelayNames(relays)), relays, knownSubs, ownPort, |relays|, errs)
  {
    hide ValidateRelay;
    var nameCount := CountNames(relays);
    valid, endpoints, errs := [], [], [];
    ghost var want := ValidRelays(loads, nameCount, relays, knownSubs, ownPort);
    for i := 0 to |relays|
      invariant valid + ValidRelays(loads, nameCount, relays[i..], knownSubs, ownPort) == want
      invariant endpoints == EndpointsOf(valid)
      invariant JudgedBad(loads, nameCount, relays, knownSubs, ownPort, i, errs)
    {
      var r := relays[i];
      JudgedBadStep(loads, nameCount, relays, knownSubs, ownPort, i, errs);
      ghost var rest := ValidRelays(loads, nameCount, relays[i + 1..], knownSubs, ownPort);
      assert relays[i..][1..] == relays[i + 1..];
      if r.name != "" && nameCount[r.name] > 1 {
        errs := errs + [BadRelay(i, DuplicateName)];
      } else {
        var v := Validate(loads, r, knownSubs, ownPort);
        if v.Failure? {
          errs := errs + [BadRelay(i, v.error)];
        } else {
          Associate(valid, [v.value], rest);
          EndpointsAppend(valid, v.value);
          valid := valid + [v.value];
          endpoints := endpoints + v.value.endpoints;
        }
      }
    }
  }

  method KeepValid(valid: seq<ValidRelay>, rejected: set<string>) returns (relays: seq<RelaySpec>)
    ensures relays == KeepRelays(valid, rejected)
  {
    relays := [];
    for i := 0 to |valid|
      invariant relays + KeepRelays(valid[i..], rejected) == KeepRelays(valid, rejected)
    {
      ghost var rest := KeepRelays(valid[i + 1..], rejected);
      assert valid[i..][1..] == valid[i + 1..];
      if valid[i].spec.name !in rejected {
        Associate(relays, [valid[i].spec], rest);
        relays := relays + [valid[i].spec];
      }
    }
  }

  method KeepReachable(endpoints: seq<Endpoint>, rejected: set<string>) returns (kept: seq<Endpoint>)
    ensures kept == KeepEndpoints(endpoints, rejected)
  {
    kept := [];
    for i := 0 to |endpoints|
      invariant kept + KeepEndpoints(endpoints[i..], rejected) == KeepEndpoints(endpoints, rejected)
    {
      ghost var rest := KeepEndpoints(endpoints[i + 1..], rejected);
      assert endpoints[i..][1..] == endpoints[i + 1..];
      if endpoints[i].relay !in rejected {
        Associate(kept, [endpoints[i]], rest);
        kept := kept + [endpoints[i]];
      }
    }
  }

  function PortErrors(conflicts: seq<Conflict>): seq<PlanError> {
    seq(|conflicts|, i requires 0 <= i < |conflicts| => BadPort(conflicts[i]))
  }

  /** NewPlan: what can be served, and an error for everything else. */
  method MakePlan(loads: Loads, relays: seq<Relay>, knownSubs: set<string>, ownPort: int)
    returns (p: PlanSpec.Plan, errs: seq<PlanError>)
    ensures p == NewPlan(loads, relays, knownSubs, ownPort)
    ensures exists invalid, conflicts ::
              && errs == invalid + PortErrors(conflicts)
              && JudgedBad(loads, multiset(RelayNames(relays)), relays, knownSubs, ownPort, |relays|, invalid)
              && var eps := EndpointsOf(ValidOf(loads, relays, knownSubs, ownPort));
                 Reports(eps, Ports(eps), conflicts)
  {
    hide Reports, JudgedBad, ValidOf;
    var valid, endpoints, invalid := CollectValid(loads, relays, knownSubs, ownPort);
    var rejected, conflicts := FindConflicts(endpoints);
    var specs := KeepValid(valid, rejected);
    var kept := KeepReachable(endpoints, rejected);
    var listeners := MakeListeners(kept);
    p := PlanSpec.Plan(specs, listeners);
    errs := invalid + PortErrors(conflicts);
  }

  lemma {:induction false} EndpointsAppend(vs: seq<ValidRelay>, v: ValidRelay)
    ensures EndpointsOf(vs + [v]) == EndpointsOf(vs) + v.endpoints
  {
    if vs == [] {
      assert [v][1..] == [];
    } else {
      assert (vs + [v])[1..] == vs[1..] + [v];
      EndpointsAppend(vs[1..], v);
    }
  }
}
