// End to end: from the relay config to the upstream a caller on a port reaches.
module Routing {
  import opened Wrappers
  import opened Values
  import opened Decimal
  import opened Text
  import opened RelayTypes
  import opened PlanSpec
  import opened PlanProofs
  import opened PlanValid
  import opened RenderSpec
  import opened RenderProofs
  import opened Rules

  // mihomo's side: find the listener, then its proxy or the first matching rule.

  function FindListener(ms: seq<Config>, name: string): Option<Config> {
    if ms == [] then None
    else if Name(ms[0]) == name then Some(ms[0])
    else FindListener(ms[1..], name)
  }

  /** Where a caller of a listener with this username ("" without authentication) is sent. */
  function Evaluate(d: Desired, listener: string, username: string): Option<string> {
    match FindListener(d.listeners, listener)
    case None => None
    case Some(m) =>
      if "proxy" in m && m["proxy"].Str? then Some(m["proxy"].s)
      else FirstMatch(d.rules, listener, username)
  }

  /** Whether a listener takes these credentials: an empty user list disables authentication. */
  predicate Admits(m: Config, username: string, password: string) {
    && "users" in m && m["users"].List?
    && if m["users"].xs == [] then username == ""
       else Dict(map["username" := Str(username), "password" := Str(password)]) in m["users"].xs
  }

  function ListenerName(port: int): string {
    "relay-" + Itoa(port)
  }

  function Target(d: Desired, relay: string): string {
    if relay in d.members then relay else "REJECT"
  }

  // Listener names

  lemma ListenerNamePlain(port: nat)
    ensures Plain(ListenerName(port))
  {
    var s := ListenerName(port);
    var digits := Digits(port);
    assert forall i | 0 <= i < |s| :: s[i] == if i < 6 then "relay-"[i] else digits[i - 6];
    assert "relay-" == ['r', 'e', 'l', 'a', 'y', '-'];
    TrimmedUnchanged(s);
  }

  lemma ListenerNameInjective(p: nat, q: nat)
    requires ListenerName(p) == ListenerName(q)
    ensures p == q
  {
    DropPrefix("relay-", Digits(p));
    DropPrefix("relay-", Digits(q));
    DigitsInjective(p, q);
  }

  // What the listener loop produces

  /** l or one of its users has this route. */
  ghost predicate EntryOf(l: ListenerSpec, target: map<string, string>, r: Route, rt: RouteTarget) {
    if l.relay != "" then r == Route(l.name, "") && rt == RouteTarget("", TargetAt(target, l.relay))
    else exists u ::
      Users(l, u) && r == Route(l.name, u.username) && rt == RouteTarget(u.password, TargetAt(target, u.relay))
  }

  ghost predicate EntryAmong(ls: seq<ListenerSpec>, target: map<string, string>, r: Route, rt: RouteTarget) {
    exists l | l in ls :: EntryOf(l, target, r, rt)
  }

  ghost predicate LineOf(l: ListenerSpec, target: map<string, string>, line: string) {
    l.relay == "" && exists u :: Users(l, u) && line == RuleLine(l.name, u.username, TargetAt(target, u.relay))
  }

  ghost predicate LineAmong(ls: seq<ListenerSpec>, target: map<string, string>, line: string) {
    exists l | l in ls :: LineOf(l, target, line)
  }

  ghost predicate UserAmong(users: seq<Endpoint>, listener: string, target: map<string, string>, r: Route,
                            rt: RouteTarget) {
    exists u | u in users ::
      r == Route(listener, u.username) && rt == RouteTarget(u.password, TargetAt(target, u.relay))
  }

  ghost predicate UserLineAmong(users: seq<Endpoint>, listener: string, target: map<string, string>, line: string) {
    exists u | u in users :: line == RuleLine(listener, u.username, TargetAt(target, u.relay))
  }

  lemma {:induction false} AddUsersRoutes(b: Inbound, listener: string, users: seq<Endpoint>,
                                          target: map<string, string>, r: Route, rt: RouteTarget)
    ensures var b' := AddUsers(b, listener, users, target);
            && (r in b'.routes && b'.routes[r] == rt ==>
                (r in b.routes && b.routes[r] == rt) || UserAmong(users, listener, target, r, rt))
            && (r in b.routes || UserAmong(users, listener, target, r, rt) ==> r in b'.routes)
    decreases |users|
  {
    if users != [] {
      var u := users[0];
      assert users == [u] + users[1..];
      AddUsersRoutes(b.(rules := b.rules + [RuleLine(listener, u.username, TargetAt(target, u.relay))],
                        routes := b.routes[Route(listener, u.username) :=
                                   RouteTarget(u.password, TargetAt(target, u.relay))]),
                     listener, users[1..], target, r, rt);
      assert u in users && forall x | x in users[1..] :: x in users;
    }
  }

  lemma {:induction false} AddUsersRules(b: Inbound, listener: string, users: seq<Endpoint>,
                                         target: map<string, string>, line: string)
    ensures line in AddUsers(b, listener, users, target).rules <==>
            line in b.rules || UserLineAmong(users, listener, target, line)
    ensures AddUsers(b, listener, users, target).listeners == b.listeners
    decreases |users|
  {
    if users != [] {
      var u := users[0];
      assert users == [u] + users[1..];
      AddUsersRules(b.(rules := b.rules + [RuleLine(listener, u.username, TargetAt(target, u.relay))],
                       routes := b.routes[Route(listener, u.username) :=
                                  RouteTarget(u.password, TargetAt(target, u.relay))]),
                    listener, users[1..], target, line);
      assert u in users && forall x | x in users[1..] :: x in users;
    }
  }

  lemma AddListenerRoutes(b: Inbound, l: ListenerSpec, target: map<string, string>, r: Route, rt: RouteTarget)
    ensures var b' := AddListener(b, l, target);
            && (r in b'.routes && b'.routes[r] == rt ==>
                (r in b.routes && b.routes[r] == rt) || EntryOf(l, target, r, rt))
            && (r in b.routes || EntryOf(l, target, r, rt) ==> r in b'.routes)
  {
    if l.relay == "" {
      AddUsersRoutes(b, l.name, l.users, target, r, rt);
      if UserAmong(l.users, l.name, target, r, rt) {
        var u :| u in l.users && r == Route(l.name, u.username) &&
          rt == RouteTarget(u.password, TargetAt(target, u.relay));
        assert Users(l, u);
      }
    }
  }

  lemma AddListenerRules(b: Inbound, l: ListenerSpec, target: map<string, string>, line: string)
    ensures line in AddListener(b, l, target).rules <==> line in b.rules || LineOf(l, target, line)
    ensures AddListener(b, l, target).listeners == b.listeners + [ListenerConfig(l, target)]
  {
    if l.relay == "" {
      AddUsersRules(b, l.name, l.users, target, line);
      if UserLineAmong(l.users, l.name, target, line) {
        var u :| u in l.users && line == RuleLine(l.name, u.username, TargetAt(target, u.relay));
        assert Users(l, u);
      }
    }
  }

  lemma {:induction false} AddListenersRoutes(b: Inbound, ls: seq<ListenerSpec>, target: map<string, string>, r: Route,
                                              rt: RouteTarget)
    ensures var b' := RenderSpec.AddListeners(b, ls, target);
            && (r in b'.routes && b'.routes[r] == rt ==>
                (r in b.routes && b.routes[r] == rt) || EntryAmong(ls, target, r, rt))
            && (r in b.routes || EntryAmong(ls, target, r, rt) ==> r in b'.routes)
    decreases |ls|
  {
    if ls != [] {
      assert ls == [ls[0]] + ls[1..];
      AddListenerRoutes(b, ls[0], target, r, rt);
      AddListenersRoutes(AddListener(b, ls[0], target), ls[1..], target, r, rt);
      assert ls[0] in ls && forall l | l in ls[1..] :: l in ls;
    }
  }

  lemma {:induction false} AddListenersRules(b: Inbound, ls: seq<ListenerSpec>, target: map<string, string>,
                                             line: string)
    ensures line in RenderSpec.AddListeners(b, ls, target).rules <==> line in b.rules || LineAmong(ls, target, line)
    decreases |ls|
  {
    if ls != [] {
      assert ls == [ls[0]] + ls[1..];
      AddListenerRules(b, ls[0], target, line);
      AddListenersRules(AddListener(b, ls[0], target), ls[1..], target, line);
      assert ls[0] in ls && forall l | l in ls[1..] :: l in ls;
    }
  }

  function ListenerConfigs(ls: seq<ListenerSpec>, target: map<string, string>): seq<Config> {
    seq(|ls|, i requires 0 <= i < |ls| => ListenerConfig(ls[i], target))
  }

  lemma {:induction false} AddListenersConfigs(b: Inbound, ls: seq<ListenerSpec>, target: map<string, string>)
    ensures RenderSpec.AddListeners(b, ls, target).listeners == b.listeners + ListenerConfigs(ls, target)
    decreases |ls|
  {
    if ls != [] {
      AddListenerRules(b, ls[0], target, "");
      AddListenersConfigs(AddListener(b, ls[0], target), ls[1..], target);
      assert ListenerConfigs(ls, target) == [ListenerConfig(ls[0], target)] + ListenerConfigs(ls[1..], target);
      Associate(b.listeners, [ListenerConfig(ls[0], target)], ListenerConfigs(ls[1..], target));
    }
  }

  lemma {:induction false} FindUniqueListener(ls: seq<ListenerSpec>, target: map<string, string>, l: ListenerSpec)
    requires l in ls && forall l' | l' in ls && l'.name == l.name :: l' == l
    ensures FindListener(ListenerConfigs(ls, target), l.name) == Some(ListenerConfig(l, target))
  {
    var ms := ListenerConfigs(ls, target);
    assert ms[0] == ListenerConfig(ls[0], target) && Name(ms[0]) == ls[0].name;
    assert ls == [ls[0]] + ls[1..];
    if ls[0].name != l.name {
      assert ms[1..] == ListenerConfigs(ls[1..], target);
      FindUniqueListener(ls[1..], target, l);
    }
  }

  lemma {:induction false} FindNoListener(ls: seq<ListenerSpec>, target: map<string, string>, name: string)
    requires forall l | l in ls :: l.name != name
    ensures FindListener(ListenerConfigs(ls, target), name) == None
  {
    var ms := ListenerConfigs(ls, target);
    if ls != [] {
      assert ls == [ls[0]] + ls[1..] && ls[0] in ls;
      assert ms[0] == ListenerConfig(ls[0], target) && Name(ms[0]) == ls[0].name;
      assert ms[1..] == ListenerConfigs(ls[1..], target);
      FindNoListener(ls[1..], target, name);
    }
  }

  // Kept plans

  ghost predicate Rendered(env: Loader, p: Plan, eps: seq<Endpoint>, ownPort: int, answers: seq<seq<Node>>) {
    Ready(p, eps, ownPort) && |answers| == |SubsRead(p.relays)|
  }

  lemma TargetsKnown(env: Loader, p: Plan, answers: seq<seq<Node>>, r: RelaySpec)
    requires |answers| == |SubsRead(p.relays)| && DistinctRelays(p.relays) && r in p.relays && GoodName(r.name)
    ensures var t := TargetAt(RenderGroups(env, p, answers).target, r.name);
            t == Target(RenderReads(env, p, answers), r.name) && ',' !in t && TrimSpace(t) == t
  {
    RenderGroupsSound(env, p, answers);
    assert r.name in RelayNameSet(p.relays);
    RejectIsPlain();
  }

  lemma RejectIsPlain()
    ensures ',' !in "REJECT" && TrimSpace("REJECT") == "REJECT"
  {
    hide TrimSpace;
    VisibleUnchanged("REJECT");
  }

  lemma EndpointTarget(env: Loader, p: Plan, eps: seq<Endpoint>, ownPort: int, answers: seq<seq<Node>>, e: Endpoint)
    requires Rendered(env, p, eps, ownPort, answers) && e in eps
    ensures var t := TargetAt(RenderGroups(env, p, answers).target, e.relay);
            t == Target(RenderReads(env, p, answers), e.relay) && ',' !in t && TrimSpace(t) == t && e.relay != ""
  {
    var r :| r in p.relays && r.name == e.relay;
    TargetsKnown(env, p, answers, r);
  }

  lemma UsernamePlain(e: Endpoint, ownPort: int)
    requires GoodEndpoint(e, ownPort)
    ensures Plain(e.username)
  {
    assert forall i | 0 <= i < |e.username| :: e.username[i] in e.username;
  }

  lemma ListenerOf(eps: seq<Endpoint>, l: ListenerSpec) returns (port: nat)
    requires l in BuildListeners(eps) && forall e | e in eps :: e.port >= 1
    ensures l.port == port && l.name == ListenerName(port) && exists e | e in eps :: e.port == port
  {
    var i :| 0 <= i < |BuildListeners(eps)| && BuildListeners(eps)[i] == l;
    var p := ListenerPort(eps, i);
    var e :| e in eps && e.port == p;
    port := p;
  }

  /** Two listeners of a plan with one name are the same. */
  lemma ListenerByName(eps: seq<Endpoint>, l: ListenerSpec, l': ListenerSpec)
    requires Unambiguous(eps) && forall e | e in eps :: e.port >= 1
    requires l in BuildListeners(eps) && l' in BuildListeners(eps) && l.name == l'.name
    ensures l == l'
  {
    var p := ListenerOf(eps, l);
    var p' := ListenerOf(eps, l');
    ListenerNameInjective(p, p');
    var e :| e in eps && e.port == p;
    var only := PlanServesEveryone(eps, e);
  }

  /** A rule line decodes to the listener, username and target it was printed from. */
  lemma LineDecodes(env: Loader, p: Plan, eps: seq<Endpoint>, ownPort: int, answers: seq<seq<Node>>, l: ListenerSpec,
                    u: Endpoint)
    requires Rendered(env, p, eps, ownPort, answers) && l in p.listeners && Users(l, u)
    ensures var t := TargetAt(RenderGroups(env, p, answers).target, u.relay);
            && ParseRule(RuleLine(l.name, u.username, t)) == And(l.name, u.username, t)
            && Plain(l.name) && Plain(u.username)
  {
    var port := ListenerOf(eps, l);
    ListenerNamePlain(port);
    ListenersComeFromEndpoints(eps, l);
    UsernamePlain(u, ownPort);
    EndpointTarget(env, p, eps, ownPort, answers, u);
    RuleDecodes(l.name, u.username, TargetAt(RenderGroups(env, p, answers).target, u.relay));
  }

  function UserRules(env: Loader, p: Plan, answers: seq<seq<Node>>): seq<string>
    requires |answers| == |SubsRead(p.relays)|
  {
    RenderSpec.AddListeners(Inbound([], [], map[]), p.listeners, RenderGroups(env, p, answers).target).rules
  }

  /** A user rule that matches comes from the listener and one of its users with that username. */
  lemma MatchingLine(env: Loader, p: Plan, eps: seq<Endpoint>, ownPort: int, answers: seq<seq<Node>>, l: ListenerSpec,
                     username: string, line: string)
    returns (u: Endpoint)
    requires Rendered(env, p, eps, ownPort, answers) && l in p.listeners
    requires line in UserRules(env, p, answers) && Matches(ParseRule(line), l.name, username)
    ensures Users(l, u) && u.username == username
    ensures ParseRule(line).target == TargetAt(RenderGroups(env, p, answers).target, u.relay)
  {
    var target := RenderGroups(env, p, answers).target;
    AddListenersRules(Inbound([], [], map[]), p.listeners, target, line);
    var l' :| l' in p.listeners && LineOf(l', target, line);
    u :| Users(l', u) && line == RuleLine(l'.name, u.username, TargetAt(target, u.relay));
    LineDecodes(env, p, eps, ownPort, answers, l', u);
    PlainMatches(l'.name, u.username, TargetAt(target, u.relay), l.name, username);
    ListenerByName(eps, l, l');
  }

  lemma UserByName(eps: seq<Endpoint>, l: ListenerSpec, u: Endpoint, u': Endpoint)
    requires Unambiguous(eps) && l in BuildListeners(eps) && Users(l, u) && Users(l, u') && u.username == u'.username
    ensures u == u'
  {
    ListenersComeFromEndpoints(eps, l);
    var i :| 0 <= i < |l.users| && l.users[i] == u;
    var j :| 0 <= j < |l.users| && l.users[j] == u';
  }

  /** First-match over the rules sends a user of a listener to the target of the user's relay. */
  lemma UserRouted(env: Loader, p: Plan, eps: seq<Endpoint>, ownPort: int, answers: seq<seq<Node>>, l: ListenerSpec,
                   u: Endpoint)
    requires Rendered(env, p, eps, ownPort, answers) && l in p.listeners && l.relay == "" && Users(l, u)
    ensures FirstMatch(RenderReads(env, p, answers).rules, l.name, u.username) ==
            Some(TargetAt(RenderGroups(env, p, answers).target, u.relay))
  {
    var target := RenderGroups(env, p, answers).target;
    var rules, t := UserRules(env, p, answers), TargetAt(target, u.relay);
    var mine := RuleLine(l.name, u.username, t);
    AddListenersRules(Inbound([], [], map[]), p.listeners, target, mine);
    assert LineOf(l, target, mine);
    LineDecodes(env, p, eps, ownPort, answers, l, u);
    PlainMatches(l.name, u.username, t, l.name, u.username);
    forall line | line in rules && Matches(ParseRule(line), l.name, u.username)
      ensures ParseRule(line).target == t
    {
      var u' := MatchingLine(env, p, eps, ownPort, answers, l, u.username, line);
      UserByName(eps, l, u, u');
    }
    FirstMatchFinds(rules, l.name, u.username, t);
  }

  lemma StrangerRejected(env: Loader, p: Plan, eps: seq<Endpoint>, ownPort: int, answers: seq<seq<Node>>,
                         l: ListenerSpec, username: string)
    requires Rendered(env, p, eps, ownPort, answers) && l in p.listeners
    requires forall u | Users(l, u) :: u.username != username
    ensures FirstMatch(RenderReads(env, p, answers).rules, l.name, username) == Some("REJECT")
  {
    var rules := UserRules(env, p, answers);
    forall line | line in rules
      ensures !Matches(ParseRule(line), l.name, username)
    {
      if Matches(ParseRule(line), l.name, username) {
        var u := MatchingLine(env, p, eps, ownPort, answers, l, username, line);
      }
    }
    FirstMatchFinds(rules, l.name, username, "REJECT");
  }

  lemma RenderedListener(env: Loader, p: Plan, eps: seq<Endpoint>, ownPort: int, answers: seq<seq<Node>>,
                         l: ListenerSpec)
    requires Rendered(env, p, eps, ownPort, answers) && l in p.listeners
    ensures FindListener(RenderReads(env, p, answers).listeners, l.name) ==
            Some(ListenerConfig(l, RenderGroups(env, p, answers).target))
  {
    var target := RenderGroups(env, p, answers).target;
    AddListenersConfigs(Inbound([], [], map[]), p.listeners, target);
    assert [] + ListenerConfigs(p.listeners, target) == ListenerConfigs(p.listeners, target);
    forall l' | l' in p.listeners && l'.name == l.name
      ensures l' == l
    {
      ListenerByName(eps, l, l');
    }
    FindUniqueListener(p.listeners, target, l);
  }

  /** A listener has at most one entry for a route. */
  lemma EntryUnique(eps: seq<Endpoint>, l: ListenerSpec, target: map<string, string>, r: Route, rt: RouteTarget,
                    rt': RouteTarget)
    requires Unambiguous(eps) && l in BuildListeners(eps) && EntryOf(l, target, r, rt) && EntryOf(l, target, r, rt')
    ensures rt == rt'
  {
    if l.relay == "" {
      var u :| Users(l, u) && r == Route(l.name, u.username) &&
        rt == RouteTarget(u.password, TargetAt(target, u.relay));
      var u' :| Users(l, u') && r == Route(l.name, u'.username) &&
        rt' == RouteTarget(u'.password, TargetAt(target, u'.relay));
      UserByName(eps, l, u, u');
    }
  }

  lemma RoutesAre(env: Loader, p: Plan, answers: seq<seq<Node>>)
    requires |answers| == |SubsRead(p.relays)|
    ensures RenderReads(env, p, answers).routes ==
            RenderSpec.AddListeners(Inbound([], [], map[]), p.listeners, RenderGroups(env, p, answers).target).routes
  {
    hide RenderGroups, RenderSpec.AddListeners;
  }

  lemma ListenersAre(env: Loader, p: Plan, eps: seq<Endpoint>, ownPort: int, answers: seq<seq<Node>>)
    requires Rendered(env, p, eps, ownPort, answers)
    ensures p.listeners == BuildListeners(eps) && Unambiguous(eps) && forall e | e in eps :: e.port >= 1
  {
  }

  /** A recorded route comes from an entry of the listener it names. */
  lemma RecordedEntry(env: Loader, p: Plan, eps: seq<Endpoint>, ownPort: int, answers: seq<seq<Node>>, l: ListenerSpec,
                      r: Route)
    requires Rendered(env, p, eps, ownPort, answers) && l in p.listeners && r.listener == l.name
    requires r in RenderReads(env, p, answers).routes
    ensures EntryOf(l, RenderGroups(env, p, answers).target, r, RenderReads(env, p, answers).routes[r])
  {
    hide RenderReads, RenderGroups, Ready, GoodEndpoint, BuildListeners;
    var target, rt := RenderGroups(env, p, answers).target, RenderReads(env, p, answers).routes[r];
    RoutesAre(env, p, answers);
    ListenersAre(env, p, eps, ownPort, answers);
    AddListenersRoutes(Inbound([], [], map[]), p.listeners, target, r, rt);
    var l' :| l' in p.listeners && EntryOf(l', target, r, rt);
    ListenerByName(eps, l, l');
  }

  /** The route recorded for an entry of a listener is that entry's. */
  lemma RouteRecorded(env: Loader, p: Plan, eps: seq<Endpoint>, ownPort: int, answers: seq<seq<Node>>, l: ListenerSpec,
                      r: Route, rt: RouteTarget)
    requires Rendered(env, p, eps, ownPort, answers) && l in p.listeners && r.listener == l.name
    requires EntryOf(l, RenderGroups(env, p, answers).target, r, rt)
    ensures var routes := RenderReads(env, p, answers).routes; r in routes && routes[r] == rt
  {
    hide RenderReads, RenderGroups, Ready, GoodEndpoint, BuildListeners;
    var target := RenderGroups(env, p, answers).target;
    RoutesAre(env, p, answers);
    ListenersAre(env, p, eps, ownPort, answers);
    AddListenersRoutes(Inbound([], [], map[]), p.listeners, target, r, rt);
    RecordedEntry(env, p, eps, ownPort, answers, l, r);
    EntryUnique(eps, l, target, r, rt, RenderReads(env, p, answers).routes[r]);
  }

  lemma UserAdmitted(l: ListenerSpec, target: map<string, string>, u: Endpoint)
    requires l.relay == "" && Users(l, u)
    ensures Admits(ListenerConfig(l, target), u.username, u.password)
  {
    var i :| 0 <= i < |l.users| && l.users[i] == u;
    assert ListenerConfig(l, target)["users"].xs[i] == UserEntry(u);
  }

  lemma ListenerForEndpoint(eps: seq<Endpoint>, e: Endpoint) returns (l: ListenerSpec)
    requires Unambiguous(eps) && e in eps && forall x | x in eps :: x.port >= 1
    ensures l in BuildListeners(eps) && Serves(l, e) && l.name == ListenerName(e.port)
  {
    l := PlanServesEveryone(eps, e);
    var _ := ListenerOf(eps, l);
  }

  lemma OwnerReached(env: Loader, p: Plan, eps: seq<Endpoint>, ownPort: int, answers: seq<seq<Node>>, l: ListenerSpec)
    requires Rendered(env, p, eps, ownPort, answers) && l in p.listeners && l.relay != ""
    ensures var d, t := RenderReads(env, p, answers), TargetAt(RenderGroups(env, p, answers).target, l.relay);
            && FindListener(d.listeners, l.name).Some? && Admits(FindListener(d.listeners, l.name).value, "", "")
            && Evaluate(d, l.name, "") == Some(t)
            && Route(l.name, "") in d.routes && d.routes[Route(l.name, "")] == RouteTarget("", t)
  {
    hide RenderReads, RenderGroups, FindListener, Admits, Evaluate, ListenerConfig, FirstMatch;
    var target := RenderGroups(env, p, answers).target;
    RenderedListener(env, p, eps, ownPort, answers, l);
    RouteRecorded(env, p, eps, ownPort, answers, l, Route(l.name, ""), RouteTarget("", TargetAt(target, l.relay)));
    OwnerServed(RenderReads(env, p, answers), target, l);
  }

  lemma OwnerServed(d: Desired, target: map<string, string>, l: ListenerSpec)
    requires l.relay != "" && FindListener(d.listeners, l.name) == Some(ListenerConfig(l, target))
    ensures Admits(FindListener(d.listeners, l.name).value, "", "")
    ensures Evaluate(d, l.name, "") == Some(TargetAt(target, l.relay))
  {
  }

  lemma UserServedBy(d: Desired, target: map<string, string>, l: ListenerSpec, u: Endpoint)
    requires l.relay == "" && Users(l, u) && FindListener(d.listeners, l.name) == Some(ListenerConfig(l, target))
    ensures Admits(FindListener(d.listeners, l.name).value, u.username, u.password)
    ensures Evaluate(d, l.name, u.username) == FirstMatch(d.rules, l.name, u.username)
  {
    UserAdmitted(l, target, u);
  }

  lemma StrangerServedBy(d: Desired, target: map<string, string>, l: ListenerSpec, username: string)
    requires l.relay == "" && l.users != [] && FindListener(d.listeners, l.name) == Some(ListenerConfig(l, target))
    requires forall u | Users(l, u) :: u.username != username
    ensures forall password: string :: !Admits(FindListener(d.listeners, l.name).value, username, password)
    ensures Evaluate(d, l.name, username) == FirstMatch(d.rules, l.name, username)
  {
    forall password: string
      ensures !Admits(ListenerConfig(l, target), username, password)
    {
      StrangerNotAdmitted(l, target, username, password);
    }
  }

  lemma UserReached(env: Loader, p: Plan, eps: seq<Endpoint>, ownPort: int, answers: seq<seq<Node>>, l: ListenerSpec,
                    u: Endpoint)
    requires Rendered(env, p, eps, ownPort, answers) && l in p.listeners && l.relay == "" && Users(l, u)
    ensures var d, t := RenderReads(env, p, answers), TargetAt(RenderGroups(env, p, answers).target, u.relay);
            && FindListener(d.listeners, l.name).Some? &&
               Admits(FindListener(d.listeners, l.name).value, u.username, u.password)
            && Evaluate(d, l.name, u.username) == Some(t)
            && Route(l.name, u.username) in d.routes &&
               d.routes[Route(l.name, u.username)] == RouteTarget(u.password, t)
  {
    hide RenderReads, RenderGroups, FindListener, Admits, Evaluate, ListenerConfig, FirstMatch;
    var target := RenderGroups(env, p, answers).target;
    RenderedListener(env, p, eps, ownPort, answers, l);
    UserServedBy(RenderReads(env, p, answers), target, l, u);
    UserRouted(env, p, eps, ownPort, answers, l, u);
    RouteRecorded(env, p, eps, ownPort, answers, l, Route(l.name, u.username),
                  RouteTarget(u.password, TargetAt(target, u.relay)));
  }

  /**
   * End-to-end routing: the listener on a kept endpoint's port admits its credentials, sends the
   * caller to the relay that owns them (or rejects the caller if that relay has no usable
   * upstream), and the same target is on record in the routes.
   */
  lemma CallerReachesOwner(env: Loader, p: Plan, eps: seq<Endpoint>, ownPort: int, answers: seq<seq<Node>>, e: Endpoint)
    requires Rendered(env, p, eps, ownPort, answers) && e in eps
    ensures var d := RenderReads(env, p, answers);
            var name, t := ListenerName(e.port), Target(d, e.relay);
            && FindListener(d.listeners, name).Some? &&
               Admits(FindListener(d.listeners, name).value, e.username, e.password)
            && Evaluate(d, name, e.username) == Some(t)
            && Route(name, e.username) in d.routes && d.routes[Route(name, e.username)] == RouteTarget(e.password, t)
  {
    EndpointTarget(env, p, eps, ownPort, answers, e);
    var l := ListenerForEndpoint(eps, e);
    if e.username == "" {
      OwnerReached(env, p, eps, ownPort, answers, l);
    } else {
      var u :| Users(l, u) && u.username == e.username && u.relay == e.relay && u.password == e.password;
      UserReached(env, p, eps, ownPort, answers, l, u);
    }
  }

  /**
   * On a port with authentication, a username that no kept endpoint has there is admitted with no
   * password, is rejected by the rules, and has no route.
   */
  lemma StrangersGoNowhere(env: Loader, p: Plan, eps: seq<Endpoint>, ownPort: int, answers: seq<seq<Node>>, e: Endpoint,
                           username: string)
    requires Rendered(env, p, eps, ownPort, answers) && e in eps && e.username != ""
    requires forall x | x in eps && x.port == e.port :: x.username != username
    ensures var d, name := RenderReads(env, p, answers), ListenerName(e.port);
            && FindListener(d.listeners, name).Some?
            && (forall password: string :: !Admits(FindListener(d.listeners, name).value, username, password))
            && Evaluate(d, name, username) == Some("REJECT")
            && Route(name, username) !in d.routes
  {
    var l := ListenerForEndpoint(eps, e);
    ListenersComeFromEndpoints(eps, l);
    StrangerAtListener(env, p, eps, ownPort, answers, l, username);
  }

  lemma StrangerAtListener(env: Loader, p: Plan, eps: seq<Endpoint>, ownPort: int, answers: seq<seq<Node>>,
                           l: ListenerSpec, username: string)
    requires Rendered(env, p, eps, ownPort, answers) && l in p.listeners && l.relay == "" && l.users != []
    requires forall u | Users(l, u) :: u.username != username
    ensures var d := RenderReads(env, p, answers);
            && FindListener(d.listeners, l.name).Some?
            && (forall password: string :: !Admits(FindListener(d.listeners, l.name).value, username, password))
            && Evaluate(d, l.name, username) == Some("REJECT")
            && Route(l.name, username) !in d.routes
  {
    var target := RenderGroups(env, p, answers).target;
    RenderedListener(env, p, eps, ownPort, answers, l);
    StrangerRejected(env, p, eps, ownPort, answers, l, username);
    StrangerServedBy(RenderReads(env, p, answers), target, l, username);
    NoStrangerRoute(env, p, eps, ownPort, answers, l, username);
  }

  lemma StrangerNotAdmitted(l: ListenerSpec, target: map<string, string>, username: string, password: string)
    requires l.relay == "" && l.users != [] && forall u | Users(l, u) :: u.username != username
    ensures !Admits(ListenerConfig(l, target), username, password)
  {
    var m := ListenerConfig(l, target);
    forall i | 0 <= i < |l.users|
      ensures m["users"].xs[i].fields["username"] != Str(username)
    {
      assert Users(l, l.users[i]);
    }
  }

  lemma NoStrangerRoute(env: Loader, p: Plan, eps: seq<Endpoint>, ownPort: int, answers: seq<seq<Node>>,
                        l: ListenerSpec, username: string)
    requires Rendered(env, p, eps, ownPort, answers) && l in p.listeners && l.relay == ""
    requires forall u | Users(l, u) :: u.username != username
    ensures Route(l.name, username) !in RenderReads(env, p, answers).routes
  {
    if Route(l.name, username) in RenderReads(env, p, answers).routes {
      RecordedEntry(env, p, eps, ownPort, answers, l, Route(l.name, username));
    }
  }

  /** A port without a kept endpoint has no listener. */
  lemma NoEndpointNoListener(env: Loader, p: Plan, eps: seq<Endpoint>, ownPort: int, answers: seq<seq<Node>>, port: nat,
                             username: string)
    requires Rendered(env, p, eps, ownPort, answers) && forall e | e in eps :: e.port != port
    ensures Evaluate(RenderReads(env, p, answers), ListenerName(port), username) == None
  {
    var target := RenderGroups(env, p, answers).target;
    AddListenersConfigs(Inbound([], [], map[]), p.listeners, target);
    assert [] + ListenerConfigs(p.listeners, target) == ListenerConfigs(p.listeners, target);
    forall l | l in p.listeners
      ensures l.name != ListenerName(port)
    {
      var q := ListenerOf(eps, l);
      if l.name == ListenerName(port) {
        ListenerNameInjective(q, port);
      }
    }
    FindNoListener(p.listeners, target, ListenerName(port));
  }
}
