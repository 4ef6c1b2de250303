// The YAML document of a desired state (desired.yaml) decides the rest of it: routes can be read
// back from listeners and rules, members from groups. Change detection by document is therefore exact.
module Document {
  import opened Wrappers
  import opened Values
  import opened Text
  import opened RelayTypes
  import opened PlanSpec
  import opened RenderSpec
  import opened RenderProofs
  import Routing

  /** What desired.yaml marshals, next to settings that never change. */
  datatype Doc = Doc(proxies: seq<Config>, groups: seq<Config>, listeners: seq<Config>, rules: seq<string>)

  function DocOf(d: Desired): Doc {
    Doc(d.proxies, d.groups, d.listeners, d.rules)
  }

  // Reading routes back

  function StrField(v: Value, field: string): string {
    if v.Dict? && field in v.fields && v.fields[field].Str? then v.fields[field].s else ""
  }

  /** What follows the prefix that the listener and username determine. */
  function TargetIn(line: string, listener: string, username: string): string {
    var n := |RuleLine(listener, username, "")|;
    if n <= |line| then line[n..] else ""
  }

  function UserRoutes(listener: string, users: seq<Value>, rules: seq<string>,
                      acc: map<Route, RouteTarget>): map<Route, RouteTarget>
    decreases |users|
  {
    if users == [] || rules == [] then acc
    else
      var u := StrField(users[0], "username");
      var rt := RouteTarget(StrField(users[0], "password"), TargetIn(rules[0], listener, u));
      UserRoutes(listener, users[1..], rules[1..], acc[Route(listener, u) := rt])
  }

  function UsersIn(m: Config): seq<Value> {
    if "users" in m && m["users"].List? then m["users"].xs else []
  }

  function RoutesIn(listeners: seq<Config>, rules: seq<string>, acc: map<Route, RouteTarget>): map<Route, RouteTarget>
    decreases |listeners|
  {
    if listeners == [] then acc
    else
      var m := listeners[0];
      if "proxy" in m then
        RoutesIn(listeners[1..], rules, acc[Route(Name(m), "") := RouteTarget("", StrField(Dict(m), "proxy"))])
      else
        var n := |UsersIn(m)|;
        if n > |rules| then acc
        else RoutesIn(listeners[1..], rules[n..], UserRoutes(Name(m), UsersIn(m), rules[..n], acc))
  }

  // They are what rendering recorded

  function UserLines(listener: string, users: seq<Endpoint>, target: map<string, string>): seq<string> {
    seq(|users|, i requires 0 <= i < |users| => RuleLine(listener, users[i].username, TargetAt(target, users[i].relay)))
  }

  function LinesFor(l: ListenerSpec, target: map<string, string>): seq<string> {
    if l.relay != "" then [] else UserLines(l.name, l.users, target)
  }

  function AllLines(ls: seq<ListenerSpec>, target: map<string, string>): seq<string> {
    if ls == [] then [] else LinesFor(ls[0], target) + AllLines(ls[1..], target)
  }

  lemma TargetReadBack(listener: string, username: string, target: string)
    ensures TargetIn(RuleLine(listener, username, target), listener, username) == target
  {
    var head := "AND," + AndPayload("IN-NAME," + listener, "IN-USER," + username) + ",";
    assert head + [] == head;
    DropPrefix(head, target);
  }

  lemma FirstUser(listener: string, users: seq<Endpoint>, target: map<string, string>)
    requires users != []
    ensures UserList(users).xs[0] == UserEntry(users[0]) && UserList(users).xs[1..] == UserList(users[1..]).xs
    ensures var lines, rest := UserLines(listener, users, target), UserLines(listener, users[1..], target);
            && lines[0] == RuleLine(listener, users[0].username, TargetAt(target, users[0].relay))
            && lines[1..] == rest && lines == [lines[0]] + rest
  {
  }

  lemma {:induction false} UsersReadBack(b: Inbound, listener: string, users: seq<Endpoint>,
                                         target: map<string, string>)
    ensures var b' := AddUsers(b, listener, users, target);
            && b'.rules == b.rules + UserLines(listener, users, target)
            && b'.routes == UserRoutes(listener, UserList(users).xs, UserLines(listener, users, target), b.routes)
    decreases |users|
  {
    if users == [] {
      assert b.rules + UserLines(listener, users, target) == b.rules;
    } else {
      var u, t := users[0], TargetAt(target, users[0].relay);
      var line := RuleLine(listener, u.username, t);
      var b1 := b.(rules := b.rules + [line],
                   routes := b.routes[Route(listener, u.username) := RouteTarget(u.password, t)]);
      var lines := UserLines(listener, users, target);
      TargetReadBack(listener, u.username, t);
      UsersReadBack(b1, listener, users[1..], target);
      FirstUser(listener, users, target);
      Associate(b.rules, [line], lines[1..]);
    }
  }

  lemma ListenerReadBack(l: ListenerSpec, target: map<string, string>)
    ensures var m := ListenerConfig(l, target);
            && Name(m) == l.name && ("proxy" in m <==> l.relay != "")
            && (l.relay != "" ==> StrField(Dict(m), "proxy") == TargetAt(target, l.relay))
            && (l.relay == "" ==> UsersIn(m) == UserList(l.users).xs)
  {
  }

  lemma {:induction false} ListenersReadBack(b: Inbound, ls: seq<ListenerSpec>, target: map<string, string>)
    ensures var b' := RenderSpec.AddListeners(b, ls, target);
            && b'.rules == b.rules + AllLines(ls, target)
            && b'.routes == RoutesIn(Routing.ListenerConfigs(ls, target), AllLines(ls, target), b.routes)
    decreases |ls|
  {
    hide ListenerConfig, StrField, UsersIn, Name;
    var ms := Routing.ListenerConfigs(ls, target);
    if ls == [] {
      assert b.rules + AllLines(ls, target) == b.rules;
    } else {
      var l, rest := ls[0], AllLines(ls[1..], target);
      var b1 := AddListener(b, l, target);
      ListenerReadBack(l, target);
      ListenersReadBack(b1, ls[1..], target);
      assert ms[0] == ListenerConfig(l, target) && ms[1..] == Routing.ListenerConfigs(ls[1..], target);
      var mine := LinesFor(l, target);
      if l.relay != "" {
        assert mine + rest == rest;
      } else {
        UsersReadBack(b, l.name, l.users, target);
        Associate(b.rules, mine, rest);
        assert (mine + rest)[..|mine|] == mine && (mine + rest)[|mine|..] == rest;
      }
    }
  }

  lemma RoutesFromDoc(env: Loader, p: Plan, answers: seq<seq<Node>>)
    requires |answers| == |SubsRead(p.relays)|
    ensures var d := RenderReads(env, p, answers);
            d.rules != [] && d.routes == RoutesIn(d.listeners, d.rules[..|d.rules| - 1], map[])
  {
    var target := RenderGroups(env, p, answers).target;
    var i := RenderSpec.AddListeners(Inbound([], [], map[]), p.listeners, target);
    ListenersReadBack(Inbound([], [], map[]), p.listeners, target);
    Routing.AddListenersConfigs(Inbound([], [], map[]), p.listeners, target);
    var ms, lines := Routing.ListenerConfigs(p.listeners, target), AllLines(p.listeners, target);
    assert [] + lines == lines && [] + ms == ms;
    assert i.rules == lines && i.listeners == ms;
    assert i.routes == RoutesIn(ms, lines, map[]);
    var d := RenderReads(env, p, answers);
    assert d.rules == lines + ["MATCH,REJECT"] && d.rules[..|d.rules| - 1] == lines;
    assert d.listeners == ms && d.routes == i.routes;
  }

  lemma MembersFromGroups(d: Desired, d': Desired)
    requires WellFormed(d) && WellFormed(d') && d.groups == d'.groups
    ensures d.members == d'.members
  {
    forall n | n in d.members
      ensures n in d'.members && d.members[n] == d'.members[n]
    {
      var m :| m in d.groups && Name(m) == n;
    }
    assert d.members.Keys == d'.members.Keys;
  }

  /** Two rendered states with one document are the same, routes and members included. */
  lemma DocDetermines(env: Loader, p: Plan, answers: seq<seq<Node>>, p': Plan, answers': seq<seq<Node>>)
    requires |answers| == |SubsRead(p.relays)| && |answers'| == |SubsRead(p'.relays)|
    requires DistinctRelays(p.relays) && DistinctRelays(p'.relays)
    requires DocOf(RenderReads(env, p, answers)) == DocOf(RenderReads(env, p', answers'))
    ensures RenderReads(env, p, answers) == RenderReads(env, p', answers')
  {
    RoutesFromDoc(env, p, answers);
    RoutesFromDoc(env, p', answers');
    RenderWellFormed(env, p, answers);
    RenderWellFormed(env, p', answers');
    MembersFromGroups(RenderReads(env, p, answers), RenderReads(env, p', answers'));
  }

  /** Marshalled bytes determine the document. */
  ghost predicate Legible(yaml: Doc -> Option<string>) {
    forall a, b | yaml(a).Some? && yaml(a) == yaml(b) :: a == b
  }

  /** Two rendered states marshal to the same bytes exactly when they are the same. */
  lemma BytesDetermine(yaml: Doc -> Option<string>, env: Loader, p: Plan, answers: seq<seq<Node>>, p': Plan,
                       answers': seq<seq<Node>>)
    requires Legible(yaml) && |answers| == |SubsRead(p.relays)| && |answers'| == |SubsRead(p'.relays)|
    requires DistinctRelays(p.relays) && DistinctRelays(p'.relays)
    requires yaml(DocOf(RenderReads(env, p, answers))).Some?
    ensures yaml(DocOf(RenderReads(env, p, answers))) == yaml(DocOf(RenderReads(env, p', answers'))) <==>
            RenderReads(env, p, answers) == RenderReads(env, p', answers')
  {
    hide RenderReads, DocOf;
    if yaml(DocOf(RenderReads(env, p, answers))) == yaml(DocOf(RenderReads(env, p', answers'))) {
      DocDetermines(env, p, answers, p', answers');
    }
  }
}
