// Rendering a plan (internal/relay/render.go) as functions: the shared proxy registry, the
// groups and their members, listeners, rules and routes.
module RenderSpec {
  import opened Wrappers
  import opened Values
  import opened Names
  import opened RelayTypes
  import opened PlanSpec

  /** A sub node as the registry reads it: its display name and, if it has one, its Clash form. */
  datatype Node = Node(name: string, clash: Option<Config>)

  /** The content key (fmt.Sprint, Values.Key) and mihomo's proxy loader. */
  datatype Loader = Loader(key: Config -> string, loads: Config -> bool)

  datatype Registered = Registered(name: string, ok: bool)

  datatype Registry = Registry(used: set<string>, byContent: map<string, Registered>, proxies: seq<Config>)

  /** One upstream candidate: an inline proxy or a node of a sub. */
  datatype Item = Item(node: Node, isInline: bool)

  function StrOf(m: Config, field: string): string {
    if field !in m || m[field].Null? then "" else Sprint(m[field])
  }

  function FieldText(m: Config, field: string): string {
    if field in m then Sprint(m[field]) else "<nil>"
  }

  function DisplayName(name: string, m: Config): string {
    if name != "" then name
    else FieldText(m, "type") + " " + FieldText(m, "server") + ":" + FieldText(m, "port")
  }

  /** Sub nodes are shared by content without the name, inline proxies with it. */
  function ItemKey(env: Loader, m: Config, isInline: bool): string {
    if isInline then "inline " + env.key(m) else env.key(m - {"name"})
  }

  function Renamed(m: Config, name: string): Config {
    m["name" := Str(name)]
  }

  datatype Added = Added(reg: Registry, name: Option<string>)

  function Add(env: Loader, reg: Registry, item: Item): Added {
    if item.node.clash.None? then Added(reg, None)
    else
      var m := item.node.clash.value;
      var key := ItemKey(env, m, item.isInline);
      if key in reg.byContent then
        Added(reg, if reg.byContent[key].ok then Some(reg.byContent[key].name) else None)
      else if !CheckProxy(env.loads, m) then
        Added(reg.(byContent := reg.byContent[key := Registered("", false)]), None)
      else
        var name := FreshName(DisplayName(item.node.name, m), " ", reg.used);
        Added(reg.(used := reg.used + {name}, byContent := reg.byContent[key := Registered(name, true)],
                   proxies := reg.proxies + [Renamed(m, name)]),
              Some(name))
  }

  datatype Collected = Collected(reg: Registry, names: seq<string>)

  /** proxyRegistry.members: what the items run as, each name once. */
  function AddItems(env: Loader, c: Collected, items: seq<Item>): Collected
    decreases |items|
  {
    if items == [] then c
    else
      var a := Add(env, c.reg, items[0]);
      AddItems(env, Collected(a.reg, if a.name.Some? then AppendUnique(c.names, a.name.value) else c.names), items[1..])
  }

  // Reading the subs: answers[k] is what the k-th read returned.

  function SubsOf(ups: seq<UpstreamSpec>): seq<string> {
    if ups == [] then []
    else (if ups[0].Sub? then [ups[0].name] else []) + SubsOf(ups[1..])
  }

  /** The subs that rendering answers, in order. */
  function SubsRead(relays: seq<RelaySpec>): seq<string> {
    if relays == [] then [] else SubsOf(relays[0].upstreams) + SubsRead(relays[1..])
  }

  function NodeItems(nodes: seq<Node>): seq<Item> {
    seq(|nodes|, i requires 0 <= i < |nodes| => Item(nodes[i], false))
  }

  function ItemsOf(ups: seq<UpstreamSpec>, answers: seq<seq<Node>>): seq<Item>
    requires |answers| >= |SubsOf(ups)|
  {
    if ups == [] then []
    else match ups[0]
         case Inline(m) => [Item(Node(StrOf(m, "name"), Some(m)), true)] + ItemsOf(ups[1..], answers)
         case Sub(_) => NodeItems(answers[0]) + ItemsOf(ups[1..], answers[1..])
  }

  // Groups

  function RelayGroup(r: RelaySpec, members: seq<string>): Config {
    if |members| == 1 then
      map["name" := Str(r.name), "type" := Str("select"), "proxies" := StringList(members)]
    else
      var s := if r.strategy in STRATEGIES then STRATEGIES[r.strategy] else Strategy("", "");
      var g: Config := map["name" := Str(r.name), "type" := Str(s.groupType), "proxies" := StringList(members)];
      if s.loadBalance != "" then g["strategy" := Str(s.loadBalance)] else g
  }

  datatype Groups = Groups(
    reg: Registry, groups: seq<Config>, members: map<string, seq<string>>, target: map<string, string>)

  function AddRelay(env: Loader, b: Groups, r: RelaySpec, answers: seq<seq<Node>>): Groups
    requires |answers| >= |SubsOf(r.upstreams)|
  {
    var c := AddItems(env, Collected(b.reg, []), ItemsOf(r.upstreams, answers));
    if c.names == [] then
      b.(reg := c.reg, target := b.target[r.name := "REJECT"])
    else
      Groups(c.reg, b.groups + [RelayGroup(r, c.names)], b.members[r.name := c.names], b.target[r.name := r.name])
  }

  function AddRelays(env: Loader, b: Groups, relays: seq<RelaySpec>, answers: seq<seq<Node>>): Groups
    requires |answers| >= |SubsRead(relays)|
    decreases |relays|
  {
    if relays == [] then b
    else AddRelays(env, AddRelay(env, b, relays[0], answers), relays[1..], answers[|SubsOf(relays[0].upstreams)|..])
  }

  // Listeners, rules and routes

  function TargetAt(target: map<string, string>, relay: string): string {
    if relay in target then target[relay] else ""
  }

  function AndPayload(one: string, two: string): string {
    "((" + (one + (")" + (",(" + (two + (")" + ")")))))
  }

  function RuleLine(listener: string, username: string, target: string): string {
    "AND," + AndPayload("IN-NAME," + listener, "IN-USER," + username) + "," + target
  }

  function UserEntry(u: Endpoint): Value {
    Dict(map["username" := Str(u.username), "password" := Str(u.password)])
  }

  function UserList(users: seq<Endpoint>): Value {
    List(seq(|users|, i requires 0 <= i < |users| => UserEntry(users[i])))
  }

  function ListenerBase(l: ListenerSpec): Config {
    var m: Config := map["name" := Str(l.name), "type" := Str(l.typ), "port" := Int(l.port)];
    if l.listen != "" then m["listen" := Str(l.listen)] else m
  }

  function ListenerConfig(l: ListenerSpec, target: map<string, string>): Config {
    if l.relay != "" then
      // No users means that anyone may come in.
      var m := ListenerBase(l)["users" := List([])]["proxy" := Str(TargetAt(target, l.relay))];
      if l.typ != "http" then m["udp" := Bool(true)] else m
    else
      ListenerBase(l)["users" := UserList(l.users)]
  }

  datatype Inbound = Inbound(listeners: seq<Config>, rules: seq<string>, routes: map<Route, RouteTarget>)

  function AddUsers(b: Inbound, listener: string, users: seq<Endpoint>, target: map<string, string>): Inbound
    decreases |users|
  {
    if users == [] then b
    else
      var u := users[0];
      AddUsers(b.(rules := b.rules + [RuleLine(listener, u.username, TargetAt(target, u.relay))],
                  routes := b.routes[Route(listener, u.username) :=
                             RouteTarget(u.password, TargetAt(target, u.relay))]),
               listener, users[1..], target)
  }

  function AddListener(b: Inbound, l: ListenerSpec, target: map<string, string>): Inbound {
    var routed :=
      if l.relay != "" then b.(routes := b.routes[Route(l.name, "") := RouteTarget("", TargetAt(target, l.relay))])
      else AddUsers(b, l.name, l.users, target);
    routed.(listeners := b.listeners + [ListenerConfig(l, target)])
  }

  function AddListeners(b: Inbound, ls: seq<ListenerSpec>, target: map<string, string>): Inbound
    decreases |ls|
  {
    if ls == [] then b else AddListeners(AddListener(b, ls[0], target), ls[1..], target)
  }

  // Render

  function TakenNames(relays: seq<RelaySpec>): set<string> {
    BUILTIN_PROXIES + set r | r in relays :: r.name
  }

  function Start(relays: seq<RelaySpec>): Groups {
    Groups(Registry(TakenNames(relays), map[], []), [], map[], map[])
  }

  function RenderGroups(env: Loader, p: Plan, answers: seq<seq<Node>>): Groups
    requires |answers| == |SubsRead(p.relays)|
  {
    AddRelays(env, Start(p.relays), p.relays, answers)
  }

  /** The mihomo state for a plan and what its sub reads returned. */
  function RenderReads(env: Loader, p: Plan, answers: seq<seq<Node>>): Desired
    requires |answers| == |SubsRead(p.relays)|
  {
    var g := RenderGroups(env, p, answers);
    var i := AddListeners(Inbound([], [], map[]), p.listeners, g.target);
    Desired(g.reg.proxies, g.groups, i.listeners, i.rules + ["MATCH,REJECT"], i.routes, g.members)
  }

  function ReadAll(subs: seq<string>, source: string -> seq<Node>): seq<seq<Node>> {
    seq(|subs|, i requires 0 <= i < |subs| => source(subs[i]))
  }

  /** Plan.Render with a node source that does not change meanwhile. */
  function Render(env: Loader, p: Plan, source: string -> seq<Node>): Desired {
    RenderReads(env, p, ReadAll(SubsRead(p.relays), source))
  }
}
