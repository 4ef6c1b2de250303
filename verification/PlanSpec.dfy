// The relay plan (internal/relay/plan.go) as functions: validation of one relay, the relays a
// downstream conflict rejects, and the listeners of what is kept.
module PlanSpec {
  import opened Wrappers
  import opened Values
  import opened Text
  import opened Decimal
  import opened ConfigTypes
  import opened Sorting

  datatype Strategy = Strategy(groupType: string, loadBalance: string)

  const STRATEGIES: map<string, Strategy> := map[
    "url-test" := Strategy("url-test", ""),
    "fallback" := Strategy("fallback", ""),
    "round-robin" := Strategy("load-balance", "round-robin"),
    "consistent-hashing" := Strategy("load-balance", "consistent-hashing"),
    "sticky-sessions" := Strategy("load-balance", "sticky-sessions")]

  const LISTENER_TYPES: map<string, string> := map["http" := "http", "socks5" := "socks", "mixed" := "mixed"]

  const BUILTIN_PROXIES: set<string> :=
    {"DIRECT", "REJECT", "REJECT-DROP", "PASS", "PASS-RULE", "COMPATIBLE", "GLOBAL"}

  datatype UpstreamSpec = Inline(proxy: Config) | Sub(name: string)

  datatype RelaySpec = RelaySpec(name: string, strategy: string, upstreams: seq<UpstreamSpec>)

  datatype Endpoint = Endpoint(relay: string, typ: string, listen: string, port: int, username: string,
                               password: string)

  /** A port has an owner ("" with authentication) or users, one per username. */
  datatype ListenerSpec = ListenerSpec(name: string, typ: string, listen: string, port: int, relay: string,
                                       users: seq<Endpoint>)

  datatype Plan = Plan(relays: seq<RelaySpec>, listeners: seq<ListenerSpec>)

  datatype DownstreamError =
    | UnknownType | PortRequired | PortOutOfRange | OwnListenPort
    | PasswordWithoutUsername | UsernameWithoutPassword | BadUsername

  datatype RelayError =
    | DuplicateName | NameRequired | BadName | ReservedName | UnknownStrategy
    | NoUpstream | InvalidSubURL(i: nat) | UnknownSub(i: nat) | StrayInterval(i: nat) | BadProxy(i: nat)
    | NoDownstream | BadDownstream(i: nat, error: DownstreamError)
    | ListenDiffers(port: int) | MixedAuth(port: int) | TwoPasswords(port: int, username: string)

  type Loads = Config -> bool

  function AppendUnique(list: seq<string>, s: string): seq<string> {
    if s in list then list else list + [s]
  }

  // One relay

  predicate HasSurroundingSpace(s: string) {
    TrimSpace(s) != s
  }

  function CheckRelayName(name: string): Option<RelayError> {
    if name == "" then Some(NameRequired)
    else if ',' in name || HasSurroundingSpace(name) then Some(BadName)
    else if name in BUILTIN_PROXIES then Some(ReservedName)
    else None
  }

  /** checkProxy: loads an upstream the way mihomo will. */
  predicate CheckProxy(loads: Loads, m: Config) {
    loads(m["name" := Str("check")])
  }

  function CheckUpstream(loads: Loads, up: Upstream, i: nat, knownSubs: set<string>): Result<UpstreamSpec, RelayError> {
    if up.sub != "" && up.subName == "" then Failure(InvalidSubURL(i))
    else if up.sub != "" && up.subName !in knownSubs then Failure(UnknownSub(i))
    else if up.interval != 0 && !IsSubURL(up.sub) then Failure(StrayInterval(i))
    else if up.sub != "" then Success(Sub(up.subName))
    else if CheckProxy(loads, up.proxy) then Success(Inline(up.proxy))
    else Failure(BadProxy(i))
  }

  function CheckUpstreams(loads: Loads, ups: seq<Upstream>, knownSubs: set<string>, i: nat,
                          specs: seq<UpstreamSpec>): Result<seq<UpstreamSpec>, RelayError>
    requires i <= |ups|
    decreases |ups| - i
  {
    if i == |ups| then Success(specs)
    else
      match CheckUpstream(loads, ups[i], i, knownSubs)
      case Failure(e) => Failure(e)
      case Success(spec) => CheckUpstreams(loads, ups, knownSubs, i + 1, specs + [spec])
  }

  predicate ForbiddenInUsername(c: char) {
    c == ',' || c == '/' || c == '(' || c == ')' || c == ':'
  }

  predicate ContainsForbidden(s: string) {
    exists i | 0 <= i < |s| :: ForbiddenInUsername(s[i])
  }

  function CheckDownstream(d: Downstream, relay: string, ownPort: int): Result<Endpoint, DownstreamError> {
    var typ := if d.typ == "" then "mixed" else d.typ;
    if typ !in LISTENER_TYPES then Failure(UnknownType)
    else if d.port == 0 then Failure(PortRequired)
    else if d.port < 0 || d.port > 65535 then Failure(PortOutOfRange)
    else if d.port == ownPort then Failure(OwnListenPort)
    else if d.username == "" && d.password != "" then Failure(PasswordWithoutUsername)
    else if d.username != "" && d.password == "" && typ != "http" then Failure(UsernameWithoutPassword)
    else if ContainsForbidden(d.username) || HasSurroundingSpace(d.username) then Failure(BadUsername)
    else Success(Endpoint(relay, typ, d.listen, d.port, d.username, d.password))
  }

  function CheckDownstreams(ds: seq<Downstream>, relay: string, ownPort: int, i: nat,
                            eps: seq<Endpoint>): Result<seq<Endpoint>, RelayError>
    requires i <= |ds|
    decreases |ds| - i
  {
    if i == |ds| then Success(eps)
    else
      match CheckDownstream(ds[i], relay, ownPort)
      case Failure(e) => Failure(BadDownstream(i, e))
      case Success(e) => CheckDownstreams(ds, relay, ownPort, i + 1, eps + [e])
  }

  /** Why two downstreams of one relay cannot share a listener, if they cannot. */
  function Clash(prev: Endpoint, e: Endpoint): Option<RelayError> {
    if prev.port != e.port then None
    else if prev.listen != e.listen then Some(ListenDiffers(e.port))
    else if (prev.username == "") != (e.username == "") then Some(MixedAuth(e.port))
    else if prev.username == e.username && prev.password != e.password then Some(TwoPasswords(e.port, e.username))
    else None
  }

  function ClashBefore(eps: seq<Endpoint>, i: nat, j: nat): Option<RelayError>
    requires j <= i < |eps|
    decreases i - j
  {
    if j == i then None
    else if Clash(eps[j], eps[i]).Some? then Clash(eps[j], eps[i])
    else ClashBefore(eps, i, j + 1)
  }

  function CheckOwnPorts(eps: seq<Endpoint>, i: nat): Option<RelayError>
    requires i <= |eps|
    decreases |eps| - i
  {
    if i == |eps| then None
    else if ClashBefore(eps, i, 0).Some? then ClashBefore(eps, i, 0)
    else CheckOwnPorts(eps, i + 1)
  }

  datatype ValidRelay = ValidRelay(spec: RelaySpec, endpoints: seq<Endpoint>)

  function ValidateRelay(loads: Loads, r: Relay, knownSubs: set<string>, ownPort: int): Result<ValidRelay, RelayError> {
    if CheckRelayName(r.name).Some? then Failure(CheckRelayName(r.name).value)
    else
      var strategy := if r.strategy == "" then "url-test" else r.strategy;
      if strategy !in STRATEGIES then Failure(UnknownStrategy)
      else if r.upstream == [] then Failure(NoUpstream)
      else
        match CheckUpstreams(loads, r.upstream, knownSubs, 0, [])
        case Failure(e) => Failure(e)
        case Success(ups) =>
          if r.downstream == [] then Failure(NoDownstream)
          else
            match CheckDownstreams(r.downstream, r.name, ownPort, 0, [])
            case Failure(e) => Failure(e)
            case Success(eps) =>
              if CheckOwnPorts(eps, 0).Some? then Failure(CheckOwnPorts(eps, 0).value)
              else Success(ValidRelay(RelaySpec(r.name, strategy, ups), eps))
  }

  // All relays

  function RelayNames(relays: seq<Relay>): seq<string> {
    seq(|relays|, i requires 0 <= i < |relays| => relays[i].name)
  }

  predicate Duplicated(names: multiset<string>, r: Relay) {
    r.name != "" && names[r.name] > 1
  }

  function JudgeRelay(loads: Loads, names: multiset<string>, r: Relay, knownSubs: set<string>,
                      ownPort: int): Result<ValidRelay, RelayError> {
    if Duplicated(names, r) then Failure(DuplicateName) else ValidateRelay(loads, r, knownSubs, ownPort)
  }

  /** The valid relays, in config order. */
  function ValidRelays(loads: Loads, names: multiset<string>, relays: seq<Relay>, knownSubs: set<string>,
                       ownPort: int): seq<ValidRelay> {
    if relays == [] then []
    else
      var rest := ValidRelays(loads, names, relays[1..], knownSubs, ownPort);
      match JudgeRelay(loads, names, relays[0], knownSubs, ownPort)
      case Failure(_) => rest
      case Success(v) => [v] + rest
  }

  ghost predicate DistinctRelays(relays: seq<RelaySpec>) {
    forall i, j | 0 <= i < j < |relays| :: relays[i].name != relays[j].name
  }

  function EndpointsOf(vs: seq<ValidRelay>): seq<Endpoint> {
    if vs == [] then [] else vs[0].endpoints + EndpointsOf(vs[1..])
  }

  // Conflicts

  ghost predicate OnPort(eps: seq<Endpoint>, relay: string, port: int) {
    exists e | e in eps :: e.port == port && e.relay == relay
  }

  /** Two relays meet on the port. */
  ghost predicate Shared(eps: seq<Endpoint>, port: int) {
    exists e, e' | e in eps && e' in eps :: e.port == e'.port == port && e.relay != e'.relay
  }

  ghost predicate MixedListen(eps: seq<Endpoint>, port: int) {
    exists e, e' | e in eps && e' in eps :: e.port == e'.port == port && e.listen != e'.listen
  }

  ghost predicate WithoutUsername(eps: seq<Endpoint>, port: int) {
    exists e | e in eps :: e.port == port && e.username == ""
  }

  /** The relay and another one have the same username on the port. */
  ghost predicate SharesUsername(eps: seq<Endpoint>, relay: string, port: int) {
    exists e, e' | e in eps && e' in eps ::
      e.port == e'.port == port && e.relay == relay != e'.relay && e.username == e'.username
  }

  ghost predicate ConflictOn(eps: seq<Endpoint>, relay: string, port: int) {
    && OnPort(eps, relay, port) && Shared(eps, port)
    && (MixedListen(eps, port) || WithoutUsername(eps, port) || SharesUsername(eps, relay, port))
  }

  ghost predicate InConflict(eps: seq<Endpoint>, relay: string) {
    exists port :: ConflictOn(eps, relay, port)
  }

  // Listeners

  function AtPort(eps: seq<Endpoint>, port: int): (list: seq<Endpoint>)
    ensures forall e :: e in list <==> e in eps && e.port == port
  {
    if eps == [] then []
    else if eps[0].port == port then [eps[0]] + AtPort(eps[1..], port)
    else AtPort(eps[1..], port)
  }

  function Ports(eps: seq<Endpoint>): set<int> {
    set e | e in eps :: e.port
  }

  lemma AtPortOccupied(eps: seq<Endpoint>, port: int)
    requires port in Ports(eps)
    ensures AtPort(eps, port) != []
  {
    assert exists e :: e in eps && e.port == port;
  }

  function FirstPerUsername(list: seq<Endpoint>, seen: set<string>): seq<Endpoint> {
    if list == [] then []
    else if list[0].username in seen then FirstPerUsername(list[1..], seen)
    else [list[0]] + FirstPerUsername(list[1..], seen + {list[0].username})
  }

  function ListenerType(typ: string): string {
    if typ in LISTENER_TYPES then LISTENER_TYPES[typ] else ""
  }

  /** The first type, or mixed as soon as another one differs. */
  function CommonType(list: seq<Endpoint>): string
    requires list != []
  {
    if exists e | e in list :: ListenerType(e.typ) != ListenerType(list[0].typ) then "mixed"
    else ListenerType(list[0].typ)
  }

  function ListenerFor(port: int, list: seq<Endpoint>): ListenerSpec
    requires list != []
  {
    var noAuth := list[0].username == "";
    ListenerSpec("relay-" + Itoa(port), CommonType(list), list[0].listen, port,
                 if noAuth then list[0].relay else "",
                 if noAuth then [] else FirstPerUsername(list, {}))
  }

  function ListenersFor(eps: seq<Endpoint>, ports: seq<int>): seq<ListenerSpec>
    requires forall p | p in ports :: p in Ports(eps)
  {
    seq(|ports|, i requires 0 <= i < |ports| =>
      assert ports[i] in ports;
      AtPortOccupied(eps, ports[i]);
      ListenerFor(ports[i], AtPort(eps, ports[i])))
  }

  function BuildListeners(eps: seq<Endpoint>): seq<ListenerSpec> {
    ListenersFor(eps, Sorted(Ports(eps)))
  }

  // The plan

  ghost function Rejected(eps: seq<Endpoint>): set<string> {
    set e | e in eps && InConflict(eps, e.relay) :: e.relay
  }

  function KeepRelays(vs: seq<ValidRelay>, rejected: set<string>): seq<RelaySpec> {
    if vs == [] then []
    else if vs[0].spec.name in rejected then KeepRelays(vs[1..], rejected)
    else [vs[0].spec] + KeepRelays(vs[1..], rejected)
  }

  function KeepEndpoints(eps: seq<Endpoint>, rejected: set<string>): (kept: seq<Endpoint>)
    ensures forall e :: e in kept <==> e in eps && e.relay !in rejected
  {
    if eps == [] then []
    else if eps[0].relay in rejected then KeepEndpoints(eps[1..], rejected)
    else [eps[0]] + KeepEndpoints(eps[1..], rejected)
  }

  function PlanOf(vs: seq<ValidRelay>, rejected: set<string>): Plan {
    Plan(KeepRelays(vs, rejected), BuildListeners(KeepEndpoints(EndpointsOf(vs), rejected)))
  }

  function ValidOf(loads: Loads, relays: seq<Relay>, knownSubs: set<string>, ownPort: int): seq<ValidRelay> {
    ValidRelays(loads, multiset(RelayNames(relays)), relays, knownSubs, ownPort)
  }

  /** The conflict-free part of the relay config. */
  ghost function NewPlan(loads: Loads, relays: seq<Relay>, knownSubs: set<string>, ownPort: int): Plan {
    var vs := ValidOf(loads, relays, knownSubs, ownPort);
    PlanOf(vs, Rejected(EndpointsOf(vs)))
  }
}
