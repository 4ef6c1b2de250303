// The mihomo state a plan asks for (render.go, "desired"), shared by the renderer and the core.
module RelayTypes {
  import opened Values

  /** Whom a caller comes in as: through which listener, and under which username, if any. */
  datatype Route = Route(listener: string, username: string)

  datatype RouteTarget = RouteTarget(password: string, target: string)

  const NO_TARGET := RouteTarget("", "")

  datatype Desired = Desired(
    proxies: seq<Config>,
    groups: seq<Config>,
    listeners: seq<Config>,
    rules: seq<string>,
    routes: map<Route, RouteTarget>,
    members: map<string, seq<string>>)

  /** Go's map read: the zero value for a missing route. */
  function RouteAt(routes: map<Route, RouteTarget>, r: Route): RouteTarget {
    if r in routes then routes[r] else NO_TARGET
  }

  function MembersAt(members: map<string, seq<string>>, group: string): seq<string> {
    if group in members then members[group] else []
  }

  function StringList(names: seq<string>): Value {
    List(seq(|names|, i requires 0 <= i < |names| => Str(names[i])))
  }

  /** The member names in a group config. */
  function Listed(m: Config): (names: seq<string>) {
    if "proxies" in m && m["proxies"].List? then
      var xs := m["proxies"].xs;
      seq(|xs|, i requires 0 <= i < |xs| => if xs[i].Str? then xs[i].s else "")
    else []
  }

  lemma ListedStringList(m: Config, names: seq<string>)
    requires "proxies" in m && m["proxies"] == StringList(names)
    ensures Listed(m) == names
  {
  }

  function NameSet(ms: seq<Config>): set<string> {
    set m | m in ms :: Name(m)
  }

  ghost predicate DistinctNames(ms: seq<Config>) {
    forall i, j | 0 <= i < j < |ms| :: Name(ms[i]) != Name(ms[j])
  }

  lemma NameSetAppend(ms: seq<Config>, m: Config)
    ensures NameSet(ms + [m]) == NameSet(ms) + {Name(m)}
  {
    assert forall x :: x in ms + [m] <==> x in ms || x == m;
  }

  lemma DistinctNamesAppend(ms: seq<Config>, m: Config)
    requires DistinctNames(ms) && Name(m) !in NameSet(ms)
    ensures DistinctNames(ms + [m]) && NameSet(ms + [m]) == NameSet(ms) + {Name(m)}
  {
    NameSetAppend(ms, m);
    assert forall x | x in ms :: Name(x) in NameSet(ms);
  }

  /** What rendering guarantees of a desired state and the core relies on. */
  ghost predicate WellFormed(d: Desired) {
    && DistinctNames(d.proxies)
    && DistinctNames(d.groups)
    && NameSet(d.proxies) !! NameSet(d.groups)
    && d.members.Keys == NameSet(d.groups)
    && (forall m | m in d.groups :: Listed(m) == d.members[Name(m)])
    && (forall g, n | g in d.members && n in d.members[g] :: n in NameSet(d.proxies))
  }
}
