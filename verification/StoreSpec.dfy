// The sub store (internal/agg/store.go) as functions on values: node snapshots, the change
// signal, and the generation-tagged render cache with its two critical sections.
module StoreSpec {
  import opened Wrappers
  import opened Text

  datatype Format = Base64 | Raw | Clash

  datatype SubState<N> = SubState(nodes: seq<N>, updated: int, err: string, etag: string, lastModified: string,
                                  userInfo: string)

  datatype Entry = Entry(gen: nat, body: string)

  datatype State<N> = State(subs: map<string, SubState<N>>, gen: nat, cache: map<string, Entry>, changed: bool)

  /** A node's dedup key, and the rendering of collected nodes, which runs outside the lock. */
  datatype Env<!N> = Env(key: N -> string, render: (seq<N>, Format, bool) -> string)

  datatype Request = Request(subs: seq<string>, format: Format, full: bool)

  // Mutations

  function Notify<N>(s: State<N>): State<N> {
    s.(gen := s.gen + 1, changed := true)
  }

  function SetNodes<N>(s: State<N>, name: string, st: SubState<N>): State<N> {
    Notify(s.(subs := s.subs[name := st.(err := "")]))
  }

  function SetError<N>(s: State<N>, name: string, err: string): State<N> {
    var st := if name in s.subs then s.subs[name] else SubState([], 0, "", "", "", "");
    s.(subs := s.subs[name := st.(err := err)])
  }

  function Touch<N>(s: State<N>, name: string, now: int): State<N> {
    if name in s.subs then s.(subs := s.subs[name := s.subs[name].(updated := now, err := "")]) else s
  }

  function Prune<N>(s: State<N>, keep: seq<string>): State<N> {
    Notify(s.(subs := map n | n in s.subs && n in keep :: s.subs[n], cache := map[]))
  }

  // Reading

  function NodesOf<N>(subs: map<string, SubState<N>>, name: string): seq<N> {
    if name in subs then subs[name].nodes else []
  }

  function AllNodes<N>(subs: map<string, SubState<N>>, names: seq<string>): seq<N> {
    if names == [] then [] else NodesOf(subs, names[0]) + AllNodes(subs, names[1..])
  }

  /** Without the nodes whose key came earlier. */
  function Dedup<N>(key: N -> string, nodes: seq<N>, seen: set<string>): seq<N>
    decreases |nodes|
  {
    if nodes == [] then []
    else if key(nodes[0]) in seen then Dedup(key, nodes[1..], seen)
    else [nodes[0]] + Dedup(key, nodes[1..], seen + {key(nodes[0])})
  }

  function Collect<N>(env: Env<N>, subs: map<string, SubState<N>>, names: seq<string>): seq<N> {
    Dedup(env.key, AllNodes(subs, names), {})
  }

  /** The uncached render. */
  function Fresh<N>(env: Env<N>, subs: map<string, SubState<N>>, r: Request): string {
    env.render(Collect(env, subs, r.subs), r.format, r.full)
  }

  // The cache

  const NUL := '\0'

  function FormatText(f: Format): string {
    match f case Base64 => "base64" case Raw => "raw" case Clash => "clash"
  }

  function CacheKey(r: Request): string {
    Join(r.subs, NUL) + "|" + FormatText(r.format) + "|" + if r.full then "true" else "false"
  }

  function Lookup<N>(s: State<N>, r: Request): Option<string> {
    var key := CacheKey(r);
    if key in s.cache && s.cache[key].gen == s.gen then Some(s.cache[key].body) else None
  }

  /** The second critical section of Render. */
  function Remember<N>(s: State<N>, r: Request, gen: nat, body: string): State<N> {
    if s.gen == gen then s.(cache := s.cache[CacheKey(r) := Entry(gen, body)]) else s
  }

  function Initial<N>(): State<N> {
    State(map[], 0, map[], false)
  }
}
