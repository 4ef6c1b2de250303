// Validation of the configuration (internal/config/config.go) as functions.
module ConfigSpec {
  import opened Wrappers
  import opened ConfigTypes
  import opened Names

  datatype Sub = Sub(name: string, url: string, file: string, typ: string, interval: int)

  /** resolved is not part of the file: it is filled by validation. */
  datatype Key = Key(key: string, allowedSubs: seq<string>, resolved: seq<string>)

  /** What url.Parse and FileURLToPath make of the URL of a sub. */
  datatype Location = Malformed | LocalFile(path: string) | Web(host: string) | OtherScheme

  /**
   * Calls into libraries: the location behind a URL, the default name for a file, and the host of
   * a relay's sub URL, None if the URL is malformed or has no host.
   */
  datatype Lib = Lib(locate: string -> Location, fileName: string -> string, relayHost: string -> Option<string>)

  const SECOND := 1_000_000_000
  const DEFAULT_INTERVAL := 3600 * SECOND
  const MIN_INTERVAL := 60 * SECOND

  function Clamp(interval: int): int {
    var d := if interval <= 0 then DEFAULT_INTERVAL else interval;
    if d < MIN_INTERVAL then MIN_INTERVAL else d
  }

  function Min(a: int, b: int): int {
    if a < b then a else b
  }

  // Subs

  /** parseSubSource: the sub with its file set for a file URL, and its default name. */
  function Source(lib: Lib, s: Sub): Option<(Sub, string)> {
    if (s.url == "") == (s.file == "") then None
    else if s.file != "" then Some((s, lib.fileName(s.file)))
    else
      match lib.locate(s.url)
      case LocalFile(path) => Some((s.(file := path, url := ""), lib.fileName(path)))
      case Web(host) => Some((s, host))
      case _ => None
  }

  /** validateSub, given the names so far. */
  function ValidateSub(lib: Lib, s: Sub, seen: set<string>): Option<Sub> {
    var source := Source(lib, s);
    if source.None? || s.typ !in ["", "auto", "base64", "raw", "clash"] then None
    else
      var s' := source.value.0.(typ := if s.typ == "" then "auto" else s.typ, interval := Clamp(s.interval));
      if s.name == "" then Some(s'.(name := FreshName(source.value.1, "-", seen)))
      else if s.name in seen then None
      else Some(s')
  }

  function SubNames(subs: seq<Sub>): seq<string> {
    seq(|subs|, i requires 0 <= i < |subs| => subs[i].name)
  }

  /** validateSubs. */
  function ValidateSubs(lib: Lib, subs: seq<Sub>): Option<seq<Sub>> {
    if subs == [] then Some([])
    else
      var front := ValidateSubs(lib, subs[..|subs| - 1]);
      if front.None? then None
      else
        var s := ValidateSub(lib, subs[|subs| - 1], NamesUsed(SubNames(front.value)));
        if s.None? then None else Some(front.value + [s.value])
  }

  // Keys

  /** The names of the subs that a key may see, in config order. */
  function Allowed(names: seq<string>, allowed: seq<string>): seq<string> {
    if names == [] then []
    else
      var front := Allowed(names[..|names| - 1], allowed);
      if names[|names| - 1] in allowed then front + [names[|names| - 1]] else front
  }

  function ValidateKey(names: seq<string>, k: Key, seenKeys: set<string>): Option<Key> {
    if k.key == "" || k.key in seenKeys then None
    else if k.allowedSubs == [] then Some(k.(resolved := names))
    else if exists name | name in k.allowedSubs :: name !in names then None
    else Some(k.(resolved := k.resolved + Allowed(names, k.allowedSubs)))
  }

  function KeysUsed(keys: seq<Key>): set<string> {
    set k | k in keys :: k.key
  }

  /** validateKeys. */
  function ValidateKeys(names: seq<string>, keys: seq<Key>): Option<seq<Key>> {
    if keys == [] then Some([])
    else
      var front := ValidateKeys(names, keys[..|keys| - 1]);
      if front.None? then None
      else
        var k := ValidateKey(names, keys[|keys| - 1], KeysUsed(front.value));
        if k.None? then None else Some(front.value + [k.value])
  }

  // Subs of relays

  /** The relay subs so far, the names in use, and where each URL is. */
  datatype Registry = Registry(subs: seq<Sub>, seen: set<string>, byURL: map<string, nat>)

  ghost predicate Indexed(r: Registry) {
    forall url | url in r.byURL :: r.byURL[url] < |r.subs|
  }

  /** The host of a well-formed sub URL that no earlier upstream had. */
  function AddURL(r: Registry, url: string, host: string, interval: int): Registry {
    var name := FreshName("relay:" + host, "-", r.seen);
    Registry(r.subs + [Sub(name, url, "", "auto", interval)], r.seen + {name}, r.byURL[url := |r.subs|])
  }

  function Shorten(r: Registry, url: string, interval: int): Registry
    requires Indexed(r) && url in r.byURL
  {
    var k := r.byURL[url];
    r.(subs := r.subs[k := r.subs[k].(interval := Min(r.subs[k].interval, interval))])
  }

  /** What one upstream adds. */
  function Register(lib: Lib, r: Registry, up: Upstream): (r': Registry)
    requires Indexed(r)
    ensures Indexed(r')
  {
    if up.sub == "" || !IsSubURL(up.sub) then r
    else if up.sub in r.byURL then Shorten(r, up.sub, Clamp(up.interval))
    else if lib.relayHost(up.sub).None? then r
    else AddURL(r, up.sub, lib.relayHost(up.sub).value, Clamp(up.interval))
  }

  /** The upstream with its sub name, given the subs registered up to it. */
  function Resolved(r: Registry, up: Upstream): Upstream
    requires Indexed(r)
  {
    if up.sub == "" then up
    else if !IsSubURL(up.sub) then up.(subName := up.sub)
    else if up.sub in r.byURL then up.(subName := r.subs[r.byURL[up.sub]].name)
    else up
  }

  function RegisterAll(lib: Lib, r: Registry, ups: seq<Upstream>): (r': Registry)
    requires Indexed(r)
    ensures Indexed(r')
  {
    if ups == [] then r else Register(lib, RegisterAll(lib, r, ups[..|ups| - 1]), ups[|ups| - 1])
  }

  /** All upstreams of all relays, in order. */
  function Upstreams(relays: seq<Relay>): seq<Upstream> {
    if relays == [] then [] else Upstreams(relays[..|relays| - 1]) + relays[|relays| - 1].upstream
  }

  function ResolvedUps(r: Registry, ups: seq<Upstream>): seq<Upstream>
    requires Indexed(r)
  {
    seq(|ups|, i requires 0 <= i < |ups| => Resolved(r, ups[i]))
  }

  function ResolvedRelays(r: Registry, relays: seq<Relay>): seq<Relay>
    requires Indexed(r)
  {
    seq(|relays|, i requires 0 <= i < |relays| => relays[i].(upstream := ResolvedUps(r, relays[i].upstream)))
  }
}
