// What a validated configuration guarantees.
module ConfigProofs {
  import opened Wrappers
  import opened ConfigTypes
  import opened Names
  import opened ConfigSpec

  // Subs

  lemma SubNamesAppend(subs: seq<Sub>, s: Sub)
    ensures SubNames(subs + [s]) == SubNames(subs) + [s.name]
  {
  }

  lemma DistinctAppend(names: seq<string>, name: string)
    requires Distinct(names) && name !in names
    ensures Distinct(names + [name]) && NamesUsed(names + [name]) == NamesUsed(names) + {name}
  {
  }

  /** Names are distinct; every interval is at least the minimum. */
  lemma {:induction false} SubsValid(lib: Lib, subs: seq<Sub>)
    requires ValidateSubs(lib, subs).Some?
    ensures var out := ValidateSubs(lib, subs).value;
            |out| == |subs| && Distinct(SubNames(out)) && forall s | s in out :: s.interval >= MIN_INTERVAL
  {
    if subs != [] {
      var k := |subs| - 1;
      SubsValid(lib, subs[..k]);
      var front, out := ValidateSubs(lib, subs[..k]).value, ValidateSubs(lib, subs).value;
      SubNamesAppend(front, out[k]);
      DistinctAppend(SubNames(front), out[k].name);
    }
  }

  /** An hour if none is given, and never less than a minute, in nanoseconds. */
  ghost predicate Clamped(interval: int, d: int) {
    if interval <= 0 then d == 3600_000_000_000
    else if interval < 60_000_000_000 then d == 60_000_000_000
    else d == interval
  }

  lemma ClampIs(interval: int)
    ensures Clamped(interval, Clamp(interval))
  {
  }

  /** Either a URL or a file is given; a URL of a local file becomes that file. base is the default name. */
  ghost predicate Located(lib: Lib, was: Sub, s: Sub, base: string) {
    && (was.url == "") != (was.file == "")
    && (was.file != "" ==> s.file == was.file && s.url == "" && base == lib.fileName(was.file))
    && (was.url != "" && lib.locate(was.url).LocalFile? ==>
          s.url == "" && s.file == lib.locate(was.url).path && base == lib.fileName(s.file))
    && (was.url != "" && !lib.locate(was.url).LocalFile? ==>
          lib.locate(was.url).Web? && s.url == was.url && s.file == "" && base == lib.locate(was.url).host)
  }

  /**
   * A name that is given is kept, and a missing one derived from the source; the interval is
   * clamped, a missing type is auto, and url and file are those of the source.
   */
  ghost predicate FilledIn(lib: Lib, was: Sub, s: Sub) {
    && (exists base :: Located(lib, was, s, base) &&
          if was.name != "" then s.name == was.name else Derived(base, "-", s.name))
    && Clamped(was.interval, s.interval)
    && s.typ in {"auto", "base64", "raw", "clash"} && s.typ == if was.typ == "" then "auto" else was.typ
  }

  lemma SourceLocated(lib: Lib, s: Sub)
    requires Source(lib, s).Some?
    ensures Located(lib, s, Source(lib, s).value.0, Source(lib, s).value.1)
  {
  }

  lemma SubFilledIn(lib: Lib, s: Sub, seen: set<string>)
    requires ValidateSub(lib, s, seen).Some?
    ensures FilledIn(lib, s, ValidateSub(lib, s, seen).value)
  {
    hide FreshName, Derived, Clamp, Clamped;
    ClampIs(s.interval);
    SourceLocated(lib, s);
    var base := Source(lib, s).value.1;
    if s.name == "" { FreshIsDerived(base, "-", seen); }
    assert Located(lib, s, ValidateSub(lib, s, seen).value, base);
  }

  lemma {:induction false} SubsFilledIn(lib: Lib, subs: seq<Sub>)
    requires ValidateSubs(lib, subs).Some?
    ensures var out := ValidateSubs(lib, subs).value;
            |out| == |subs| && forall i | 0 <= i < |subs| :: FilledIn(lib, subs[i], out[i])
  {
    hide FilledIn, ValidateSub;
    if subs != [] {
      var k := |subs| - 1;
      SubsFilledIn(lib, subs[..k]);
      SubFilledIn(lib, subs[k], NamesUsed(SubNames(ValidateSubs(lib, subs[..k]).value)));
    }
  }

  // Keys

  lemma {:induction false} AllowedAre(names: seq<string>, allowed: seq<string>)
    ensures forall name :: name in Allowed(names, allowed) <==> name in names && name in allowed
  {
    if names != [] {
      AllowedAre(names[..|names| - 1], allowed);
      assert names == names[..|names| - 1] + [names[|names| - 1]];
    }
  }

  /** The list goes through the names in their order. */
  ghost predicate FollowsOrder(names: seq<string>, list: seq<string>) {
    forall i, j | 0 <= i < j < |list| :: Before(names, list[i], list[j])
  }

  ghost predicate Before(names: seq<string>, one: string, two: string) {
    exists a, b :: 0 <= a < b < |names| && names[a] == one && names[b] == two
  }

  lemma BeforeLonger(names: seq<string>, name: string, one: string, two: string)
    ensures Before(names, one, two) ==> Before(names + [name], one, two)
    ensures one in names ==> Before(names + [name], one, name)
  {
    var all := names + [name];
    if Before(names, one, two) {
      var a, b :| 0 <= a < b < |names| && names[a] == one && names[b] == two;
      assert all[a] == one && all[b] == two;
    }
    if one in names {
      var a :| 0 <= a < |names| && names[a] == one;
      assert all[a] == one && all[|names|] == name;
    }
  }

  lemma {:induction false} AllowedFollows(names: seq<string>, allowed: seq<string>)
    ensures FollowsOrder(names, Allowed(names, allowed))
  {
    hide Before;
    if names != [] {
      var front, name := names[..|names| - 1], names[|names| - 1];
      assert names == front + [name];
      AllowedFollows(front, allowed);
      AllowedAre(front, allowed);
      var list := Allowed(names, allowed);
      forall i, j | 0 <= i < j < |list|
        ensures Before(names, list[i], list[j])
      {
        BeforeLonger(front, name, list[i], list[j]);
        assert i < |Allowed(front, allowed)| && list[i] == Allowed(front, allowed)[i];
      }
    }
  }

  lemma NamesFollow(names: seq<string>)
    ensures FollowsOrder(names, names)
  {
    forall i, j | 0 <= i < j < |names|
      ensures Before(names, names[i], names[j])
    {
    }
  }

  /** What a key may see, in config order, and that nothing else about it changed. */
  ghost predicate Sees(names: seq<string>, was: Key, k: Key) {
    && k.key == was.key && k.allowedSubs == was.allowedSubs && FollowsOrder(names, k.resolved)
    && forall name :: name in k.resolved <==> name in names && (was.allowedSubs == [] || name in was.allowedSubs)
  }

  lemma KeySees(names: seq<string>, k: Key, seenKeys: set<string>)
    requires ValidateKey(names, k, seenKeys).Some? && k.resolved == []
    ensures Sees(names, k, ValidateKey(names, k, seenKeys).value)
  {
    hide Allowed, FollowsOrder;
    AllowedAre(names, k.allowedSubs);
    AllowedFollows(names, k.allowedSubs);
    NamesFollow(names);
    assert [] + Allowed(names, k.allowedSubs) == Allowed(names, k.allowedSubs);
  }

  /** A key sees exactly the subs it names, or all of them if it names none, and no other sub. */
  lemma {:induction false} KeysValid(names: seq<string>, keys: seq<Key>)
    requires ValidateKeys(names, keys).Some? && forall k | k in keys :: k.resolved == []
    ensures var out := ValidateKeys(names, keys).value;
            |out| == |keys| && forall i | 0 <= i < |keys| :: Sees(names, keys[i], out[i])
  {
    hide ValidateKey, Sees;
    if keys != [] {
      var k := |keys| - 1;
      KeysValid(names, keys[..k]);
      assert keys[k] in keys;
      KeySees(names, keys[k], KeysUsed(ValidateKeys(names, keys[..k]).value));
    }
  }

  // Subs of relays

  predicate Reference(lib: Lib, up: Upstream) {
    up.sub != "" && IsSubURL(up.sub) && lib.relayHost(up.sub).Some?
  }

  /** Registered names are distinct and new, and each registered URL has exactly one sub. */
  ghost predicate WellIndexed(seen: set<string>, r: Registry) {
    && Indexed(r)
    && r.seen == seen + NamesUsed(SubNames(r.subs))
    && Distinct(SubNames(r.subs))
    && (forall name | name in SubNames(r.subs) :: name !in seen)
    && (forall k | 0 <= k < |r.subs| :: r.subs[k].url in r.byURL && r.byURL[r.subs[k].url] == k)
    && (forall url | url in r.byURL :: r.subs[r.byURL[url]].url == url)
  }

  lemma AddNames(seen: set<string>, r: Registry, url: string, host: string, interval: int)
    requires WellIndexed(seen, r) && url !in r.byURL
    ensures var r' := AddURL(r, url, host, interval);
            && SubNames(r'.subs) == SubNames(r.subs) + [r'.subs[|r.subs|].name]
            && r'.subs[|r.subs|].name !in r.seen
            && Distinct(SubNames(r'.subs)) && r'.seen == seen + NamesUsed(SubNames(r'.subs))
  {
    hide Indexed;
    var r' := AddURL(r, url, host, interval);
    var s := r'.subs[|r.subs|];
    assert s.name !in SubNames(r.subs) by {
      assert s.name in SubNames(r.subs) ==> s.name in NamesUsed(SubNames(r.subs));
    }
    SubNamesAppend(r.subs, s);
    DistinctAppend(SubNames(r.subs), s.name);
  }

  lemma AddKeepsIndex(seen: set<string>, r: Registry, url: string, host: string, interval: int)
    requires WellIndexed(seen, r) && url !in r.byURL
    ensures WellIndexed(seen, AddURL(r, url, host, interval))
  {
    hide Distinct, NamesUsed, SubNames;
    AddNames(seen, r, url, host, interval);
  }

  lemma ShortenKeepsIndex(seen: set<string>, r: Registry, url: string, interval: int)
    requires WellIndexed(seen, r) && url in r.byURL
    ensures WellIndexed(seen, Shorten(r, url, interval)) && SubNames(Shorten(r, url, interval).subs) == SubNames(r.subs)
  {
    assert SubNames(Shorten(r, url, interval).subs) == SubNames(r.subs);
  }

  lemma RegisterKeepsIndex(lib: Lib, seen: set<string>, r: Registry, up: Upstream)
    requires WellIndexed(seen, r)
    ensures WellIndexed(seen, Register(lib, r, up))
  {
    if up.sub != "" && IsSubURL(up.sub) {
      if up.sub in r.byURL {
        ShortenKeepsIndex(seen, r, up.sub, Clamp(up.interval));
      } else if lib.relayHost(up.sub).Some? {
        AddKeepsIndex(seen, r, up.sub, lib.relayHost(up.sub).value, Clamp(up.interval));
      }
    }
  }

  /** The registered URLs are the well-formed ones that some upstream references. */
  ghost predicate Covered(lib: Lib, ups: seq<Upstream>, r: Registry) {
    && (forall up | up in ups && Reference(lib, up) :: up.sub in r.byURL)
    && (forall url | url in r.byURL :: exists up | up in ups :: Reference(lib, up) && up.sub == url)
  }

  lemma RegisterCovers(lib: Lib, ups: seq<Upstream>, r: Registry, up: Upstream)
    requires Indexed(r) && Covered(lib, ups, r)
    ensures Covered(lib, ups + [up], Register(lib, r, up))
  {
    var all, r' := ups + [up], Register(lib, r, up);
    assert forall u | u in all :: u in ups || u == up;
    assert forall u | u in ups :: u in all;
    assert up in all;
    forall url | url in r'.byURL
      ensures exists u | u in all :: Reference(lib, u) && u.sub == url
    {
      if url in r.byURL {
        var u :| u in ups && Reference(lib, u) && u.sub == url;
        assert u in all;
      } else {
        assert Reference(lib, up) && up.sub == url;
      }
    }
  }

  /** The interval is the shortest that an upstream asks for. */
  ghost predicate Shortest(lib: Lib, ups: seq<Upstream>, s: Sub) {
    && (forall up | up in ups && Reference(lib, up) && up.sub == s.url :: s.interval <= Clamp(up.interval))
    && (exists up | up in ups :: Reference(lib, up) && up.sub == s.url && s.interval == Clamp(up.interval))
  }

  ghost predicate AllShortest(lib: Lib, ups: seq<Upstream>, r: Registry) {
    forall s | s in r.subs :: Shortest(lib, ups, s)
  }

  lemma OtherShortest(lib: Lib, ups: seq<Upstream>, up: Upstream, s: Sub)
    requires Shortest(lib, ups, s) && (Reference(lib, up) ==> up.sub != s.url)
    ensures Shortest(lib, ups + [up], s)
  {
    var u :| u in ups && Reference(lib, u) && u.sub == s.url && s.interval == Clamp(u.interval);
    assert u in ups + [up];
  }

  lemma ShortenedShortest(lib: Lib, ups: seq<Upstream>, up: Upstream, s: Sub)
    requires Shortest(lib, ups, s) && Reference(lib, up) && up.sub == s.url
    ensures Shortest(lib, ups + [up], s.(interval := Min(s.interval, Clamp(up.interval))))
  {
    var u :| u in ups && Reference(lib, u) && u.sub == s.url && s.interval == Clamp(u.interval);
    assert u in ups + [up] && up in ups + [up];
  }

  lemma NewShortest(lib: Lib, ups: seq<Upstream>, up: Upstream, s: Sub)
    requires Reference(lib, up) && s.url == up.sub && s.interval == Clamp(up.interval)
    requires forall u | u in ups && Reference(lib, u) :: u.sub != up.sub
    ensures Shortest(lib, ups + [up], s)
  {
    assert up in ups + [up];
    assert forall u | u in ups + [up] :: u in ups || u == up;
  }

  lemma AddKeepsShortest(lib: Lib, ups: seq<Upstream>, r: Registry, up: Upstream)
    requires Indexed(r) && Covered(lib, ups, r) && AllShortest(lib, ups, r) && Reference(lib, up) && up.sub !in r.byURL
    requires forall s | s in r.subs :: s.url in r.byURL
    ensures AllShortest(lib, ups + [up], AddURL(r, up.sub, lib.relayHost(up.sub).value, Clamp(up.interval)))
  {
    var r' := AddURL(r, up.sub, lib.relayHost(up.sub).value, Clamp(up.interval));
    forall s | s in r'.subs
      ensures Shortest(lib, ups + [up], s)
    {
      if s in r.subs {
        OtherShortest(lib, ups, up, s);
      } else {
        NewShortest(lib, ups, up, s);
      }
    }
  }

  lemma ShortenKeepsShortest(lib: Lib, seen: set<string>, ups: seq<Upstream>, r: Registry, up: Upstream)
    requires WellIndexed(seen, r) && AllShortest(lib, ups, r) && Reference(lib, up) && up.sub in r.byURL
    ensures AllShortest(lib, ups + [up], Shorten(r, up.sub, Clamp(up.interval)))
  {
    var k := r.byURL[up.sub];
    var r' := Shorten(r, up.sub, Clamp(up.interval));
    forall i | 0 <= i < |r'.subs|
      ensures Shortest(lib, ups + [up], r'.subs[i])
    {
      assert r.subs[i] in r.subs;
      if i == k {
        ShortenedShortest(lib, ups, up, r.subs[k]);
      } else {
        OtherShortest(lib, ups, up, r.subs[i]);
      }
    }
  }

  lemma SameShortest(lib: Lib, ups: seq<Upstream>, r: Registry, up: Upstream)
    requires AllShortest(lib, ups, r) && !Reference(lib, up)
    ensures AllShortest(lib, ups + [up], r)
  {
    forall s | s in r.subs
      ensures Shortest(lib, ups + [up], s)
    {
      OtherShortest(lib, ups, up, s);
    }
  }

  lemma RegisterKeepsShortest(lib: Lib, seen: set<string>, ups: seq<Upstream>, r: Registry, up: Upstream)
    requires WellIndexed(seen, r) && Covered(lib, ups, r) && AllShortest(lib, ups, r)
    ensures AllShortest(lib, ups + [up], Register(lib, r, up))
  {
    if !Reference(lib, up) {
      assert up.sub !in r.byURL by {
        assert forall u | u in ups && Reference(lib, u) :: Reference(lib, u) && u.sub != up.sub;
      }
      SameShortest(lib, ups, r, up);
    } else if up.sub in r.byURL {
      ShortenKeepsShortest(lib, seen, ups, r, up);
    } else {
      assert forall s | s in r.subs :: s.url in r.byURL;
      AddKeepsShortest(lib, ups, r, up);
    }
  }

  /** A relay sub fetches its URL with format detection, under a name derived from the host. */
  ghost predicate NamedFor(lib: Lib, s: Sub) {
    && lib.relayHost(s.url).Some? && s.typ == "auto" && s.file == ""
    && Derived("relay:" + lib.relayHost(s.url).value, "-", s.name)
  }

  lemma RegisterNames(lib: Lib, r: Registry, up: Upstream)
    requires Indexed(r) && forall s | s in r.subs :: NamedFor(lib, s)
    ensures forall s | s in Register(lib, r, up).subs :: NamedFor(lib, s)
  {
    hide FreshName, Derived, Clamp, IsSubURL;
    var r' := Register(lib, r, up);
    if lib.relayHost(up.sub).Some? {
      FreshIsDerived("relay:" + lib.relayHost(up.sub).value, "-", r.seen);
    }
    forall k | 0 <= k < |r'.subs|
      ensures NamedFor(lib, r'.subs[k])
    {
      if k < |r.subs| { assert r.subs[k] in r.subs; }
    }
  }

  const EMPTY: map<string, nat> := map[]

  /** Registering every upstream gives what the references require. */
  lemma {:induction false} AllRegistered(lib: Lib, seen: set<string>, ups: seq<Upstream>)
    ensures var r := RegisterAll(lib, Registry([], seen, EMPTY), ups);
            WellIndexed(seen, r) && Covered(lib, ups, r) && AllShortest(lib, ups, r) &&
              forall s | s in r.subs :: NamedFor(lib, s)
  {
    var start := Registry([], seen, EMPTY);
    if ups != [] {
      var front, up := ups[..|ups| - 1], ups[|ups| - 1];
      var r := RegisterAll(lib, start, front);
      AllRegistered(lib, seen, front);
      assert ups == front + [up];
      RegisterKeepsIndex(lib, seen, r, up);
      RegisterCovers(lib, front, r, up);
      RegisterKeepsShortest(lib, seen, front, r, up);
      RegisterNames(lib, r, up);
    }
  }

  // A name that an upstream resolves to stays, whatever is registered later.

  ghost predicate HostsKnown(lib: Lib, r: Registry) {
    Indexed(r) && forall url | url in r.byURL :: lib.relayHost(url).Some?
  }

  ghost predicate Settled(lib: Lib, r: Registry, ups: seq<Upstream>) {
    forall up | up in ups && Reference(lib, up) :: up.sub in r.byURL
  }

  lemma RegisterStays(lib: Lib, r: Registry, up: Upstream, more: Upstream)
    requires HostsKnown(lib, r) && (Reference(lib, up) ==> up.sub in r.byURL)
    ensures HostsKnown(lib, Register(lib, r, more)) && (Reference(lib, up) ==> up.sub in Register(lib, r, more).byURL)
    ensures Resolved(Register(lib, r, more), up) == Resolved(r, up)
  {
  }

  lemma UpsStay(lib: Lib, r: Registry, ups: seq<Upstream>, more: Upstream)
    requires HostsKnown(lib, r) && Settled(lib, r, ups)
    ensures var r' := Register(lib, r, more);
            HostsKnown(lib, r') && Settled(lib, r', ups + [more]) && ResolvedUps(r', ups) == ResolvedUps(r, ups)
            && ResolvedUps(r', ups + [more]) == ResolvedUps(r, ups) + [Resolved(r', more)]
  {
    var r' := Register(lib, r, more);
    forall i | 0 <= i < |ups|
      ensures Resolved(r', ups[i]) == Resolved(r, ups[i])
    {
      assert ups[i] in ups;
      RegisterStays(lib, r, ups[i], more);
    }
    RegisterStays(lib, r, Upstream("", 0, map[], ""), more);
  }

  lemma {:induction false} AllUpsStay(lib: Lib, r: Registry, ups: seq<Upstream>, more: seq<Upstream>)
    requires HostsKnown(lib, r) && Settled(lib, r, ups)
    ensures var r' := RegisterAll(lib, r, more);
            HostsKnown(lib, r') && Settled(lib, r', ups + more) && ResolvedUps(r', ups) == ResolvedUps(r, ups)
  {
    if more == [] {
      assert ups + more == ups;
    } else {
      var front, last := more[..|more| - 1], more[|more| - 1];
      AllUpsStay(lib, r, ups, front);
      var q := RegisterAll(lib, r, front);
      UpsStay(lib, q, ups + front, last);
      assert ups + more == ups + front + [last];
      assert forall up | up in ups :: up in ups + front;
      UpsStay(lib, q, ups, last);
    }
  }

  lemma {:induction false} RegisterConcat(lib: Lib, r: Registry, a: seq<Upstream>, b: seq<Upstream>)
    requires Indexed(r)
    ensures RegisterAll(lib, r, a + b) == RegisterAll(lib, RegisterAll(lib, r, a), b)
  {
    if b == [] {
      assert a + b == a;
    } else {
      assert (a + b)[..|a + b| - 1] == a + b[..|b| - 1];
      RegisterConcat(lib, r, a, b[..|b| - 1]);
    }
  }

  lemma {:induction false} UpstreamsHas(relays: seq<Relay>, k: nat)
    requires k < |relays|
    ensures forall up | up in relays[k].upstream :: up in Upstreams(relays)
  {
    if k < |relays| - 1 {
      UpstreamsHas(relays[..|relays| - 1], k);
    }
  }

  lemma RelaysStay(lib: Lib, r: Registry, relays: seq<Relay>, more: seq<Upstream>)
    requires HostsKnown(lib, r) && Settled(lib, r, Upstreams(relays))
    ensures ResolvedRelays(RegisterAll(lib, r, more), relays) == ResolvedRelays(r, relays)
  {
    forall k | 0 <= k < |relays|
      ensures ResolvedUps(RegisterAll(lib, r, more), relays[k].upstream) == ResolvedUps(r, relays[k].upstream)
    {
      UpstreamsHas(relays, k);
      AllUpsStay(lib, r, relays[k].upstream, more);
    }
  }

  // The configuration while its upstreams are being resolved in place

  function Partly(r: Registry, ups: seq<Upstream>, j: nat): seq<Upstream>
    requires Indexed(r) && j <= |ups|
  {
    ResolvedUps(r, ups[..j]) + ups[j..]
  }

  lemma PartlyEnds(r: Registry, ups: seq<Upstream>)
    requires Indexed(r)
    ensures Partly(r, ups, 0) == ups && Partly(r, ups, |ups|) == ResolvedUps(r, ups)
  {
    assert ups[..|ups|] == ups;
  }

  lemma PartlyNext(lib: Lib, r: Registry, ups: seq<Upstream>, j: nat)
    requires HostsKnown(lib, r) && j < |ups| && Settled(lib, r, ups[..j])
    ensures var r' := Register(lib, r, ups[j]);
            && HostsKnown(lib, r') && Settled(lib, r', ups[..j + 1])
            && Partly(r, ups, j)[j := Resolved(r', ups[j])] == Partly(r', ups, j + 1)
  {
    var r' := Register(lib, r, ups[j]);
    assert ups[..j + 1] == ups[..j] + [ups[j]];
    UpsStay(lib, r, ups[..j], ups[j]);
    assert ups[j..] == [ups[j]] + ups[j + 1..];
  }

  function PartlyRelays(r: Registry, relays: seq<Relay>, i: nat): seq<Relay>
    requires Indexed(r) && i <= |relays|
  {
    ResolvedRelays(r, relays[..i]) + relays[i..]
  }

  lemma PartlyRelaysEnd(r: Registry, relays: seq<Relay>)
    requires Indexed(r)
    ensures PartlyRelays(r, relays, 0) == relays && PartlyRelays(r, relays, |relays|) == ResolvedRelays(r, relays)
  {
    assert relays[..|relays|] == relays;
  }

  lemma PartlyRelaysNext(lib: Lib, r: Registry, relays: seq<Relay>, i: nat)
    requires HostsKnown(lib, r) && i < |relays| && Settled(lib, r, Upstreams(relays[..i]))
    ensures var r' := RegisterAll(lib, r, relays[i].upstream);
            && PartlyRelays(r, relays, i)[i] == relays[i]
            && PartlyRelays(r, relays, i)[i := relays[i].(upstream := ResolvedUps(r', relays[i].upstream))] ==
               PartlyRelays(r', relays, i + 1)
  {
    var r' := RegisterAll(lib, r, relays[i].upstream);
    RelaysStay(lib, r, relays[..i], relays[i].upstream);
    assert ResolvedRelays(r', relays[..i + 1]) ==
           ResolvedRelays(r', relays[..i]) + [relays[i].(upstream := ResolvedUps(r', relays[i].upstream))];
    assert relays[i..] == [relays[i]] + relays[i + 1..];
  }

  // Failing early

  lemma {:induction false} SubsPrefix(lib: Lib, subs: seq<Sub>, i: nat)
    requires i <= |subs|
    ensures ValidateSubs(lib, subs[..i]).None? ==> ValidateSubs(lib, subs).None?
  {
    if i < |subs| {
      SubsPrefix(lib, subs[..|subs| - 1], i);
      assert subs[..|subs| - 1][..i] == subs[..i];
    } else {
      assert subs[..i] == subs;
    }
  }

  lemma {:induction false} KeysPrefix(names: seq<string>, keys: seq<Key>, i: nat)
    requires i <= |keys|
    ensures ValidateKeys(names, keys[..i]).None? ==> ValidateKeys(names, keys).None?
  {
    if i < |keys| {
      KeysPrefix(names, keys[..|keys| - 1], i);
      assert keys[..|keys| - 1][..i] == keys[..i];
    } else {
      assert keys[..i] == keys;
    }
  }

  lemma KeysNext(names: seq<string>, keys: seq<Key>, i: nat, front: seq<Key>)
    requires i < |keys| && ValidateKeys(names, keys[..i]) == Some(front)
    ensures var k := ValidateKey(names, keys[i], KeysUsed(front));
            && (k.None? ==> ValidateKeys(names, keys).None?)
            && (k.Some? ==> ValidateKeys(names, keys[..i + 1]) == Some(front + [k.value])
                            && KeysUsed(front + [k.value]) == KeysUsed(front) + {k.value.key})
  {
    hide ValidateKey;
    assert keys[..i + 1][..i] == keys[..i];
    KeysPrefix(names, keys, i + 1);
  }

  // The whole

  /** FetchedSubNames. */
  function FetchedSubNames(subs: seq<Sub>, relaySubs: seq<Sub>): seq<string> {
    SubNames(subs) + SubNames(relaySubs)
  }

  /** The store keys that upstream references resolve to. */
  ghost predicate ReferencesResolve(lib: Lib, was: seq<Relay>, relays: seq<Relay>, relaySubs: seq<Sub>) {
    && |relays| == |was|
    && (forall i | 0 <= i < |was| ::
          && |relays[i].upstream| == |was[i].upstream|
          && relays[i] == was[i].(upstream := relays[i].upstream)
          && forall j | 0 <= j < |was[i].upstream| ::
               UpstreamResolves(lib, was[i].upstream[j], relays[i].upstream[j], relaySubs))
  }

  /** A URL resolves to the one relay sub with that URL, a name to itself. */
  ghost predicate UpstreamResolves(lib: Lib, was: Upstream, up: Upstream, relaySubs: seq<Sub>) {
    && up == was.(subName := up.subName)
    && (was.sub != "" && !IsSubURL(was.sub) ==> up.subName == was.sub)
    && (Reference(lib, was) ==> exists s | s in relaySubs :: s.url == was.sub && s.name == up.subName)
    && (was.sub == "" || (IsSubURL(was.sub) && !Reference(lib, was)) ==> up.subName == was.subName)
  }

  /** One relay sub for each well-formed URL, at the shortest interval asked for. */
  ghost predicate RelaySubsMatch(lib: Lib, ups: seq<Upstream>, relaySubs: seq<Sub>) {
    && (forall k, l | 0 <= k < l < |relaySubs| :: relaySubs[k].url != relaySubs[l].url)
    && (forall up | up in ups && Reference(lib, up) :: exists s | s in relaySubs :: s.url == up.sub)
    && (forall s | s in relaySubs :: Shortest(lib, ups, s) && NamedFor(lib, s))
  }

  ghost predicate KeysSee(names: seq<string>, relaySubs: seq<Sub>, keys: seq<Key>) {
    && (forall k | k in keys :: forall name | name in k.resolved :: name in names)
    && (forall k | k in keys :: forall s | s in relaySubs :: s.name !in k.resolved)
  }

  /** What validation makes of a configuration. */
  ghost predicate Valid(lib: Lib, oldSubs: seq<Sub>, oldKeys: seq<Key>, was: seq<Relay>,
                        subs: seq<Sub>, keys: seq<Key>, relays: seq<Relay>, relaySubs: seq<Sub>) {
    && |subs| == |oldSubs|
    && (forall i | 0 <= i < |subs| :: FilledIn(lib, oldSubs[i], subs[i]))
    && Distinct(FetchedSubNames(subs, relaySubs))
    && RelaySubsMatch(lib, Upstreams(was), relaySubs)
    && ReferencesResolve(lib, was, relays, relaySubs)
    && KeysSee(SubNames(subs), relaySubs, keys)
    && |keys| == |oldKeys|
    && (forall i | 0 <= i < |keys| :: Sees(SubNames(subs), oldKeys[i], keys[i]))
  }

  lemma FetchedDistinct(names: seq<string>, r: Registry)
    requires Distinct(names) && WellIndexed(NamesUsed(names), r)
    ensures Distinct(names + SubNames(r.subs))
  {
    forall i, j | 0 <= i < |names| <= j < |names| + |r.subs|
      ensures (names + SubNames(r.subs))[i] != (names + SubNames(r.subs))[j]
    {
      assert SubNames(r.subs)[j - |names|] in SubNames(r.subs) && names[i] in NamesUsed(names);
    }
  }

  lemma MatchHolds(lib: Lib, seen: set<string>, ups: seq<Upstream>, r: Registry)
    requires WellIndexed(seen, r) && Covered(lib, ups, r) && AllShortest(lib, ups, r)
    requires forall s | s in r.subs :: NamedFor(lib, s)
    ensures RelaySubsMatch(lib, ups, r.subs)
  {
    forall up | up in ups && Reference(lib, up)
      ensures exists s | s in r.subs :: s.url == up.sub
    {
      assert r.subs[r.byURL[up.sub]] in r.subs;
    }
  }

  lemma UpstreamHolds(lib: Lib, seen: set<string>, ups: seq<Upstream>, r: Registry, up: Upstream)
    requires WellIndexed(seen, r) && Covered(lib, ups, r) && up in ups
    ensures UpstreamResolves(lib, up, Resolved(r, up), r.subs)
  {
    if up.sub in r.byURL {
      var u :| u in ups && Reference(lib, u) && u.sub == up.sub;
      assert r.subs[r.byURL[up.sub]] in r.subs;
    }
  }

  lemma ReferencesHold(lib: Lib, seen: set<string>, was: seq<Relay>, r: Registry)
    requires WellIndexed(seen, r) && Covered(lib, Upstreams(was), r)
    ensures ReferencesResolve(lib, was, ResolvedRelays(r, was), r.subs)
  {
    forall i, j | 0 <= i < |was| && 0 <= j < |was[i].upstream|
      ensures UpstreamResolves(lib, was[i].upstream[j], Resolved(r, was[i].upstream[j]), r.subs)
    {
      UpstreamsHas(was, i);
      UpstreamHolds(lib, seen, Upstreams(was), r, was[i].upstream[j]);
    }
  }

  /** Relay-only subs are never served. */
  lemma KeysHold(names: seq<string>, keys: seq<Key>, r: Registry)
    requires ValidateKeys(names, keys).Some? && forall k | k in keys :: k.resolved == []
    requires WellIndexed(NamesUsed(names), r)
    ensures KeysSee(names, r.subs, ValidateKeys(names, keys).value)
  {
    KeysValid(names, keys);
    var out := ValidateKeys(names, keys).value;
    assert forall i | 0 <= i < |out| :: Sees(names, keys[i], out[i]);
    forall s | s in r.subs
      ensures s.name !in names
    {
      var k :| 0 <= k < |r.subs| && r.subs[k] == s;
      assert SubNames(r.subs)[k] in SubNames(r.subs);
    }
  }

  lemma ValidatedIsValid(lib: Lib, subs: seq<Sub>, keys: seq<Key>, was: seq<Relay>)
    requires ValidateSubs(lib, subs).Some? && forall k | k in keys :: k.resolved == []
    requires ValidateKeys(SubNames(ValidateSubs(lib, subs).value), keys).Some?
    ensures var subs' := ValidateSubs(lib, subs).value;
            var r := RegisterAll(lib, Registry([], NamesUsed(SubNames(subs')), EMPTY), Upstreams(was));
            Valid(lib, subs, keys, was, subs', ValidateKeys(SubNames(subs'), keys).value, ResolvedRelays(r, was),
                  r.subs)
  {
    var names := SubNames(ValidateSubs(lib, subs).value);
    var r := RegisterAll(lib, Registry([], NamesUsed(names), EMPTY), Upstreams(was));
    SubsValid(lib, subs);
    SubsFilledIn(lib, subs);
    AllRegistered(lib, NamesUsed(names), Upstreams(was));
    FetchedDistinct(names, r);
    MatchHolds(lib, NamesUsed(names), Upstreams(was), r);
    ReferencesHold(lib, NamesUsed(names), was, r);
    KeysHold(names, keys, r);
    KeysValid(names, keys);
  }
}
