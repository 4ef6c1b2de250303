// Config.validate and its parts, which rewrite the configuration in place.
module Config {
  import opened Wrappers
  import opened Text
  import opened ConfigTypes
  import opened Names
  import opened ConfigSpec
  import opened ConfigOutcome
  import opened ConfigProofs

  class Config {
    var subs: seq<Sub>
    var keys: seq<Key>
    var relays: seq<Relay>
    var relaySubs: seq<Sub>

    /** A configuration as it is loaded. */
    constructor (subs: seq<Sub>, keys: seq<Key>, relays: seq<Relay>)
      ensures this.subs == subs && this.keys == keys && this.relays == relays && relaySubs == []
    {
      this.subs, this.keys, this.relays, relaySubs := subs, keys, relays, [];
    }

    /** The body of the loop in resolveRelaySubs: one upstream. */
    method ResolveUpstream(lib: Lib, up: Upstream, seenNames: set<string>, byURL: map<string, nat>)
      returns (up': Upstream, seen: set<string>, urls: map<string, nat>)
      requires Indexed(Registry(relaySubs, seenNames, byURL))
      modifies this`relaySubs
      ensures Registry(relaySubs, seen, urls) == Register(lib, Registry(old(relaySubs), seenNames, byURL), up)
      ensures up' == Resolved(Registry(relaySubs, seen, urls), up)
    {
      up', seen, urls := up, seenNames, byURL;
      if up.sub == "" { return; }
      if !IsSubURL(up.sub) {
        up' := up.(subName := up.sub);
        return;
      }
      if up.sub in urls {
        var k := urls[up.sub];
        relaySubs := relaySubs[k := relaySubs[k].(interval := Min(relaySubs[k].interval, Clamp(up.interval)))];
        up' := up.(subName := relaySubs[k].name);
        return;
      }
      var host := lib.relayHost(up.sub);
      if host.None? { return; }
      var name, tries := UniqueName("relay:" + host.value, "-", seen);
      seen := seen + {name};
      urls := urls[up.sub := |relaySubs|];
      relaySubs := relaySubs + [Sub(name, up.sub, "", "auto", Clamp(up.interval))];
      up' := up.(subName := name);
    }

    /** The inner loop of resolveRelaySubs: the upstreams of one relay. */
    method ResolveRelay(lib: Lib, i: nat, seenNames: set<string>, byURL: map<string, nat>)
      returns (seen: set<string>, urls: map<string, nat>)
      requires i < |relays| && HostsKnown(lib, Registry(relaySubs, seenNames, byURL))
      modifies this`relays, this`relaySubs
      ensures Registry(relaySubs, seen, urls) ==
              RegisterAll(lib, Registry(old(relaySubs), seenNames, byURL), old(relays[i].upstream))
      ensures relays == old(relays)[i := old(relays[i]).(upstream :=
                          ResolvedUps(Registry(relaySubs, seen, urls), old(relays[i].upstream)))]
    {
      seen, urls := seenNames, byURL;
      var ups := relays[i].upstream;
      ghost var start := Registry(relaySubs, seenNames, byURL);
      PartlyEnds(start, ups);
      for j := 0 to |ups|
        invariant Registry(relaySubs, seen, urls) == RegisterAll(lib, start, ups[..j])
        invariant HostsKnown(lib, Registry(relaySubs, seen, urls)) &&
                  Settled(lib, Registry(relaySubs, seen, urls), ups[..j])
        invariant relays == old(relays)[i := old(relays[i]).(upstream :=
                               Partly(Registry(relaySubs, seen, urls), ups, j))]
      {
        PartlyNext(lib, Registry(relaySubs, seen, urls), ups, j);
        var up;
        up, seen, urls := ResolveUpstream(lib, ups[j], seen, urls);
        assert ups[..j + 1][..j] == ups[..j];
        relays := relays[i := relays[i].(upstream := relays[i].upstream[j := up])];
      }
      assert ups[..|ups|] == ups;
      PartlyEnds(Registry(relaySubs, seen, urls), ups);
    }

    /** resolveRelaySubs. */
    method ResolveRelaySubs(lib: Lib, seenNames: set<string>)
      requires relaySubs == []
      modifies this`relays, this`relaySubs
      ensures var r := RegisterAll(lib, Registry([], seenNames, EMPTY), Upstreams(old(relays)));
              relaySubs == r.subs && relays == ResolvedRelays(r, old(relays))
    {
      var seen, urls := seenNames, EMPTY;
      ghost var start, was := Registry([], seenNames, EMPTY), relays;
      PartlyRelaysEnd(start, was);
      for i := 0 to |relays|
        invariant |relays| == |was|
        invariant Registry(relaySubs, seen, urls) == RegisterAll(lib, start, Upstreams(was[..i]))
        invariant HostsKnown(lib, Registry(relaySubs, seen, urls))
        invariant Settled(lib, Registry(relaySubs, seen, urls), Upstreams(was[..i]))
        invariant relays == PartlyRelays(Registry(relaySubs, seen, urls), was, i)
      {
        ghost var before := Registry(relaySubs, seen, urls);
        assert was[..i + 1][..i] == was[..i];
        RegisterConcat(lib, start, Upstreams(was[..i]), was[i].upstream);
        AllUpsStay(lib, before, Upstreams(was[..i]), was[i].upstream);
        PartlyRelaysNext(lib, before, was, i);
        seen, urls := ResolveRelay(lib, i, seen, urls);
      }
      assert was[..|was|] == was;
      PartlyRelaysEnd(Registry(relaySubs, seen, urls), was);
    }

    /** validateSub: rewrites one sub in place and takes its name. */
    method ValidateSub(lib: Lib, i: nat, seenNames: set<string>) returns (ok: bool, seen: set<string>)
      requires i < |subs|
      modifies this`subs
      ensures ok == ConfigSpec.ValidateSub(lib, old(subs[i]), seenNames).Some?
      ensures ok ==> subs == old(subs)[i := ConfigSpec.ValidateSub(lib, old(subs[i]), seenNames).value]
      ensures ok ==> seen == seenNames + {subs[i].name}
    {
      seen := seenNames;
      var source := Source(lib, subs[i]);
      if source.None? || subs[i].typ !in ["", "auto", "base64", "raw", "clash"] { return false, seen; }
      var s := source.value.0;
      s := s.(typ := if s.typ == "" then "auto" else s.typ, interval := Clamp(s.interval));
      if s.name == "" {
        var name, tries := UniqueName(source.value.1, "-", seen);
        s := s.(name := name);
      }
      if s.name in seen { return false, seen; }
      subs := subs[i := s];
      seen := seen + {s.name};
      ok := true;
    }

    /** validateSubs. */
    method ValidateSubs(lib: Lib) returns (ok: bool, seen: set<string>)
      modifies this`subs
      ensures ok == ConfigSpec.ValidateSubs(lib, old(subs)).Some?
      ensures ok ==> subs == ConfigSpec.ValidateSubs(lib, old(subs)).value && seen == NamesUsed(SubNames(subs))
    {
      hide ConfigSpec.ValidateSub, Source;
      seen := {};
      ghost var was := subs;
      for i := 0 to |subs|
        invariant |subs| == |was| && subs[i..] == was[i..]
        invariant ConfigSpec.ValidateSubs(lib, was[..i]) == Some(subs[..i])
        invariant seen == NamesUsed(SubNames(subs[..i]))
      {
        ghost var front := subs[..i];
        SubsPrefix(lib, was, i + 1);
        assert was[..i + 1][..i] == was[..i] && subs[i] == was[i];
        ghost var before := subs;
        ok, seen := ValidateSub(lib, i, seen);
        if !ok { return; }
        SetAt(before, i, subs[i]);
        assert was[i..][1..] == was[i + 1..];
        SubNamesAppend(front, subs[i]);
      }
      assert was[..|was|] == was && subs[..|subs|] == subs;
      ok := true;
    }

    /** validateKeys. */
    method ValidateKeys() returns (ok: bool)
      modifies this`keys
      ensures ok == ConfigSpec.ValidateKeys(SubNames(subs), old(keys)).Some?
      ensures ok ==> keys == ConfigSpec.ValidateKeys(SubNames(subs), old(keys)).value
    {
      var seenKeys: set<string> := {};
      ghost var was := keys;
      assert ConfigSpec.ValidateKeys(SubNames(subs), was[..0]) == Some(keys[..0]) && KeysUsed(keys[..0]) == {};
      hide ValidateKey, Allowed, ConfigSpec.ValidateKeys, KeysUsed, SubNames;
      for i := 0 to |keys|
        invariant |keys| == |was| && keys[i..] == was[i..]
        invariant ConfigSpec.ValidateKeys(SubNames(subs), was[..i]) == Some(keys[..i])
        invariant seenKeys == KeysUsed(keys[..i])
      {
        KeysNext(SubNames(subs), was, i, keys[..i]);
        assert keys[i] == keys[i..][0] == was[i..][0];
        var k := ValidateKey(SubNames(subs), keys[i], seenKeys);
        if k.None? { return false; }
        seenKeys := seenKeys + {k.value.key};
        SetAt(keys, i, k.value);
        keys := keys[i := k.value];
        assert was[i..][1..] == was[i + 1..];
      }
      assert was[..|was|] == was && keys[..|keys|] == keys;
      ok := true;
    }

    /** The part of validate about subs, keys and relays. */
    method Validate(lib: Lib) returns (ok: bool)
      requires relaySubs == [] && forall k | k in keys :: k.resolved == []
      modifies this
      ensures ok <==> old(subs) != [] && SubsAccepted(lib, old(subs)) && KeysAccepted(SubNames(subs), old(keys))
      ensures ok ==> Valid(lib, old(subs), old(keys), old(relays), subs, keys, relays, relaySubs)
    {
      if |subs| == 0 { return false; }
      hide SubsAccepted, KeysAccepted, Valid;
      ghost var oldSubs, oldKeys, oldRelays := subs, keys, relays;
      SubsValidateIff(lib, subs);
      var seen;
      ok, seen := ValidateSubs(lib);
      if !ok { return; }
      KeysValidateIff(SubNames(subs), keys);
      ok := ValidateKeys();
      if !ok { return; }
      ResolveRelaySubs(lib, seen);
      ValidatedIsValid(lib, oldSubs, oldKeys, oldRelays);
    }
  }
}
