// Which configurations validate.
module ConfigOutcome {
  import opened Text
  import opened ConfigTypes
  import opened Names
  import opened ConfigSpec
  import opened ConfigProofs

  /** A reference is a URL if it starts with http:// or https:// in any case. */
  lemma SubURLs(s: string)
    ensures IsSubURL(s) <==> exists rest :: ToLower(s) == "http://" + rest || ToLower(s) == "https://" + rest
  {
    var lower := ToLower(s);
    if "http://" <= lower {
      assert lower == "http://" + lower[7..];
    } else if "https://" <= lower {
      assert lower == "https://" + lower[8..];
    }
  }

  // Subs

  /** Either a file or a URL, of a local file or with a host, and a known type. */
  ghost predicate Acceptable(lib: Lib, s: Sub) {
    && (s.url == "") != (s.file == "")
    && (s.url != "" ==> lib.locate(s.url).LocalFile? || lib.locate(s.url).Web?)
    && s.typ in {"", "auto", "base64", "raw", "clash"}
  }

  /** The name that is given for the i-th sub is free after the subs before it. */
  ghost predicate NameFree(lib: Lib, subs: seq<Sub>, i: nat)
    requires i < |subs|
  {
    var front := ValidateSubs(lib, subs[..i]);
    subs[i].name != "" && front.Some? ==> subs[i].name !in SubNames(front.value)
  }

  ghost predicate SubsAccepted(lib: Lib, subs: seq<Sub>) {
    forall i: nat | i < |subs| :: Acceptable(lib, subs[i]) && NameFree(lib, subs, i)
  }

  lemma SubValidatesIff(lib: Lib, s: Sub, seen: set<string>)
    ensures ValidateSub(lib, s, seen).Some? <==> Acceptable(lib, s) && (s.name != "" ==> s.name !in seen)
  {
    hide FreshName, Clamp;
  }

  /** Subs validate exactly when each is acceptable and has a name that is free, if it has one. */
  lemma {:induction false} SubsValidateIff(lib: Lib, subs: seq<Sub>)
    ensures ValidateSubs(lib, subs).Some? <==> SubsAccepted(lib, subs)
  {
    hide ValidateSub, Acceptable;
    if subs != [] {
      var k := |subs| - 1;
      var before := subs[..k];
      SubsValidateIff(lib, before);
      forall i: nat | i < k
        ensures NameFree(lib, before, i) <==> NameFree(lib, subs, i)
      {
        assert before[..i] == subs[..i];
      }
      if ValidateSubs(lib, before).Some? {
        var front := ValidateSubs(lib, before).value;
        SubValidatesIff(lib, subs[k], NamesUsed(SubNames(front)));
        assert forall i: nat | i < k :: before[i] == subs[i];
      } else {
        var i: nat :| i < k && !(Acceptable(lib, before[i]) && NameFree(lib, before, i));
        assert before[i] == subs[i];
      }
    }
  }

  /** If every sub has a name, that means different names. */
  lemma {:induction false} NamedSubsValidateIff(lib: Lib, subs: seq<Sub>)
    requires forall s | s in subs :: s.name != ""
    ensures ValidateSubs(lib, subs).Some? <==>
            (forall s | s in subs :: Acceptable(lib, s)) && Distinct(SubNames(subs))
    ensures ValidateSubs(lib, subs).Some? ==> SubNames(ValidateSubs(lib, subs).value) == SubNames(subs)
  {
    hide Acceptable, ValidateSub;
    if subs != [] {
      var k := |subs| - 1;
      var before, s := subs[..k], subs[k];
      assert subs == before + [s] && s in subs;
      NamedSubsValidateIff(lib, before);
      SubNamesAppend(before, s);
      if ValidateSubs(lib, before).Some? {
        var front := ValidateSubs(lib, before).value;
        SubValidatesIff(lib, s, NamesUsed(SubNames(front)));
        LastDistinct(SubNames(before), s.name);
        if ValidateSub(lib, s, NamesUsed(SubNames(front))).Some? {
          NamedKept(lib, s, NamesUsed(SubNames(front)));
          SubNamesAppend(front, ValidateSub(lib, s, NamesUsed(SubNames(front))).value);
        }
      } else if Distinct(SubNames(subs)) {
        LastDistinct(SubNames(before), s.name);
      }
    }
  }

  lemma NamedKept(lib: Lib, s: Sub, seen: set<string>)
    requires s.name != "" && ValidateSub(lib, s, seen).Some?
    ensures ValidateSub(lib, s, seen).value.name == s.name
  {
  }

  lemma LastDistinct(names: seq<string>, name: string)
    ensures Distinct(names + [name]) <==> Distinct(names) && name !in NamesUsed(names)
  {
    var all := names + [name];
    if Distinct(all) {
      assert forall i, j | 0 <= i < j < |names| :: all[i] == names[i] && all[j] == names[j];
      assert forall i | 0 <= i < |names| :: all[i] == names[i] && all[|names|] == name;
    }
  }

  // Keys

  ghost predicate KeysAccepted(names: seq<string>, keys: seq<Key>) {
    && (forall k | k in keys :: k.key != "" && forall name | name in k.allowedSubs :: name in names)
    && DifferentKeys(keys)
  }

  ghost predicate DifferentKeys(keys: seq<Key>) {
    forall i, j | 0 <= i < j < |keys| :: keys[i].key != keys[j].key
  }

  /** Keys validate exactly when they are given, different, and name subs that there are. */
  lemma {:induction false} KeysValidateIff(names: seq<string>, keys: seq<Key>)
    ensures ValidateKeys(names, keys).Some? <==> KeysAccepted(names, keys)
    ensures ValidateKeys(names, keys).Some? ==> KeysUsed(ValidateKeys(names, keys).value) == KeysUsed(keys)
  {
    if keys != [] {
      var n := |keys| - 1;
      var before, k := keys[..n], keys[n];
      assert keys == before + [k] && k in keys;
      KeysValidateIff(names, before);
      KeyValidatesIff(names, k, KeysUsed(before));
      KeysUsedAppend(before, k);
      LastKeyDiffers(before, k);
      if ValidateKeys(names, before).Some? && ValidateKey(names, k, KeysUsed(before)).Some? {
        KeysUsedAppend(ValidateKeys(names, before).value, ValidateKey(names, k, KeysUsed(before)).value);
      }
    }
  }

  lemma KeyValidatesIff(names: seq<string>, k: Key, seenKeys: set<string>)
    ensures var r := ValidateKey(names, k, seenKeys);
            && (r.Some? <==>
                  k.key != "" && k.key !in seenKeys && forall name | name in k.allowedSubs :: name in names)
            && (r.Some? ==> r.value.key == k.key)
  {
    hide Allowed;
  }

  lemma KeysUsedAppend(keys: seq<Key>, k: Key)
    ensures KeysUsed(keys + [k]) == KeysUsed(keys) + {k.key}
  {
    assert forall x :: x in keys + [k] <==> x in keys || x == k;
  }

  lemma LastKeyDiffers(keys: seq<Key>, k: Key)
    ensures DifferentKeys(keys + [k]) <==> DifferentKeys(keys) && k.key !in KeysUsed(keys)
  {
    var all := keys + [k];
    if DifferentKeys(all) {
      assert forall i, j | 0 <= i < j < |keys| :: all[i] == keys[i] && all[j] == keys[j];
      assert forall i | 0 <= i < |keys| :: all[i] == keys[i] && all[|keys|] == k;
    }
  }
}
