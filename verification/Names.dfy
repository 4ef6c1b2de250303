// The rename loops: base, base<sep>2, base<sep>3, ... until a name is free. Used for proxy names
// (render.go), display names (node.go) and sub names (config.go).
module Names {
  import opened Decimal

  function Candidate(base: string, sep: string, k: nat): string
    requires sep != ""
  {
    if k < 2 then base else base + sep + Digits(k)
  }

  /** The k-th candidate is free and all earlier ones are taken. */
  ghost predicate IsLeastFree(base: string, sep: string, used: set<string>, k: nat)
    requires sep != ""
  {
    k >= 1 && Candidate(base, sep, k) !in used && forall j | 1 <= j < k :: Candidate(base, sep, j) in used
  }

  lemma CandidateInjective(base: string, sep: string, j: nat, k: nat)
    requires sep != "" && 1 <= j && 1 <= k && Candidate(base, sep, j) == Candidate(base, sep, k)
    ensures j == k
  {
    if j >= 2 && k >= 2 {
      assert Candidate(base, sep, j)[|base + sep|..] == Digits(j);
      assert Candidate(base, sep, k)[|base + sep|..] == Digits(k);
      DigitsInjective(j, k);
    }
  }

  /** Pigeonhole: the taken candidates are distinct, so there are no more of them than used names. */
  lemma {:induction false} TakenBound(base: string, sep: string, used: set<string>, k: nat)
    requires sep != "" && k >= 1 && forall j | 1 <= j < k :: Candidate(base, sep, j) in used
    ensures k - 1 <= |used|
  {
    if k > 1 {
      var last := Candidate(base, sep, k - 1);
      forall j | 1 <= j < k - 1
        ensures Candidate(base, sep, j) in used - {last}
      {
        if Candidate(base, sep, j) == last {
          CandidateInjective(base, sep, j, k - 1);
        }
      }
      TakenBound(base, sep, used - {last}, k - 1);
    }
  }

  lemma LeastFreeUnique(base: string, sep: string, used: set<string>, j: nat, k: nat)
    requires sep != "" && IsLeastFree(base, sep, used, j) && IsLeastFree(base, sep, used, k)
    ensures j == k
  {
  }

  function FreeFrom(base: string, sep: string, used: set<string>, k: nat): (r: nat)
    requires sep != "" && k >= 1 && forall j | 1 <= j < k :: Candidate(base, sep, j) in used
    ensures IsLeastFree(base, sep, used, r) && r <= |used| + 1
    decreases |used| + 1 - k
  {
    TakenBound(base, sep, used, k);
    if Candidate(base, sep, k) !in used then k
    else
      TakenBound(base, sep, used, k + 1);
      FreeFrom(base, sep, used, k + 1)
  }

  /** The name a rename loop settles on. */
  function FreshName(base: string, sep: string, used: set<string>): (name: string)
    requires sep != ""
    ensures name !in used && (base !in used ==> name == base)
  {
    Candidate(base, sep, FreeFrom(base, sep, used, 1))
  }

  /** The base itself if it is free, and otherwise with the least number from 2 that makes it free. */
  ghost predicate FirstFree(base: string, sep: string, used: set<string>, name: string) {
    if base !in used then name == base
    else exists k: nat :: k >= 2 && Numbered(base, sep, used, name, k)
  }

  ghost predicate Numbered(base: string, sep: string, used: set<string>, name: string, k: nat) {
    name == base + sep + Itoa(k) && name !in used && forall j: nat | 2 <= j < k :: base + sep + Itoa(j) in used
  }

  lemma FreshIsFirstFree(base: string, sep: string, used: set<string>)
    requires sep != ""
    ensures FirstFree(base, sep, used, FreshName(base, sep, used))
  {
    var k := FreeFrom(base, sep, used, 1);
    if base in used {
      assert Candidate(base, sep, 1) == base;
      forall j: nat | 2 <= j < k
        ensures base + sep + Itoa(j) in used
      {
        assert Candidate(base, sep, j) == base + sep + Itoa(j);
      }
      assert Numbered(base, sep, used, FreshName(base, sep, used), k);
    }
  }

  /** One of the names a rename loop tries. */
  ghost predicate Derived(base: string, sep: string, name: string)
    requires sep != ""
  {
    exists k: nat :: k >= 1 && name == Candidate(base, sep, k)
  }

  lemma FreshIsDerived(base: string, sep: string, used: set<string>)
    requires sep != ""
    ensures Derived(base, sep, FreshName(base, sep, used))
  {
    assert IsLeastFree(base, sep, used, FreeFrom(base, sep, used, 1));
  }

  /** The loop ends within one more try than there are used names, at the least free candidate. */
  method UniqueName(base: string, sep: string, used: set<string>) returns (name: string, tries: nat)
    requires sep != ""
    ensures name == FreshName(base, sep, used)
    ensures IsLeastFree(base, sep, used, tries) && name == Candidate(base, sep, tries)
    ensures tries <= |used| + 1
  {
    name, tries := base, 1;
    var k := 2;
    while name in used
      invariant k == tries + 1 && tries >= 1 && name == Candidate(base, sep, tries)
      invariant forall j | 1 <= j < tries :: Candidate(base, sep, j) in used
      decreases |used| + 2 - k
    {
      TakenBound(base, sep, used, k);
      name := base + sep + Itoa(k);
      tries := k;
      k := k + 1;
    }
    TakenBound(base, sep, used, tries);
    LeastFreeUnique(base, sep, used, tries, FreeFrom(base, sep, used, 1));
  }

  // node.UniqueNames

  ghost predicate Distinct(names: seq<string>) {
    forall i, j | 0 <= i < j < |names| :: names[i] != names[j]
  }

  function NamesUsed(names: seq<string>): set<string> {
    set n | n in names
  }

  function UniqueNamesOf(bases: seq<string>): (out: seq<string>)
    ensures |out| == |bases|
  {
    if bases == [] then []
    else
      var before := UniqueNamesOf(bases[..|bases| - 1]);
      before + [FreshName(bases[|bases| - 1], " ", NamesUsed(before))]
  }

  /** Names are distinct, and each is its base as the earlier outputs leave it free. */
  lemma {:induction false} UniqueNamesDistinct(bases: seq<string>)
    ensures Distinct(UniqueNamesOf(bases))
    ensures var out := UniqueNamesOf(bases);
            forall i | 0 <= i < |bases| :: FirstFree(bases[i], " ", NamesUsed(out[..i]), out[i])
  {
    hide FirstFree;
    if bases != [] {
      var front, last := bases[..|bases| - 1], bases[|bases| - 1];
      UniqueNamesDistinct(front);
      var before, out := UniqueNamesOf(front), UniqueNamesOf(bases);
      FreshIsFirstFree(last, " ", NamesUsed(before));
      forall i | 0 <= i < |bases|
        ensures FirstFree(bases[i], " ", NamesUsed(out[..i]), out[i])
      {
        if i < |front| {
          assert out[..i] == before[..i] && front[i] == bases[i];
        } else {
          assert out[..i] == before;
        }
      }
    }
  }

  method UniqueNames(bases: seq<string>) returns (out: seq<string>)
    ensures out == UniqueNamesOf(bases)
  {
    var used: set<string> := {};
    out := [];
    for i := 0 to |bases|
      invariant out == UniqueNamesOf(bases[..i]) && used == NamesUsed(out)
    {
      assert bases[..i + 1][..i] == bases[..i];
      var name, _ := UniqueName(bases[i], " ", used);
      used := used + {name};
      out := out + [name];
    }
    assert bases[..|bases|] == bases;
  }
}
