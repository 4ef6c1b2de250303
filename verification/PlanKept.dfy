// Which relays and endpoints a plan keeps, in terms of the configuration alone.
module PlanKept {
  import opened ConfigTypes
  import opened PlanSpec
  import opened PlanValid
  import opened PlanProofs

  // Names

  ghost predicate NamedTwice(relays: seq<Relay>, name: string) {
    exists i, j :: 0 <= i < j < |relays| && relays[i].name == relays[j].name == name
  }

  lemma {:induction false} CountedOnce(names: seq<string>, name: string)
    ensures name in names <==> multiset(names)[name] > 0
    ensures multiset(names)[name] > 1 <==> exists i, j :: 0 <= i < j < |names| && names[i] == names[j] == name
  {
    if names != [] {
      var front, last := names[..|names| - 1], names[|names| - 1];
      assert names == front + [last];
      CountedOnce(front, name);
      if last == name && name in front {
        var i :| 0 <= i < |front| && front[i] == name;
        assert names[i] == names[|front|] == name;
      }
      if i, j :| 0 <= i < j < |front| && front[i] == front[j] == name {
        assert names[i] == names[j] == name;
      }
      if i, j :| 0 <= i < j < |names| && names[i] == names[j] == name {
        assert front[i] == name;
        assert j < |front| ==> front[j] == name;
      }
    }
  }

  lemma DuplicatedIff(relays: seq<Relay>, r: Relay)
    requires r.name != ""
    ensures Duplicated(multiset(RelayNames(relays)), r) <==> NamedTwice(relays, r.name)
  {
    var names := RelayNames(relays);
    CountedOnce(names, r.name);
    if NamedTwice(relays, r.name) {
      var i, j :| 0 <= i < j < |relays| && relays[i].name == relays[j].name == r.name;
      assert names[i] == names[j] == r.name;
    }
  }

  // Valid relays

  /** A relay of the configuration that meets the conditions and has its name to itself. */
  ghost predicate Usable(loads: Loads, relays: seq<Relay>, knownSubs: set<string>, ownPort: int, r: Relay) {
    r in relays && Meets(loads, r, knownSubs, ownPort) && !NamedTwice(relays, r.name)
  }

  lemma ValidIffUsable(loads: Loads, relays: seq<Relay>, knownSubs: set<string>, ownPort: int, v: ValidRelay)
    ensures v in ValidOf(loads, relays, knownSubs, ownPort) <==>
            exists r | Usable(loads, relays, knownSubs, ownPort, r) :: v == Validated(r)
  {
    hide Meets, Validated, ValidateRelay, NamedTwice;
    var names := multiset(RelayNames(relays));
    ValidRelaysAre(loads, names, relays, knownSubs, ownPort, v);
    forall r | r in relays
      ensures Usable(loads, relays, knownSubs, ownPort, r) <==>
              JudgeRelay(loads, names, r, knownSubs, ownPort).Success?
      ensures JudgeRelay(loads, names, r, knownSubs, ownPort).Success? ==>
              JudgeRelay(loads, names, r, knownSubs, ownPort).value == Validated(r)
    {
      ValidIffMeets(loads, r, knownSubs, ownPort);
      if r.name != "" { DuplicatedIff(relays, r); } else { MeetsNamed(loads, r, knownSubs, ownPort); }
    }
  }

  lemma MeetsNamed(loads: Loads, r: Relay, knownSubs: set<string>, ownPort: int)
    ensures Meets(loads, r, knownSubs, ownPort) ==> r.name != ""
  {
  }

  /** An endpoint of some usable relay. */
  ghost predicate Wanted(loads: Loads, relays: seq<Relay>, knownSubs: set<string>, ownPort: int, e: Endpoint) {
    exists r :: Usable(loads, relays, knownSubs, ownPort, r) && e in Validated(r).endpoints
  }

  lemma EndpointsAreWanted(loads: Loads, relays: seq<Relay>, knownSubs: set<string>, ownPort: int, e: Endpoint)
    ensures e in EndpointsOf(ValidOf(loads, relays, knownSubs, ownPort)) <==>
            Wanted(loads, relays, knownSubs, ownPort, e)
  {
    hide Usable, Validated;
    var vs := ValidOf(loads, relays, knownSubs, ownPort);
    EndpointsAre(vs, e);
    if v :| v in vs && e in v.endpoints {
      ValidIffUsable(loads, relays, knownSubs, ownPort, v);
    }
    forall r | Usable(loads, relays, knownSubs, ownPort, r)
      ensures Validated(r) in vs
    {
      ValidIffUsable(loads, relays, knownSubs, ownPort, Validated(r));
    }
  }

  // Kept relays

  /**
   * The relay has the port of this endpoint to itself, or shares it on one address, with usernames only,
   * and none of another relay that is this one's.
   */
  ghost predicate Shareable(eps: seq<Endpoint>, e: Endpoint) {
    || (forall x | x in eps && x.port == e.port :: x.relay == e.relay)
    || forall x | x in eps && x.port == e.port ::
         x.listen == e.listen && x.username != "" && (x.relay != e.relay ==> x.username != e.username)
  }

  ghost predicate Fits(eps: seq<Endpoint>, relay: string) {
    forall e | e in eps && e.relay == relay :: Shareable(eps, e)
  }

  lemma ConflictMeansUnshareable(eps: seq<Endpoint>, relay: string, port: int)
    requires ConflictOn(eps, relay, port)
    ensures !Fits(eps, relay)
  {
    var mine :| mine in eps && mine.port == port && mine.relay == relay;
    var e, e' :| e in eps && e' in eps && e.port == e'.port == port && e.relay != e'.relay;
    assert Fits(eps, relay) ==> Shareable(eps, mine);
    if !MixedListen(eps, port) && !WithoutUsername(eps, port) {
      var s, s' :| s in eps && s' in eps && s.port == s'.port == port && s.relay == relay != s'.relay &&
        s.username == s'.username;
      assert Fits(eps, relay) ==> Shareable(eps, s);
    }
  }

  lemma UnshareableMeansConflict(eps: seq<Endpoint>, e: Endpoint)
    requires e in eps && !Shareable(eps, e)
    ensures ConflictOn(eps, e.relay, e.port)
  {
    var other :| other in eps && other.port == e.port && other.relay != e.relay;
    assert OnPort(eps, e.relay, e.port) && Shared(eps, e.port);
    var x :| x in eps && x.port == e.port &&
      !(x.listen == e.listen && x.username != "" && (x.relay != e.relay ==> x.username != e.username));
  }

  lemma FitsIff(eps: seq<Endpoint>, relay: string)
    ensures Fits(eps, relay) <==> !InConflict(eps, relay)
  {
    hide ConflictOn, Shareable;
    if port :| ConflictOn(eps, relay, port) {
      ConflictMeansUnshareable(eps, relay, port);
    }
    if e :| e in eps && e.relay == relay && !Shareable(eps, e) {
      UnshareableMeansConflict(eps, e);
    }
  }

  /**
   * A plan has exactly the usable relays that can share each of their ports, and its listeners serve
   * exactly the endpoints of those.
   */
  lemma PlanKeeps(loads: Loads, relays: seq<Relay>, knownSubs: set<string>, ownPort: int, spec: RelaySpec, e: Endpoint)
    ensures var eps := EndpointsOf(ValidOf(loads, relays, knownSubs, ownPort));
            && (spec in NewPlan(loads, relays, knownSubs, ownPort).relays <==>
                  exists r | Usable(loads, relays, knownSubs, ownPort, r) ::
                    spec == Validated(r).spec && Fits(eps, r.name))
            && (e in Kept(loads, relays, knownSubs, ownPort) <==>
                  Wanted(loads, relays, knownSubs, ownPort, e) && Fits(eps, e.relay))
            && (forall x :: x in eps <==> Wanted(loads, relays, knownSubs, ownPort, x))
            && NewPlan(loads, relays, knownSubs, ownPort).listeners ==
               BuildListeners(Kept(loads, relays, knownSubs, ownPort))
  {
    hide Usable, Wanted, Fits, InConflict, EndpointsOf, Validated, BuildListeners;
    var vs := ValidOf(loads, relays, knownSubs, ownPort);
    var eps := EndpointsOf(vs);
    KeptRelaysAre(vs, Rejected(eps), spec);
    forall x { EndpointsAreWanted(loads, relays, knownSubs, ownPort, x); }
    FitsIff(eps, e.relay);
    RelaysKept(loads, relays, knownSubs, ownPort, spec);
  }

  lemma RelaysKept(loads: Loads, relays: seq<Relay>, knownSubs: set<string>, ownPort: int, spec: RelaySpec)
    ensures var eps := EndpointsOf(ValidOf(loads, relays, knownSubs, ownPort));
            spec in NewPlan(loads, relays, knownSubs, ownPort).relays <==>
            exists r | Usable(loads, relays, knownSubs, ownPort, r) :: spec == Validated(r).spec && Fits(eps, r.name)
  {
    hide Usable, Fits, InConflict, EndpointsOf, NewPlan, ValidOf;
    var vs := ValidOf(loads, relays, knownSubs, ownPort);
    forall v | v in vs
      ensures exists r | Usable(loads, relays, knownSubs, ownPort, r) :: v == Validated(r)
    {
      ValidIffUsable(loads, relays, knownSubs, ownPort, v);
    }
    forall r | Usable(loads, relays, knownSubs, ownPort, r)
      ensures Validated(r) in vs
      ensures Validated(r).spec in NewPlan(loads, relays, knownSubs, ownPort).relays <==> Fits(EndpointsOf(vs), r.name)
    {
      ValidIffUsable(loads, relays, knownSubs, ownPort, Validated(r));
      KeptIffNoConflict(loads, relays, knownSubs, ownPort, Validated(r));
      FitsIff(EndpointsOf(vs), r.name);
    }
    if spec in NewPlan(loads, relays, knownSubs, ownPort).relays {
      SpecsAreValid(loads, relays, knownSubs, ownPort, spec);
    }
  }

  lemma SpecsAreValid(loads: Loads, relays: seq<Relay>, knownSubs: set<string>, ownPort: int, spec: RelaySpec)
    requires spec in NewPlan(loads, relays, knownSubs, ownPort).relays
    ensures exists v | v in ValidOf(loads, relays, knownSubs, ownPort) :: v.spec == spec
  {
    hide EndpointsOf, InConflict, BuildListeners;
    var vs := ValidOf(loads, relays, knownSubs, ownPort);
    KeptRelaysAre(vs, Rejected(EndpointsOf(vs)), spec);
  }
}
