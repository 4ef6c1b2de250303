// No update is lost, no drain deadline is missed, and the core stays sound, in every run of the
// manager's event loop.
module ManagerProofs {
  import opened Wrappers
  import opened RelayTypes
  import opened PlanSpec
  import opened RenderSpec
  import opened RenderProofs
  import opened Document
  import opened ManagerSpec
  import CoreSpec
  import CoreOutcome
  import CoreProofs
  import CoreRuns
  import StoreSpec
  import StoreProofs

  // The plan mailbox

  /** The newest plan is about to be sent, in the mailbox, or in use; sending never blocks. */
  ghost predicate PlanHandedOver(s: State) {
    match s.newest
    case None => s.setter.Resting? && s.mailbox.None? && s.plan.None?
    case Some(p) =>
      if s.setter.Sending? then s.setter.plan == p && s.mailbox.None?
      else s.mailbox == Some(p) || (s.mailbox.None? && s.plan == Some(p))
  }

  ghost predicate GoodPlan(p: Option<Plan>) {
    p.Some? ==> DistinctRelays(p.value.relays)
  }

  ghost predicate GoodPlans(s: State) {
    GoodPlan(s.newest) && GoodPlan(s.mailbox) && GoodPlan(s.plan)
  }

  lemma NextKeepsPlans(env: Env, s: State, e: Event, s': State)
    requires PlanHandedOver(s) && GoodPlans(s) && Next(env, s, e, s')
    ensures PlanHandedOver(s') && GoodPlans(s')
  {
    hide Next;
    match e
    case DrainsPlan(p) => DrainKeepsPlans(env, s, p, s');
    case SendsPlan => SendKeepsPlans(env, s, s');
    case TakesPlan => TakeKeepsPlans(env, s, s');
    case _ => OthersKeepPlans(env, s, e, s');
  }

  lemma DrainKeepsPlans(env: Env, s: State, p: Plan, s': State)
    requires PlanHandedOver(s) && GoodPlans(s) && Next(env, s, DrainsPlan(p), s')
    ensures PlanHandedOver(s') && GoodPlans(s')
  {
  }

  lemma SendKeepsPlans(env: Env, s: State, s': State)
    requires PlanHandedOver(s) && GoodPlans(s) && Next(env, s, SendsPlan, s')
    ensures PlanHandedOver(s') && GoodPlans(s')
  {
  }

  lemma TakeKeepsPlans(env: Env, s: State, s': State)
    requires PlanHandedOver(s) && GoodPlans(s) && Next(env, s, TakesPlan, s')
    ensures PlanHandedOver(s') && GoodPlans(s')
  {
  }

  /** The other steps leave the plans alone. */
  lemma OthersKeepPlans(env: Env, s: State, e: Event, s': State)
    requires PlanHandedOver(s) && GoodPlans(s) && Next(env, s, e, s')
    requires !e.DrainsPlan? && !e.SendsPlan? && !e.TakesPlan?
    ensures PlanHandedOver(s') && GoodPlans(s')
  {
    hide PlanHandedOver, GoodPlans;
    SamePlans(env, s, e, s');
    PlansDecide(s, s');
  }

  lemma SamePlans(env: Env, s: State, e: Event, s': State)
    requires Next(env, s, e, s') && !e.DrainsPlan? && !e.SendsPlan? && !e.TakesPlan?
    ensures s'.setter == s.setter && s'.mailbox == s.mailbox && s'.newest == s.newest && s'.plan == s.plan
  {
    hide FinishApply, CoreSpec.Sweep, CoreRuns.Next, StoreProofs.Mutate, Earliest;
    match e
    case Finishes(now) => FinishEffect(env, s, now);
    case _ =>
  }

  lemma PlansDecide(s: State, s': State)
    requires PlanHandedOver(s) && GoodPlans(s)
    requires s'.setter == s.setter && s'.mailbox == s.mailbox && s'.newest == s.newest && s'.plan == s.plan
    ensures PlanHandedOver(s') && GoodPlans(s')
  {
  }

  // Reads

  /** Something will make the loop render again. */
  predicate Pending(s: State) {
    s.store.changed || s.timer
  }

  /** A read that no longer matches the store. */
  ghost predicate Outdated(s: State, answers: seq<seq<Node>>) {
    exists i | 0 <= i < |answers| :: i < |Wanted(s)| && answers[i] != StoreSpec.NodesOf(s.store.subs, Wanted(s)[i])
  }

  ghost predicate ReadsTracked(s: State) {
    && (s.phase.Reading? ==>
          && s.plan.Some? && !s.tried && |s.phase.answers| <= |Wanted(s)|
          && (Outdated(s, s.phase.answers) ==> Pending(s)))
    && (s.tried ==> s.plan.Some? && |s.answers| == |Wanted(s)| && (Outdated(s, s.answers) ==> Pending(s)))
    && (s.started && s.phase.Idle? ==> s.tried)
    && ((s.tried || s.phase.Reading?) && !s.started ==> s.plan.Some? && s.plan.value.relays != [])
    && (s.plan.Some? && s.plan.value.relays != [] && s.phase.Idle? ==> s.tried)
  }

  lemma MutationOutdates(s: State, m: StoreProofs.Mutation<Node>, answers: seq<seq<Node>>)
    requires Outdated(s, answers) ==> Pending(s)
    ensures var s' := s.(store := StoreProofs.Mutate(s.store, m)); Outdated(s', answers) ==> Pending(s')
  {
    var s' := s.(store := StoreProofs.Mutate(s.store, m));
    StoreProofs.MutationsSignal(s.store, m);
    if Outdated(s', answers) && !s'.store.changed {
      assert StoreProofs.SameNodes(s.store.subs, s'.store.subs);
      var i :| 0 <= i < |answers| && i < |Wanted(s')| && answers[i] != StoreSpec.NodesOf(s'.store.subs, Wanted(s')[i]);
      assert answers[i] != StoreSpec.NodesOf(s.store.subs, Wanted(s)[i]);
    }
  }

  lemma ReadKeepsWanted(s: State)
    requires CanRead(s)
    ensures var s' := ReadSub(s); Wanted(s') == Wanted(s) && s'.store == s.store && s'.timer == s.timer
  {
  }

  lemma ReadUpToDate(s: State)
    requires CanRead(s) && (Outdated(s, s.phase.answers) ==> Pending(s))
    ensures var s' := ReadSub(s); Outdated(s', s'.phase.answers) ==> Pending(s')
  {
    hide Wanted, StoreSpec.NodesOf;
    ReadKeepsWanted(s);
    var s' := ReadSub(s);
    if Outdated(s', s'.phase.answers) {
      var i :| 0 <= i < |s'.phase.answers| && i < |Wanted(s')| &&
        s'.phase.answers[i] != StoreSpec.NodesOf(s'.store.subs, Wanted(s')[i]);
      assert i < |s.phase.answers|;
      assert s.phase.answers[i] != StoreSpec.NodesOf(s.store.subs, Wanted(s)[i]);
    }
  }

  lemma StartKeepsReads(s: State)
    requires s.phase.Idle? && (s.started ==> s.plan.Some?)
    requires s.tried ==> s.plan.Some? && (s.started || s.plan.value.relays != [])
    ensures ReadsTracked(StartApply(s))
  {
    var s' := StartApply(s);
    if s' != s {
      assert !Outdated(s', s'.phase.answers);
    }
  }

  // What FinishApply changes

  ghost predicate Kept(s: State, s': State) {
    s'.core == s.core && s'.applied == s.applied && s'.origin == s.origin && s'.sweepTimer == s.sweepTimer
  }

  function Rendered(env: Env, s: State): Desired
    requires CanFinish(s)
  {
    RenderReads(LoaderOf(env), s.plan.value, s.phase.answers)
  }

  ghost predicate Applied(env: Env, s: State, now: int, s': State)
    requires CanFinish(s)
  {
    var r := CoreSpec.Apply(env.core, s.core, Rendered(env, s), now);
    && r.Success? && s'.core == r.value.0
    && s'.applied == env.yaml(DocOf(Rendered(env, s))) && s'.applied.Some?
    && s'.origin == Some((s.plan.value, s.phase.answers))
    && s'.sweepTimer == if r.value.1.draining > 0 then Earliest(s'.core.draining) else s.sweepTimer
  }

  /** The document marshals to the bytes of the last one applied. */
  ghost predicate Skipped(env: Env, s: State, s': State)
    requires CanFinish(s)
  {
    s.started && s.applied.Some? && s.applied == env.yaml(DocOf(Rendered(env, s))) && Kept(s, s')
  }

  lemma FinishEffect(env: Env, s: State, now: int)
    requires CanFinish(s)
    ensures var s' := FinishApply(env, s, now);
            && s' == s.(phase := Idle, tried := true, answers := s.phase.answers, started := s'.started,
                        failed := s'.failed,
                        core := s'.core, applied := s'.applied, origin := s'.origin, sweepTimer := s'.sweepTimer)
            && (s.started ==> s'.started) && (!s'.failed ==> s'.started)
            && if s'.failed then Kept(s, s')
               else Skipped(env, s, s') || Applied(env, s, now, s')
  {
    hide RenderReads, DocOf, CoreSpec.Apply, Earliest, LoaderOf;
  }

  /** The attempt to install d is skipped as unchanged, or mihomo takes it. */
  ghost predicate Accepts(env: Env, s: State, d: Desired) {
    && env.yaml(DocOf(d)).Some? && (s.started || env.starts)
    && (s.applied == env.yaml(DocOf(d)) || CoreOutcome.Loads(env.core, s.core, d))
  }

  /**
   * An attempt fails exactly if the rendering does not marshal, or mihomo has to be started and does
   * not start, or the rendering changed and mihomo does not take it. If it does not fail, the rendering
   * is what was applied last, and the core's current state unless it was skipped as unchanged.
   */
  lemma FinishSucceedsIff(env: Env, s: State, now: int)
    requires CanFinish(s) && GoodPlans(s) && CoreProofs.Inv(env.core, s.core) && (s.applied.Some? ==> s.started)
    ensures var s', d := FinishApply(env, s, now), Rendered(env, s);
            && (!s'.failed <==> Accepts(env, s, d))
            && (!s'.failed ==> s'.started && s'.applied == env.yaml(DocOf(d)))
            && (!s'.failed && s.applied != env.yaml(DocOf(d)) ==> s'.core.current == Some(d))
            && (s'.failed ==> !Accepts(env, s', d))
  {
    hide RenderReads, DocOf, CoreSpec.Apply, Earliest, LoaderOf, CoreProofs.Inv, CoreOutcome.Loads, WellFormed;
    var d := Rendered(env, s);
    RenderIsWellFormed(env, s.plan.value, s.phase.answers);
    CoreOutcome.ApplySucceedsIff(env.core, s.core, d, now);
    if CoreSpec.Apply(env.core, s.core, d, now).Success? {
      ApplySetsCurrent(env.core, s.core, d, now);
    }
  }

  lemma FinishKeepsReads(env: Env, s: State, now: int)
    requires CanFinish(s) && ReadsTracked(s)
    ensures ReadsTracked(FinishApply(env, s, now))
  {
    var s' := FinishApply(env, s, now);
    FinishEffect(env, s, now);
    assert Wanted(s') == Wanted(s);
    assert Outdated(s', s'.answers) ==> Outdated(s, s.phase.answers);
  }

  lemma SameReads(s: State, s': State)
    requires ReadsTracked(s)
    requires s'.store == s.store && s'.plan == s.plan && s'.phase == s.phase && s'.timer == s.timer
    requires s'.started == s.started && s'.tried == s.tried && s'.answers == s.answers
    ensures ReadsTracked(s')
  {
    assert Wanted(s') == Wanted(s);
    assert Outdated(s', s'.answers) ==> Outdated(s, s.answers);
    assert s.phase.Reading? ==> (Outdated(s', s'.phase.answers) ==> Outdated(s, s.phase.answers));
  }

  lemma MutateKeepsReads(s: State, m: StoreProofs.Mutation<Node>)
    requires ReadsTracked(s)
    ensures ReadsTracked(s.(store := StoreProofs.Mutate(s.store, m)))
  {
    hide StoreProofs.Mutate, Outdated;
    if s.tried { MutationOutdates(s, m, s.answers); }
    if s.phase.Reading? { MutationOutdates(s, m, s.phase.answers); }
  }

  lemma ChangedKeepsReads(s: State)
    requires ReadsTracked(s) && s.phase.Idle?
    ensures ReadsTracked(TakeChanged(s))
  {
    var s' := TakeChanged(s);
    assert Outdated(s', s'.answers) ==> Outdated(s, s.answers);
  }

  lemma ReadKeepsReads(s: State)
    requires ReadsTracked(s) && CanRead(s)
    ensures ReadsTracked(ReadSub(s))
  {
    ReadUpToDate(s);
  }

  /** The other steps leave alone what reads depend on. */
  lemma OthersKeepReads(env: Env, s: State, e: Event, s': State)
    requires ReadsTracked(s) && Next(env, s, e, s')
    requires e.DrainsPlan? || e.SendsPlan? || e.Sweeps? || e.Opens? || e.Closes?
    ensures ReadsTracked(s')
  {
    hide ReadsTracked, CoreSpec.Sweep, CoreRuns.Next, Earliest;
    SameReads(s, s');
  }

  lemma NextKeepsReads(env: Env, s: State, e: Event, s': State)
    requires ReadsTracked(s) && Next(env, s, e, s')
    requires s.started ==> s.plan.Some?
    ensures ReadsTracked(s')
  {
    hide FinishApply, CoreRuns.Next, Outdated, StartApply, StoreProofs.Mutate;
    match e
    case Mutates(m) => MutateKeepsReads(s, m);
    case TakesPlan => StartKeepsReads(s.(plan := s.mailbox, mailbox := None, timer := false, tried := false));
    case TakesChanged => ChangedKeepsReads(s);
    case Fires => StartKeepsReads(s.(timer := false));
    case Reads => ReadKeepsReads(s);
    case Finishes(now) => FinishKeepsReads(env, s, now);
    case _ => OthersKeepReads(env, s, e, s');
  }

  // What is applied

  ghost predicate CurrentIs(env: Env, s: State, p: Plan, answers: seq<seq<Node>>) {
    && DistinctRelays(p.relays) && |answers| == |SubsRead(p.relays)|
    && s.core.current == Some(RenderReads(LoaderOf(env), p, answers))
  }

  /** The document of this plan and these answers marshals to the bytes last applied. */
  ghost predicate MarshalsAlike(env: Env, s: State, p: Plan, answers: seq<seq<Node>>) {
    && DistinctRelays(p.relays) && |answers| == |SubsRead(p.relays)|
    && s.applied.Some? && s.applied == env.yaml(DocOf(RenderReads(LoaderOf(env), p, answers)))
  }

  ghost predicate ResultTracked(env: Env, s: State) {
    && (s.applied.Some? <==> s.origin.Some?)
    && (s.origin.Some? ==>
          && CurrentIs(env, s, s.origin.value.0, s.origin.value.1)
          && MarshalsAlike(env, s, s.origin.value.0, s.origin.value.1))
    && (s.tried && !s.failed ==> s.started && s.plan.Some? && MarshalsAlike(env, s, s.plan.value, s.answers))
    && (s.started ==> s.plan.Some?) && (s.applied.Some? ==> s.started)
  }

  /** Skipping an apply whose bytes are unchanged is exact, routes and members included. */
  lemma SkipIsExact(env: Env, s: State, p: Plan, answers: seq<seq<Node>>)
    requires Legible(env.yaml) && ResultTracked(env, s) && MarshalsAlike(env, s, p, answers)
    ensures CurrentIs(env, s, p, answers)
  {
    BytesDetermine(env.yaml, LoaderOf(env), p, answers, s.origin.value.0, s.origin.value.1);
  }

  lemma ApplySetsCurrent(env: CoreSpec.Env, s: CoreSpec.State, d: Desired, now: int)
    requires CoreSpec.Apply(env, s, d, now).Success?
    ensures CoreSpec.Apply(env, s, d, now).value.0.current == Some(d)
  {
  }

  lemma FinishKeepsResult(env: Env, s: State, now: int)
    requires CanFinish(s) && GoodPlans(s) && ResultTracked(env, s)
    ensures ResultTracked(env, FinishApply(env, s, now))
  {
    var s' := FinishApply(env, s, now);
    FinishEffect(env, s, now);
    if Applied(env, s, now, s') {
      ApplySetsCurrent(env.core, s.core, Rendered(env, s), now);
    }
  }

  lemma SweepKeepsCurrent(s: CoreSpec.State, now: int)
    ensures CoreSpec.Sweep(s, now).current == s.current && CoreSpec.Sweep(s, now).proxies == s.proxies
  {
  }

  lemma ConnsKeepCurrent(env: CoreSpec.Env, s: CoreSpec.State, e: CoreRuns.Event, s': CoreSpec.State)
    requires CoreRuns.Next(env, s, e, s') && (e.OpenEvent? || e.FinishEvent?)
    ensures s'.current == s.current && s'.proxies == s.proxies
  {
  }

  lemma NextKeepsResult(env: Env, s: State, e: Event, s': State)
    requires ResultTracked(env, s) && GoodPlans(s) && Next(env, s, e, s')
    ensures ResultTracked(env, s')
  {
    hide FinishApply, ResultTracked, FailureTracked, CoreSpec.Sweep, StoreProofs.Mutate, Earliest, StartApply;
    match e
    case Finishes(now) => FinishKeepsResult(env, s, now);
    case TakesPlan => StartKeepsResult(env, s, s.(plan := s.mailbox, mailbox := None, timer := false, tried := false));
    case Fires => StartKeepsResult(env, s, s.(timer := false));
    case _ => OthersKeepResult(env, s, e, s');
  }

  /** The other steps leave alone what results depend on. */
  lemma OthersKeepResult(env: Env, s: State, e: Event, s': State)
    requires ResultTracked(env, s) && Next(env, s, e, s')
    requires !e.Finishes? && !e.TakesPlan? && !e.Fires?
    ensures ResultTracked(env, s')
  {
    hide ResultTracked, FailureTracked, CoreSpec.Sweep, StoreProofs.Mutate, Earliest, CoreRuns.Next;
    match e {
      case Sweeps(now) => SweepKeepsCurrent(s.core, now);
      case Opens(id, c) => ConnsKeepCurrent(env.core, s.core, CoreRuns.OpenEvent(id, c), s'.core);
      case Closes(id) => ConnsKeepCurrent(env.core, s.core, CoreRuns.FinishEvent(id), s'.core);
      case _ =>
    }
    SameResult(env, s, s');
  }

  lemma SameResult(env: Env, s: State, s': State)
    requires ResultTracked(env, s) && s'.core.current == s.core.current
    requires s'.applied == s.applied && s'.origin == s.origin && s'.started == s.started && s'.plan == s.plan
    requires s'.tried == s.tried && s'.failed == s.failed && s'.answers == s.answers
    ensures ResultTracked(env, s')
  {
    hide RenderReads, DocOf;
  }

  lemma StartKeepsResult(env: Env, s: State, s1: State)
    requires ResultTracked(env, s) && s1.core == s.core && s1.applied == s.applied && s1.origin == s.origin
    requires s1.started == s.started && s1.failed == s.failed && (s.plan.Some? ==> s1.plan.Some?)
    requires !s1.tried || (s1.tried == s.tried && s1.plan == s.plan && s1.answers == s.answers)
    ensures ResultTracked(env, StartApply(s1))
  {
    hide RenderReads, DocOf;
  }

  // Why an attempt failed

  /** If the last attempt failed, another attempt at the same rendering would fail as well. */
  ghost predicate FailureTracked(env: Env, s: State) {
    s.tried && s.failed ==>
      && s.plan.Some? && |s.answers| == |SubsRead(s.plan.value.relays)|
      && !Accepts(env, s, RenderReads(LoaderOf(env), s.plan.value, s.answers))
  }

  /** What mihomo takes does not depend on connections. */
  lemma SameObjectsAccept(env: Env, s: State, s': State, d: Desired)
    requires s'.applied == s.applied && s'.started == s.started
    requires s'.core.current == s.core.current && s'.core.proxies == s.core.proxies
    ensures Accepts(env, s', d) <==> Accepts(env, s, d)
  {
  }

  lemma SameFailure(env: Env, s: State, s': State)
    requires FailureTracked(env, s) && s'.applied == s.applied && s'.started == s.started && s'.plan == s.plan
    requires s'.tried == s.tried && s'.failed == s.failed && s'.answers == s.answers
    requires s'.core.current == s.core.current && s'.core.proxies == s.core.proxies
    ensures FailureTracked(env, s')
  {
    hide RenderReads, LoaderOf, Accepts;
    if s.tried && s.failed {
      SameObjectsAccept(env, s, s', RenderReads(LoaderOf(env), s.plan.value, s.answers));
    }
  }

  lemma FinishKeepsFailure(env: Env, s: State, now: int)
    requires CanFinish(s) && GoodPlans(s) && CoreProofs.Inv(env.core, s.core) && (s.applied.Some? ==> s.started)
    ensures FailureTracked(env, FinishApply(env, s, now))
  {
    hide FinishApply, Accepts, RenderReads, LoaderOf, CoreProofs.Inv, Kept, Skipped, Applied;
    FinishSucceedsIff(env, s, now);
    FinishEffect(env, s, now);
  }

  lemma StartKeepsFailure(env: Env, s: State, s1: State)
    requires FailureTracked(env, s) && s1.core == s.core && s1.applied == s.applied && s1.started == s.started
    requires s1.failed == s.failed
    requires !s1.tried || (s1.tried == s.tried && s1.plan == s.plan && s1.answers == s.answers)
    ensures FailureTracked(env, StartApply(s1))
  {
    hide RenderReads, LoaderOf, CoreOutcome.Loads;
  }

  lemma NextKeepsFailure(env: Env, s: State, e: Event, s': State)
    requires FailureTracked(env, s) && ResultTracked(env, s) && GoodPlans(s) && CoreProofs.Inv(env.core, s.core)
    requires Next(env, s, e, s')
    ensures FailureTracked(env, s')
  {
    hide FinishApply, FailureTracked, CoreSpec.Sweep, StoreProofs.Mutate, Earliest, StartApply, CoreProofs.Inv,
      CurrentIs, MarshalsAlike;
    match e
    case Finishes(now) => FinishKeepsFailure(env, s, now);
    case TakesPlan => StartKeepsFailure(env, s, s.(plan := s.mailbox, mailbox := None, timer := false, tried := false));
    case Fires => StartKeepsFailure(env, s, s.(timer := false));
    case _ => OthersKeepFailure(env, s, e, s');
  }

  lemma OthersKeepFailure(env: Env, s: State, e: Event, s': State)
    requires FailureTracked(env, s) && Next(env, s, e, s')
    requires !e.Finishes? && !e.TakesPlan? && !e.Fires?
    ensures FailureTracked(env, s')
  {
    hide FailureTracked, CoreSpec.Sweep, StoreProofs.Mutate, Earliest, CoreRuns.Next;
    match e {
      case Sweeps(now) => SweepKeepsCurrent(s.core, now);
      case Opens(id, c) => ConnsKeepCurrent(env.core, s.core, CoreRuns.OpenEvent(id, c), s'.core);
      case Closes(id) => ConnsKeepCurrent(env.core, s.core, CoreRuns.FinishEvent(id), s'.core);
      case _ =>
    }
    SameFailure(env, s, s');
  }

  // Drain deadlines

  /** The sweep timer is set for the earliest deadline, and only then. */
  ghost predicate SweepScheduled(s: State) {
    s.sweepTimer == Earliest(s.core.draining)
  }

  lemma EarliestIsNext(draining: map<nat, int>)
    ensures CoreSpec.IsNextDeadline(draining, Earliest(draining))
  {
    if draining != map[] {
      var t := Earliest(draining).value;
      assert t in draining.Values;
      var id :| id in draining && draining[id] == t;
      forall i | i in draining
        ensures t <= draining[i]
      {
        assert draining[i] in draining.Values;
      }
    }
  }

  lemma NextDeadlineUnique(draining: map<nat, int>, a: Option<int>, b: Option<int>)
    requires CoreSpec.IsNextDeadline(draining, a) && CoreSpec.IsNextDeadline(draining, b)
    ensures a == b
  {
    if a.Some? {
      var id :| id in draining && draining[id] == a.value;
    }
  }

  lemma NoneMarkedSameDraining(env: CoreSpec.Env, s: CoreSpec.State, d: Desired, now: int)
    requires CoreSpec.Apply(env, s, d, now).Success? && CoreSpec.Apply(env, s, d, now).value.1.draining == 0
    ensures CoreSpec.Apply(env, s, d, now).value.0.draining == s.draining
  {
  }

  lemma FinishKeepsSchedule(env: Env, s: State, now: int)
    requires CanFinish(s) && SweepScheduled(s)
    ensures SweepScheduled(FinishApply(env, s, now))
  {
    var s' := FinishApply(env, s, now);
    FinishEffect(env, s, now);
    if Applied(env, s, now, s') {
      var d := Rendered(env, s);
      if CoreSpec.Apply(env.core, s.core, d, now).value.1.draining == 0 {
        NoneMarkedSameDraining(env.core, s.core, d, now);
      }
    }
  }

  lemma NextKeepsSchedule(env: Env, s: State, e: Event, s': State)
    requires SweepScheduled(s) && Next(env, s, e, s')
    ensures SweepScheduled(s')
  {
    hide FinishApply, CoreSpec.Sweep;
    match e
    case Finishes(now) => FinishKeepsSchedule(env, s, now);
    case _ =>
  }

  // The core inside

  lemma RenderIsWellFormed(env: Env, p: Plan, answers: seq<seq<Node>>)
    requires DistinctRelays(p.relays) && |answers| == |SubsRead(p.relays)|
    ensures WellFormed(RenderReads(LoaderOf(env), p, answers))
  {
    RenderWellFormed(LoaderOf(env), p, answers);
  }

  /** The core step that a manager step takes, if it takes one. */
  ghost function CoreEvent(env: Env, s: State, e: Event): Option<CoreRuns.Event> {
    match e
    case Finishes(now) => if CanFinish(s) then Some(CoreRuns.ApplyEvent(Rendered(env, s), now)) else None
    case Sweeps(now) => Some(CoreRuns.SweepEvent(now))
    case Opens(id, c) => Some(CoreRuns.OpenEvent(id, c))
    case Closes(id) => Some(CoreRuns.FinishEvent(id))
    case _ => None
  }

  /** The manager step leaves the core alone or takes one core step. */
  ghost predicate CoreSteps(env: Env, s: State, e: Event, s': State) {
    s'.core == s.core || (CoreEvent(env, s, e).Some? &&
                          CoreRuns.Next(env.core, s.core, CoreEvent(env, s, e).value, s'.core))
  }

  lemma FinishStepsCore(env: Env, s: State, now: int)
    requires CanFinish(s) && GoodPlans(s)
    ensures CoreSteps(env, s, Finishes(now), FinishApply(env, s, now))
  {
    FinishEffect(env, s, now);
    RenderWellFormed(LoaderOf(env), s.plan.value, s.phase.answers);
  }

  lemma NextStepsCore(env: Env, s: State, e: Event, s': State)
    requires GoodPlans(s) && Next(env, s, e, s')
    ensures CoreSteps(env, s, e, s')
  {
    hide FinishApply, CoreSpec.Sweep, Rendered;
    match e
    case Finishes(now) => FinishStepsCore(env, s, now);
    case _ =>
  }

  lemma NextKeepsCore(env: Env, s: State, e: Event, s': State)
    requires GoodPlans(s) && CoreProofs.Inv(env.core, s.core) && Next(env, s, e, s')
    ensures CoreProofs.Inv(env.core, s'.core)
  {
    hide CoreProofs.Inv, CoreRuns.Next, CoreEvent, Next;
    NextStepsCore(env, s, e, s');
    if s'.core != s.core {
      CoreRuns.NextKeepsInv(env.core, s.core, CoreEvent(env, s, e).value, s'.core);
    }
  }

  // Whole runs

  ghost predicate Inv(env: Env, s: State) {
    && PlanHandedOver(s) && GoodPlans(s)
    && ReadsTracked(s) && ResultTracked(env, s) && FailureTracked(env, s)
    && SweepScheduled(s) && CoreProofs.Inv(env.core, s.core)
  }

  lemma NextKeepsInv(env: Env, s: State, e: Event, s': State)
    requires Inv(env, s) && Next(env, s, e, s')
    ensures Inv(env, s')
  {
    NextKeepsPlans(env, s, e, s');
    NextKeepsReads(env, s, e, s');
    NextKeepsResult(env, s, e, s');
    NextKeepsFailure(env, s, e, s');
    NextKeepsSchedule(env, s, e, s');
    NextKeepsCore(env, s, e, s');
  }

  ghost predicate Run(env: Env, states: seq<State>, events: seq<Event>) {
    && |states| == |events| + 1
    && (exists next :: states[0] == Initial(env, next))
    && forall i | 0 <= i < |events| :: Next(env, states[i], events[i], states[i + 1])
  }

  lemma InitialInv(env: Env, next: nat)
    ensures Inv(env, Initial(env, next))
  {
    CoreRuns.InitialInv(env.core, next);
  }

  lemma {:induction false} RunKeepsInv(env: Env, states: seq<State>, events: seq<Event>, i: nat)
    requires Run(env, states, events) && i < |states|
    ensures Inv(env, states[i])
  {
    hide Inv, Next;
    if i == 0 {
      var next :| states[0] == Initial(env, next);
      InitialInv(env, next);
    } else {
      RunKeepsInv(env, states, events, i - 1);
      NextKeepsInv(env, states[i - 1], events[i - 1], states[i]);
    }
  }

  /** Nothing is left for the loop or for SetPlan to do. */
  predicate Quiescent(s: State) {
    s.phase.Idle? && s.setter.Resting? && s.mailbox.None? && !Pending(s)
  }

  /** The reads of the last render are what the store has now. */
  lemma AnswersCurrent(s: State)
    requires ReadsTracked(s) && s.tried && !Pending(s)
    ensures s.answers == ReadAll(Wanted(s), sub => StoreSpec.NodesOf(s.store.subs, sub))
  {
    var now := ReadAll(Wanted(s), sub => StoreSpec.NodesOf(s.store.subs, sub));
    forall i | 0 <= i < |s.answers|
      ensures s.answers[i] == now[i]
    {
      assert !Outdated(s, s.answers);
    }
  }

  lemma QuiescentIsCurrent(env: Env, s: State)
    requires Legible(env.yaml) && Inv(env, s) && Quiescent(s) && s.started && !s.failed
    ensures s.newest.Some?
    ensures s.core.current == Some(Render(LoaderOf(env), s.newest.value, sub => StoreSpec.NodesOf(s.store.subs, sub)))
  {
    AnswersCurrent(s);
    SkipIsExact(env, s, s.plan.value, s.answers);
  }

  /** The rendering of the newest plan over the nodes the store has now. */
  ghost function Newest(env: Env, s: State): Desired
    requires s.newest.Some?
  {
    Render(LoaderOf(env), s.newest.value, sub => StoreSpec.NodesOf(s.store.subs, sub))
  }

  /** At rest, the last attempt was at the newest plan and the current nodes. */
  lemma QuiescentIsNewest(env: Env, s: State)
    requires Inv(env, s) && Quiescent(s) && s.newest.Some? && (s.started || s.newest.value.relays != [])
    ensures s.tried && s.plan == s.newest && |s.answers| == |SubsRead(s.plan.value.relays)|
    ensures Newest(env, s) == RenderReads(LoaderOf(env), s.plan.value, s.answers)
  {
    hide RenderReads, ResultTracked, FailureTracked, SweepScheduled, CoreProofs.Inv, Outdated;
    AnswersCurrent(s);
  }

  /**
   * At rest, with relays to run, the last attempt did not fail exactly if mihomo takes the rendering of
   * the newest plan over the current nodes; and then that is the core's current state.
   */
  lemma QuiescentSucceedsIff(env: Env, s: State)
    requires Inv(env, s) && Quiescent(s) && s.newest.Some? && (s.started || s.newest.value.relays != [])
    ensures s.started && !s.failed <==> Accepts(env, s, Newest(env, s))
    ensures Legible(env.yaml) && Accepts(env, s, Newest(env, s)) ==> s.core.current == Some(Newest(env, s))
  {
    QuiescentIsNewest(env, s);
    hide RenderReads, PlanHandedOver, ReadsTracked, SweepScheduled, CoreProofs.Inv, CoreOutcome.Loads, DocOf, Newest;
    if Legible(env.yaml) && !s.failed {
      SkipIsExact(env, s, s.plan.value, s.answers);
    }
  }

  /**
   * No lost update: in every run, whenever the loop is at rest with nothing pending and its last
   * attempt did not fail, the core runs the rendering of the newest plan over the current nodes,
   * provided that marshalled bytes determine the document.
   */
  lemma NoLostUpdate(env: Env, states: seq<State>, events: seq<Event>, i: nat)
    requires Legible(env.yaml) && Run(env, states, events) && i < |states|
    requires Quiescent(states[i]) && states[i].started && !states[i].failed
    ensures states[i].newest.Some?
    ensures states[i].core.current ==
            Some(Render(LoaderOf(env), states[i].newest.value, sub => StoreSpec.NodesOf(states[i].store.subs, sub)))
  {
    RunKeepsInv(env, states, events, i);
    QuiescentIsCurrent(env, states[i]);
  }

  /** And it does not fail exactly if mihomo takes that rendering. */
  lemma RestSucceedsIff(env: Env, states: seq<State>, events: seq<Event>, i: nat)
    requires Run(env, states, events) && i < |states| && Quiescent(states[i]) && states[i].newest.Some?
    requires states[i].started || states[i].newest.value.relays != []
    ensures states[i].started && !states[i].failed <==> Accepts(env, states[i], Newest(env, states[i]))
    ensures Legible(env.yaml) && Accepts(env, states[i], Newest(env, states[i])) ==>
              states[i].core.current == Some(Newest(env, states[i]))
  {
    hide Inv, Next, Quiescent, Accepts, Newest;
    RunKeepsInv(env, states, events, i);
    QuiescentSucceedsIff(env, states[i]);
  }

  /** In every reachable state with connections draining, the sweep timer is set for the earliest deadline. */
  lemma SweepAlwaysScheduled(env: Env, states: seq<State>, events: seq<Event>, i: nat)
    requires Run(env, states, events) && i < |states|
    ensures CoreSpec.IsNextDeadline(states[i].core.draining, states[i].sweepTimer)
  {
    RunKeepsInv(env, states, events, i);
    EarliestIsNext(states[i].core.draining);
  }

  /** Refilling the mailbox never blocks. */
  lemma SendNeverBlocks(env: Env, states: seq<State>, events: seq<Event>, i: nat)
    requires Run(env, states, events) && i < |states| && states[i].setter.Sending?
    ensures states[i].mailbox.None?
  {
    RunKeepsInv(env, states, events, i);
  }
}
