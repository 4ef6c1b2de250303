// Once the rest of the process leaves the manager alone, its loop comes to rest, and what it then
// runs is up to date.
module ManagerProgress {
  import opened Wrappers
  import opened RelayTypes
  import opened PlanSpec
  import opened RenderSpec
  import opened Document
  import opened ManagerSpec
  import opened ManagerProofs
  import CoreSpec
  import StoreSpec

  /** Steps of the loop itself, and the refill that a SetPlan in progress still owes. */
  predicate LoopStep(e: Event) {
    e.SendsPlan? || e.TakesPlan? || e.TakesChanged? || e.Fires? || e.Reads? || e.Finishes? || e.Sweeps?
  }

  // How much is left to do

  /** The steps of rendering a plan: its reads and the settling. */
  function RenderSteps(p: Option<Plan>): nat {
    if p.Some? then |SubsRead(p.value.relays)| + 1 else 0
  }

  function Longest(s: State): nat {
    var one, two := RenderSteps(s.plan), RenderSteps(s.newest);
    if one < two then two else one
  }

  function PhaseSteps(s: State): int {
    if s.phase.Idle? then 0 else |Wanted(s)| + 1 - |s.phase.answers|
  }

  /** The steps other than sweeps that can still follow. */
  function Owed(s: State): int {
    var n := Longest(s);
    PhaseSteps(s) + (if s.setter.Sending? then n + 2 else 0) + (if s.mailbox.Some? then n + 1 else 0)
      + (if s.timer then n + 1 else 0) + (if s.store.changed then n + 2 else 0)
  }

  /** The connections that a sweep may still have to deal with. */
  function Sweepable(s: State): set<nat> {
    s.core.draining.Keys + s.core.mihomo.conns.Keys
  }

  /** An upper bound on the loop's steps. */
  function Work(s: State): int {
    Owed(s) * (|Sweepable(s)| + 1) + |s.core.draining|
  }

  lemma OwedIsNat(env: Env, s: State)
    requires Inv(env, s)
    ensures Owed(s) >= 0 && PhaseSteps(s) >= 0
  {
    hide ResultTracked, FailureTracked, PlanHandedOver, Outdated;
  }

  // Every step but a sweep takes one away

  lemma StartOwes(s: State)
    requires s.phase.Idle?
    ensures PhaseSteps(StartApply(s)) <= RenderSteps(s.plan)
    ensures var s' := StartApply(s);
            s'.setter == s.setter && s'.mailbox == s.mailbox && s'.newest == s.newest && s'.plan == s.plan
            && s'.timer == s.timer && s'.store == s.store && s'.core == s.core
  {
  }

  lemma TakePlanOwes(s: State)
    requires PlanHandedOver(s) && s.phase.Idle? && s.mailbox.Some?
    ensures Owed(TakePlan(s)) < Owed(s)
  {
    StartOwes(s.(plan := s.mailbox, mailbox := None, timer := false, tried := false));
  }

  lemma TimerOwes(s: State)
    requires s.phase.Idle? && s.timer
    ensures Owed(TimerFires(s)) < Owed(s)
  {
    StartOwes(s.(timer := false));
  }

  lemma SendOwes(s: State)
    requires PlanHandedOver(s) && s.setter.Sending? && s.mailbox.None?
    ensures Owed(SendPlan(s)) < Owed(s)
  {
  }

  lemma ChangedOwes(s: State)
    requires s.phase.Idle? && s.store.changed
    ensures Owed(TakeChanged(s)) < Owed(s)
  {
  }

  lemma ReadOwes(s: State)
    requires CanRead(s)
    ensures Owed(ReadSub(s)) < Owed(s)
  {
    ReadKeepsWanted(s);
  }

  lemma FinishOwes(env: Env, s: State, now: int)
    requires CanFinish(s)
    ensures Owed(FinishApply(env, s, now)) < Owed(s)
  {
    hide FinishApply, Kept, Applied;
    FinishEffect(env, s, now);
  }

  lemma StepOwes(env: Env, s: State, e: Event, s': State)
    requires Inv(env, s) && Next(env, s, e, s') && LoopStep(e) && !e.Sweeps?
    ensures Owed(s') < Owed(s)
  {
    hide ReadsTracked, ResultTracked, FailureTracked, SweepScheduled, FinishApply, TimerFires, TakePlan, Owed,
      GoodPlans;
    match e
    case TakesPlan => TakePlanOwes(s);
    case Fires => TimerOwes(s);
    case Finishes(now) => FinishOwes(env, s, now);
    case SendsPlan => SendOwes(s);
    case TakesChanged => ChangedOwes(s);
    case Reads => ReadOwes(s);
  }

  lemma SweepOwes(env: Env, s: State, now: int)
    ensures Owed(SweepFires(s, now)) == Owed(s)
  {
    hide CoreSpec.Sweep, Earliest;
  }

  // Sweeps

  lemma Smaller<T>(a: set<T>, b: set<T>)
    requires a <= b
    ensures |a| <= |b| && (a != b ==> |a| < |b|)
  {
    assert |b - a| == |b| - |a|;
    if a != b {
      assert exists x :: x in b - a;
    }
  }

  /** A sweep that is due takes at least one connection off the list. */
  lemma SweepShrinks(s: State, now: int)
    requires SweepScheduled(s) && s.sweepTimer.Some? && now >= s.sweepTimer.value
    ensures |SweepFires(s, now).core.draining| < |s.core.draining|
    ensures Sweepable(SweepFires(s, now)) <= Sweepable(s)
  {
    hide Earliest;
    var core := CoreSpec.Sweep(s.core, now);
    EarliestIsNext(s.core.draining);
    var id :| id in s.core.draining && s.core.draining[id] == s.sweepTimer.value;
    assert core.draining.Keys <= s.core.draining.Keys && id !in core.draining.Keys;
    Smaller(core.draining.Keys, s.core.draining.Keys);
  }

  lemma ApplySweepable(env: CoreSpec.Env, s: CoreSpec.State, d: Desired, now: int)
    requires CoreSpec.Apply(env, s, d, now).Success?
    ensures var s' := CoreSpec.Apply(env, s, d, now).value.0;
            s'.draining.Keys <= s.draining.Keys + s.mihomo.conns.Keys && s'.mihomo.conns == s.mihomo.conns
  {
  }

  lemma FinishSweepable(env: Env, s: State, now: int)
    requires CanFinish(s)
    ensures Sweepable(FinishApply(env, s, now)) <= Sweepable(s)
  {
    hide FinishApply;
    FinishEffect(env, s, now);
    if Applied(env, s, now, FinishApply(env, s, now)) {
      ApplySweepable(env.core, s.core, Rendered(env, s), now);
    }
  }

  lemma OthersKeepCore(env: Env, s: State, e: Event, s': State)
    requires Next(env, s, e, s') && LoopStep(e) && !e.Sweeps? && !e.Finishes?
    ensures s'.core == s.core
  {
  }

  lemma StepSweepable(env: Env, s: State, e: Event, s': State)
    requires Inv(env, s) && Next(env, s, e, s') && LoopStep(e)
    ensures Sweepable(s') <= Sweepable(s)
  {
    hide FinishApply, SweepFires, PlanHandedOver, ReadsTracked, ResultTracked, FailureTracked;
    match e
    case Finishes(now) => FinishSweepable(env, s, now);
    case Sweeps(now) => SweepShrinks(s, now);
    case _ => OthersKeepCore(env, s, e, s');
  }

  // Each step of the loop leaves less work

  lemma LessWork(owed: int, owed': int, n: nat, n': nat, d: nat, d': nat)
    requires 0 <= owed' && n' <= n && d' <= n'
    requires owed' < owed || (owed' == owed && d' < d)
    ensures owed' * (n' + 1) + d' < owed * (n + 1) + d
  {
    Scaled(owed', n', n);
    if owed' < owed {
      assert (owed - owed' - 1) * (n + 1) >= 0;
      assert owed * (n + 1) == owed' * (n + 1) + (n + 1) + (owed - owed' - 1) * (n + 1);
    }
  }

  lemma Scaled(owed: int, n': nat, n: nat)
    requires 0 <= owed && n' <= n
    ensures owed * (n' + 1) <= owed * (n + 1)
  {
  }

  lemma DrainingSweepable(s: State)
    ensures |s.core.draining| <= |Sweepable(s)|
  {
    assert |s.core.draining.Keys| == |s.core.draining|;
    Smaller(s.core.draining.Keys, Sweepable(s));
  }

  lemma SweepDue(env: Env, s: State, now: int, s': State)
    requires Inv(env, s) && Next(env, s, Sweeps(now), s')
    ensures SweepScheduled(s) && s.sweepTimer.Some? && now >= s.sweepTimer.value && s' == SweepFires(s, now)
  {
    hide PlanHandedOver, ReadsTracked, ResultTracked, FailureTracked, SweepScheduled, SweepFires;
  }

  lemma SweepWorks(env: Env, s: State, now: int, s': State)
    requires Inv(env, s) && Next(env, s, Sweeps(now), s')
    ensures Owed(s') == Owed(s) && |s'.core.draining| < |s.core.draining|
  {
    hide *;
    SweepDue(env, s, now, s');
    SweepOwes(env, s, now);
    SweepShrinks(s, now);
  }

  lemma StepWorks(env: Env, s: State, e: Event, s': State)
    requires Inv(env, s) && Next(env, s, e, s') && LoopStep(e)
    ensures Inv(env, s') && Work(s') < Work(s)
  {
    hide Inv, Next, Owed, Sweepable, LoopStep;
    NextKeepsInv(env, s, e, s');
    OwedIsNat(env, s');
    StepSweepable(env, s, e, s');
    Smaller(Sweepable(s'), Sweepable(s));
    DrainingSweepable(s');
    if e.Sweeps? {
      SweepWorks(env, s, e.now, s');
    } else {
      StepOwes(env, s, e, s');
    }
    LessWork(Owed(s), Owed(s'), |Sweepable(s)|, |Sweepable(s')|, |s.core.draining|, |s'.core.draining|);
  }

  ghost predicate LoopRun(env: Env, states: seq<State>, events: seq<Event>) {
    && |states| == |events| + 1
    && forall i | 0 <= i < |events| :: LoopStep(events[i]) && Next(env, states[i], events[i], states[i + 1])
  }

  /** Left alone, the loop takes at most Work(s) steps from s, whatever it does first. */
  lemma {:induction false} LoopEnds(env: Env, states: seq<State>, events: seq<Event>)
    requires LoopRun(env, states, events) && Inv(env, states[0])
    ensures |events| <= Work(states[0]) - Work(states[|events|]) && Inv(env, states[|events|])
    ensures Work(states[|events|]) >= 0
    decreases |events|
  {
    hide Inv, Next, Work, LoopStep;
    var n := |events|;
    if n == 0 {
      WorkIsNat(env, states[0]);
    } else {
      LoopEnds(env, states[..n], events[..n - 1]);
      StepWorks(env, states[n - 1], events[n - 1], states[n]);
      WorkIsNat(env, states[n]);
    }
  }

  lemma WorkIsNat(env: Env, s: State)
    requires Inv(env, s)
    ensures Work(s) >= 0
  {
    hide Inv, Owed, Sweepable;
    OwedIsNat(env, s);
    Scaled(Owed(s), 0, |Sweepable(s)|);
  }

  /** A loop that is not at rest can take a step that is not a sweep. */
  lemma LoopProceeds(env: Env, s: State, now: int) returns (e: Event, s': State)
    requires Inv(env, s) && !Quiescent(s)
    ensures LoopStep(e) && !e.Sweeps? && Next(env, s, e, s')
  {
    hide ResultTracked, FailureTracked, SweepScheduled, Outdated, FinishApply, StartApply;
    if s.phase.Reading? {
      if CanRead(s) {
        e, s' := Reads, ReadSub(s);
      } else {
        e, s' := Finishes(now), FinishApply(env, s, now);
      }
    } else if s.mailbox.Some? {
      e, s' := TakesPlan, TakePlan(s);
    } else if s.setter.Sending? {
      e, s' := SendsPlan, SendPlan(s);
    } else if s.timer {
      e, s' := Fires, TimerFires(s);
    } else {
      e, s' := TakesChanged, TakeChanged(s);
    }
  }

  /** So from every reachable state it can come to rest, in at most Work(s) steps. */
  lemma {:induction false} LoopRests(env: Env, s: State, now: int) returns (states: seq<State>, events: seq<Event>)
    requires Inv(env, s)
    ensures LoopRun(env, states, events) && states[0] == s && Quiescent(states[|events|])
    decreases Work(s)
  {
    hide Inv, Next, Work, LoopStep, Quiescent;
    WorkIsNat(env, s);
    if Quiescent(s) {
      states, events := [s], [];
    } else {
      var e, s1 := LoopProceeds(env, s, now);
      StepWorks(env, s, e, s1);
      var states1, events1 := LoopRests(env, s1, now);
      states, events := [s] + states1, [e] + events1;
      forall i | 0 <= i < |events|
        ensures LoopStep(events[i]) && Next(env, states[i], events[i], states[i + 1])
      {
        if i > 0 { assert events[i] == events1[i - 1] && states[i] == states1[i - 1] && states[i + 1] == states1[i]; }
      }
    }
  }

  lemma StepKeepsInputs(env: Env, s: State, e: Event, s': State)
    requires Next(env, s, e, s') && LoopStep(e)
    ensures s'.newest == s.newest && s'.store.subs == s.store.subs
  {
    hide FinishApply, Earliest, CoreSpec.Sweep;
    if e.Finishes? { FinishEffect(env, s, e.now); }
  }

  lemma {:induction false} LoopKeepsInputs(env: Env, states: seq<State>, events: seq<Event>)
    requires LoopRun(env, states, events)
    ensures states[|events|].newest == states[0].newest && states[|events|].store.subs == states[0].store.subs
    decreases |events|
  {
    hide Next, LoopStep;
    var n := |events|;
    if n > 0 {
      LoopKeepsInputs(env, states[..n], events[..n - 1]);
      StepKeepsInputs(env, states[n - 1], events[n - 1], states[n]);
    }
  }

  /** The loop can do nothing but wait for a drain deadline. */
  ghost predicate Stuck(env: Env, s: State) {
    forall e, s' | LoopStep(e) && !e.Sweeps? :: !Next(env, s, e, s')
  }

  /** mihomo starts, the document marshals, and mihomo loads everything in d. */
  ghost predicate AllGood(env: Env, d: Desired) {
    && env.starts && env.yaml(DocOf(d)).Some?
    && (forall m | m in d.proxies :: env.core.proxyLoads(m)) && (forall m | m in d.groups :: env.core.groupLoads(m))
    && (forall line | line in d.rules :: env.core.ruleLoads(line))
    && (forall m | m in d.listeners :: env.core.listenerLoads(m))
  }

  lemma AllGoodIsAccepted(env: Env, s: State, d: Desired)
    requires AllGood(env, d)
    ensures Accepts(env, s, d)
  {
  }

  /**
   * After any run, once only the loop acts, it is stuck after at most Work more steps. It is then at
   * rest. With relays to run, its last attempt did not fail exactly if mihomo takes the newest plan over
   * the nodes the store had when the rest of the process stopped, in particular if all of it is good;
   * and then that is what the core runs.
   */
  lemma SettlesOnNewest(env: Env, states: seq<State>, events: seq<Event>, i: nat, after: seq<State>, steps: seq<Event>)
    requires Legible(env.yaml) && Run(env, states, events) && i < |states|
    requires LoopRun(env, after, steps) && after[0] == states[i]
    ensures |steps| <= Work(states[i])
    ensures var end, s := after[|steps|], states[i];
            Stuck(env, end) ==>
              && Quiescent(end)
              && (end.started && !end.failed ==> s.newest.Some? && end.core.current == Some(Newest(env, s)))
              && (s.newest.Some? && (end.started || s.newest.value.relays != []) ==>
                    && (end.started && !end.failed <==> Accepts(env, end, Newest(env, s)))
                    && (AllGood(env, Newest(env, s)) ==> end.core.current == Some(Newest(env, s))))
  {
    hide Inv, Next, Work, LoopStep, Quiescent, Render, Accepts, AllGood;
    RunKeepsInv(env, states, events, i);
    LoopEnds(env, after, steps);
    LoopKeepsInputs(env, after, steps);
    var end, s := after[|steps|], states[i];
    if Stuck(env, end) {
      if !Quiescent(end) {
        var e, s' := LoopProceeds(env, end, 0);
      }
      if end.started && !end.failed {
        QuiescentIsCurrent(env, end);
      }
      if s.newest.Some? && (end.started || s.newest.value.relays != []) {
        assert Newest(env, end) == Newest(env, s);
        QuiescentSucceedsIff(env, end);
        if AllGood(env, Newest(env, s)) { AllGoodIsAccepted(env, end, Newest(env, s)); }
      }
    }
  }
}
