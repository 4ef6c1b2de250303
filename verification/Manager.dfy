// The manager as the program runs it (internal/relay/manager.go): each select case as a method on
// the fields, proved against ManagerSpec and keeping its invariant. ManagerProofs covers what other
// goroutines do between the reads of a render.
module Manager {
  import opened Wrappers
  import opened RelayTypes
  import opened PlanSpec
  import opened RenderSpec
  import opened Document
  import opened ManagerSpec
  import ManagerProofs
  import StoreSpec
  import CoreSpec
  import Store
  import Core

  function CurrentNodes(s: State): string -> seq<Node> {
    sub => StoreSpec.NodesOf(s.store.subs, sub)
  }

  /** apply with nothing in between: the state after all reads and the rest of it. */
  function ApplyNow(env: Env, s: State, now: int): State {
    var started := StartApply(s);
    if started.phase.Idle? || s.plan.None? then started
    else FinishApply(env, started.(phase := Reading(ReadAll(Wanted(s), CurrentNodes(s)))), now)
  }

  class Manager {
    const env: Env
    const store: Store.Store<Node>
    const core: Core.Core

    var mailbox: Option<Plan>
    var plan: Option<Plan>
    var applied: Option<string>
    var timer: bool
    var sweepTimer: Option<int>
    var phase: Phase
    var failed: bool

    ghost var setter: Setter
    ghost var newest: Option<Plan>
    ghost var tried: bool
    ghost var answers: seq<seq<Node>>
    ghost var origin: Option<(Plan, seq<seq<Node>>)>

    ghost function State(): State
      reads this, store, core
    {
      ManagerSpec.State(store.State(), setter, mailbox, newest, plan, applied, timer, sweepTimer, phase,
                        core.started, failed, core.State(), tried, answers, origin)
    }

    ghost predicate Valid()
      reads this, store, core
    {
      core.env == env.core && ManagerProofs.Inv(env, State())
    }

    constructor (env: Env, store: Store.Store<Node>, next: nat)
      requires store.State() == StoreSpec.Initial()
      ensures this.env == env && this.store == store && fresh(core)
      ensures Valid() && State() == Initial(env, next)
    {
      this.env, this.store := env, store;
      core := new Core.Core(env.core, next);
      mailbox, plan, applied, timer, sweepTimer, phase, failed := None, None, None, false, None, Idle, false;
      setter, newest, tried, answers, origin := Resting, None, false, [], None;
      new;
      ManagerProofs.InitialInv(env, next);
    }

    /** Puts the plan in the mailbox, in place of any that the loop has not taken. */
    method SetPlan(p: Plan)
      requires Valid() && setter.Resting? && DistinctRelays(p.relays)
      modifies this
      ensures Valid() && State() == SendPlan(DrainPlan(old(State()), p))
    {
      hide ManagerProofs.Inv;
      ghost var s0 := State();
      setter, newest := Sending(p), Some(p);
      mailbox := None;
      ManagerProofs.NextKeepsInv(env, s0, DrainsPlan(p), State());
      ghost var s1 := State();
      mailbox := Some(p);
      setter := Resting;
      ManagerProofs.NextKeepsInv(env, s1, SendsPlan, State());
    }

    method ScheduleSweep()
      modifies this`sweepTimer
      ensures sweepTimer == Earliest(core.draining)
    {
      var next := core.NextDeadline();
      sweepTimer := next;
      ManagerProofs.EarliestIsNext(core.draining);
      ManagerProofs.NextDeadlineUnique(core.draining, next, Earliest(core.draining));
    }

    method StartApply()
      requires phase.Idle?
      modifies this
      ensures State() == ManagerSpec.StartApply(old(State()))
    {
      if plan.None? || (!core.started && |plan.value.relays| == 0) {
        return;
      }
      phase := Reading([]);
      tried := false;
    }

    /** One read of the render in progress. */
    method ReadNext()
      requires Valid() && CanRead(State())
      modifies this
      ensures Valid() && State() == ReadSub(old(State()))
    {
      hide ManagerProofs.Inv;
      ghost var s0 := State();
      var subs := SubsRead(plan.value.relays);
      var nodes, _ := store.Nodes(subs[|phase.answers|]);
      phase := Reading(phase.answers + [nodes]);
      ManagerProofs.NextKeepsInv(env, s0, Reads, State());
    }

    /** The rest of apply, once every sub has been read. */
    method Finish(now: int)
      requires Valid() && CanFinish(State())
      modifies this, core
      ensures Valid() && State() == FinishApply(env, old(State()), now)
    {
      ghost var s0 := State();
      var d := RenderReads(LoaderOf(env), plan.value, phase.answers);
      ManagerProofs.RenderIsWellFormed(env, plan.value, phase.answers);
      Settle(d, now);
      ManagerProofs.NextKeepsInv(env, s0, Finishes(now), State());
    }

    /** Compares documents and, if needed, starts mihomo and applies. */
    method Settle(d: Desired, now: int)
      requires core.env == env.core && core.Valid() && WellFormed(d) && plan.Some? && phase.Reading?
      modifies this, core
      ensures State() == SettleApply(env, old(State()), d, now)
    {
      hide DocOf, CoreSpec.Apply, Earliest;
      var body := env.yaml(DocOf(d));
      answers, tried := phase.answers, true;
      phase := Idle;
      if body.None? {
        failed := true;
      } else if core.started && applied == body {
        failed := false;
      } else if !core.started && !env.starts {
        failed := true;
      } else {
        TryApply(plan.value, d, now);
      }
    }

    method TryApply(p: Plan, d: Desired, now: int)
      requires core.env == env.core && core.Valid() && WellFormed(d)
      modifies this, core
      ensures State() == ManagerSpec.TryApply(env, old(State()), p, d, now)
    {
      ghost var s0 := State();
      core.started := true;
      var r := core.Apply(d, now);
      if r.Failure? {
        failed := true;
        assert State() == s0.(started := true, failed := true);
        return;
      }
      RecordApplied(p, d, r.value.draining);
    }

    method RecordApplied(p: Plan, d: Desired, marked: nat)
      modifies this`failed, this`applied, this`origin, this`sweepTimer
      ensures State() == old(State()).(failed := false, applied := env.yaml(DocOf(d)), origin := Some((p, answers)),
                                       sweepTimer := if marked > 0 then Earliest(core.draining) else old(sweepTimer))
    {
      failed, applied, origin := false, env.yaml(DocOf(d)), Some((p, answers));
      if marked > 0 {
        ScheduleSweep();
      }
    }

    /** apply as one go: reads every sub in order, then finishes. */
    method Apply(now: int)
      requires core.env == env.core && phase.Idle?
      requires ManagerProofs.Inv(env, ManagerSpec.StartApply(State()))
      modifies this, core
      ensures Valid() && State() == ApplyNow(env, old(State()), now)
    {
      hide ManagerProofs.Inv, FinishApply;
      ghost var s0 := State();
      StartApply();
      if phase.Idle? {
        return;
      }
      var wanted := SubsRead(plan.value.relays);
      while |phase.answers| < |wanted|
        invariant Valid() && phase.Reading? && |phase.answers| <= |wanted| && core.State() == old(core.State())
        invariant State() == ManagerSpec.StartApply(s0).(phase := phase)
        invariant forall i | 0 <= i < |phase.answers| :: phase.answers[i] == StoreSpec.NodesOf(s0.store.subs, wanted[i])
        decreases |wanted| - |phase.answers|
      {
        ReadNext();
      }
      assert phase.answers == ReadAll(wanted, CurrentNodes(s0));
      Finish(now);
    }

    method OnPlan(now: int)
      requires Valid() && phase.Idle? && mailbox.Some?
      modifies this, core
      ensures Valid()
      ensures State() == ApplyNow(env,
                                  old(State()).(plan := old(mailbox), mailbox := None, timer := false, tried := false),
                                  now)
    {
      hide ApplyNow, ManagerProofs.Inv, ManagerSpec.StartApply;
      ManagerProofs.NextKeepsInv(env, State(), TakesPlan, TakePlan(State()));
      ghost var s0 := State();
      plan, mailbox, timer, tried := mailbox, None, false, false;
      assert State() == s0.(plan := s0.mailbox, mailbox := None, timer := false, tried := false);
      Apply(now);
    }

    method OnChanged()
      requires Valid() && phase.Idle? && store.changed
      modifies this, store`changed
      ensures Valid() && State() == TakeChanged(old(State()))
    {
      hide ManagerProofs.Inv;
      ghost var s0 := State();
      store.changed := false;
      if !timer {
        timer := true;
      }
      ManagerProofs.NextKeepsInv(env, s0, TakesChanged, State());
    }

    method OnTimer(now: int)
      requires Valid() && phase.Idle? && timer
      modifies this, core
      ensures Valid() && State() == ApplyNow(env, old(State()).(timer := false), now)
    {
      hide ApplyNow, ManagerProofs.Inv, ManagerSpec.StartApply;
      ManagerProofs.NextKeepsInv(env, State(), Fires, TimerFires(State()));
      ghost var s0 := State();
      timer := false;
      assert State() == s0.(timer := false);
      Apply(now);
    }

    method OnSweepTimer(now: int)
      requires Valid() && phase.Idle? && sweepTimer.Some? && now >= sweepTimer.value
      modifies this, core
      ensures Valid() && State() == SweepFires(old(State()), now)
    {
      hide ManagerProofs.Inv;
      ghost var s0 := State();
      var _ := core.Sweep(now);
      ScheduleSweep();
      ManagerProofs.NextKeepsInv(env, s0, Sweeps(now), State());
    }
  }
}
