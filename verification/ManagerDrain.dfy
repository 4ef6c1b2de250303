// The core inside the manager over whole runs: drain safety, faithful objects, and what runs when the
// loop is at rest.
module ManagerDrain {
  import opened RelayTypes
  import opened RenderSpec
  import opened Document
  import opened ManagerSpec
  import opened ManagerProofs
  import CoreDrain
  import CoreProofs
  import CoreRebuild
  import CoreRuns
  import CoreSpec
  import StoreSpec

  // Steps that install a desired state

  /** The step finishes a render and leaves the core as a successful apply of it does. */
  ghost predicate Installs(env: Env, s: State, e: Event, s': State) {
    && e.Finishes? && CanFinish(s)
    && var r := CoreSpec.Apply(env.core, s.core, Rendered(env, s), e.now);
       r.Success? && s'.core == r.value.0
  }

  /** Any other step leaves the core alone or takes a core step other than a successful apply. */
  lemma OtherCoreStep(env: Env, s: State, e: Event, s': State)
    requires Inv(env, s) && Next(env, s, e, s') && !Installs(env, s, e, s') && s'.core != s.core
    ensures CoreEvent(env, s, e).Some? && CoreRuns.Next(env.core, s.core, CoreEvent(env, s, e).value, s'.core)
    ensures !CoreRuns.Succeeds(env.core, s.core, CoreEvent(env, s, e).value)
  {
    hide Next, CoreSpec.Apply, Rendered, PlanHandedOver, ReadsTracked, ResultTracked, FailureTracked, SweepScheduled,
      CoreProofs.Inv;
    NextStepsCore(env, s, e, s');
  }

  lemma InstalledIsWellFormed(env: Env, s: State)
    requires Inv(env, s) && CanFinish(s)
    ensures WellFormed(Rendered(env, s)) && CoreProofs.Inv(env.core, s.core)
  {
    hide PlanHandedOver, ReadsTracked, ResultTracked, FailureTracked, SweepScheduled, CoreProofs.Inv;
    RenderIsWellFormed(env, s.plan.value, s.phase.answers);
  }

  lemma CoreInv(env: Env, s: State)
    requires Inv(env, s)
    ensures CoreProofs.Inv(env.core, s.core)
  {
  }

  lemma NextOpensOnRouteIff(env: Env, s: State, e: Event, s': State)
    requires Inv(env, s) && Next(env, s, e, s') && CoreDrain.OpensOnRoute(s.core)
    ensures CoreDrain.OpensOnRoute(s'.core) <==>
            (Installs(env, s, e, s') ==> CoreDrain.KeepsRoutes(env.core, s.core, Rendered(env, s)))
  {
    hide Inv, Next, CoreSpec.Apply, Rendered, CoreDrain.OpensOnRoute, CoreDrain.KeepsRoutes, CoreRuns.Next,
      CoreRuns.Succeeds, CoreEvent;
    if Installs(env, s, e, s') {
      InstalledIsWellFormed(env, s);
      CoreDrain.OpensOnRouteIffKeepsRoutes(env.core, s.core, Rendered(env, s), e.now);
    } else if s'.core != s.core {
      OtherCoreStep(env, s, e, s');
      CoreInv(env, s);
      CoreDrain.NextOpensOnRouteIff(env.core, s.core, CoreEvent(env, s, e).value, s'.core);
    }
  }

  lemma NextFaithfulIff(env: Env, s: State, e: Event, s': State)
    requires Inv(env, s) && Next(env, s, e, s') && CoreRuns.Faithful(s.core)
    ensures CoreRuns.Faithful(s'.core) <==>
            (Installs(env, s, e, s') ==> CoreRuns.NoReuseCollision(env.core, s.core.current, Rendered(env, s)))
  {
    hide Inv, Next, CoreSpec.Apply, Rendered, CoreRuns.Faithful, CoreRuns.NoReuseCollision, CoreRuns.Next,
      CoreRuns.Succeeds, CoreEvent;
    if Installs(env, s, e, s') {
      InstalledIsWellFormed(env, s);
      CoreRuns.FaithfulIffNoCollision(env.core, s.core, Rendered(env, s), e.now);
    } else if s'.core != s.core {
      OtherCoreStep(env, s, e, s');
      CoreInv(env, s);
      CoreRuns.NextFaithfulIff(env.core, s.core, CoreEvent(env, s, e).value, s'.core);
    }
  }

  lemma NextKeepsSafe(env: Env, s: State, e: Event, s': State)
    requires Inv(env, s) && Next(env, s, e, s') && CoreDrain.OpensOnRoute(s.core) && CoreRuns.DrainSafe(s.core)
    ensures CoreRuns.DrainSafe(s'.core)
  {
    hide Next, CoreRuns.Next, CoreDrain.OpensOnRoute, CoreRuns.DrainSafe, CoreProofs.Inv, CoreEvent,
      PlanHandedOver, ReadsTracked, ResultTracked, FailureTracked, SweepScheduled;
    NextStepsCore(env, s, e, s');
    if s'.core != s.core {
      CoreDrain.NextKeepsSafe(env.core, s.core, CoreEvent(env, s, e).value, s'.core);
    }
  }

  // Whole runs

  /** Every rendering that the first n steps install keeps routes. */
  ghost predicate InstallsKeepRoutes(env: Env, states: seq<State>, events: seq<Event>, n: nat)
    requires n <= |events| < |states|
  {
    forall i | 0 <= i < n && Installs(env, states[i], events[i], states[i + 1]) ::
      CoreDrain.KeepsRoutes(env.core, states[i].core, Rendered(env, states[i]))
  }

  /** None shares a reuse key with a different config that is running. */
  ghost predicate InstallsWithoutCollisions(env: Env, states: seq<State>, events: seq<Event>, n: nat)
    requires n <= |events| < |states|
  {
    forall i | 0 <= i < n && Installs(env, states[i], events[i], states[i + 1]) ::
      CoreRuns.NoReuseCollision(env.core, states[i].core.current, Rendered(env, states[i]))
  }

  lemma {:induction false} RunOpensOnRouteIff(env: Env, states: seq<State>, events: seq<Event>, n: nat)
    requires Run(env, states, events) && n <= |events|
    ensures (forall i | 0 <= i <= n :: CoreDrain.OpensOnRoute(states[i].core)) <==>
            InstallsKeepRoutes(env, states, events, n)
  {
    hide CoreDrain.OpensOnRoute, CoreDrain.KeepsRoutes, Installs, Rendered, Next, Inv;
    if n == 0 {
      var next :| states[0] == Initial(env, next);
      CoreDrain.NothingOpens(env.core, next);
    } else {
      RunOpensOnRouteIff(env, states, events, n - 1);
      RunKeepsInv(env, states, events, n - 1);
      if CoreDrain.OpensOnRoute(states[n - 1].core) {
        NextOpensOnRouteIff(env, states[n - 1], events[n - 1], states[n - 1 + 1]);
      }
    }
  }

  lemma {:induction false} RunOpensSafely(env: Env, states: seq<State>, events: seq<Event>, n: nat)
    requires Run(env, states, events) && n <= |events|
    requires forall i | 0 <= i <= n :: CoreDrain.OpensOnRoute(states[i].core)
    ensures CoreRuns.DrainSafe(states[n].core)
  {
    hide CoreDrain.OpensOnRoute, CoreRuns.DrainSafe, Next, Inv;
    if n == 0 {
      var next :| states[0] == Initial(env, next);
      CoreRuns.InitialInv(env.core, next);
    } else {
      RunOpensSafely(env, states, events, n - 1);
      RunKeepsInv(env, states, events, n - 1);
      NextKeepsSafe(env, states[n - 1], events[n - 1], states[n - 1 + 1]);
    }
  }

  /**
   * Drain safety through the whole manager, now and after one more connection opens, holds in every
   * state of a run exactly when every rendering that the run installs keeps routes.
   */
  lemma ManagerDrainsStaleConnections(env: Env, states: seq<State>, events: seq<Event>, n: nat)
    requires Run(env, states, events) && n <= |events|
    ensures (forall i | 0 <= i <= n :: CoreDrain.StaysDrainSafe(env.core, states[i].core)) <==>
            InstallsKeepRoutes(env, states, events, n)
  {
    hide CoreDrain.StaysDrainSafe, CoreDrain.OpensOnRoute, CoreRuns.DrainSafe, Inv, Next, InstallsKeepRoutes;
    RunOpensOnRouteIff(env, states, events, n);
    if forall i | 0 <= i <= n :: CoreDrain.OpensOnRoute(states[i].core) {
      forall i | 0 <= i <= n
        ensures CoreDrain.StaysDrainSafe(env.core, states[i].core)
      {
        RunOpensSafely(env, states, events, i);
        RunKeepsInv(env, states, events, i);
        CoreInv(env, states[i]);
        CoreDrain.SafeIffOpensOnRoute(env.core, states[i].core);
      }
    }
    forall i | 0 <= i <= n && CoreDrain.StaysDrainSafe(env.core, states[i].core)
      ensures CoreDrain.OpensOnRoute(states[i].core)
    {
      RunKeepsInv(env, states, events, i);
      CoreInv(env, states[i]);
      CoreDrain.SafeNow(env.core, states[i].core);
      CoreDrain.SafeIffOpensOnRoute(env.core, states[i].core);
    }
  }

  /** The live objects match their configs, in every state of a run, exactly when no rendering it installs collides. */
  lemma {:induction false} ManagerFaithfulIff(env: Env, states: seq<State>, events: seq<Event>, n: nat)
    requires Run(env, states, events) && n <= |events|
    ensures (forall i | 0 <= i <= n :: CoreRuns.Faithful(states[i].core)) <==>
            InstallsWithoutCollisions(env, states, events, n)
  {
    hide CoreRuns.Faithful, CoreRuns.NoReuseCollision, Installs, Rendered, Next, Inv;
    if n == 0 {
      var next :| states[0] == Initial(env, next);
      CoreRuns.InitialInv(env.core, next);
    } else {
      ManagerFaithfulIff(env, states, events, n - 1);
      RunKeepsInv(env, states, events, n - 1);
      if CoreRuns.Faithful(states[n - 1].core) {
        NextFaithfulIff(env, states[n - 1], events[n - 1], states[n - 1 + 1]);
      }
    }
  }

  /**
   * A loop at rest whose last attempt did not fail runs objects that look like a full rebuild of the
   * newest plan over the current nodes, if no rendering so far collided.
   */
  lemma RestIsRebuild(env: Env, states: seq<State>, events: seq<Event>, i: nat, next: nat, now: int)
    requires Legible(env.yaml) && Run(env, states, events) && i < |states|
    requires InstallsWithoutCollisions(env, states, events, i)
    requires Quiescent(states[i]) && states[i].started && !states[i].failed
    ensures var s := states[i];
            && s.newest.Some?
            && var d := Render(LoaderOf(env), s.newest.value, sub => StoreSpec.NodesOf(s.store.subs, sub));
               var r := CoreSpec.Apply(env.core, CoreSpec.Initial(env.core, next), d, now);
               r.Success? && CoreRebuild.Observe(r.value.0) == CoreRebuild.Observe(s.core)
  {
    hide CoreRuns.Faithful, InstallsWithoutCollisions, CoreSpec.Apply, CoreRebuild.Observe, Inv, Next, Quiescent,
      Render;
    RunKeepsInv(env, states, events, i);
    CoreInv(env, states[i]);
    ManagerFaithfulIff(env, states, events, i);
    QuiescentIsCurrent(env, states[i]);
    CoreRebuild.FaithfulIsRebuild(env.core, states[i].core, next, now);
  }
}
