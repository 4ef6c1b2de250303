// The manager's event loop (internal/relay/manager.go) as a state machine. A step is one select
// case, one sub read of a render in progress, or something the rest of the process does meanwhile:
// a store mutation, one half of SetPlan, a connection opening or finishing.
module ManagerSpec {
  import opened Wrappers
  import opened RelayTypes
  import opened PlanSpec
  import opened RenderSpec
  import opened Document
  import opened Sorting
  import CoreSpec
  import CoreRuns
  import StoreSpec
  import StoreProofs

  /** starts: mihomo takes the general config; yaml: the marshalled document. */
  datatype Env = Env(core: CoreSpec.Env, starts: bool, yaml: Doc -> Option<string>)

  function LoaderOf(env: Env): Loader {
    Loader(env.core.key, env.core.proxyLoads)
  }

  /** A render in progress has read the first |answers| of its plan's subs. */
  datatype Phase = Idle | Reading(answers: seq<seq<Node>>)

  /** SetPlan has emptied the mailbox and not yet refilled it. */
  datatype Setter = Resting | Sending(plan: Plan)

  /**
   * newest, tried, answers and origin are history: the last plan handed to SetPlan, whether a
   * render of the current plan has finished, what its reads returned, and what the core's
   * current state was rendered from.
   */
  datatype State = State(
    store: StoreSpec.State<Node>,
    setter: Setter, mailbox: Option<Plan>, newest: Option<Plan>,
    plan: Option<Plan>, applied: Option<string>, timer: bool, sweepTimer: Option<int>,
    phase: Phase, started: bool, failed: bool, core: CoreSpec.State,
    tried: bool, answers: seq<seq<Node>>, origin: Option<(Plan, seq<seq<Node>>)>)

  // SetPlan

  function DrainPlan(s: State, p: Plan): State {
    s.(setter := Sending(p), mailbox := None, newest := Some(p))
  }

  function SendPlan(s: State): State
    requires s.setter.Sending?
  {
    s.(setter := Resting, mailbox := Some(s.setter.plan))
  }

  // The loop

  /** The start of apply: nothing to do without a plan, or before the first relay. */
  function StartApply(s: State): State {
    if s.plan.None? || (!s.started && s.plan.value.relays == []) then s
    else s.(phase := Reading([]), tried := false)
  }

  function TakePlan(s: State): State
    requires s.mailbox.Some?
  {
    StartApply(s.(plan := s.mailbox, mailbox := None, timer := false, tried := false))
  }

  function TakeChanged(s: State): State {
    s.(store := s.store.(changed := false), timer := true)
  }

  function TimerFires(s: State): State {
    StartApply(s.(timer := false))
  }

  function Wanted(s: State): seq<string> {
    if s.plan.Some? then SubsRead(s.plan.value.relays) else []
  }

  predicate CanRead(s: State) {
    s.phase.Reading? && |s.phase.answers| < |Wanted(s)|
  }

  function ReadSub(s: State): State
    requires CanRead(s)
  {
    var nodes := StoreSpec.NodesOf(s.store.subs, Wanted(s)[|s.phase.answers|]);
    s.(phase := Reading(s.phase.answers + [nodes]))
  }

  predicate CanFinish(s: State) {
    s.phase.Reading? && s.plan.Some? && |s.phase.answers| == |Wanted(s)|
  }

  function Earliest(draining: map<nat, int>): Option<int> {
    if draining == map[] then None
    else
      assert draining.Values != {} by {
        assert exists id :: id in draining;
        var id :| id in draining;
        assert draining[id] in draining.Values;
      }
      Some(Least(draining.Values))
  }

  /** The core's apply, and what the loop records of it. */
  function TryApply(env: Env, s: State, p: Plan, d: Desired, now: int): State {
    match CoreSpec.Apply(env.core, s.core, d, now)
    case Failure(_) => s.(started := true, failed := true)
    case Success((core, stats)) =>
      s.(started := true, failed := false, applied := env.yaml(DocOf(d)), core := core, origin := Some((p, s.answers)),
         sweepTimer := if stats.draining > 0 then Earliest(core.draining) else s.sweepTimer)
  }

  /** The rest of apply, once d has been rendered from what the reads returned. */
  function SettleApply(env: Env, s: State, d: Desired, now: int): State
    requires s.phase.Reading? && s.plan.Some?
  {
    var done := s.(phase := Idle, tried := true, answers := s.phase.answers);
    if env.yaml(DocOf(d)).None? then done.(failed := true)
    else if s.started && s.applied == env.yaml(DocOf(d)) then done.(failed := false)
    else if !s.started && !env.starts then done.(failed := true)
    else TryApply(env, done, s.plan.value, d, now)
  }

  function FinishApply(env: Env, s: State, now: int): State
    requires CanFinish(s)
  {
    SettleApply(env, s, RenderReads(LoaderOf(env), s.plan.value, s.phase.answers), now)
  }

  function SweepFires(s: State, now: int): State {
    var core := CoreSpec.Sweep(s.core, now);
    s.(core := core, sweepTimer := Earliest(core.draining))
  }

  datatype Event =
    | Mutates(m: StoreProofs.Mutation<Node>)
    | DrainsPlan(plan: Plan)
    | SendsPlan
    | TakesPlan
    | TakesChanged
    | Fires
    | Reads
    | Finishes(now: int)
    | Sweeps(now: int)
    | Opens(id: nat, conn: CoreSpec.Conn)
    | Closes(id: nat)

  ghost predicate Next(env: Env, s: State, e: Event, s': State) {
    match e
    case Mutates(m) => s' == s.(store := StoreProofs.Mutate(s.store, m))
    case DrainsPlan(p) => s.setter.Resting? && DistinctRelays(p.relays) && s' == DrainPlan(s, p)
    case SendsPlan => s.setter.Sending? && s.mailbox.None? && s' == SendPlan(s)
    case TakesPlan => s.phase.Idle? && s.mailbox.Some? && s' == TakePlan(s)
    case TakesChanged => s.phase.Idle? && s.store.changed && s' == TakeChanged(s)
    case Fires => s.phase.Idle? && s.timer && s' == TimerFires(s)
    case Reads => CanRead(s) && s' == ReadSub(s)
    case Finishes(now) => CanFinish(s) && s' == FinishApply(env, s, now)
    case Sweeps(now) => s.phase.Idle? && s.sweepTimer.Some? && now >= s.sweepTimer.value && s' == SweepFires(s, now)
    case Opens(id, c) => s' == s.(core := s'.core) &&
      CoreRuns.Next(env.core, s.core, CoreRuns.OpenEvent(id, c), s'.core)
    case Closes(id) => s' == s.(core := s'.core) && CoreRuns.Next(env.core, s.core, CoreRuns.FinishEvent(id), s'.core)
  }

  function Initial(env: Env, next: nat): State {
    State(StoreSpec.Initial(), Resting, None, None, None, None, false, None, Idle, false, false,
          CoreSpec.Initial(env.core, next), false, [], None)
  }
}
