// What a loop at rest runs, in terms of the events alone: the last plan that was set, over the nodes
// that were last set for each sub.
module ManagerHistory {
  import opened Wrappers
  import opened PlanSpec
  import opened RenderSpec
  import opened Document
  import opened ManagerSpec
  import opened ManagerProofs
  import CoreRuns
  import StoreSpec
  import StoreProofs

  /** The plan of the last SetPlan among the first k events. */
  function LastPlan(events: seq<Event>, k: nat): Option<Plan>
    requires k <= |events|
  {
    if k == 0 then None
    else if events[k - 1].DrainsPlan? then Some(events[k - 1].plan)
    else LastPlan(events, k - 1)
  }

  /** The nodes that the first k events set last for the sub, if they have not been dropped since. */
  function LastNodes(events: seq<Event>, k: nat, name: string): seq<Node>
    requires k <= |events|
  {
    if k == 0 then []
    else
      match events[k - 1]
      case Mutates(NodesSet(n, st)) => if n == name then st.nodes else LastNodes(events, k - 1, name)
      case Mutates(Pruned(keep)) => if name in keep then LastNodes(events, k - 1, name) else []
      case _ => LastNodes(events, k - 1, name)
  }

  lemma LoopKeepsNodes(env: Env, s: State, e: Event, s': State)
    requires Next(env, s, e, s') && !e.Mutates?
    ensures s'.store.subs == s.store.subs
    ensures s'.newest == if e.DrainsPlan? then Some(e.plan) else s.newest
  {
    hide FinishApply, Earliest, CoreRuns.Next;
    if e.Finishes? { FinishEffect(env, s, e.now); }
  }

  lemma MutationActs(env: Env, s: State, m: StoreProofs.Mutation<Node>, s': State, name: string)
    requires Next(env, s, Mutates(m), s')
    ensures s'.newest == s.newest
    ensures StoreSpec.NodesOf(s'.store.subs, name) ==
            if m.NodesSet? && m.name == name then m.st.nodes
            else if m.Pruned? && name !in m.keep then []
            else StoreSpec.NodesOf(s.store.subs, name)
  {
  }

  lemma {:induction false} InputsAreLast(env: Env, states: seq<State>, events: seq<Event>, k: nat, name: string)
    requires Run(env, states, events) && k < |states|
    ensures states[k].newest == LastPlan(events, k)
    ensures StoreSpec.NodesOf(states[k].store.subs, name) == LastNodes(events, k, name)
  {
    hide Next;
    if k > 0 {
      InputsAreLast(env, states, events, k - 1, name);
      if events[k - 1].Mutates? {
        MutationActs(env, states[k - 1], events[k - 1].m, states[k], name);
      } else {
        LoopKeepsNodes(env, states[k - 1], events[k - 1], states[k]);
      }
    }
  }

  lemma SourcesAgree(env: Loader, p: Plan, one: string -> seq<Node>, two: string -> seq<Node>)
    requires forall sub :: one(sub) == two(sub)
    ensures RenderSpec.Render(env, p, one) == RenderSpec.Render(env, p, two)
  {
    hide RenderReads;
    assert ReadAll(SubsRead(p.relays), one) == ReadAll(SubsRead(p.relays), two);
  }

  /**
   * In every run: at rest with nothing pending, mihomo running and the last attempt not failed, the
   * core runs the rendering of the plan that was set last, over the nodes that were last set for each sub.
   */
  lemma RestRunsLastInputs(env: Env, states: seq<State>, events: seq<Event>, k: nat, source: string -> seq<Node>)
    requires Legible(env.yaml) && Run(env, states, events) && k < |states|
    requires Quiescent(states[k]) && states[k].started && !states[k].failed
    requires forall sub :: source(sub) == LastNodes(events, k, sub)
    ensures LastPlan(events, k).Some?
    ensures states[k].core.current == Some(RenderSpec.Render(LoaderOf(env), LastPlan(events, k).value, source))
  {
    hide Next, Quiescent, RenderSpec.Render, LastNodes, LastPlan;
    NoLostUpdate(env, states, events, k);
    var s := states[k];
    forall sub
      ensures StoreSpec.NodesOf(s.store.subs, sub) == source(sub)
    {
      InputsAreLast(env, states, events, k, sub);
    }
    InputsAreLast(env, states, events, k, "");
    SourcesAgree(LoaderOf(env), s.newest.value, sub => StoreSpec.NodesOf(s.store.subs, sub), source);
  }

  /** mihomo is started by the first attempt that gets to it and goes on running. */
  lemma FinishStartsIff(env: Env, s: State, now: int)
    requires CanFinish(s)
    ensures FinishApply(env, s, now).started <==>
            s.started || (env.yaml(DocOf(Rendered(env, s))).Some? && env.starts)
  {
  }

  lemma OnlyAttemptsStart(env: Env, s: State, e: Event, s': State)
    requires Next(env, s, e, s')
    ensures s'.started != s.started ==> e.Finishes? && s'.started
  {
    hide RenderReads, Earliest, CoreRuns.Next;
  }

  /** Connections come and go in the core's state, and nowhere else. */
  lemma ConnectionsAct(env: Env, s: State, e: Event, s': State)
    requires Next(env, s, e, s') && (e.Opens? || e.Closes?)
    ensures e.Opens? ==> e.id !in s.core.mihomo.conns && s'.core.mihomo.conns == s.core.mihomo.conns[e.id := e.conn]
    ensures e.Closes? ==> s'.core.mihomo.conns == s.core.mihomo.conns - {e.id}
    ensures s' == s.(core := s.core.(mihomo := s.core.mihomo.(conns := s'.core.mihomo.conns)))
  {
  }
}
