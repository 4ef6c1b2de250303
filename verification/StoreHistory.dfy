// What the store holds after any run: the nodes last set, and what a render makes of them.
module StoreHistory {
  import opened StoreSpec
  import opened StoreProofs

  // One mutation

  /** Each mutation changes the sub it names in its own way, and no other one; Prune only drops. */
  lemma MutationReadsBack<N>(s: State<N>, m: Mutation<N>)
    ensures var subs, subs' := s.subs, Mutate(s, m).subs;
            match m
            case NodesSet(name, st) =>
              && subs'.Keys == subs.Keys + {name} && SameExcept(subs, subs', name)
              && subs'[name].nodes == st.nodes && subs'[name].updated == st.updated && subs'[name].err == ""
              && subs'[name].etag == st.etag && subs'[name].lastModified == st.lastModified
              && subs'[name].userInfo == st.userInfo
            case ErrorSet(name, err) =>
              && subs'.Keys == subs.Keys + {name} && SameExcept(subs, subs', name) && subs'[name].err == err
              && (if name in subs then SameFetch(subs[name], subs'[name]) && subs'[name].updated == subs[name].updated
                  else subs'[name] == SubState([], 0, err, "", "", ""))
            case Touched(name, now) =>
              && subs'.Keys == subs.Keys && SameExcept(subs, subs', name)
              && (name in subs ==>
                    SameFetch(subs[name], subs'[name]) && subs'[name].updated == now && subs'[name].err == "")
            case Pruned(keep) =>
              && (forall n :: n in subs' <==> n in subs && n in keep)
              && (forall n | n in subs' :: subs'[n] == subs[n])
    ensures Mutate(s, m).cache == if m.Pruned? then map[] else s.cache
  {
  }

  ghost predicate SameExcept<N>(subs: map<string, SubState<N>>, subs': map<string, SubState<N>>, name: string) {
    forall n | n in subs && n in subs' && n != name :: subs'[n] == subs[n]
  }

  ghost predicate SameFetch<N>(st: SubState<N>, st': SubState<N>) {
    && st'.nodes == st.nodes && st'.etag == st.etag && st'.lastModified == st.lastModified
    && st'.userInfo == st.userInfo
  }

  // A run

  ghost predicate Sets<N>(e: Event<N>, name: string) {
    e.MutateEvent? && e.m.NodesSet? && e.m.name == name
  }

  ghost predicate Drops<N>(e: Event<N>, name: string) {
    e.MutateEvent? && e.m.Pruned? && name !in e.m.keep
  }

  /** The j-th event is the last before the k-th that set or dropped the nodes of the sub. */
  ghost predicate LastChange<N>(events: seq<Event<N>>, k: nat, name: string, j: nat)
    requires k <= |events|
  {
    && j < k && (Sets(events[j], name) || Drops(events[j], name))
    && forall i | j < i < k :: !Sets(events[i], name) && !Drops(events[i], name)
  }

  lemma EventNodes<N>(env: Env<N>, s: System<N>, e: Event<N>, s': System<N>, name: string)
    requires Next(env, s, e, s')
    ensures Sets(e, name) ==> NodesOf(s'.store.subs, name) == e.m.st.nodes
    ensures Drops(e, name) ==> NodesOf(s'.store.subs, name) == []
    ensures !Sets(e, name) && !Drops(e, name) ==> NodesOf(s'.store.subs, name) == NodesOf(s.store.subs, name)
  {
  }

  /**
   * After any events, in any order with renders, a sub has the nodes that were last set for it, and none
   * if there are none or it was dropped since.
   */
  lemma {:induction false} NodesAreLastSet<N>(env: Env<N>, states: seq<System<N>>, events: seq<Event<N>>, k: nat,
                                              name: string)
    requires Run(env, states, events) && k < |states|
    ensures forall j: nat | LastChange(events, k, name, j) ::
              NodesOf(states[k].store.subs, name) == if Sets(events[j], name) then events[j].m.st.nodes else []
    ensures (forall i | 0 <= i < k :: !Sets(events[i], name)) ==> NodesOf(states[k].store.subs, name) == []
  {
    hide Next, Sets, Drops;
    if k > 0 {
      var e := events[k - 1];
      NodesAreLastSet(env, states, events, k - 1, name);
      EventNodes(env, states[k - 1], e, states[k], name);
      LastChangeBefore(events, k, name);
      SetsOrDrops(e, name);
    }
  }

  lemma SetsOrDrops<N>(e: Event<N>, name: string)
    ensures !(Sets(e, name) && Drops(e, name))
  {
  }

  lemma LastChangeBefore<N>(events: seq<Event<N>>, k: nat, name: string)
    requires 0 < k <= |events|
    ensures var e := events[k - 1];
            forall j: nat :: LastChange(events, k, name, j) <==>
              if Sets(e, name) || Drops(e, name) then j == k - 1 else LastChange(events, k - 1, name, j)
  {
    hide Sets, Drops;
  }

  // A render

  lemma {:induction false} AllNodesConcat<N>(subs: map<string, SubState<N>>, a: seq<string>, b: seq<string>)
    ensures AllNodes(subs, a + b) == AllNodes(subs, a) + AllNodes(subs, b)
  {
    if a == [] {
      assert a + b == b;
    } else {
      assert (a + b)[1..] == a[1..] + b;
      AllNodesConcat(subs, a[1..], b);
    }
  }

  lemma AllNodesOne<N>(subs: map<string, SubState<N>>, name: string)
    ensures AllNodes(subs, [name]) == if name in subs then subs[name].nodes else []
  {
    assert AllNodes(subs, [name][1..]) == [];
  }

  /**
   * A fresh render gives the nodes of the named subs, one sub after the other, without those whose key
   * came earlier.
   */
  lemma FreshRenders<N(!new)>(env: Env<N>, subs: map<string, SubState<N>>, r: Request) returns (nodes: seq<N>)
    ensures Fresh(env, subs, r) == env.render(nodes, r.format, r.full)
    ensures var all := AllNodes(subs, r.subs);
            DistinctKeys(env.key, nodes, {}) && OnlyFirsts(env.key, all, nodes) && AllFirsts(env.key, all, {}, nodes) &&
              InOrder(env.key, all, nodes)
  {
    hide DistinctKeys, OnlyFirsts, AllFirsts, InOrder;
    nodes := Collect(env, subs, r.subs);
    DedupIsFirstOccurrences(env.key, AllNodes(subs, r.subs), {});
  }
}
