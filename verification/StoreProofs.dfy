// The cache is linearizable: every response of Render equals the uncached render at the moment
// the call took the lock, whatever happens between its two critical sections.
module StoreProofs {
  import opened Wrappers
  import opened StoreSpec

  // Dedup

  ghost predicate DistinctKeys<N>(key: N -> string, out: seq<N>, seen: set<string>) {
    (forall i, j | 0 <= i < j < |out| :: key(out[i]) != key(out[j])) && forall n | n in out :: key(n) !in seen
  }

  /** The i-th node is the first with its key. */
  ghost predicate IsFirst<N>(key: N -> string, nodes: seq<N>, i: nat)
    requires i < |nodes|
  {
    forall j | 0 <= j < i :: key(nodes[j]) != key(nodes[i])
  }

  ghost predicate OnlyFirsts<N(!new)>(key: N -> string, nodes: seq<N>, out: seq<N>) {
    forall n | n in out :: exists i: nat :: i < |nodes| && nodes[i] == n && IsFirst(key, nodes, i)
  }

  ghost predicate AllFirsts<N>(key: N -> string, nodes: seq<N>, seen: set<string>, out: seq<N>) {
    forall i: nat | i < |nodes| && key(nodes[i]) !in seen && IsFirst(key, nodes, i) :: nodes[i] in out
  }

  /** The nodes kept come in the order of their first occurrences. */
  ghost predicate InOrder<N>(key: N -> string, nodes: seq<N>, out: seq<N>) {
    forall a, b, i: nat, j: nat | 0 <= a < b < |out| && i < |nodes| && j < |nodes|
                                  && nodes[i] == out[a] && nodes[j] == out[b] && IsFirst(key, nodes, i) &&
                                     IsFirst(key, nodes, j) ::
      i < j
  }

  lemma FirstsLater<N(!new)>(key: N -> string, nodes: seq<N>, seen: set<string>, rest: seq<N>)
    requires nodes != [] && OnlyFirsts(key, nodes[1..], rest) && DistinctKeys(key, rest, seen + {key(nodes[0])})
    ensures OnlyFirsts(key, nodes, rest) && OnlyFirsts(key, nodes, [nodes[0]] + rest)
  {
    forall n | n in rest
      ensures exists i: nat :: i < |nodes| && nodes[i] == n && IsFirst(key, nodes, i)
    {
      var i: nat :| i < |nodes[1..]| && nodes[1..][i] == n && IsFirst(key, nodes[1..], i);
      assert nodes[i + 1] == n;
      forall j | 0 <= j < i + 1
        ensures key(nodes[j]) != key(n)
      {
        if j > 0 {
          assert nodes[j] == nodes[1..][j - 1];
        }
      }
    }
    assert IsFirst(key, nodes, 0);
  }

  lemma FirstsCovered<N>(key: N -> string, nodes: seq<N>, seen: set<string>, rest: seq<N>)
    requires nodes != [] && AllFirsts(key, nodes[1..], seen + {key(nodes[0])}, rest)
    ensures AllFirsts(key, nodes, seen, [nodes[0]] + rest)
    ensures key(nodes[0]) in seen ==> AllFirsts(key, nodes, seen, rest)
  {
    forall i: nat | 0 < i < |nodes| && key(nodes[i]) !in seen && IsFirst(key, nodes, i)
      ensures nodes[i] in rest
    {
      assert nodes[1..][i - 1] == nodes[i];
      assert forall j | 0 <= j < i - 1 :: nodes[1..][j] == nodes[j + 1];
      assert IsFirst(key, nodes[1..], i - 1);
    }
  }

  lemma OrderLater<N>(key: N -> string, nodes: seq<N>, rest: seq<N>)
    requires nodes != [] && InOrder(key, nodes[1..], rest) && forall n | n in rest :: key(n) != key(nodes[0])
    ensures InOrder(key, nodes, rest)
  {
    forall a, b, i: nat, j: nat | 0 <= a < b < |rest| && i < |nodes| && j < |nodes|
                                  && nodes[i] == rest[a] && nodes[j] == rest[b] && IsFirst(key, nodes, i) &&
                                     IsFirst(key, nodes, j)
      ensures i < j
    {
      assert rest[a] in rest && rest[b] in rest && i > 0 && j > 0;
      FirstLater(key, nodes, i);
      FirstLater(key, nodes, j);
      assert nodes[1..][i - 1] == rest[a] && nodes[1..][j - 1] == rest[b];
    }
  }

  lemma FirstLater<N>(key: N -> string, nodes: seq<N>, i: nat)
    requires 0 < i < |nodes| && IsFirst(key, nodes, i)
    ensures IsFirst(key, nodes[1..], i - 1)
  {
    assert forall j | 0 <= j < i - 1 :: nodes[1..][j] == nodes[j + 1];
  }

  lemma OrderCons<N>(key: N -> string, nodes: seq<N>, rest: seq<N>)
    requires nodes != [] && InOrder(key, nodes, rest) && forall n | n in rest :: key(n) != key(nodes[0])
    ensures InOrder(key, nodes, [nodes[0]] + rest)
  {
    var out := [nodes[0]] + rest;
    forall a, b, i: nat, j: nat | 0 <= a < b < |out| && i < |nodes| && j < |nodes|
                                  && nodes[i] == out[a] && nodes[j] == out[b] && IsFirst(key, nodes, i) &&
                                     IsFirst(key, nodes, j)
      ensures i < j
    {
      assert out[b] == rest[b - 1] && rest[b - 1] in rest;
      if a > 0 {
        assert out[a] == rest[a - 1];
      } else {
        assert i == 0;
      }
    }
  }

  lemma DistinctKeysCons<N>(key: N -> string, n: N, seen: set<string>, rest: seq<N>)
    requires DistinctKeys(key, rest, seen + {key(n)})
    ensures DistinctKeys(key, rest, seen)
    ensures key(n) !in seen ==> DistinctKeys(key, [n] + rest, seen)
  {
  }

  /** The nodes kept have distinct keys and are exactly the first ones with theirs, in that order. */
  lemma {:induction false} DedupIsFirstOccurrences<N(!new)>(key: N -> string, nodes: seq<N>, seen: set<string>)
    ensures var out := Dedup(key, nodes, seen);
            DistinctKeys(key, out, seen) && OnlyFirsts(key, nodes, out) && AllFirsts(key, nodes, seen, out) &&
              InOrder(key, nodes, out)
    decreases |nodes|
  {
    hide OnlyFirsts, AllFirsts, IsFirst, InOrder;
    if nodes == [] {
      NothingKept(key, seen);
    } else {
      var seen' := seen + {key(nodes[0])};
      var rest := Dedup(key, nodes[1..], seen');
      assert key(nodes[0]) in seen ==> seen' == seen;
      DedupIsFirstOccurrences(key, nodes[1..], seen');
      DistinctKeysCons(key, nodes[0], seen, rest);
      FirstsLater(key, nodes, seen, rest);
      FirstsCovered(key, nodes, seen, rest);
      OrderLater(key, nodes, rest);
      OrderCons(key, nodes, rest);
    }
  }

  lemma NothingKept<N(!new)>(key: N -> string, seen: set<string>)
    ensures DistinctKeys(key, [], seen) && OnlyFirsts(key, [], []) && AllFirsts(key, [], seen, []) &&
            InOrder(key, [], [])
  {
  }

  // What mutations do to the nodes

  ghost predicate SameNodes<N>(subs: map<string, SubState<N>>, subs': map<string, SubState<N>>) {
    forall n :: NodesOf(subs, n) == NodesOf(subs', n)
  }

  lemma {:induction false} SameNodesCollectSame<N>(env: Env<N>, subs: map<string, SubState<N>>,
                                                   subs': map<string, SubState<N>>, names: seq<string>)
    requires SameNodes(subs, subs')
    ensures AllNodes(subs, names) == AllNodes(subs', names)
  {
    if names != [] {
      SameNodesCollectSame(env, subs, subs', names[1..]);
    }
  }

  datatype Mutation<N> =
    | NodesSet(name: string, st: SubState<N>)
    | ErrorSet(name: string, err: string)
    | Touched(name: string, now: int)
    | Pruned(keep: seq<string>)

  function Mutate<N>(s: State<N>, m: Mutation<N>): State<N> {
    match m
    case NodesSet(name, st) => SetNodes(s, name, st)
    case ErrorSet(name, err) => SetError(s, name, err)
    case Touched(name, now) => Touch(s, name, now)
    case Pruned(keep) => Prune(s, keep)
  }

  /**
   * A mutation that changes any sub's nodes raises the signal and the generation; one that does
   * not raise the generation leaves the nodes and the cache alone.
   */
  lemma MutationsSignal<N>(s: State<N>, m: Mutation<N>)
    ensures var s' := Mutate(s, m);
            && (!SameNodes(s.subs, s'.subs) ==> s'.changed && s'.gen == s.gen + 1)
            && (s'.gen == s.gen || s'.gen == s.gen + 1)
            && (s'.gen == s.gen ==> SameNodes(s.subs, s'.subs) && s'.cache == s.cache)
            && (s.changed ==> s'.changed)
            && (forall k | k in s'.cache :: k in s.cache && s'.cache[k] == s.cache[k])
  {
  }

  // The system: the store and the Render calls between their two critical sections

  /** view is history: the subs when the call took the lock. */
  datatype Call<N> = Call(request: Request, gen: nat, nodes: seq<N>, view: map<string, SubState<N>>)

  /** asked is history: the requests so far. */
  datatype System<N> = System(store: State<N>, calls: map<nat, Call<N>>, asked: set<Request>)

  datatype Event<N> =
    | MutateEvent(m: Mutation<N>)
    | BeginEvent(id: nat, request: Request)
    | EndEvent(id: nat)

  function BeginCall<N>(env: Env<N>, s: System<N>, r: Request): Call<N> {
    Call(r, s.store.gen, Collect(env, s.store.subs, r.subs), s.store.subs)
  }

  ghost predicate Next<N>(env: Env<N>, s: System<N>, e: Event<N>, s': System<N>) {
    match e
    case MutateEvent(m) => s' == s.(store := Mutate(s.store, m))
    case BeginEvent(id, r) =>
      && id !in s.calls
      && s' == s.(asked := s.asked + {r},
                  calls := if Lookup(s.store, r).Some? then s.calls else s.calls[id := BeginCall(env, s, r)])
    case EndEvent(id) =>
      && id in s.calls
      && s' == s.(store := Remember(s.store, s.calls[id].request, s.calls[id].gen, Body(env, s.calls[id])),
                  calls := s.calls - {id})
  }

  /** What a call computes outside the lock. */
  function Body<N>(env: Env<N>, c: Call<N>): string {
    env.render(c.nodes, c.request.format, c.request.full)
  }

  /** What an event hands back to its caller, if anything. */
  function Response<N>(env: Env<N>, s: System<N>, e: Event<N>): Option<string> {
    match e
    case MutateEvent(_) => None
    case BeginEvent(_, r) => Lookup(s.store, r)
    case EndEvent(id) => if id in s.calls then Some(Body(env, s.calls[id])) else None
  }

  /** The text is a fresh render for some request with this key. */
  ghost predicate FreshFor<N>(env: Env<N>, subs: map<string, SubState<N>>, asked: set<Request>, key: string,
                              body: string) {
    exists r | r in asked :: CacheKey(r) == key && body == Fresh(env, subs, r)
  }

  /** Each entry of the current generation is a fresh render for some request with its key. */
  ghost predicate CacheFresh<N>(env: Env<N>, s: State<N>, asked: set<Request>) {
    forall k | k in s.cache ::
      s.cache[k].gen <= s.gen && (s.cache[k].gen == s.gen ==> FreshFor(env, s.subs, asked, k, s.cache[k].body))
  }

  ghost predicate CallSound<N>(env: Env<N>, s: State<N>, asked: set<Request>, c: Call<N>) {
    && c.request in asked && c.gen <= s.gen
    && c.nodes == Collect(env, c.view, c.request.subs)
    && (c.gen == s.gen ==> SameNodes(c.view, s.subs))
  }

  ghost predicate Inv<N>(env: Env<N>, s: System<N>) {
    CacheFresh(env, s.store, s.asked) && forall id | id in s.calls :: CallSound(env, s.store, s.asked, s.calls[id])
  }

  lemma SameNodesFreshFor<N>(env: Env<N>, subs: map<string, SubState<N>>, subs': map<string, SubState<N>>,
                             asked: set<Request>, key: string, body: string)
    requires SameNodes(subs, subs') && FreshFor(env, subs, asked, key, body)
    ensures FreshFor(env, subs', asked, key, body)
  {
    var r :| r in asked && CacheKey(r) == key && body == Fresh(env, subs, r);
    SameNodesCollectSame(env, subs, subs', r.subs);
    assert body == Fresh(env, subs', r);
  }

  lemma MutateKeepsCacheFresh<N>(env: Env<N>, s: State<N>, asked: set<Request>, m: Mutation<N>)
    requires CacheFresh(env, s, asked)
    ensures CacheFresh(env, Mutate(s, m), asked)
  {
    hide FreshFor, SameNodes;
    var s' := Mutate(s, m);
    MutationsSignal(s, m);
    forall k | k in s'.cache
      ensures s'.cache[k].gen <= s'.gen &&
              (s'.cache[k].gen == s'.gen ==> FreshFor(env, s'.subs, asked, k, s'.cache[k].body))
    {
      if s'.cache[k].gen == s'.gen {
        SameNodesFreshFor(env, s.subs, s'.subs, asked, k, s.cache[k].body);
      }
    }
  }

  lemma MutateKeepsCallSound<N>(env: Env<N>, s: State<N>, asked: set<Request>, m: Mutation<N>, c: Call<N>)
    requires CallSound(env, s, asked, c)
    ensures CallSound(env, Mutate(s, m), asked, c)
  {
    MutationsSignal(s, m);
  }

  lemma RememberKeepsCacheFresh<N>(env: Env<N>, s: State<N>, asked: set<Request>, c: Call<N>)
    requires CacheFresh(env, s, asked) && CallSound(env, s, asked, c)
    ensures CacheFresh(env, Remember(s, c.request, c.gen, Body(env, c)), asked)
  {
    if s.gen == c.gen {
      SameNodesCollectSame(env, c.view, s.subs, c.request.subs);
      assert FreshFor(env, s.subs, asked, CacheKey(c.request), Body(env, c));
    }
  }

  lemma AskingKeepsInv<N>(env: Env<N>, s: System<N>, r: Request)
    requires Inv(env, s)
    ensures Inv(env, s.(asked := s.asked + {r}))
  {
    forall k | k in s.store.cache && s.store.cache[k].gen == s.store.gen
      ensures FreshFor(env, s.store.subs, s.asked + {r}, k, s.store.cache[k].body)
    {
      var q :| q in s.asked && CacheKey(q) == k && s.store.cache[k].body == Fresh(env, s.store.subs, q);
      assert q in s.asked + {r};
    }
  }

  lemma NextKeepsInv<N>(env: Env<N>, s: System<N>, e: Event<N>, s': System<N>)
    requires Inv(env, s) && Next(env, s, e, s')
    ensures Inv(env, s')
  {
    match e
    case MutateEvent(m) =>
      MutateKeepsCacheFresh(env, s.store, s.asked, m);
      forall id | id in s.calls { MutateKeepsCallSound(env, s.store, s.asked, m, s.calls[id]); }
    case BeginEvent(_, r) =>
      AskingKeepsInv(env, s, r);
    case EndEvent(id) =>
      RememberKeepsCacheFresh(env, s.store, s.asked, s.calls[id]);
  }

  ghost predicate Run<N>(env: Env<N>, states: seq<System<N>>, events: seq<Event<N>>) {
    && |states| == |events| + 1
    && states[0] == System(Initial(), map[], {})
    && forall i | 0 <= i < |events| :: Next(env, states[i], events[i], states[i + 1])
  }

  lemma {:induction false} RunKeepsInv<N>(env: Env<N>, states: seq<System<N>>, events: seq<Event<N>>, i: nat)
    requires Run(env, states, events) && i < |states|
    ensures Inv(env, states[i])
  {
    hide Inv, Next;
    if i > 0 {
      RunKeepsInv(env, states, events, i - 1);
      NextKeepsInv(env, states[i - 1], events[i - 1], states[i]);
    } else {
      NothingAsked(env);
    }
  }

  lemma NothingAsked<N>(env: Env<N>)
    ensures Inv(env, System(Initial(), map[], {}))
  {
  }

  /** The requests on record are those of the calls so far. */
  lemma {:induction false} AskedBefore<N>(env: Env<N>, states: seq<System<N>>, events: seq<Event<N>>, k: nat,
                                          r: Request)
    requires Run(env, states, events) && k < |states|
    ensures r in states[k].asked <==> exists j :: 0 <= j < k && events[j].BeginEvent? && events[j].request == r
  {
    if k > 0 {
      AskedBefore(env, states, events, k - 1, r);
      assert Next(env, states[k - 1], events[k - 1], states[k - 1 + 1]);
    }
  }

  /** A call in progress began at some earlier event and has kept what it read there. */
  lemma {:induction false} CallBegan<N>(env: Env<N>, states: seq<System<N>>, events: seq<Event<N>>, k: nat, id: nat)
    returns (j: nat)
    requires Run(env, states, events) && k < |states| && id in states[k].calls
    ensures j < k && events[j] == BeginEvent(id, states[k].calls[id].request)
    ensures states[k].calls[id].view == states[j].store.subs
    ensures forall i | j < i <= k :: id in states[i].calls && states[i].calls[id] == states[k].calls[id]
  {
    assert k > 0;
    assert Next(env, states[k - 1], events[k - 1], states[k]);
    if id in states[k - 1].calls {
      j := CallBegan(env, states, events, k - 1, id);
    } else {
      j := k - 1;
    }
  }

  /** An entry of the current generation is a fresh render for the request of some earlier call with its key. */
  lemma EntryIsSomeonesFresh<N>(env: Env<N>, states: seq<System<N>>, events: seq<Event<N>>, k: nat, key: string)
    returns (j: nat)
    requires Run(env, states, events) && k < |states| && key in states[k].store.cache
    requires states[k].store.cache[key].gen == states[k].store.gen
    ensures j < k && events[j].BeginEvent? && CacheKey(events[j].request) == key
    ensures states[k].store.cache[key].body == Fresh(env, states[k].store.subs, events[j].request)
  {
    RunKeepsInv(env, states, events, k);
    var r :| r in states[k].asked && CacheKey(r) == key
             && states[k].store.cache[key].body == Fresh(env, states[k].store.subs, r);
    AskedBefore(env, states, events, k, r);
    j :| 0 <= j < k && events[j].BeginEvent? && events[j].request == r;
  }

  /** No other request before the k-th event has this request's key. */
  ghost predicate KeyUnshared<N>(events: seq<Event<N>>, k: nat, r: Request)
    requires k <= |events|
  {
    forall j | 0 <= j < k && events[j].BeginEvent? && CacheKey(events[j].request) == CacheKey(r) ::
      events[j].request == r
  }

  /**
   * A response from the cache is the uncached render, at that moment, of the request of some earlier
   * call with the same key. So it is the caller's own exactly when the two renders agree, and in
   * particular if no earlier request shares the key and differs.
   */
  lemma HitIsFresh<N>(env: Env<N>, states: seq<System<N>>, events: seq<Event<N>>, k: nat) returns (j: nat)
    requires Run(env, states, events) && k < |events| && events[k].BeginEvent?
    requires Response(env, states[k], events[k]).Some?
    ensures j < k && events[j].BeginEvent? && CacheKey(events[j].request) == CacheKey(events[k].request)
    ensures var body, subs := Response(env, states[k], events[k]).value, states[k].store.subs;
            && body == Fresh(env, subs, events[j].request)
            && (body == Fresh(env, subs, events[k].request) <==>
                Fresh(env, subs, events[j].request) == Fresh(env, subs, events[k].request))
            && (KeyUnshared(events, k, events[k].request) ==> body == Fresh(env, subs, events[k].request))
  {
    j := EntryIsSomeonesFresh(env, states, events, k, CacheKey(events[k].request));
  }

  /** Otherwise the response is the other's: a call that fills the cache serves every request with its key. */
  lemma SharedKeyServesOther<N>(env: Env<N>, s: System<N>, id: nat, r: Request, id': nat, r': Request)
    requires id !in s.calls && Lookup(s.store, r).None? && CacheKey(r) == CacheKey(r')
    ensures var s1 := s.(asked := s.asked + {r}, calls := s.calls[id := BeginCall(env, s, r)]);
            var s2 := s1.(store := Remember(s.store, r, s.store.gen, Fresh(env, s.store.subs, r)),
                          calls := s1.calls - {id});
            && Next(env, s, BeginEvent(id, r), s1) && Next(env, s1, EndEvent(id), s2)
            && Response(env, s2, BeginEvent(id', r')) == Some(Fresh(env, s2.store.subs, r))
  {
  }

  /**
   * A response after a miss is the uncached render of the store at the moment, within the call,
   * at which it began; whatever other calls and mutations ran in between.
   */
  lemma MissIsFresh<N>(env: Env<N>, states: seq<System<N>>, events: seq<Event<N>>, k: nat) returns (j: nat)
    requires Run(env, states, events) && k < |events| && events[k].EndEvent?
    ensures j < k && events[j].BeginEvent? && events[j].id == events[k].id
    ensures forall i | j < i <= k :: events[k].id in states[i].calls
    ensures Response(env, states[k], events[k]) == Some(Fresh(env, states[j].store.subs, events[j].request))
  {
    assert Next(env, states[k], events[k], states[k + 1]);
    RunKeepsInv(env, states, events, k);
    j := CallBegan(env, states, events, k, events[k].id);
  }

  /** Every entry tagged with the current generation equals a fresh render of a request that alone has its key. */
  lemma CurrentEntriesFresh<N>(env: Env<N>, states: seq<System<N>>, events: seq<Event<N>>, i: nat, r: Request)
    requires Run(env, states, events) && i < |states| && CacheKey(r) in states[i].store.cache
    requires states[i].store.cache[CacheKey(r)].gen == states[i].store.gen && KeyUnshared(events, i, r)
    ensures states[i].store.cache[CacheKey(r)].body == Fresh(env, states[i].store.subs, r)
  {
    var j := EntryIsSomeonesFresh(env, states, events, i, CacheKey(r));
  }
}
