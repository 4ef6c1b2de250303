// The sub store as the program runs it (internal/agg/store.go), field updates and loops, proved
// against StoreSpec.
module Store {
  import opened Wrappers
  import opened StoreSpec
  import opened StoreProofs
  import opened Text

  lemma {:induction false} DedupConcat<N>(key: N -> string, a: seq<N>, n: N, seen: set<string>)
    ensures Dedup(key, a + [n], seen) ==
            Dedup(key, a, seen) + (if key(n) in seen || exists x | x in a :: key(x) == key(n) then [] else [n])
    decreases |a|
  {
    if a == [] {
      assert [n][1..] == [] && a + [n] == [n];
    } else {
      assert (a + [n])[1..] == a[1..] + [n];
      assert a == [a[0]] + a[1..];
      var seen' := if key(a[0]) in seen then seen else seen + {key(a[0])};
      DedupConcat(key, a[1..], n, seen');
      assert (exists x | x in a :: key(x) == key(n)) <==>
             key(a[0]) == key(n) || exists x | x in a[1..] :: key(x) == key(n);
    }
  }

  ghost function KeysOf<N>(key: N -> string, nodes: seq<N>): set<string> {
    set n | n in nodes :: key(n)
  }

  lemma KeysAppend<N>(key: N -> string, nodes: seq<N>, n: N)
    ensures KeysOf(key, nodes + [n]) == KeysOf(key, nodes) + {key(n)}
  {
    assert forall x :: x in nodes + [n] <==> x in nodes || x == n;
  }

  lemma {:induction false} AllNodesConcat<N>(subs: map<string, SubState<N>>, a: seq<string>, name: string)
    ensures AllNodes(subs, a + [name]) == AllNodes(subs, a) + NodesOf(subs, name)
  {
    if a == [] {
      assert [name][1..] == [] && a + [name] == [name];
    } else {
      assert (a + [name])[1..] == a[1..] + [name];
      AllNodesConcat(subs, a[1..], name);
    }
  }

  class Store<N(==)> {
    const env: Env<N>

    var subs: map<string, SubState<N>>
    var gen: nat
    var cache: map<string, Entry>
    var changed: bool

    ghost var asked: set<Request>  // the requests so far

    function State(): State<N>
      reads this
    {
      StoreSpec.State(subs, gen, cache, changed)
    }

    ghost predicate Valid()
      reads this
    {
      CacheFresh(env, State(), asked)
    }

    constructor (env: Env<N>)
      ensures this.env == env && State() == Initial() && asked == {} && Valid()
    {
      this.env := env;
      subs, gen, cache, changed, asked := map[], 0, map[], false, {};
    }

    method Notify()
      modifies this
      ensures State() == StoreSpec.Notify(old(State())) && asked == old(asked)
    {
      gen := gen + 1;
      changed := true;  // a signal already pending absorbs this one
    }

    method SetNodes(name: string, nodes: seq<N>, now: int, etag: string, lastModified: string, userInfo: string)
      requires Valid()
      modifies this
      ensures Valid() && asked == old(asked)
      ensures State() ==
              StoreSpec.SetNodes(old(State()), name, SubState(nodes, now, "", etag, lastModified, userInfo))
    {
      var st := SubState(nodes, now, "", etag, lastModified, userInfo);
      MutateKeepsCacheFresh(env, State(), asked, NodesSet(name, st));
      subs := subs[name := st];
      Notify();
    }

    method Nodes(name: string) returns (nodes: seq<N>, fetched: bool)
      ensures nodes == NodesOf(subs, name) && fetched == (name in subs)
    {
      if name in subs {
        return subs[name].nodes, true;
      }
      return [], false;
    }

    method SetError(name: string, err: string)
      requires Valid()
      modifies this
      ensures Valid() && State() == StoreSpec.SetError(old(State()), name, err) && asked == old(asked)
    {
      MutateKeepsCacheFresh(env, State(), asked, ErrorSet(name, err));
      var st := if name in subs then subs[name] else SubState([], 0, "", "", "", "");
      subs := subs[name := st.(err := err)];
    }

    method Touch(name: string, now: int)
      requires Valid()
      modifies this
      ensures Valid() && State() == StoreSpec.Touch(old(State()), name, now) && asked == old(asked)
    {
      MutateKeepsCacheFresh(env, State(), asked, Touched(name, now));
      if name in subs {
        subs := subs[name := subs[name].(updated := now, err := "")];
      }
    }

    /** Forgets every sub that is not named, and all cached responses. */
    method Prune(keep: seq<string>)
      requires Valid()
      modifies this
      ensures Valid() && State() == StoreSpec.Prune(old(State()), keep) && asked == old(asked)
    {
      MutateKeepsCacheFresh(env, State(), asked, Pruned(keep));
      var todo := subs.Keys;
      while todo != {}
        invariant todo <= old(subs).Keys
        invariant subs == map n | n in old(subs) && (n in todo || n in keep) :: old(subs)[n]
        invariant State() == old(State()).(subs := subs) && asked == old(asked)
        decreases todo
      {
        var name :| name in todo;
        if name !in keep {
          subs := subs - {name};
        }
        todo := todo - {name};
      }
      cache := map[];
      Notify();
    }

    method CollectSub(name: string, before: seq<N>, ghost all: seq<N>, seen: set<string>)
      returns (nodes: seq<N>, seen': set<string>)
      requires before == Dedup(env.key, all, {}) && seen == KeysOf(env.key, all)
      ensures nodes == Dedup(env.key, all + NodesOf(subs, name), {})
      ensures seen' == KeysOf(env.key, all + NodesOf(subs, name))
    {
      nodes, seen' := before, seen;
      var mine := NodesOf(subs, name);
      assert all + mine[..0] == all;
      for i := 0 to |mine|
        invariant nodes == Dedup(env.key, all + mine[..i], {}) && seen' == KeysOf(env.key, all + mine[..i])
      {
        var n := mine[i];
        ghost var done := all + mine[..i];
        assert all + mine[..i + 1] == done + [n];
        DedupConcat(env.key, done, n, {});
        KeysAppend(env.key, done, n);
        if env.key(n) !in seen' {
          seen' := seen' + {env.key(n)};
          nodes := nodes + [n];
        }
      }
      assert mine[..|mine|] == mine;
    }

    /** The nodes of the named subs, one after the other, without later duplicates. */
    method CollectLocked(names: seq<string>) returns (nodes: seq<N>)
      ensures nodes == Collect(env, subs, names)
    {
      nodes := [];
      var seen: set<string> := {};
      for i := 0 to |names|
        invariant nodes == Dedup(env.key, AllNodes(subs, names[..i]), {})
        invariant seen == KeysOf(env.key, AllNodes(subs, names[..i]))
      {
        TakeNext(names, i);
        AllNodesConcat(subs, names[..i], names[i]);
        if names[i] in subs {
          nodes, seen := CollectSub(names[i], nodes, AllNodes(subs, names[..i]), seen);
        } else {
          assert AllNodes(subs, names[..i]) + [] == AllNodes(subs, names[..i]);
        }
      }
      assert names[..|names|] == names;
    }

    /** The first critical section of Render: a cached body, or the nodes and their generation. */
    method Begin(r: Request) returns (hit: Option<string>, nodes: seq<N>, at: nat)
      requires Valid()
      modifies this`asked
      ensures Valid() && asked == old(asked) + {r}
      ensures hit == Lookup(State(), r) && at == gen
      ensures hit.None? ==> nodes == Collect(env, subs, r.subs)
    {
      AskingKeepsInv(env, System(State(), map[], asked), r);
      asked := asked + {r};
      var key := CacheKey(r);
      if key in cache && cache[key].gen == gen {
        return Some(cache[key].body), [], gen;
      }
      nodes := CollectLocked(r.subs);
      return None, nodes, gen;
    }

    /** The second: keep the body unless the store has moved on. */
    method End(r: Request, at: nat, body: string)
      requires Valid() && r in asked && at <= gen
      requires at == gen ==> body == Fresh(env, subs, r)
      modifies this`cache
      ensures Valid() && State() == Remember(old(State()), r, at, body)
    {
      if gen == at {
        RememberKeepsCacheFresh(env, State(), asked, Call(r, at, Collect(env, subs, r.subs), subs));
        cache := cache[CacheKey(r) := Entry(at, body)];
      }
    }

    /**
     * Render with nothing in between; StoreProofs covers the interleavings. The body is fresh for
     * some request with this key, so for this one if no other was made.
     */
    method Render(r: Request) returns (body: string)
      requires Valid()
      modifies this`cache, this`asked
      ensures Valid() && asked == old(asked) + {r} && State() == old(State()).(cache := cache)
      ensures FreshFor(env, subs, asked, CacheKey(r), body)
      ensures (forall q | q in old(asked) && CacheKey(q) == CacheKey(r) :: q == r) ==> body == Fresh(env, subs, r)
    {
      var hit, nodes, at := Begin(r);
      if hit.Some? {
        return hit.value;
      }
      body := env.render(nodes, r.format, r.full);
      End(r, at, body);
      assert r in asked && body == Fresh(env, subs, r);
    }
  }
}
