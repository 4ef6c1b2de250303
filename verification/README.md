# proxy-proxy, verified

A Dafny model of the stateful and the parsing parts of proxy-proxy, with proofs of what they
promise. `dafny verify dfyconfig.toml` checks everything.

The program aggregates proxy subscriptions, serves them again as feeds, and can relay local
http/socks5 callers through the subscribed proxies with an embedded mihomo core.

## What is modelled

- **The relay core** (`Core*`, `RelayTypes`, `Values`). One `apply` takes the running mihomo to a new
  desired state, reusing proxies and groups whose reuse key is unchanged, and marks connections that
  lose their route or upstream for closing. Mihomo's objects are numbers handed out once; two tables
  record what each was built from. `Core.Core` has the fields and loops of the program and is proved
  against the functions of `CoreSpec`.
- **The manager** (`Manager*`). The select loop, its one-slot plan mailbox, the debounce timer and the
  drain timer, as a state machine. A render reads the store one sub at a time, and store mutations,
  a concurrent `SetPlan` and connections may come between any two of its reads.
- **The node store** (`Store*`, `CacheKeys`). The generation-tagged render cache, with `Render` split where it
  releases its lock.
- **The plan and its rendering** (`Plan*`, `Render*`, `RelayGroups`, `Inbounds`, `Rules`, `Routing`, `Document`,
  `Names`). Validation, conflicts between relays, listeners, the shared proxy registry, groups, and the
  printed first-match rules together with their evaluation.
- **The share-link codec** (`Base64`, `Percent`, `Query`, `HostPort`, `Url`, `Link*`, `VmessObjects`, `LegacyLink`,
  `DedupKeys`, `Feed*`). Five link formats over byte strings, both directions, down to base64 (sections 4 and 5 of
  RFC 4648) and percent-encoding (section 2.1 of RFC 3986).
- **Configuration** (`Config*`) and **client addresses** (`ClientIp`, `AddressRanges`). The subs of relays,
  and the walk over X-Forwarded-For behind trusted proxies.

## What the code does not promise

Some properties a reader might expect are false of the code. Each has a lemma with an input that
shows it, and a lemma with the exact condition.

- Reuse keys are `fmt.Sprint` text, which is not injective: the ALPN lists `["a b","c"]` and
  `["a","b c"]` print alike (`Values.ListsPrintAlike`). A proxy edited from one to the other keeps its
  old object (`CoreMixUp.AlpnListsCollide`). An apply leaves live objects that match their configs
  exactly when no two configs collide in this way (`CoreRuns.FaithfulIffNoCollision`), and so over whole
  runs (`CoreRuns.RunFaithfulIff`).
- Drain safety survives most such collisions. It is lost if a group that a route leads to keeps an object
  with an entry that is no longer its member. Two relays whose upstreams are named as in the lists above
  can swap them and keep their groups; a caller is then connected through an upstream of the other relay
  and never drained (`CoreMixUp.SwappedListsMixUp`). `CoreDrain.OpensOnRouteIffKeepsRoutes` gives the exact
  condition for one apply, and `CoreDrain.RunDrainsStaleConnections` for whole runs.
- The registry shares proxies by printed content. If two upstreams print alike but differ, the second is
  served by the first's proxy, or dropped although it loads (`RenderContents.PrintAlikeNodesMixed`). An
  upstream is served as itself exactly when the first one with its key is like it
  (`RenderContents.ServedIffFirstAlike`).
- A cache key does not identify a request if a sub name contains NUL (`CacheKeys.NulCollides`), or
  between no sub and one sub with an empty name (`CacheKeys.JoinCollisions`); it is then served with the
  other's response (`StoreProofs.SharedKeyServesOther`). `CacheKeys.KeysEqual` says which requests share
  a key.
- Printing a parsed link and parsing it again gives back the record exactly when the conditions in
  `LinkRoundTrip.RoundTrip` hold. What fails: a vless record with reality options but no tls gains tls
  (`LinkRoundTrip.RealityGainsTls`); an alpn list of one blank entry disappears; and servers that a
  link cannot carry. For an ss link these are servers with a `?`, which only the fully-encoded form
  can produce. For vless, trojan and hysteria2 they are the servers outside `Url.Survives`, such as an
  unbracketed host with colons that is not an IPv6 address.
- A fully-encoded ss link does not escape its password, but the parser unescapes it: the password `%41`
  is read as `A` (`LegacyLink.EncodedPasswordLost`). `LegacyLink.LegacyLinkExact` gives the condition.
- The dedup key joins its parts with bars. A server name with bars can make the keys of two different nodes
  equal (`DedupKeys.BarsCollide`); without them a key identifies a node (`DedupKeys.KeyIdentifies`).
- The dedup key includes the network, and links print every network other than ws, grpc and h2 as tcp,
  which the parser ignores. Server and key survive exactly for expressible servers and
  the networks that links can name (`LinkRoundTrip.KeyKept`).

## Reading guide

A `…Spec` module gives the functions, the module with the bare name the loops and classes that
compute them, and a `…Proofs` module what is proved. Results about whole runs are stated over a
sequence of states and events with a `Run` predicate. Parameters called `env`, `lib`, `loads`,
`source` or `parseClash` stand for calls into libraries.

## Model

| member | source | states |
|---|---|---|
| CoreDrain.RunDrainsStaleConnections | internal/relay/core.go:77-202 | In any run: no open relayed connection is left undrained off its route entry, its group's members or its dialled object, in any state up to the n-th event or after one more connection opens there, if and only if every successful apply before it keeps routes, that is, each group that a route leads to and that keeps its running object has an object of members of the new group with their running objects only. |
| CoreDrain.OpensOnRouteIffKeepsRoutes | internal/relay/core.go:101-120 | After a successful apply to any state with the core's invariant, every relayed connection that mihomo may open is on its route, if and only if the apply keeps routes, a condition on the state before and the new desired state. |
| CoreDrain.RunOpensOnRouteIff | internal/relay/core.go:77-202 | In any run every relayed connection that may open is on its route, in every state, if and only if every successful apply keeps routes. |
| CoreDrain.OffRouteBreaks | internal/relay/core.go:188-202 | In a state where a relayed connection may open off its route, one such connection is on record right after it opens, undrained. |
| CoreDrain.KeepsRoutesIffNoRoutedDrop | internal/relay/core.go:101-120 | Where every group object lists exactly its current members and holds their current objects, an apply keeps routes if and only if no group that a route leads to is taken for a running one that lists a name it does not. |
| CoreDrain.RunWithoutDropsIsSafe | internal/relay/core.go:77-202 | If no successful apply takes a group for a running one that lists a name it does not, then every apply keeps routes and the run is drain safe. |
| CoreDrain.GroupsHoldIffNoMixUp | internal/relay/core.go:101-120 | If every group object listed exactly its current members and held their current objects, it still does after a successful apply, if and only if no new group was taken for a running one that lists other members. |
| CoreDrain.RunGroupsHoldIff | internal/relay/core.go:101-120 | In any run every group object lists exactly its current members and holds their current objects, in every state, if and only if no successful apply takes a group for a running one that lists other members. |
| CoreDrain.CollisionFreeIsDropFree | internal/relay/core.go:160-167 | An apply without colliding keys mixes up no groups, and one that mixes up no groups drops no member. |
| CoreMixUp.SwappedListsMixUp | internal/relay/core.go:101-120 | Two renderings of one plan, between which two subs swap their nodes, whose lists of names print alike: after the second apply a caller of the first relay can be connected, undrained, through a node that is no member of its group. |
| CoreRuns.StaleIffOffRoute | internal/relay/core.go:188-202 | An apply marks a relayed connection that was on its route exactly when it takes away its route entry, its membership or its object; an apply that leaves the three alone does not mark it. |
| CoreRuns.FaithfulIffNoCollision | internal/relay/core.go:82-120 | After a successful apply every live proxy was built from exactly its config and every live group holds the current objects of its members in order, if and only if no two configs that share a reuse key differ. |
| CoreRuns.RunFaithfulIff | internal/relay/core.go:82-120 | In any run the live objects match their configs, in every state, if and only if no successful apply collides. |
| CoreRebuild.IncrementalIsRebuild | internal/relay/core.go:77-157 | After any run in which no successful apply collides, building the current desired state from nothing succeeds and gives the same configs, groups, members, rules and listeners as the incremental applies did. |
| CoreMixUp.PrintAlikesCollide | internal/relay/core.go:85-88 | For every node, config and field: between two renderings of a plan over that node that differ in a value printing alike, the old object goes on serving the new config. |
| CoreMixUp.AlpnListsCollide | internal/relay/core.go:85-88 | An edit of a node's ALPN list that the incremental apply misses, on two renderings of a plan. |
| Values.KeyTellsPrints | internal/relay/core.go:85 | Two values of one field of a config give the same reuse key exactly when they print alike; different texts, numbers and flags print differently. |
| Values.ListsPrintAlike | internal/relay/core.go:85 | Two different lists of strings have the same printed text. |
| CoreProofs.ApplyKeepsInv | internal/relay/core.go:77-157 | A successful apply keeps the invariant: identifiers are handed out once, live objects have the key of their config, mihomo's tables name them, and the health checks running are those of the live groups. |
| CoreRuns.RunKeepsInv | internal/relay/core.go:77-157 | The invariant holds in every reachable state, collisions or not: each provider is started at most once, closed at most once and only after its start, and those started and not closed belong to live groups. |
| CoreRuns.StopEndsHealthChecks | internal/relay/core.go:239-248 | After stop each started health check has been closed exactly once. |
| CoreRuns.DrainingSince | internal/relay/core.go:172-186 | A draining connection was marked by one apply, has been draining ever since, and its deadline is still that apply's time plus the drain timeout. |
| CoreRuns.ForceClosedLate | internal/relay/core.go:204-219 | A sweep closes only connections that an apply marked at least the drain timeout earlier. |
| CoreRuns.SweepLeavesOpenAndTimely | internal/relay/core.go:204-219 | After a sweep every remaining entry is an open connection with a later deadline, every overdue connection is gone, and no other connection is touched. |
| CoreRuns.SameObjectsSameInv | internal/relay/core.go:204-219 | Sweeping and connections opening or finishing change nothing the invariant depends on. |
| CoreDrain.OpenedOnRoute | internal/relay/core.go:188-202 | Every relayed connection that mihomo may open starts out on its route, if groups hold only current members and their current objects. |
| Core.Core.Apply | internal/relay/core.go:77-157 | The in-place apply reaches exactly the state of the specification, keeps the invariant, and changes nothing when it fails. |
| Core.Core.BuildProxies | internal/relay/core.go:82-99 | The loop over proxies computes the specified live proxies, counts and new objects, or the first proxy that does not load. |
| Core.Core.BuildGroups | internal/relay/core.go:101-120 | The loop over groups reuses, rebuilds and records providers as specified, or names the first group that does not load. |
| Core.Core.CheckSameProxies | internal/relay/core.go:160-167 | True exactly when every named proxy is live before and after as the same object. |
| Core.Core.ParseRules | internal/relay/core.go:122-130 | Finds the first rule line that mihomo rejects. |
| Core.Core.ParseListeners | internal/relay/core.go:132-139 | The listeners by name, or the first that does not load. |
| Core.Core.CloseReplaced | internal/relay/core.go:149-153 | Closes the provider of each dropped or replaced group once, and no other. |
| Core.Core.CheckStale | internal/relay/core.go:188-202 | Whether the new state moves a connection off its route or upstream. |
| Core.Core.MarkStale | internal/relay/core.go:172-186 | Gives exactly the newly stale connections the new deadline, moves no other deadline, and counts them. |
| Core.Core.SwitchOver | internal/relay/core.go:141-156 | Once everything parsed, the whole state changes as specified. |
| Core.Core.Sweep | internal/relay/core.go:205-219 | Deleting from the map while ranging over it leaves the specified entries and closes the overdue connections. |
| Core.Core.NextDeadline | internal/relay/core.go:222-229 | The earliest deadline, or none exactly when nothing is draining. |
| Core.Core.Stop | internal/relay/core.go:239-248 | Closes every live provider and all listeners; does nothing if the core never started. |
| Core.Core.constructor | internal/relay/core.go:56-58 | A new core has nothing live and satisfies the invariant. |
| CoreOutcome.ApplySucceedsIff | internal/relay/core.go:77-139 | An apply of a well-formed desired state succeeds exactly when mihomo accepts whatever does not run already: every proxy that is not live under its key, every group that no running one serves for, every rule line and every listener. |
| CoreOutcome.ApplyInstalls | internal/relay/core.go:122-156 | After a successful apply mihomo has exactly the rules of the desired state, a listener for each name in it with the last config of that name, an outbound for each proxy and group, and its other outbounds untouched. |
| CoreOutcome.RunInstalls | internal/relay/core.go:122-156 | In every reachable state mihomo has exactly the rules and listeners of the current desired state. |
| CoreOutcome.ApplyCounts | internal/relay/core.go:82-99 | A successful apply reports the number of proxies whose object it kept, the number it built, which is the rest, and the number of connections it marked. |
| CoreTunnel.ProxiesChecked | internal/relay/core.go:82-99 | The proxy loop fails exactly if some proxy neither has a live object under its key nor loads, and with the first such; it counts the reused and the built ones. |
| CoreTunnel.GroupsChecked | internal/relay/core.go:101-120 | The group loop fails exactly if some group is not reused and does not load, and with the first such. |
| CoreTunnel.RulesChecked | internal/relay/core.go:122-130 | The rule check passes exactly if every line loads, and otherwise gives the first that does not. |
| CoreTunnel.ListenersChecked | internal/relay/core.go:132-139 | The listener loop fails exactly if some listener does not load, with the name of the first, and otherwise keeps the last config of each name and no other. |
| ManagerProofs.NoLostUpdate | internal/relay/manager.go:28-118 | In every run, when the loop is idle with no plan, signal or timer pending, mihomo runs and the last attempt did not fail, the current state is the rendering of the newest plan over the current nodes, provided that marshalled bytes determine the document. |
| ManagerHistory.RestRunsLastInputs | internal/relay/manager.go:28-118 | In terms of the events alone: in every run, at rest with mihomo running and the last attempt not failed, the current state is the rendering of the plan that was set last over the nodes that were last set for each sub and not dropped since, provided that marshalled bytes determine the document. |
| ManagerProofs.RunKeepsInv | internal/relay/manager.go:58-117 | In every reachable state a read that no longer matches the store implies a pending signal or a set timer, and the newest plan is being sent, in the mailbox or in use. |
| ManagerProofs.SkipIsExact | internal/relay/manager.go:63-70 | If the document that was rendered marshals to the bytes applied last, and marshalled bytes determine the document, then the current state equals the rendered one, routes and members included. |
| ManagerProofs.FinishSucceedsIff | internal/relay/manager.go:63-92 | An attempt leaves the failure flag unset exactly if the document marshals and either its bytes are those applied last while mihomo runs, or mihomo runs or starts and everything that does not run already loads. |
| ManagerHistory.FinishStartsIff | internal/relay/manager.go:73-78 | After an attempt mihomo runs exactly if it ran before, or the document marshalled and mihomo starts. |
| ManagerProofs.RestSucceedsIff | internal/relay/manager.go:58-93 | In every reachable state at rest, with relays to run or mihomo running, the last attempt did not fail exactly if mihomo takes the newest plan over the current nodes. |
| ManagerProofs.SendNeverBlocks | internal/relay/manager.go:30-36 | When SetPlan refills the mailbox it is always empty, whatever the loop does in between. |
| ManagerProofs.SweepAlwaysScheduled | internal/relay/manager.go:52-57 | In every reachable state the sweep timer is set for the earliest drain deadline, and unset exactly when nothing is draining. |
| ManagerDrain.ManagerDrainsStaleConnections | internal/relay/manager.go:58-117 | In any run of the whole manager drain safety holds in every state, also after one more connection opens there, if and only if every rendering that the run installs keeps routes. |
| ManagerDrain.ManagerFaithfulIff | internal/relay/manager.go:58-117 | In any run of the whole manager the live objects match their configs, in every state, if and only if no rendering that it installs collides. |
| ManagerDrain.RestIsRebuild | internal/relay/manager.go:58-117 | In any run in which no installed rendering collides: a loop at rest whose last attempt did not fail runs objects that look like a full rebuild of the newest plan over the current nodes, provided that marshalled bytes determine the document. |
| ManagerProgress.LoopEnds | internal/relay/manager.go:94-117 | From every reachable state, once only the loop acts, it takes at most a number of steps that is computed from that state, in whatever order the cases are selected. |
| ManagerProgress.LoopRests | internal/relay/manager.go:94-117 | From every reachable state the loop alone can come to rest. |
| ManagerProgress.SettlesOnNewest | internal/relay/manager.go:58-117 | After any run, once only the loop acts, it is stuck after at most that many steps and then at rest. With relays to run, its last attempt did not fail if and only if mihomo takes the newest plan over the nodes that the store had when the rest of the process stopped; if everything in it loads, that rendering is what the core then runs. |
| ManagerProofs.MutationOutdates | internal/relay/manager.go:104-107 | A store mutation that makes a read out of date leaves something pending. |
| Manager.Manager.SetPlan | internal/relay/manager.go:30-36 | Draining and refilling the mailbox drops an earlier plan and keeps the invariant at both steps. |
| Manager.Manager.ScheduleSweep | internal/relay/manager.go:52-57 | Sets the timer to the earliest deadline, or clears it. |
| Manager.Manager.Apply | internal/relay/manager.go:58-93 | Reading every sub in order and then settling is the specified apply. |
| Manager.Manager.Settle | internal/relay/manager.go:63-82 | Compares documents, starts mihomo if needed and applies; on any failure the applied document and the core's current state stay. |
| Manager.Manager.TryApply | internal/relay/manager.go:77-92 | Records the document and reschedules the sweep exactly when the core's apply succeeded and marked connections. |
| Manager.Manager.OnPlan | internal/relay/manager.go:101-103 | Taking a plan clears the debounce timer, applies and keeps the invariant. |
| Manager.Manager.OnChanged | internal/relay/manager.go:104-107 | A signal sets the debounce timer and is not lost if the timer is already set. |
| Manager.Manager.OnTimer | internal/relay/manager.go:108-110 | The debounce timer applies once and keeps the invariant. |
| Manager.Manager.OnSweepTimer | internal/relay/manager.go:111-115 | The sweep timer sweeps and reschedules. |
| StoreProofs.MissIsFresh | internal/agg/store.go:174-198 | Whatever mutations and other calls run between its two critical sections, a call that misses the cache returns the uncached render of the store at the moment within the call at which it took the lock; this holds for all requests. |
| StoreProofs.HitIsFresh | internal/agg/store.go:177-182 | A cached response is the uncached render, at that moment, of the request of an earlier call with the same key; it is the caller's own if and only if the two renders agree, and so if no earlier request shares the key and differs. |
| StoreProofs.CurrentEntriesFresh | internal/agg/store.go:192-196 | In every reachable state the cache entry under a request's key, if tagged with the current generation, equals a fresh render of that request, if no earlier request of the run shares the key and differs. |
| StoreProofs.EntryIsSomeonesFresh | internal/agg/store.go:192-196 | In every reachable state each cache entry of the current generation is a fresh render for the request of an earlier call with that key, whatever requests share it. |
| StoreProofs.SharedKeyServesOther | internal/agg/store.go:177-182 | A call that fills the cache serves every other request with its key with its own response. |
| StoreProofs.MutationsSignal | internal/agg/store.go:61-147 | A mutation that changes any sub's nodes raises the signal and the generation; one that does not raise the generation leaves nodes and cache alone. |
| StoreHistory.NodesAreLastSet | internal/agg/store.go:61-147 | After any events, in any order with renders, a sub has the nodes that were last set for it, and none if it was dropped since or never set; errors and touches do not change them. |
| StoreHistory.MutationReadsBack | internal/agg/store.go:69-147 | Each mutation changes the named sub in its own way and no other sub: setting replaces nodes and headers and clears the error, an error keeps the fetch, a touch keeps it and clears the error, and pruning drops exactly the unnamed subs and the cache. |
| StoreHistory.FreshRenders | internal/agg/store.go:174-217 | An uncached render renders, in the requested format, the nodes of the named subs one sub after the other, without those whose key came earlier. |
| CacheKeys.KeysEqual | internal/agg/store.go:175 | Any two requests share a cache key if and only if their formats and flags agree and their names, split at NUL, give the same list, where no name counts as one empty name. |
| CacheKeys.KeyInjective | internal/agg/store.go:175 | Two requests without NUL in a sub name, and not for the one empty name, share a cache key exactly when they are equal. |
| CacheKeys.JoinCollisions | internal/agg/store.go:175 | Joining NUL-free names with NUL loses exactly the difference between no name and one empty name. |
| CacheKeys.NulCollides | internal/agg/store.go:175 | Two different requests with the same cache key. |
| StoreProofs.DedupIsFirstOccurrences | internal/agg/store.go:201-217 | Collecting keeps exactly the first node of each dedup key, in their order. |
| Store.Store.SetNodes | internal/agg/store.go:69-77 | Replaces a sub's snapshot, raises generation and signal, and leaves no fresh-looking stale entry. |
| Store.Store.SetError | internal/agg/store.go:91-100 | Records an error and keeps nodes, generation and cache. |
| Store.Store.Touch | internal/agg/store.go:103-110 | Marks a known sub fresh and changes no nodes. |
| Store.Store.Prune | internal/agg/store.go:133-147 | Keeps exactly the named subs, empties the cache and signals. |
| Store.Store.CollectLocked | internal/agg/store.go:201-217 | The nested loops compute the deduplicated nodes of the subs in order. |
| Store.Store.Render | internal/agg/store.go:174-198 | Without interleaving, returns a fresh render for a request with this key, which is this request's own if no other request shares the key, and changes nothing but the cache. |
| PlanProofs.KeptUnambiguous | internal/relay/plan.go:265-308 | Kept endpoints on one port share their listen address, are all with or all without a username, belong to one relay if without, and each username fixes one relay and one password. |
| PlanProofs.KeptIffNoConflict | internal/relay/plan.go:111-115 | A valid relay is kept exactly when on no port it meets another relay under differing listens, a missing username or a shared username. |
| PlanKept.PlanKeeps | internal/relay/plan.go:76-122 | For every config: a plan has exactly the relays that meet the conditions, have their name to themselves, and have each of their ports alone or share it on one address with usernames of which none is another relay's; its listeners serve exactly the endpoints of those. |
| PlanProofs.PlanIgnoresOrder | internal/relay/plan.go:76-124 | Permuting the relays changes neither which are kept nor any port's name, type, address, owner and user table. |
| PlanProofs.InvalidRelayChangesNothing | internal/relay/plan.go:95-103 | Adding an invalid relay with a fresh name at any position leaves the plan as it is. |
| PlanProofs.PlanServesEveryone | internal/relay/plan.go:310-340 | Each port has one listener, which carries every kept endpoint of that port on its address. |
| PlanProofs.ListenersComeFromEndpoints | internal/relay/plan.go:310-340 | Every owner and user entry of a listener comes from a kept endpoint, with one entry per username. |
| PlanValid.ValidIffMeets | internal/relay/plan.go:135-185 | A relay validates if and only if its name and strategy are usable, it has upstreams and each is a resolved known sub or a proxy that loads, and it has downstreams that are each in range and pairwise able to share a listener; it then becomes exactly its spec and endpoints. |
| PlanValid.ValidIsGood | internal/relay/plan.go:135-185 | A validated relay has a usable name and strategy, endpoints with ports, types and credentials in range, and downstreams that can share their listeners. |
| PlanProofs.NewPlanReady | internal/relay/plan.go:108-123 | A new plan has everything rendering relies on. |
| Plan.MakePlan | internal/relay/plan.go:76-124 | The loops of NewPlan compute the conflict-free part of the config. The errors are those of the invalid relays, each at its index and in config order, followed by exact reports of the conflicts. |
| Plan.Validate | internal/relay/plan.go:135-185 | The checks run in the source's order and report the first failure. |
| Plan.FindOwnClash | internal/relay/plan.go:244-261 | The first pair of a relay's downstreams that cannot share a listener. |
| Plan.FindConflicts | internal/relay/plan.go:265-308 | The rejected relays are exactly those in a conflict. A port and reason is reported if and only if it applies, the first of the three reasons that does, and each report names exactly the relays it involves. |
| Plan.ConflictsAt | internal/relay/plan.go:275-306 | On one port every reason that applies is reported, no other is, and each report names exactly the relays involved. |
| Plan.GroupByPort | internal/relay/plan.go:343-350 | The sorted ports, and on each its endpoints in input order. |
| Plan.BuildListener | internal/relay/plan.go:313-337 | The listener of one port: type, owner, or the first endpoint of each username. |
| Plan.MakeListeners | internal/relay/plan.go:310-340 | One listener per port, sorted by port. |
| RenderProofs.RegistrySound | internal/relay/render.go:64-91 | Proxy names are distinct and differ from relay and built-in names; registered names and the content keys that load are in bijection; every emitted proxy loads. |
| RenderProofs.RenderMembers | internal/relay/render.go:154-183 | A relay's group lists, without repeats and in config order, exactly the proxies its upstreams are on record as; a relay without any has no group. |
| RenderContents.ServedIffFirstAlike | internal/relay/render.go:187-207 | For every upstream of every relay: it is on record exactly when mihomo loads it, and then its own config runs under the recorded name, if and only if the first upstream with its content key is equal to it apart from the name, or neither loads. |
| RenderContents.AllServedIffNoneMixed | internal/relay/render.go:187-216 | Every upstream of every relay is served as itself if and only if no two upstreams of the render share a content key but differ in content or in whether they load. |
| RenderContents.MembersServeUpstreams | internal/relay/render.go:154-183 | If no two are mixed in that way, each upstream that loads has a member with its own config, and each member has the config of such an upstream. |
| RenderContents.EmittedFromUpstream | internal/relay/render.go:187-207 | Every emitted proxy is the renamed config of an upstream that loads and is on record under its name, mixed or not. |
| RenderContents.PrintAlikeNodesMixed | internal/relay/render.go:187-216 | Two nodes that differ only in lists that print alike: the second is served by the proxy of the first, or dropped although it loads if the first does not. |
| RenderProofs.AddKeepsSound | internal/relay/render.go:187-207 | Registering an item, loadable or not, new or known, keeps the registry sound. |
| RenderProofs.RenderWellFormed | internal/relay/render.go:64-123 | What rendering produces meets what the core relies on. |
| Render.ProxyRegistry.Add | internal/relay/render.go:187-207 | Registers a proxy at most once by content, under a fresh name. |
| Render.ProxyRegistry.Members | internal/relay/render.go:154-183 | The loops over upstreams and nodes fill the registry and collect names as specified. |
| Render.RenderPlan | internal/relay/render.go:64-123 | The whole rendering, reading each sub from the source in order. |
| Render.RenderListeners | internal/relay/render.go:93-119 | Listeners, rules and routes of all ports. |
| Rules.RuleDecodes | internal/relay/render.go:113 | A printed rule line parses back to its listener, username and target, given what validation forbids in them. |
| Rules.FirstMatchFinds | internal/relay/render.go:113-120 | First-match over user rules and the final reject gives the common target of the matching rules, or REJECT. |
| Routing.CallerReachesOwner | internal/relay/render.go:93-120 | For every config and node source, the caller of a kept endpoint is admitted and sent to the target of the relay that owns it, and the recorded route says the same. |
| Inbounds.PortListens | internal/relay/render.go:93-119 | A kept endpoint's port has a listener on exactly its port and address, with no further field: it speaks the type of the port's endpoints, or is mixed exactly if they differ, takes UDP exactly without authentication and when not http, and admits exactly the credentials of the kept endpoints there. |
| Inbounds.ListenersAreThePorts | internal/relay/plan.go:310-341 | Rendered listeners have distinct names, one for each port with a kept endpoint and no other. |
| Inbounds.ApplyListens | internal/relay/core.go:132-156 | After any successful apply of a rendering mihomo listens on exactly the ports with kept endpoints, each as PortListens says. |
| RelayGroups.RelaysHaveGroups | internal/relay/render.go:83-90 | Every relay with usable upstreams has one group over exactly its members, and there is no other: a plain choice of a single member, the group type that the strategy names, or load balancing of that kind. |
| Routing.StrangersGoNowhere | internal/relay/render.go:105-120 | Any other username on a port with authentication is not admitted, would be rejected, and has no route. |
| Routing.NoEndpointNoListener | internal/relay/render.go:93-119 | A port without a kept endpoint has no listener. |
| Document.BytesDetermine | internal/relay/render.go:50-57 | Two rendered states marshal to the same bytes if and only if they are equal, routes and members included although these are not marshalled, provided that bytes determine the document. |
| Names.UniqueName | internal/relay/render.go:224-231 | The rename loop ends within one more try than there are used names, at the least free candidate. |
| Names.FreshIsFirstFree | internal/node/node.go:89-106 | The name is the base if that is free, and otherwise the base with the least number from 2 that makes it free. |
| Names.TakenBound | internal/relay/render.go:226-228 | Pigeonhole: the candidates in use are distinct, so there are at most as many as used names. |
| Names.CandidateInjective | internal/relay/render.go:227 | Different suffixes give different candidates. |
| Names.UniqueNames | internal/node/node.go:89-105 | The display-name loop computes the specified names. |
| Names.UniqueNamesDistinct | internal/node/node.go:89-105 | Display names are distinct, and each is its base, or the base with the least number from 2, as the names before it leave it free. |
| Decimal.DigitsRoundTrip | internal/relay/render.go:227 | Decimal printing loses nothing. |
| Decimal.AtoiItoa | internal/node/build.go:32 | Every int64 that is printed reads back. |
| Decimal.AtoiReads | internal/node/node.go:125-134 | Atoi reads the texts that are an optional sign, zeros and the digits of a number, out-of-range ones as the nearest int64 and with an error, and every other text as 0 with an error. |
| Base64.DecodeTolerant | internal/node/uri.go:65-75 | Any bytes come back from either alphabet, even mixed, with any padding, and with white space inserted anywhere. |
| Base64.RawRoundTrip | internal/node/uri.go:74 | Unpadded standard base64 decodes to what was encoded. |
| Base64.DecodeStd | internal/agg/store.go:233 | What the feed encodes, the parser decodes. |
| Base64.DecodeUrl | internal/node/build.go:58-59 | What ss links encode, the parser decodes. |
| Percent.UnescapeEscaped | internal/node/build.go:63-64 | Unescaping reads back every text whose bytes that part of a URL can carry, and rejects every other. |
| Percent.EscapeReads | internal/node/build.go:57-65 | Escaping goes byte by byte: letters, digits, -_.~ and the delimiters that the part of the URL may hold as they are, a space in a query as a plus, and any other byte as its two upper-case hexadecimal digits. |
| Percent.EncodedReads | internal/node/uri.go:117-131 | Of any text: two hexadecimal digits of either case after a percent sign are read as their byte where that part of a URL may hold it, and anything else after a percent sign fails. |
| Query.QueryRoundTrip | internal/node/build.go:157 | A printed query string parses without error, and each parameter reads back. |
| UrlReads.QueryReads | internal/node/uri.go:274-280 | Of any text: a query is read part by part between the ampersands, in order. |
| UrlReads.FieldReads | internal/node/uri.go:274-280 | A part of a query is a name up to the first equals sign and a value after it, both unescaped; one with a semicolon or a bad escape is skipped, and so is an empty one. |
| HostPort.SplitJoined | internal/node/build.go:31-33 | Splitting gives back a joined host and port exactly for hosts and ports without brackets and ports without colons. |
| HostPort.SplitsIff | internal/node/uri.go:77-88 | Of any text: it splits exactly if it is a host without brackets or colons, or a host in brackets, then a colon and a port without either. |
| HostPort.SplitHasNoBrackets | internal/node/uri.go:77-88 | What splitting accepts has no brackets left. |
| Url.HostRoundTrip | internal/node/uri.go:254-264 | A host printed in a URL comes back exactly when it survives: no opening bracket, readable bytes, and an IPv6 address if it has a colon; otherwise parsing fails. |
| Url.PrintedParses | internal/node/build.go:145-161 | For any user, query and fragment bytes a printed URL parses to them if its host parses, and fails otherwise. |
| UrlReads.UrlParts | internal/node/uri.go:254-264 | Of any text: a URL is a user part before the last @, a host, a path, a query after the first question mark and a fragment after the first number sign, each but the host optional; it parses exactly if it has no control character and each part does, and to what the parts are. |
| UrlReads.UserReads | internal/node/uri.go:394-400 | A user part is a name up to the first colon and a password after it, if there is one, both unescaped, of the bytes that a user part may have. |
| LinkRoundTrip.RoundTrip | internal/node/uri.go:91-391 | For each of the five protocols, printing a record a parser can produce under any name and parsing it again gives back record and name if and only if its server is expressible, a vless record with reality options has tls, and alpn is not one blank entry. |
| LinkRoundTrip.PrintedParses | internal/node/build.go:14-29 | Every complete record with an expressible server, from a link or not, prints to a link that parses to what a link can say about it. |
| LinkRoundTrip.ServerKept | internal/node/build.go:14-29 | The server of every complete record comes back if and only if it is expressible. |
| LinkRoundTrip.KeyKept | internal/node/node.go:53-73 | For every complete record, from a link or not, server and dedup key come back if and only if the server is expressible and links can name the network. Unless an ss server has an at sign or a bracket, which no parser produces, the same holds of the key alone. |
| DedupKeys.KeyIdentifies | internal/node/node.go:54-73 | For records whose server and network have no bar, and whose ss cipher has no colon: two have the same dedup key if and only if type, server, port, network and credential agree. |
| DedupKeys.OtherCredentialOtherKey | internal/node/node.go:54-73 | Such records of one type with another credential have another key. |
| DedupKeys.ParsedKeysIdentify | internal/node/node.go:54-73 | Records parsed from any two links whose servers have no bar share a key exactly when they are the same node. |
| DedupKeys.BarsCollide | internal/node/node.go:70-72 | Two different vmess nodes with one key, because a server name has bars. |
| LinkRoundTrip.RealityGainsTls | internal/node/uri.go:280-299 | A concrete vless record that comes back changed. |
| LinkRoundTrip.SSServerLost | internal/node/uri.go:97-113 | An ss record whose server has a question mark, but no at sign or bracket, prints to a link that does not parse. |
| LegacyLink.LegacyLinkExact | internal/node/uri.go:90-136 | A fully-encoded ss link in any spelling, padding and name gives back its server and port, and its method and password if and only if they have no percent sign, or one that starts no valid encoding. |
| LegacyLink.EncodedPasswordLost | internal/node/uri.go:118-128 | A concrete password that such a link does not give back. |
| LegacyLink.PlainCredentialsExact | internal/node/uri.go:115-128 | Plain method and password are read as they are if and only if they have no percent sign, or one that starts no valid encoding. |
| LegacyLink.ColonIsNotBase64 | internal/node/uri.go:65-75 | A text with a colon never decodes. |
| LinkProofs.ParsedInRange | internal/node/uri.go:91-391 | What every parser guarantees of its records: ports in range, required fields present, trimmed alpn entries without commas, plugin options without semicolons, a path for ws. |
| VmessObjects.VmessReadsObject | internal/node/uri.go:180-233 | Of any JSON object: it parses exactly if it has a server, an id and a port other than 0, and then to the one link that its fields describe, each by its own rule for texts, numbers, flags, lists and transports. |
| VmessObjects.NumberAsText | internal/node/node.go:125-150 | Port and alterId read the same as a JSON number and as its decimal text, in any object. |
| LinkSpellings.UrlLinkReads | internal/node/uri.go:254-400 | Of any vless, trojan or hysteria2 URL, also with the scheme hy2 and in any case: it parses exactly to the record that its user part and parameters describe, in every spelling of a setting, and fails without a uuid or password. |
| LinkSpellings.OtherSchemesFail | internal/node/uri.go:30-45 | No other scheme has a parser. |
| LinkSpellings.SSParts | internal/node/uri.go:91-103 | Of any text: an ss link is an address, a query after the first question mark and a name after the last number sign, each of the two optional. |
| LinkSpellings.PluginNames | internal/node/uri.go:145-177 | The three names of the obfs plugin and the one of v2ray give their settings, and any other plugin none. |
| LinkSpellings.LastOptionWins | internal/node/uri.go:149-153 | A plugin option has the value of its last occurrence. |
| Text.TrimCuts | internal/node/uri.go:246-252 | Trimming takes white space off both ends and nothing else. |
| LinkProofs.AlpnSaid | internal/node/uri.go:246-252 | A parsed alpn list survives joining and splitting unless it is one blank entry. |
| LinkProofs.PluginSaid | internal/node/build.go:67-91 | Every plugin setting that the parser can produce survives being printed. |
| LinkReads.SSReads | internal/node/build.go:57-65 | A printed ss link parses to the record it was printed from. |
| LinkReads.VmessReads | internal/node/build.go:93-143 | A printed vmess link parses to what its JSON object says, if JSON reads back. |
| LinkReads.VlessReads | internal/node/build.go:199-232 | A printed vless link parses to what its parameters say if its host survives, and otherwise does not parse. |
| LinkReads.TrojanReads | internal/node/build.go:234-250 | The same for trojan, for any password bytes. |
| LinkReads.Hysteria2Reads | internal/node/build.go:252-273 | The same for hysteria2. |
| LinkWrites.VmessWrites | internal/node/build.go:93-143 | What other programs read in a vmess link: version 2, no header type, the network by its name or tcp, and tls exactly for a record with tls. |
| LinkWrites.VlessWrites | internal/node/build.go:199-232 | A vless link says encryption none, its kind of security, and its network, which is http for h2 and tcp for any without a name of its own. |
| LinkWrites.Hysteria2Writes | internal/node/build.go:252-273 | A hysteria2 link has an obfs password only beside an obfs method. |
| LinkParser.ApplySSPlugin | internal/node/uri.go:145-177 | The loop over plugin options computes the plugin settings; a later option replaces an earlier one. |
| LinkParser.SplitList | internal/node/uri.go:246-252 | Trims every entry of a list in place. |
| Feed.ParseLines | internal/node/parse.go:68-79 | The nodes of all lines in order; none only if no line gives a node. |
| FeedReads.LineReads | internal/node/uri.go:20-55 | Of any line: it gives no node exactly if it is blank, a comment or without "://"; otherwise the node has the record, name and key of the link after the first "://" by the scheme before it, or is passed through, named by its fragment and keyed by what comes before that. |
| FeedReads.LinesRead | internal/node/parse.go:68-79 | The nodes of a text are those of its lines, one after the other, and reading fails exactly if there are none. |
| FeedReads.ContentReads | internal/node/parse.go:15-46 | For any content: which of its readings each format takes, without a byte order mark, and in which order detection tries them. |
| Feed.RenderFeed | internal/agg/store.go:219-234 | The base64 of the joined links of the nodes that have one. |
| FeedReads.FeedNext | internal/agg/store.go:219-234 | The lines of a feed are, in the order of its nodes, the raw link of a node, or else one built from its record under its name. |
| FeedProofs.FeedRoundTrip | internal/node/parse.go:13-46 | Parsing the base64 feed of a non-empty list of linkable nodes, as base64 or with detection, gives one node for each in order. Nodes that came from links are identical apart from the sub name. Any other comes back with its name and key if and only if links can express its server and network. |
| FeedProofs.FeedKeptIff | internal/node/parse.go:13-46 | Names and keys of a whole feed come back, in order, if and only if links can express the server and network of every record without a link. |
| FeedProofs.BuiltLine | internal/node/uri.go:20-28 | A built link is a single trimmed line with its own scheme. |
| FeedProofs.RawBack | internal/node/uri.go:20-55 | Parsing the raw link of a node from any line gives the same node again. |
| Config.Config.Validate | internal/config/config.go:241-263 | Succeeds exactly when there are subs and subs and keys are acceptable, and then fetched sub names are distinct, relay subs match the references, references resolve, and keys see only the subs they may. |
| ConfigOutcome.SubsValidateIff | internal/config/config.go:307-349 | Subs validate exactly when each has either a file or a usable URL, a known type, and a name that the subs before it leave free, if it has one. |
| ConfigOutcome.NamedSubsValidateIff | internal/config/config.go:307-349 | If every sub has a name, that means different names, which are kept. |
| ConfigOutcome.KeysValidateIff | internal/config/config.go:389-419 | Keys validate exactly when they are given, different, and name only subs that there are. |
| Config.Config.ResolveRelaySubs | internal/config/config.go:268-305 | The nested loops register every reference and rewrite every upstream in place as specified. |
| Config.Config.ResolveUpstream | internal/config/config.go:271-303 | One upstream: a name is kept, a known URL shortens the interval, a new URL gets a fresh name, a malformed one is left unresolved. |
| Config.Config.ValidateSubs | internal/config/config.go:307-315 | Rewrites the subs in place and collects their names, or fails. |
| Config.Config.ValidateKeys | internal/config/config.go:389-419 | Resolves every key in place, or fails. |
| ConfigProofs.ValidatedIsValid | internal/config/config.go:268-305 | Each distinct well-formed URL has one relay sub, at the shortest clamped interval any reference asks for; every reference to it resolves to that sub; names of all fetched subs are distinct. |
| ConfigProofs.AllRegistered | internal/config/config.go:268-305 | The registry has distinct new names, one entry per referenced well-formed URL and no other, at the shortest interval. |
| ConfigProofs.SubsFilledIn | internal/config/config.go:317-387 | A given name is kept and a missing one derived from the file or host, a URL of a local file becomes that file, a missing interval is an hour and one below a minute a minute, and a missing type is auto. |
| ConfigProofs.SubsValid | internal/config/config.go:317-349 | Sub names are distinct and intervals at least the minimum. |
| ConfigProofs.KeysValid | internal/config/config.go:389-419 | A key sees exactly the subs it names, or all if it names none, in config order. |
| ConfigProofs.KeysHold | internal/config/config.go:401-415 | No key's resolved list contains the name of a relay-only sub. |
| ClientIp.ResolveTrustedXFFIP | internal/server/client_ip.go:164-191 | The client is the rightmost of hops and peer that is not a trusted proxy, or the leftmost if all are trusted; there is none if that hop is invalid. |
| ClientIp.TrustsProxy | internal/server/client_ip.go:193-203 | True exactly for addresses in a trusted prefix or, if asked for, in a private, loopback or link-local range. |
| AddressRanges.TrustsIff | internal/server/client_ip.go:193-203 | A proxy is trusted exactly if local addresses are and it is in 127/8, 10/8, 172.16/12, 192.168/16, 169.254/16, ::1, fc00::/7 or fe80::/10, or if it has no zone and starts with the bits of a trusted prefix of its family. |
| AddressRanges.HopReads | internal/server/client_ip.go:164-185 | A hop is the address that its trimmed text parses to, with an IPv4-mapped one as IPv4, and invalid with a zone; the peer is read so too, but may have a zone. |
| ClientIp.ClientUnique | internal/server/client_ip.go:164-191 | The specification leaves only one outcome. |
| ClientIp.LeftIrrelevant | internal/server/client_ip.go:177-189 | Nothing left of the chosen hop can change the outcome. |
| ClientIp.FieldsIrrelevant | internal/server/client_ip.go:172-176 | The hops are those of the header fields one after the other, so only the hops matter, not how they are split over fields. |
| ClientIp.CountAgrees | internal/server/client_ip.go:213-223 | Counting hops gives the same client as trust when exactly the proxies to the right are trusted. |

## Left out

- mihomo: proxies, groups, rules and listeners are accepted or not by abstract predicates, objects are
  fresh identities, and a rule line means what `Rules` says. The calls that switch mihomo over happen in
  one step, and so does the start of mihomo.
- Connections routed to REJECT: they have no group in their chain, so every apply marks them. Connection
  results are about relay targets.
- YAML text: marshalling is a parameter of the manager, which compares its bytes as the program does.
- Document.BytesDetermine: assumes that marshalled bytes determine the document, which yaml guarantees for
  the values in the model; ManagerProofs.SkipIsExact, ManagerProofs.NoLostUpdate,
  ManagerProgress.SettlesOnNewest and ManagerDrain.RestIsRebuild do the same.
- JSON text: vmess results assume that the JSON of the strings in question reads back as them, which
  encoding/json guarantees for valid UTF-8.
- Clash documents: `ParseContent` gets the Clash parser as a parameter; Clash output is an abstract
  function of the nodes in the store results.
- Proxy types other than ss, vmess, vless, trojan and hysteria2: they have no link. Their dedup key hashes
  the whole record.
- Records hold the fields that links can express, with the empty text for a missing one; other fields of a
  Clash record are not in the model, and links do not print them.
- net/url as of the Go version in go.mod, for URLs of the form scheme://; its limit on the number of query
  parameters is not modelled. Whether a text is an IPv6 address is a parameter; results assume that such
  a text has a colon.
- Time is a number; timers fire whenever they are set. `gen` is unbounded.
- Warnings, logging, the fetched flag, ETags and the http server.
- Refreshing subs and reloading the config: only as the store mutations and `SetPlan` calls they make. A
  late write after `Prune` is possible and allowed.
- Duration parsing, file URLs, default listen address and timeout, key lookup, the `cf` and `header`
  client address sources, and the parsing of trusted-proxy lists.
- netip parsing and printing: addresses and prefixes are values.
- LinkRoundTrip.KeyKept: for ss servers with an at sign or a bracket, whose server never comes back, the key
  text is not compared alone; fields with bars could make two key texts equal.
- FeedProofs.FeedRoundTrip: assumes of the records without a raw link that their link is one line, and that
  an ss server has no at sign or bracket, which no ss parser produces.
- Url.HostRoundTrip: the text of the port is a parameter, so it covers every port number.
