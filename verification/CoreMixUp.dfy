// Edits that the core misses because lists of strings print alike, on renderings of a plan.
module CoreMixUp {
  import opened Wrappers
  import opened Values
  import opened RelayTypes
  import opened PlanSpec
  import opened RenderSpec
  import opened RenderProofs
  import opened RenderContents
  import opened RenderFresh
  import CoreSpec
  import CoreProofs
  import CoreRuns
  import CoreDrain
  import CoreOutcome
  import CoreRebuild

  /** An environment that loads everything, with the program's own keys. */
  function Permissive(): CoreSpec.Env {
    CoreSpec.Env(m => Key(m), map[], _ => true, _ => true, _ => true, _ => true)
  }

  function LoaderOf(env: CoreSpec.Env): Loader {
    Loader(env.key, env.proxyLoads)
  }

  lemma PermissiveApplies(s: CoreSpec.State, d: Desired, now: int)
    requires CoreProofs.Inv(Permissive(), s) && WellFormed(d)
    ensures CoreSpec.Apply(Permissive(), s, d, now).Success?
    ensures CoreProofs.Inv(Permissive(), CoreSpec.AfterApply(Permissive(), s, d, now))
    ensures CoreSpec.AfterApply(Permissive(), s, d, now).current == Some(d)
  {
    hide CoreProofs.Inv, CoreSpec.Apply, WellFormed;
    CoreOutcome.AppliesWhatLoads(Permissive(), s, d, now);
    CoreProofs.ApplyKeepsInv(Permissive(), s, d, now);
    CoreDrain.AppliedCurrent(Permissive(), s, d, now);
  }

  // One relay over one node

  function OneRelay(relay: string, sub: string): Plan {
    Plan([RelaySpec(relay, "url-test", [Sub(sub)])], [ListenerSpec("relay-1080", "mixed", "", 1080, relay, [])])
  }

  /** The rendering of a relay over a sub with this one node. */
  function OneNode(relay: string, sub: string, name: string, m: Config): Desired {
    OneRelayReads(relay, sub);
    RenderReads(LoaderOf(Permissive()), OneRelay(relay, sub), [[Node(name, Some(m))]])
  }

  lemma OneRelayReads(relay: string, sub: string)
    ensures |SubsRead(OneRelay(relay, sub).relays)| == 1 && DistinctRelays(OneRelay(relay, sub).relays)
  {
    OneSubItems(sub, [[]]);
    assert SubsRead(OneRelay(relay, sub).relays[1..]) == [];
  }

  lemma OneNodeRendered(relay: string, sub: string, name: string, m: Config)
    requires name != "" && name !in TakenNames(OneRelay(relay, sub).relays)
    ensures OneNode(relay, sub, name, m).proxies == [Renamed(m, name)] && WellFormed(OneNode(relay, sub, name, m))
  {
    hide WellFormed, AddItems, RelayGroup;
    var env, p, answers := LoaderOf(Permissive()), OneRelay(relay, sub), [[Node(name, Some(m))]];
    OneRelayReads(relay, sub);
    RenderWellFormed(env, p, answers);
    var items := NodeItems(answers[0]);
    assert items == [Item(Node(name, Some(m)), false)];
    AddRelayNew(env, Start(p.relays), p.relays[0], sub, answers);
    assert AddRelays(env, Start(p.relays), p.relays, answers) ==
           AddRelay(env, Start(p.relays), p.relays[0], answers) by {
      assert p.relays[1..] == [];
    }
    assert ProxiesOf(items) == [Renamed(m, name)] && [] + ProxiesOf(items) == ProxiesOf(items);
  }

  /**
   * With fmt.Sprint keys the incremental apply is not a rebuild: after an edit of a node in one field,
   * between values that print alike, the rendered proxy is served by the old object.
   */
  lemma PrintAlikesCollide(relay: string, sub: string, name: string, m: Config, field: string, x: Value, y: Value,
                           now: int, later: int)
    requires Sprint(x) == Sprint(y) && x != y && field != "name"
    requires name != "" && name !in TakenNames(OneRelay(relay, sub).relays)
    ensures var env, m', m'' := Permissive(), m[field := x], m[field := y];
            var d, d' := OneNode(relay, sub, name, m'), OneNode(relay, sub, name, m'');
            var s := CoreSpec.AfterApply(env, CoreSpec.Initial(env, 0), d, now);
            var s' := CoreSpec.AfterApply(env, s, d', later);
            && s'.current == Some(d') && d'.proxies == [Renamed(m'', name)] && Renamed(m'', name) != Renamed(m', name)
            && name in s'.proxies && CoreRebuild.BuiltFrom(s', s'.proxies[name].proxy) == Some(Renamed(m', name))
            && !CoreRuns.Faithful(s')
  {
    hide CoreSpec.Apply, CoreProofs.Inv, WellFormed, OneNode, Sprint, TakenNames;
    var env, m', m'' := Permissive(), m[field := x], m[field := y];
    var d, d' := OneNode(relay, sub, name, m'), OneNode(relay, sub, name, m'');
    OneNodeRendered(relay, sub, name, m');
    OneNodeRendered(relay, sub, name, m'');
    CoreRuns.InitialInv(env, 0);
    PermissiveApplies(CoreSpec.Initial(env, 0), d, now);
    var s := CoreSpec.AfterApply(env, CoreSpec.Initial(env, 0), d, now);
    CoreRuns.NoCollisionKeepsFaith(env, CoreSpec.Initial(env, 0), d, now);
    PermissiveApplies(s, d', later);
    EditKeepsKey(name, m, field, x, y);
    CoreRuns.FaithfulIffNoCollision(env, s, d', later);
    assert CoreRuns.ProxiesCollide(env, d, d', Renamed(m', name), Renamed(m'', name));
    assert CoreRuns.ProxyFaithful(s, Renamed(m', name));
    assert CoreRuns.Unchanged(env, d, d', name);
    CoreDrain.UnchangedObject(env, s, d', later, name);
  }

  lemma EditKeepsKey(name: string, m: Config, field: string, x: Value, y: Value)
    requires Sprint(x) == Sprint(y) && x != y && field != "name"
    ensures Key(Renamed(m[field := x], name)) == Key(Renamed(m[field := y], name))
    ensures Renamed(m[field := x], name) != Renamed(m[field := y], name)
    ensures Name(Renamed(m[field := x], name)) == Name(Renamed(m[field := y], name)) == name
  {
    hide Key, Sprint;
    var p, p' := Renamed(m[field := x], name), Renamed(m[field := y], name);
    KeyTellsPrints(Renamed(m, name), field, x, y);
    assert p == Renamed(m, name)[field := x] && p' == Renamed(m, name)[field := y];
    assert p[field] == x && p'[field] == y;
  }

  /** For instance the ALPN lists ["a b", "c"] and ["a", "b c"]. */
  lemma AlpnListsCollide(relay: string, sub: string, name: string, m: Config, now: int, later: int)
    requires name != "" && name !in TakenNames(OneRelay(relay, sub).relays)
    ensures var env := Permissive();
            var d := OneNode(relay, sub, name, m["alpn" := List([Str("a b"), Str("c")])]);
            var d' := OneNode(relay, sub, name, m["alpn" := List([Str("a"), Str("b c")])]);
            var s := CoreSpec.AfterApply(env, CoreSpec.Initial(env, 0), d, now);
            d'.proxies != d.proxies && !CoreRuns.Faithful(CoreSpec.AfterApply(env, s, d', later))
  {
    hide CoreSpec.AfterApply, OneNode, CoreRuns.Faithful, Sprint, TakenNames;
    ListsPrintAlike();
    var one, two := [Str("a b"), Str("c")], [Str("a"), Str("b c")];
    assert one[0].s != two[0].s;
    PrintAlikesCollide(relay, sub, name, m, "alpn", List(one), List(two), now, later);
    OneNodeRendered(relay, sub, name, m["alpn" := List(one)]);
  }

  // Two relays over two nodes each

  /** The nodes named "a b" and "c", and those named "a" and "b c". */
  function OneList(): seq<string> { ["a b", "c"] }

  function OtherList(): seq<string> { ["a", "b c"] }

  function NodeAt(name: string, server: string): Node {
    Node(name, Some(map["server" := Str(server)]))
  }

  function OneNodes(): seq<Node> { [NodeAt("a b", "1"), NodeAt("c", "2")] }

  function OtherNodes(): seq<Node> { [NodeAt("a", "3"), NodeAt("b c", "4")] }

  const RELAY1 := RelaySpec("g1", "url-test", [Sub("s1")])
  const RELAY2 := RelaySpec("g2", "url-test", [Sub("s2")])

  /** Relays g1 over sub s1, on port 1080, and g2 over sub s2, on port 1081. */
  function TwoRelays(): Plan {
    Plan([RELAY1, RELAY2],
         [ListenerSpec("relay-1080", "mixed", "", 1080, "g1", []),
          ListenerSpec("relay-1081", "mixed", "", 1081, "g2", [])])
  }

  /** The rendering when the subs have these nodes. */
  function TwoSubs(first: seq<Node>, second: seq<Node>): Desired {
    TwoRelaysRead();
    RenderReads(LoaderOf(Permissive()), TwoRelays(), [first, second])
  }

  lemma TwoRelaysRead()
    ensures SubsRead(TwoRelays().relays) == ["s1", "s2"] && DistinctRelays(TwoRelays().relays)
  {
    var relays := TwoRelays().relays;
    OneSubItems("s1", [[]]);
    OneSubItems("s2", [[]]);
    assert relays[1..] == [RELAY2] && relays[1..][1..] == [];
    assert "g1"[1] != "g2"[1];
  }

  lemma OneField(s: string)
    ensures Key(map["server" := Str(s)]) == "map[server:" + s + "]"
  {
    var v, keys := Dict(map["server" := Str(s)]), SortedKeys({"server"});
    assert v.fields.Keys == {"server"};
    assert "server" in keys && forall i | 0 <= i < |keys| :: keys[i] in keys;
    BelowIsOrder();
    assert keys == ["server"];
    assert SprintFields(v, keys) == "server:" + s;
    assert "map[" + ("server:" + s) + "]" == "map[server:" + s + "]";
  }

  lemma ServerKey(name: string, server: string)
    ensures KeyOf(LoaderOf(Permissive()), Item(NodeAt(name, server), false)) == Some("map[server:" + server + "]")
  {
    OneField(server);
    assert map["server" := Str(server)] - {"name"} == map["server" := Str(server)];
  }

  lemma ServersDiffer()
    ensures "map[server:" + "1" + "]" != "map[server:" + "2" + "]"
    ensures "map[server:" + "3" + "]" != "map[server:" + "4" + "]"
    ensures forall s, s' | s in ["1", "2"] && s' in ["3", "4"] :: "map[server:" + s + "]" != "map[server:" + s' + "]"
  {
    assert ("map[server:" + "1" + "]")[11] == '1' && ("map[server:" + "2" + "]")[11] == '2';
    assert ("map[server:" + "3" + "]")[11] == '3' && ("map[server:" + "4" + "]")[11] == '4';
  }

  lemma NamesDiffer()
    ensures "a b" != "c" && "a" != "b c" && "a b" != "a" && "a b" != "b c" && "c" != "a" && "c" != "b c"
  {
    assert "a b"[0] == 'a' && "b c"[0] == 'b' && "c"[0] == 'c' && "a"[0] == 'a' && |"a"| == 1;
  }

  lemma NameFree(n: string)
    requires n != "" && n[0] in ['a', 'b', 'c']
    ensures n !in TakenNames(TwoRelays().relays)
  {
    assert forall b | b in BUILTIN_PROXIES :: b[0] in ['D', 'R', 'P', 'C', 'G'];
    assert "g1"[0] == 'g' && "g2"[0] == 'g';
  }

  lemma NodeNew(name: string, server: string)
    requires name != "" && name[0] in ['a', 'b', 'c']
    ensures New(LoaderOf(Permissive()), Start(TwoRelays().relays).reg, Item(NodeAt(name, server), false))
    ensures KeyOf(LoaderOf(Permissive()), Item(NodeAt(name, server), false)) == Some("map[server:" + server + "]")
    ensures NodeAt(name, server).name == name
  {
    hide TakenNames, Key;
    NameFree(name);
    ServerKey(name, server);
  }

  lemma NodesNew(first: seq<Node>, second: seq<Node>)
    requires (first == OneNodes() && second == OtherNodes()) || (first == OtherNodes() && second == OneNodes())
    ensures AllNew(LoaderOf(Permissive()), Start(TwoRelays().relays).reg, NodeItems(first) + NodeItems(second))
  {
    hide New, KeyOf, NodeAt, TakenNames;
    NamesDiffer();
    ServersDiffer();
    NodeNew("a b", "1");
    NodeNew("c", "2");
    NodeNew("a", "3");
    NodeNew("b c", "4");
    var items := NodeItems(first) + NodeItems(second);
    assert items[0] == Item(first[0], false) && items[1] == Item(first[1], false);
    assert items[2] == Item(second[0], false) && items[3] == Item(second[1], false);
  }

  lemma TwoRelaysAdded(env: Loader, first: seq<Node>, second: seq<Node>)
    requires first != [] && second != []
    requires AllNew(env, Start(TwoRelays().relays).reg, NodeItems(first) + NodeItems(second))
    ensures |SubsRead(TwoRelays().relays)| == 2
    ensures var a, b, g := NodeItems(first), NodeItems(second), RenderGroups(env, TwoRelays(), [first, second]);
            && g.reg.proxies == ProxiesOf(a) + ProxiesOf(b)
            && g.groups == [RelayGroup(RELAY1, NamesOf(a)), RelayGroup(RELAY2, NamesOf(b))]
            && g.target == map["g1" := "g1", "g2" := "g2"]
  {
    hide AllNew, Extends, AddRelay, AddRelays, RelayGroup, NodeItems, NamesOf, ProxiesOf, SubsOf, SubsRead,
      DistinctRelays, TakenNames;
    TwoRelaysRead();
    var relays, answers := TwoRelays().relays, [first, second];
    var a, b, start := NodeItems(first), NodeItems(second), Start(relays);
    FirstPart(env, start.reg, a, b);
    AddRelayNew(env, start, RELAY1, "s1", answers);
    var b1 := AddRelay(env, start, RELAY1, answers);
    RestIsNew(env, start.reg, a, b1.reg, b);
    assert answers[1..] == [second] && relays[1..] == [RELAY2];
    AddRelayNew(env, b1, RELAY2, "s2", answers[1..]);
    AddRelaysTwo(env, start, answers);
    AddedProxies(env, start.reg, a, b1.reg, b, AddRelay(env, b1, RELAY2, answers[1..]).reg);
  }

  lemma FirstPart(env: Loader, reg: Registry, a: seq<Item>, b: seq<Item>)
    requires AllNew(env, reg, a + b)
    ensures AllNew(env, reg, a)
  {
    hide New;
    assert forall i | 0 <= i < |a| :: (a + b)[i] == a[i];
  }

  lemma AddedProxies(env: Loader, reg: Registry, a: seq<Item>, reg1: Registry, b: seq<Item>, reg2: Registry)
    requires Extends(env, reg, a, reg1) && Extends(env, reg1, b, reg2) && reg.proxies == []
    ensures reg2.proxies == ProxiesOf(a) + ProxiesOf(b)
  {
    hide NamesOf, KeysOf;
  }

  lemma AddRelaysTwo(env: Loader, start: Groups, answers: seq<seq<Node>>)
    requires |answers| == 2
    ensures |SubsRead(TwoRelays().relays)| == 2 && |SubsOf(RELAY1.upstreams)| == 1 && |SubsOf(RELAY2.upstreams)| == 1
    ensures AddRelays(env, start, TwoRelays().relays, answers) ==
            AddRelay(env, AddRelay(env, start, RELAY1, answers), RELAY2, answers[1..])
  {
    hide AddRelay;
    TwoRelaysRead();
    OneSubItems("s1", answers);
    OneSubItems("s2", answers);
    var relays := TwoRelays().relays;
    assert relays[1..] == [RELAY2] && relays[1..][1..] == [] && answers[1..][1..] == [];
  }

  lemma TwoListenersRoute(d: Desired, target: map<string, string>)
    requires d.routes == AddListeners(Inbound([], [], map[]), TwoRelays().listeners, target).routes
    requires target == map["g1" := "g1", "g2" := "g2"]
    ensures CoreDrain.Routed(d, "g1")
  {
    hide ListenerConfig;
    var ls, b := TwoRelays().listeners, Inbound([], [], map[]);
    assert ls[1..] == [ls[1]] && ls[1..][1..] == [];
    assert AddListeners(b, ls, target) == AddListener(AddListener(b, ls[0], target), ls[1], target);
    assert "relay-1080"[9] != "relay-1081"[9];
    var r := Route("relay-1080", "");
    assert r in d.routes && d.routes[r] == RouteTarget("", "g1");
    assert "g1"[0] != "REJECT"[0];
  }

  lemma TwoSubsRendered(first: seq<Node>, second: seq<Node>)
    requires (first == OneNodes() && second == OtherNodes()) || (first == OtherNodes() && second == OneNodes())
    ensures var d, a, b := TwoSubs(first, second), NodeItems(first), NodeItems(second);
            && WellFormed(d) && d.proxies == ProxiesOf(a) + ProxiesOf(b)
            && d.groups == [RelayGroup(RELAY1, NamesOf(a)), RelayGroup(RELAY2, NamesOf(b))]
            && CoreDrain.Routed(d, "g1")
  {
    hide WellFormed, RenderGroups, NodeItems, NamesOf, ProxiesOf, RelayGroup, AllNew, AddListeners;
    var env := LoaderOf(Permissive());
    TwoRelaysRead();
    NodesNew(first, second);
    TwoRelaysAdded(env, first, second);
    RenderWellFormed(env, TwoRelays(), [first, second]);
    TwoListenersRoute(TwoSubs(first, second), RenderGroups(env, TwoRelays(), [first, second]).target);
  }

  /** The two configs of g1 have one key. */
  lemma GroupKeysAgree()
    ensures Key(RelayGroup(RELAY1, OneList())) == Key(RelayGroup(RELAY1, OtherList()))
  {
    hide Key, Sprint;
    var base: Config := map["name" := Str("g1"), "type" := Str("url-test")];
    ListsPrintAlike();
    assert StringList(OneList()) == List([Str("a b"), Str("c")]);
    assert StringList(OtherList()) == List([Str("a"), Str("b c")]);
    KeyTellsPrints(base, "proxies", StringList(OneList()), StringList(OtherList()));
    assert RelayGroup(RELAY1, OneList()) == base["proxies" := StringList(OneList())];
    assert RelayGroup(RELAY1, OtherList()) == base["proxies" := StringList(OtherList())];
  }

  /** A node of the other list has the same config in both renderings. */
  lemma OthersUnchanged(d: Desired, d': Desired, x: string)
    requires d.proxies == ProxiesOf(NodeItems(OneNodes())) + ProxiesOf(NodeItems(OtherNodes()))
    requires d'.proxies == ProxiesOf(NodeItems(OtherNodes())) + ProxiesOf(NodeItems(OneNodes()))
    requires x in OtherList()
    ensures CoreRuns.Unchanged(Permissive(), d, d', x)
  {
    hide Key;
    var i := if x == "a" then 0 else 1;
    var m := ProxiesOf(NodeItems(OtherNodes()))[i];
    assert d.proxies[2 + i] == m && d'.proxies[i] == m && Name(m) == x;
  }

  lemma ListedNames()
    ensures NamesOf(NodeItems(OneNodes())) == OneList() && NamesOf(NodeItems(OtherNodes())) == OtherList()
    ensures "a b" in OneList() && "a b" !in OtherList()
  {
    NamesDiffer();
  }

  /** The renderings before and after the subs swap their nodes. */
  lemma SwappedSubs()
    ensures var d, d' := TwoSubs(OneNodes(), OtherNodes()), TwoSubs(OtherNodes(), OneNodes());
            && WellFormed(d) && WellFormed(d') && CoreDrain.Routed(d', "g1")
            && CoreDrain.Drops(Permissive(), d, d', RelayGroup(RELAY1, OneList()), RelayGroup(RELAY1, OtherList()))
            && Name(RelayGroup(RELAY1, OtherList())) == "g1"
  {
    hide TwoSubs, RelayGroup, WellFormed, Key, CoreDrain.Routed, CoreRuns.Unchanged, OneList, OtherList, OneNodes,
      OtherNodes, NodeItems, NamesOf, ProxiesOf, Listed, Name;
    var d, d' := TwoSubs(OneNodes(), OtherNodes()), TwoSubs(OtherNodes(), OneNodes());
    ListedNames();
    TwoSubsRendered(OneNodes(), OtherNodes());
    TwoSubsRendered(OtherNodes(), OneNodes());
    RelayGroupListed(RELAY1, OneList());
    RelayGroupListed(RELAY1, OtherList());
    GroupKeysAgree();
    assert d.groups[0] == RelayGroup(RELAY1, OneList()) && d'.groups[0] == RelayGroup(RELAY1, OtherList());
    forall x | x in OtherList() { OthersUnchanged(d, d', x); }
  }

  /**
   * Sub s1 has nodes "a b" and "c", and s2 has "a" and "b c". When the subs swap their nodes, the
   * groups keep their objects: a caller of g1 can be connected through a node that is no member of it.
   */
  lemma SwappedListsMixUp(now: int, later: int) returns (c: CoreSpec.Conn)
    ensures var env, d' := Permissive(), TwoSubs(OtherNodes(), OneNodes());
            var s := CoreSpec.AfterApply(env, CoreSpec.Initial(env, 0), TwoSubs(OneNodes(), OtherNodes()), now);
            var s' := CoreSpec.AfterApply(env, s, d', later);
            && s'.current == Some(d') && CoreRuns.CanOpen(s', c) && CoreRuns.Relayed(c) && !CoreRuns.OnRoute(s', c)
  {
    hide CoreSpec.Apply, CoreProofs.Inv, WellFormed, CoreDrain.Drops, CoreDrain.Routed, CoreDrain.GroupHolds, TwoSubs,
      RelayGroup, CoreRuns.OnRoute, CoreRuns.CanOpen, CoreDrain.KeepsRoutes;
    var env, d, d' := Permissive(), TwoSubs(OneNodes(), OtherNodes()), TwoSubs(OtherNodes(), OneNodes());
    var s0 := CoreSpec.Initial(env, 0);
    SwappedSubs();
    CoreRuns.InitialInv(env, 0);
    PermissiveApplies(s0, d, now);
    var s := CoreSpec.AfterApply(env, s0, d, now);
    CoreDrain.GroupsHoldIffNoMixUp(env, s0, d, now);
    PermissiveApplies(s, d', later);
    CoreDrain.KeepsRoutesIffNoRoutedDrop(env, s, d');
    CoreDrain.OpensOnRouteIffKeepsRoutes(env, s, d', later);
    var s' := CoreSpec.AfterApply(env, s, d', later);
    assert !CoreDrain.NoRoutedDrop(env, s.current, d');
    c :| CoreRuns.CanOpen(s', c) && CoreRuns.Relayed(c) && !CoreRuns.OnRoute(s', c);
  }
}
