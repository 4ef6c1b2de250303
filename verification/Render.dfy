// Rendering as the program does it (internal/relay/render.go): a registry filled in place and
// loops over relays, upstreams, nodes, listeners and users, proved against RenderSpec.
module Render {
  import opened Wrappers
  import opened Values
  import opened RelayTypes
  import opened PlanSpec
  import opened RenderSpec
  import Names
  import Spec = RenderSpec

  type NodeSource = string -> seq<Node>

  lemma {:induction false} AddItemsConcat(env: Loader, c: Collected, a: seq<Item>, b: seq<Item>)
    ensures AddItems(env, c, a + b) == AddItems(env, AddItems(env, c, a), b)
    decreases |a|
  {
    if a == [] {
      assert a + b == b;
    } else {
      assert (a + b)[1..] == a[1..] + b;
      var x := Add(env, c.reg, a[0]);
      AddItemsConcat(env, Collected(x.reg, if x.name.Some? then AppendUnique(c.names, x.name.value) else c.names),
                     a[1..], b);
    }
  }

  lemma {:induction false} ItemsOfPrefix(ups: seq<UpstreamSpec>, a: seq<seq<Node>>, b: seq<seq<Node>>)
    requires |a| == |SubsOf(ups)|
    ensures ItemsOf(ups, a + b) == ItemsOf(ups, a)
  {
    if ups != [] {
      if ups[0].Sub? {
        assert (a + b)[1..] == a[1..] + b;
        ItemsOfPrefix(ups[1..], a[1..], b);
      } else {
        ItemsOfPrefix(ups[1..], a, b);
      }
    }
  }

  lemma ReadAllConcat(a: seq<string>, b: seq<string>, source: NodeSource)
    ensures ReadAll(a + b, source) == ReadAll(a, source) + ReadAll(b, source)
  {
  }

  /** The items of one relay's upstreams, read from the source. */
  function ItemsFrom(ups: seq<UpstreamSpec>, source: NodeSource): seq<Item> {
    ItemsOf(ups, ReadAll(SubsOf(ups), source))
  }

  lemma ItemsFromFirst(ups: seq<UpstreamSpec>, source: NodeSource)
    requires ups != []
    ensures ItemsFrom(ups, source) ==
            (match ups[0]
             case Inline(m) => [Item(Node(StrOf(m, "name"), Some(m)), true)]
             case Sub(name) => NodeItems(source(name))) + ItemsFrom(ups[1..], source)
  {
    var answers := ReadAll(SubsOf(ups), source);
    if ups[0].Sub? {
      assert SubsOf(ups) == [ups[0].name] + SubsOf(ups[1..]);
      assert answers[0] == source(ups[0].name) && answers[1..] == ReadAll(SubsOf(ups[1..]), source);
    } else {
      assert SubsOf(ups) == SubsOf(ups[1..]);
    }
  }

  class ProxyRegistry {
    const env: Loader

    var used: set<string>
    var byContent: map<string, Registered>
    var proxies: seq<Config>

    function Reg(): Registry
      reads this
    {
      Registry(used, byContent, proxies)
    }

    constructor (env: Loader, taken: set<string>)
      ensures this.env == env && Reg() == Registry(taken, map[], [])
    {
      this.env := env;
      used, byContent, proxies := taken, map[], [];
    }

    /** The name under which the item runs, if it does; its content is loaded the first time only. */
    method Add(item: Item) returns (name: Option<string>)
      modifies this
      ensures Reg() == Spec.Add(env, old(Reg()), item).reg && name == Spec.Add(env, old(Reg()), item).name
    {
      if item.node.clash.None? {
        return None;
      }
      var m := item.node.clash.value;
      var key := ItemKey(env, m, item.isInline);
      if key in byContent {
        return if byContent[key].ok then Some(byContent[key].name) else None;
      }
      if !CheckProxy(env.loads, m) {
        byContent := byContent[key := Registered("", false)];
        return None;
      }
      var unique, _ := Names.UniqueName(DisplayName(item.node.name, m), " ", used);
      used := used + {unique};
      byContent := byContent[key := Registered(unique, true)];
      proxies := proxies + [Renamed(m, unique)];
      return Some(unique);
    }

    method AddNodes(nodes: seq<Node>, before: seq<string>) returns (names: seq<string>)
      modifies this
      ensures Collected(Reg(), names) == AddItems(env, Collected(old(Reg()), before), NodeItems(nodes))
    {
      names := before;
      var items := NodeItems(nodes);
      for j := 0 to |nodes|
        invariant AddItems(env, Collected(Reg(), names), items[j..]) ==
                  AddItems(env, Collected(old(Reg()), before), items)
      {
        assert items[j..][1..] == items[j + 1..] && items[j..][0] == Item(nodes[j], false);
        var name := Add(Item(nodes[j], false));
        if name.Some? {
          names := AppendUnique(names, name.value);
        }
      }
    }

    /** What the upstreams of a relay run as, each name once. */
    method Members(r: RelaySpec, source: NodeSource) returns (names: seq<string>)
      modifies this
      ensures Collected(Reg(), names) == AddItems(env, Collected(old(Reg()), []), ItemsFrom(r.upstreams, source))
    {
      names := [];
      var ups := r.upstreams;
      for i := 0 to |ups|
        invariant AddItems(env, Collected(Reg(), names), ItemsFrom(ups[i..], source))
               == AddItems(env, Collected(old(Reg()), []), ItemsFrom(ups, source))
      {
        assert ups[i..][0] == ups[i] && ups[i..][1..] == ups[i + 1..];
        ItemsFromFirst(ups[i..], source);
        match ups[i]
        case Inline(m) =>
          var item := Item(Node(StrOf(m, "name"), Some(m)), true);
          assert ([item] + ItemsFrom(ups[i + 1..], source))[1..] == ItemsFrom(ups[i + 1..], source);
          var name := Add(item);
          if name.Some? {
            names := AppendUnique(names, name.value);
          }
        case Sub(sub) =>
          AddItemsConcat(env, Collected(Reg(), names), NodeItems(source(sub)), ItemsFrom(ups[i + 1..], source));
          names := AddNodes(source(sub), names);
      }
    }
  }

  /** Rendering the relays that are left, reading each sub from the source. */
  function AddRelaysFrom(env: Loader, b: Groups, relays: seq<RelaySpec>, source: NodeSource): Groups {
    AddRelays(env, b, relays, ReadAll(SubsRead(relays), source))
  }

  lemma AddRelaysFirst(env: Loader, b: Groups, relays: seq<RelaySpec>, source: NodeSource)
    requires relays != []
    ensures var r := relays[0];
            AddRelaysFrom(env, b, relays, source) ==
            AddRelaysFrom(env, AddRelay(env, b, r, ReadAll(SubsOf(r.upstreams), source)), relays[1..], source)
  {
    var subs, rest := SubsOf(relays[0].upstreams), SubsRead(relays[1..]);
    var a, b' := ReadAll(subs, source), ReadAll(rest, source);
    ReadAllConcat(subs, rest, source);
    ItemsOfPrefix(relays[0].upstreams, a, b');
    assert (a + b')[|subs|..] == b';
    assert AddRelay(env, b, relays[0], a + b') == AddRelay(env, b, relays[0], a);
  }

  method RenderRelays(env: Loader, p: Plan, source: NodeSource) returns (b: Groups)
    ensures b == AddRelaysFrom(env, Start(p.relays), p.relays, source)
  {
    var registry := new ProxyRegistry(env, TakenNames(p.relays));
    var groups: seq<Config>, members: map<string, seq<string>>, target: map<string, string> := [], map[], map[];
    for i := 0 to |p.relays|
      invariant registry.env == env
      invariant AddRelaysFrom(env, Groups(registry.Reg(), groups, members, target), p.relays[i..], source)
             == AddRelaysFrom(env, Start(p.relays), p.relays, source)
    {
      var r := p.relays[i];
      assert p.relays[i..][0] == r && p.relays[i..][1..] == p.relays[i + 1..];
      AddRelaysFirst(env, Groups(registry.Reg(), groups, members, target), p.relays[i..], source);
      var names := registry.Members(r, source);
      if |names| == 0 {
        target := target[r.name := "REJECT"];
      } else {
        target := target[r.name := r.name];
        groups := groups + [RelayGroup(r, names)];
        members := members[r.name := names];
      }
    }
    b := Groups(registry.Reg(), groups, members, target);
  }

  method RenderUsers(b: Inbound, listener: string, users: seq<Endpoint>, target: map<string, string>)
    returns (b': Inbound)
    ensures b' == AddUsers(b, listener, users, target)
  {
    var rules, routes := b.rules, b.routes;
    for i := 0 to |users|
      invariant AddUsers(Inbound(b.listeners, rules, routes), listener, users[i..], target) ==
                AddUsers(b, listener, users, target)
    {
      var u := users[i];
      assert users[i..][1..] == users[i + 1..];
      rules := rules + [RuleLine(listener, u.username, TargetAt(target, u.relay))];
      routes := routes[Route(listener, u.username) := RouteTarget(u.password, TargetAt(target, u.relay))];
    }
    b' := Inbound(b.listeners, rules, routes);
  }

  method RenderListeners(ls: seq<ListenerSpec>, target: map<string, string>) returns (b: Inbound)
    ensures b == AddListeners(Inbound([], [], map[]), ls, target)
  {
    b := Inbound([], [], map[]);
    for i := 0 to |ls|
      invariant AddListeners(b, ls[i..], target) == AddListeners(Inbound([], [], map[]), ls, target)
    {
      var l, listeners := ls[i], b.listeners;
      assert ls[i..][0] == l && ls[i..][1..] == ls[i + 1..];
      if l.relay != "" {
        b := b.(routes := b.routes[Route(l.name, "") := RouteTarget("", TargetAt(target, l.relay))]);
      } else {
        b := RenderUsers(b, l.name, l.users, target);
      }
      b := b.(listeners := listeners + [ListenerConfig(l, target)]);
    }
  }

  /** Plan.Render. */
  method RenderPlan(env: Loader, p: Plan, source: NodeSource) returns (d: Desired)
    ensures d == RenderSpec.Render(env, p, source)
  {
    var g := RenderRelays(env, p, source);
    var i := RenderListeners(p.listeners, g.target);
    d := Desired(g.reg.proxies, g.groups, i.listeners, i.rules + ["MATCH,REJECT"], i.routes, g.members);
  }
}
