// What each port of a rendered plan listens as: the fields of the one listener there, whom it
// admits, and that an apply installs exactly these listeners.
module Inbounds {
  import opened Wrappers
  import opened Values
  import opened RelayTypes
  import opened PlanSpec
  import opened PlanProofs
  import opened RenderSpec
  import opened Routing
  import RenderProofs
  import CoreSpec
  import CoreProofs
  import CoreOutcome

  // Types

  /** mihomo's word for a downstream type. */
  ghost predicate Speaks(typ: string, kind: string) {
    (typ == "http" && kind == "http") || (typ == "socks5" && kind == "socks") || (typ == "mixed" && kind == "mixed")
  }

  /** All endpoints on the port of e are of its type. */
  ghost predicate OneType(eps: seq<Endpoint>, e: Endpoint) {
    forall x | x in eps && x.port == e.port :: x.typ == e.typ
  }

  lemma TypesTranslate(typ: string)
    ensures typ in LISTENER_TYPES <==> typ in {"http", "socks5", "mixed"}
    ensures typ in LISTENER_TYPES ==> Speaks(typ, ListenerType(typ))
  {
  }

  lemma TypesDiffer(typ: string, typ': string)
    requires typ in LISTENER_TYPES && typ' in LISTENER_TYPES && typ != typ'
    ensures ListenerType(typ) != ListenerType(typ')
  {
    TypesTranslate(typ);
    TypesTranslate(typ');
  }

  /** The common type of a port's endpoints, and mixed as soon as two differ. */
  lemma PortType(eps: seq<Endpoint>, list: seq<Endpoint>, e: Endpoint)
    requires e in eps && list == AtPort(eps, e.port) && list != []
    requires forall x | x in eps :: x.typ in LISTENER_TYPES
    ensures if OneType(eps, e) then Speaks(e.typ, CommonType(list)) else CommonType(list) == "mixed"
  {
    hide ListenerType;
    TypesTranslate(e.typ);
    assert e in list && list[0] in list;
    if OneType(eps, e) {
      forall x | x in list
        ensures x.typ == e.typ
      {
      }
      assert list[0].typ == e.typ;
    } else {
      var x :| x in eps && x.port == e.port && x.typ != e.typ;
      assert x in list;
      TypesDiffer(x.typ, e.typ);
      assert ListenerType(x.typ) != ListenerType(list[0].typ) || ListenerType(e.typ) != ListenerType(list[0].typ);
    }
  }

  // The fields

  /** Some endpoint on this port has these credentials; without authentication there is no password. */
  ghost predicate HasCaller(eps: seq<Endpoint>, port: int, username: string, password: string) {
    exists x | x in eps :: x.port == port && x.username == username && (username == "" || x.password == password)
  }

  /** The listener of a port, among kept endpoints, as seen from one of them. */
  ghost predicate ListensFor(m: Config, eps: seq<Endpoint>, e: Endpoint) {
    && "type" in m && "port" in m && m["port"] == Int(e.port)
    && ("listen" in m <==> e.listen != "") && (e.listen != "" ==> m["listen"] == Str(e.listen))
    && m["type"].Str?
    && (if OneType(eps, e) then Speaks(e.typ, m["type"].s) else m["type"].s == "mixed")
    && ("udp" in m <==> e.username == "" && m["type"].s != "http") && ("udp" in m ==> m["udp"] == Bool(true))
    && ("proxy" in m <==> e.username == "")
    && m.Keys <= {"name", "type", "port", "listen", "users", "proxy", "udp"}
  }

  lemma ConfigListens(eps: seq<Endpoint>, l: ListenerSpec, e: Endpoint, target: map<string, string>)
    requires Serves(l, e) && (e.username == "" ==> l.relay != "")
    requires if OneType(eps, e) then Speaks(e.typ, l.typ) else l.typ == "mixed"
    ensures ListensFor(ListenerConfig(l, target), eps, e)
  {
    hide OneType, TargetAt, UserList;
  }

  lemma ServedType(eps: seq<Endpoint>, e: Endpoint, l: ListenerSpec)
    requires Unambiguous(eps) && e in eps && l in BuildListeners(eps) && l.port == e.port
    requires forall x | x in eps :: x.typ in LISTENER_TYPES
    ensures if OneType(eps, e) then Speaks(e.typ, l.typ) else l.typ == "mixed"
  {
    hide OneType, Speaks, AtPort, CommonType, Unambiguous;
    var i :| 0 <= i < |BuildListeners(eps)| && BuildListeners(eps)[i] == l;
    var port := ListenerPort(eps, i);
    PortType(eps, AtPort(eps, port), e);
  }

  /** Exactly the credentials of the kept endpoints on a port are admitted there. */
  lemma ConfigAdmits(eps: seq<Endpoint>, l: ListenerSpec, e: Endpoint, target: map<string, string>, username: string,
                     password: string)
    requires Unambiguous(eps) && e in eps && l in BuildListeners(eps) && Serves(l, e)
    requires e.username == "" ==> l.relay != ""
    ensures Admits(ListenerConfig(l, target), username, password) <==> HasCaller(eps, e.port, username, password)
  {
    hide Unambiguous, Serves;
    ListenersComeFromEndpoints(eps, l);
    var m := ListenerConfig(l, target);
    if HasCaller(eps, e.port, username, password) {
      var x :| x in eps && x.port == e.port && x.username == username && (username == "" || x.password == password);
      CallerAdmitted(eps, l, e, target, x, password);
    } else if Admits(m, username, password) {
      AdmittedHasCaller(eps, l, e, target, username, password);
    }
  }

  lemma CallerAdmitted(eps: seq<Endpoint>, l: ListenerSpec, e: Endpoint, target: map<string, string>, x: Endpoint,
                       password: string)
    requires Unambiguous(eps) && e in eps && l in BuildListeners(eps) && Serves(l, e)
    requires e.username == "" ==> l.relay != ""
    requires x in eps && x.port == e.port && (x.username == "" || x.password == password)
    ensures Admits(ListenerConfig(l, target), x.username, password)
  {
    hide BuildListeners, ListenerFor;
    var l' := PlanServesEveryone(eps, x);
    assert l' == l by { hide Unambiguous, Admits, ListenerConfig; assert l.port == e.port; }
    if x.username != "" {
      var u :| Users(l, u) && u.username == x.username && u.relay == x.relay && u.password == x.password;
      UserAdmitted(l, target, u);
    } else {
      assert ToldApart(x, e);
    }
  }

  lemma AdmittedHasCaller(eps: seq<Endpoint>, l: ListenerSpec, e: Endpoint, target: map<string, string>,
                          username: string, password: string)
    requires Unambiguous(eps) && e in eps && l in BuildListeners(eps) && Serves(l, e)
    requires e.username == "" ==> l.relay != ""
    requires Admits(ListenerConfig(l, target), username, password)
    ensures HasCaller(eps, e.port, username, password)
  {
    hide BuildListeners, ListenerFor, Unambiguous;
    if e.username != "" {
      ListenersComeFromEndpoints(eps, l);
      var users := ListenerConfig(l, target)["users"].xs;
      assert users != [] by {
        var u :| Users(l, u);
        var k :| 0 <= k < |l.users| && l.users[k] == u;
        assert users[k] == UserEntry(u);
      }
      var k :| 0 <= k < |users| && users[k] == Dict(map["username" := Str(username), "password" := Str(password)]);
      var u := l.users[k];
      assert users[k] == UserEntry(u) && u in l.users;
      EntryCredentials(u, username, password);
    }
  }

  lemma EntryCredentials(u: Endpoint, username: string, password: string)
    requires UserEntry(u) == Dict(map["username" := Str(username), "password" := Str(password)])
    ensures u.username == username && u.password == password
  {
    var fields := map["username" := Str(username), "password" := Str(password)];
    assert UserEntry(u).fields["username"] == fields["username"];
    assert UserEntry(u).fields["password"] == fields["password"];
  }

  /**
   * A kept endpoint's port has a listener on exactly its port and address. It speaks the type of the
   * port's endpoints, or is mixed if they differ; it takes UDP exactly without authentication and when
   * not http; and it admits exactly the credentials of the kept endpoints on the port.
   */
  lemma PortListens(env: Loader, p: Plan, eps: seq<Endpoint>, ownPort: int, answers: seq<seq<Node>>, e: Endpoint)
    returns (m: Config)
    requires Rendered(env, p, eps, ownPort, answers) && e in eps
    ensures m in RenderReads(env, p, answers).listeners
    ensures FindListener(RenderReads(env, p, answers).listeners, ListenerName(e.port)) == Some(m)
    ensures Name(m) == ListenerName(e.port) && ListensFor(m, eps, e)
    ensures forall username, password: string ::
              Admits(m, username, password) <==> HasCaller(eps, e.port, username, password)
  {
    hide RenderReads, RenderGroups, Admits, ListensFor, HasCaller;
    var target := RenderGroups(env, p, answers).target;
    EndpointTarget(env, p, eps, ownPort, answers, e);
    var l := ListenerForEndpoint(eps, e);
    RenderedListener(env, p, eps, ownPort, answers, l);
    m := ListenerConfig(l, target);
    ServedType(eps, e, l);
    ConfigListens(eps, l, e, target);
    FoundIsThere(RenderReads(env, p, answers).listeners, ListenerName(e.port));
    forall username, password: string
      ensures Admits(m, username, password) <==> HasCaller(eps, e.port, username, password)
    {
      ConfigAdmits(eps, l, e, target, username, password);
    }
  }

  lemma {:induction false} FoundIsThere(ms: seq<Config>, name: string)
    ensures FindListener(ms, name).Some? ==>
              FindListener(ms, name).value in ms && Name(FindListener(ms, name).value) == name
    ensures FindListener(ms, name).None? <==> name !in NameSet(ms)
  {
    if ms != [] {
      FoundIsThere(ms[1..], name);
      assert ms == [ms[0]] + ms[1..];
    }
  }

  // Names

  /** Rendered listeners have distinct names, one for each port with kept endpoints. */
  lemma ListenersAreThePorts(env: Loader, p: Plan, eps: seq<Endpoint>, ownPort: int, answers: seq<seq<Node>>)
    requires Rendered(env, p, eps, ownPort, answers)
    ensures var d := RenderReads(env, p, answers);
            && DistinctNames(d.listeners)
            && NameSet(d.listeners) == set e | e in eps :: ListenerName(e.port)
  {
    var target := RenderGroups(env, p, answers).target;
    var d := RenderReads(env, p, answers);
    AddListenersConfigs(Inbound([], [], map[]), p.listeners, target);
    assert [] + ListenerConfigs(p.listeners, target) == ListenerConfigs(p.listeners, target);
    ConfigsOfPorts(eps, p.listeners, target);
    forall e | e in eps
      ensures ListenerName(e.port) in NameSet(d.listeners)
    {
      var m := PortListens(env, p, eps, ownPort, answers, e);
    }
  }

  lemma ConfigsOfPorts(eps: seq<Endpoint>, ls: seq<ListenerSpec>, target: map<string, string>)
    requires Unambiguous(eps) && (forall e | e in eps :: e.port >= 1) && ls == BuildListeners(eps)
    ensures DistinctNames(ListenerConfigs(ls, target))
    ensures NameSet(ListenerConfigs(ls, target)) <= set e | e in eps :: ListenerName(e.port)
  {
    hide Unambiguous, ListenerName, BuildListeners;
    var ms := ListenerConfigs(ls, target);
    forall i | 0 <= i < |ls|
      ensures Name(ms[i]) == ls[i].name && Name(ms[i]) in set e | e in eps :: ListenerName(e.port)
    {
      var port := ListenerOf(eps, ls[i]);
    }
    forall i, j | 0 <= i < j < |ls|
      ensures ls[i].name != ls[j].name
    {
      DistinctPorts(eps, i, j);
      var port := ListenerOf(eps, ls[i]);
      var port' := ListenerOf(eps, ls[j]);
      if ls[i].name == ls[j].name { ListenerNameInjective(port, port'); }
    }
  }

  lemma DistinctPorts(eps: seq<Endpoint>, i: nat, j: nat)
    requires i < j < |BuildListeners(eps)|
    ensures BuildListeners(eps)[i].port != BuildListeners(eps)[j].port
  {
    var port := ListenerPort(eps, i);
    var port' := ListenerPort(eps, j);
  }

  // Installed

  /**
   * After an apply of a rendering, mihomo has exactly the listeners of the ports with kept endpoints,
   * and each is as PortListens says.
   */
  lemma ApplyListens(core: CoreSpec.Env, s: CoreSpec.State, now: int, env: Loader, p: Plan, eps: seq<Endpoint>,
                     ownPort: int, answers: seq<seq<Node>>)
    requires CoreProofs.Inv(core, s) && Rendered(env, p, eps, ownPort, answers)
    requires CoreSpec.Apply(core, s, RenderReads(env, p, answers), now).Success?
    ensures var listeners := CoreSpec.Apply(core, s, RenderReads(env, p, answers), now).value.0.mihomo.listeners;
            && listeners.Keys == (set e | e in eps :: ListenerName(e.port))
            && forall e | e in eps ::
                 && ListenerName(e.port) in listeners && ListensFor(listeners[ListenerName(e.port)], eps, e)
                 && forall username, password: string ::
                      Admits(listeners[ListenerName(e.port)], username, password) <==>
                      HasCaller(eps, e.port, username, password)
  {
    hide RenderReads, CoreSpec.Apply, CoreProofs.Inv, WellFormed, ListensFor, HasCaller, Admits, ListenerName;
    var d := RenderReads(env, p, answers);
    RenderProofs.RenderWellFormed(env, p, answers);
    CoreOutcome.ApplyInstalls(core, s, d, now);
    ListenersAreThePorts(env, p, eps, ownPort, answers);
    forall e | e in eps
      ensures var listeners, name := CoreSpec.Apply(core, s, d, now).value.0.mihomo.listeners, ListenerName(e.port);
              && name in listeners && ListensFor(listeners[name], eps, e)
              && forall username, password: string ::
                   Admits(listeners[name], username, password) <==> HasCaller(eps, e.port, username, password)
    {
      var m := PortListens(env, p, eps, ownPort, answers, e);
    }
  }
}
