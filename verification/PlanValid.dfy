// Which relays validate: exactly those that meet the documented conditions, and what they become.
module PlanValid {
  import opened Wrappers
  import opened ConfigTypes
  import opened Text
  import opened PlanSpec

  ghost predicate GoodEndpoint(e: Endpoint, ownPort: int) {
    && 1 <= e.port <= 65535 && e.port != ownPort
    && e.typ in LISTENER_TYPES
    && (forall c | c in e.username :: c !in {',', '/', '(', ')', ':'}) && TrimSpace(e.username) == e.username
    && (e.username == "" ==> e.password == "")
    && (e.username != "" && e.typ != "http" ==> e.password != "")
  }

  /** Two endpoints of one relay can share a listener. */
  ghost predicate Compatible(e: Endpoint, e': Endpoint) {
    e.port == e'.port ==>
      && e.listen == e'.listen
      && (e.username == "" <==> e'.username == "")
      && (e.username == e'.username ==> e.password == e'.password)
  }

  ghost predicate GoodName(name: string) {
    && name != "" && ',' !in name && TrimSpace(name) == name
    && name !in {"DIRECT", "REJECT", "REJECT-DROP", "PASS", "PASS-RULE", "COMPATIBLE", "GLOBAL"}
  }

  ghost predicate GoodRelay(v: ValidRelay, ownPort: int) {
    && GoodName(v.spec.name)
    && v.spec.strategy in STRATEGIES
    && v.endpoints != []
    && (forall e | e in v.endpoints :: e.relay == v.spec.name && GoodEndpoint(e, ownPort))
    && (forall e, e' | e in v.endpoints && e' in v.endpoints :: Compatible(e, e'))
  }

  // The conditions

  function EndpointFor(relay: string, d: Downstream): Endpoint {
    Endpoint(relay, if d.typ == "" then "mixed" else d.typ, d.listen, d.port, d.username, d.password)
  }

  function EndpointsFor(relay: string, ds: seq<Downstream>): seq<Endpoint> {
    seq(|ds|, i requires 0 <= i < |ds| => EndpointFor(relay, ds[i]))
  }

  function SpecFor(up: Upstream): UpstreamSpec {
    if up.sub != "" then Sub(up.subName) else Inline(up.proxy)
  }

  function SpecsFor(ups: seq<Upstream>): seq<UpstreamSpec> {
    seq(|ups|, i requires 0 <= i < |ups| => SpecFor(ups[i]))
  }

  /** A resolved and fetched sub, with an interval only beside a URL, or a proxy that mihomo loads. */
  predicate GoodUpstream(loads: Loads, up: Upstream, knownSubs: set<string>) {
    if up.sub != "" then
      up.subName != "" && up.subName in knownSubs && (up.interval != 0 ==> IsSubURL(up.sub))
    else
      up.interval == 0 && CheckProxy(loads, up.proxy)
  }

  ghost predicate GoodUpstreams(loads: Loads, ups: seq<Upstream>, knownSubs: set<string>) {
    forall up | up in ups :: GoodUpstream(loads, up, knownSubs)
  }

  ghost predicate GoodDownstreams(relay: string, ds: seq<Downstream>, ownPort: int) {
    forall d | d in ds :: GoodEndpoint(EndpointFor(relay, d), ownPort)
  }

  ghost predicate AllCompatible(eps: seq<Endpoint>) {
    forall e, e' | e in eps && e' in eps :: Compatible(e, e')
  }

  /** What a relay must be to be valid. */
  ghost predicate Meets(loads: Loads, r: Relay, knownSubs: set<string>, ownPort: int) {
    && GoodName(r.name)
    && (r.strategy == "" || r.strategy in STRATEGIES)
    && r.upstream != [] && GoodUpstreams(loads, r.upstream, knownSubs)
    && r.downstream != [] && GoodDownstreams(r.name, r.downstream, ownPort)
    && AllCompatible(EndpointsFor(r.name, r.downstream))
  }

  function Validated(r: Relay): ValidRelay {
    ValidRelay(RelaySpec(r.name, if r.strategy == "" then "url-test" else r.strategy, SpecsFor(r.upstream)),
               EndpointsFor(r.name, r.downstream))
  }

  // The checks

  lemma UpstreamChecked(loads: Loads, up: Upstream, i: nat, knownSubs: set<string>)
    ensures CheckUpstream(loads, up, i, knownSubs).Success? <==> GoodUpstream(loads, up, knownSubs)
    ensures CheckUpstream(loads, up, i, knownSubs).Success? ==>
            CheckUpstream(loads, up, i, knownSubs).value == SpecFor(up)
  {
    assert !IsSubURL("") by {
      assert |"http://"| > |Text.ToLower("")| && |"https://"| > |Text.ToLower("")|;
    }
  }

  lemma ForbiddenAre(s: string)
    ensures ContainsForbidden(s) <==> exists c | c in s :: c in {',', '/', '(', ')', ':'}
  {
    if ContainsForbidden(s) {
      var i :| 0 <= i < |s| && ForbiddenInUsername(s[i]);
      assert s[i] in s;
    }
  }

  lemma DownstreamChecked(d: Downstream, relay: string, ownPort: int)
    ensures CheckDownstream(d, relay, ownPort).Success? <==> GoodEndpoint(EndpointFor(relay, d), ownPort)
    ensures CheckDownstream(d, relay, ownPort).Success? ==>
            CheckDownstream(d, relay, ownPort).value == EndpointFor(relay, d)
  {
    assert "mixed" in LISTENER_TYPES;
    ForbiddenAre(d.username);
  }

  lemma {:induction false} UpstreamsChecked(loads: Loads, ups: seq<Upstream>, knownSubs: set<string>, i: nat,
                                            specs: seq<UpstreamSpec>)
    requires i <= |ups| && specs == SpecsFor(ups[..i])
    ensures var r := CheckUpstreams(loads, ups, knownSubs, i, specs);
            && (r.Success? <==> forall k | i <= k < |ups| :: GoodUpstream(loads, ups[k], knownSubs))
            && (r.Success? ==> r.value == SpecsFor(ups))
    decreases |ups| - i
  {
    hide CheckUpstream, GoodUpstream;
    if i == |ups| {
      assert ups[..i] == ups;
    } else {
      UpstreamChecked(loads, ups[i], i, knownSubs);
      if GoodUpstream(loads, ups[i], knownSubs) {
        assert SpecsFor(ups[..i + 1]) == specs + [SpecFor(ups[i])];
        UpstreamsChecked(loads, ups, knownSubs, i + 1, specs + [SpecFor(ups[i])]);
      }
    }
  }

  lemma {:induction false} DownstreamsChecked(ds: seq<Downstream>, relay: string, ownPort: int, i: nat,
                                              eps: seq<Endpoint>)
    requires i <= |ds| && eps == EndpointsFor(relay, ds[..i])
    ensures var r := CheckDownstreams(ds, relay, ownPort, i, eps);
            && (r.Success? <==> forall k | i <= k < |ds| :: GoodEndpoint(EndpointFor(relay, ds[k]), ownPort))
            && (r.Success? ==> r.value == EndpointsFor(relay, ds))
    decreases |ds| - i
  {
    hide CheckDownstream, GoodEndpoint;
    if i == |ds| {
      assert ds[..i] == ds;
    } else {
      DownstreamChecked(ds[i], relay, ownPort);
      if GoodEndpoint(EndpointFor(relay, ds[i]), ownPort) {
        assert EndpointsFor(relay, ds[..i + 1]) == eps + [EndpointFor(relay, ds[i])];
        DownstreamsChecked(ds, relay, ownPort, i + 1, eps + [EndpointFor(relay, ds[i])]);
      }
    }
  }

  lemma {:induction false} ClashesBefore(eps: seq<Endpoint>, i: nat, j: nat)
    requires j <= i < |eps|
    ensures ClashBefore(eps, i, j) == None <==> forall k | j <= k < i :: Clash(eps[k], eps[i]) == None
    decreases i - j
  {
    if j < i {
      ClashesBefore(eps, i, j + 1);
    }
  }

  lemma {:induction false} OwnClashes(eps: seq<Endpoint>, i: nat)
    requires i <= |eps|
    ensures CheckOwnPorts(eps, i) == None <==>
            forall k, l | 0 <= k < l < |eps| && i <= l :: Clash(eps[k], eps[l]) == None
    decreases |eps| - i
  {
    hide Clash;
    if i < |eps| {
      ClashesBefore(eps, i, 0);
      OwnClashes(eps, i + 1);
    }
  }

  lemma ClashIsIncompatible(e: Endpoint, e': Endpoint)
    ensures Clash(e, e') == None <==> Compatible(e, e')
    ensures Compatible(e, e') <==> Compatible(e', e)
    ensures Compatible(e, e)
  {
  }

  lemma OwnPortsChecked(eps: seq<Endpoint>)
    ensures CheckOwnPorts(eps, 0) == None <==> AllCompatible(eps)
  {
    hide Clash, Compatible;
    OwnClashes(eps, 0);
    forall e, e' { ClashIsIncompatible(e, e'); }
    if CheckOwnPorts(eps, 0) == None {
      forall e, e' | e in eps && e' in eps
        ensures Compatible(e, e')
      {
        var k :| 0 <= k < |eps| && eps[k] == e;
        var l :| 0 <= l < |eps| && eps[l] == e';
        assert k < l ==> Clash(eps[k], eps[l]) == None;
        assert l < k ==> Clash(eps[l], eps[k]) == None;
      }
    }
    if AllCompatible(eps) {
      assert forall k, l | 0 <= k < l < |eps| :: Compatible(eps[k], eps[l]);
    }
  }

  lemma AllUpstreamsChecked(loads: Loads, ups: seq<Upstream>, knownSubs: set<string>)
    ensures var r := CheckUpstreams(loads, ups, knownSubs, 0, []);
            && (r.Success? <==> GoodUpstreams(loads, ups, knownSubs))
            && (r.Success? ==> r.value == SpecsFor(ups))
  {
    hide GoodUpstream, CheckUpstreams;
    assert SpecsFor(ups[..0]) == [];
    UpstreamsChecked(loads, ups, knownSubs, 0, []);
    assert forall k | 0 <= k < |ups| :: ups[k] in ups;
  }

  lemma AllDownstreamsChecked(ds: seq<Downstream>, relay: string, ownPort: int)
    ensures var r := CheckDownstreams(ds, relay, ownPort, 0, []);
            && (r.Success? <==> GoodDownstreams(relay, ds, ownPort))
            && (r.Success? ==> r.value == EndpointsFor(relay, ds))
  {
    hide GoodEndpoint, EndpointFor, CheckDownstreams;
    assert EndpointsFor(relay, ds[..0]) == [];
    DownstreamsChecked(ds, relay, ownPort, 0, []);
    assert forall k | 0 <= k < |ds| :: ds[k] in ds;
  }

  lemma NameAndStrategyChecked(r: Relay)
    ensures CheckRelayName(r.name) == None <==> GoodName(r.name)
    ensures (if r.strategy == "" then "url-test" else r.strategy) in STRATEGIES <==>
            r.strategy == "" || r.strategy in STRATEGIES
  {
    assert "url-test" in STRATEGIES;
  }

  /** A relay validates exactly when it meets the conditions, and then becomes its spec and endpoints. */
  lemma ValidIffMeets(loads: Loads, r: Relay, knownSubs: set<string>, ownPort: int)
    ensures ValidateRelay(loads, r, knownSubs, ownPort).Success? <==> Meets(loads, r, knownSubs, ownPort)
    ensures Meets(loads, r, knownSubs, ownPort) ==>
              ValidateRelay(loads, r, knownSubs, ownPort) == Success(Validated(r))
  {
    hide GoodUpstreams, GoodDownstreams, AllCompatible, GoodName, SpecsFor, EndpointsFor, CheckRelayName, CheckOwnPorts,
      CheckUpstreams, CheckDownstreams;
    NameAndStrategyChecked(r);
    AllUpstreamsChecked(loads, r.upstream, knownSubs);
    AllDownstreamsChecked(r.downstream, r.name, ownPort);
    OwnPortsChecked(EndpointsFor(r.name, r.downstream));
  }

  lemma ValidIsGood(loads: Loads, r: Relay, knownSubs: set<string>, ownPort: int)
    requires ValidateRelay(loads, r, knownSubs, ownPort).Success?
    ensures GoodRelay(ValidateRelay(loads, r, knownSubs, ownPort).value, ownPort)
    ensures ValidateRelay(loads, r, knownSubs, ownPort).value.spec.name == r.name
  {
    hide GoodEndpoint, ValidateRelay, GoodUpstream;
    ValidIffMeets(loads, r, knownSubs, ownPort);
    var v := Validated(r);
    assert |v.endpoints| == |r.downstream|;
    forall e | e in v.endpoints
      ensures e.relay == r.name && GoodEndpoint(e, ownPort)
    {
      var i :| 0 <= i < |v.endpoints| && v.endpoints[i] == e;
      assert r.downstream[i] in r.downstream && e == EndpointFor(r.name, r.downstream[i]);
    }
  }
}
