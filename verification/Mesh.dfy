/** Static analysis of Istio configuration. */
module Mesh {
  import opened Wrappers
  import opened Text

  // ---- Configuration objects; a missing text is the default the code reads it with ----

  datatype Route = Route(host: string, subset: string)

  /** `routes`: the routes of each http rule. */
  datatype VirtualService = VirtualService(name: string, routes: seq<seq<Route>>, gateways: seq<string>)

  datatype DestinationRule = DestinationRule(host: string, subsets: set<string>, tlsMode: Option<string>)

  datatype PeerAuthentication = PeerAuthentication(hasSelector: bool, mode: Option<string>)

  datatype Gateway = Gateway(name: string, serverHosts: seq<seq<string>>)

  datatype Finding =
    | SubsetNotDefined(virtualService: string, host: string, subset: string)
    | MtlsConflict(host: string, peerMode: string, ruleMode: string)
    | GatewayUnbound(gateway: string, hosts: seq<string>)
    | UnknownGateway(virtualService: string, gateway: string)

  // ---- The specification: one finding for each faulty occurrence ----

  function FlatMap<A, B>(f: A -> seq<B>, s: seq<A>): seq<B> {
    if s == [] then [] else f(s[0]) + FlatMap(f, s[1..])
  }

  ghost predicate Defined(rules: seq<DestinationRule>, host: string, subset: string) {
    exists r :: r in rules && r.host == host && subset in r.subsets
  }

  /** Every (service, route) occurrence, in order. */
  function RouteUses(vs: VirtualService): seq<(string, Route)> {
    FlatMap(Named(vs.name), vs.routes)
  }

  function Named(name: string): seq<Route> -> seq<(string, Route)> {
    (rs: seq<Route>) => seq(|rs|, i requires 0 <= i < |rs| => (name, rs[i]))
  }

  ghost function Dangling(rules: seq<DestinationRule>): ((string, Route)) -> seq<Finding> {
    (u: (string, Route)) =>
      if u.1.subset != "" && !Defined(rules, u.1.host, u.1.subset)
      then [SubsetNotDefined(u.0, u.1.host, u.1.subset)] else []
  }

  predicate Conflicts(peerMode: string, ruleMode: string) {
    || (peerMode == "STRICT" && ruleMode in {"DISABLE", "SIMPLE"})
    || (peerMode == "DISABLE" && ruleMode in {"ISTIO_MUTUAL", "MUTUAL"})
  }

  function Conflict(peerMode: Option<string>): DestinationRule -> seq<Finding> {
    (r: DestinationRule) =>
      if peerMode.Some? && r.tlsMode.Some? && Conflicts(peerMode.value, r.tlsMode.value)
      then [MtlsConflict(r.host, peerMode.value, r.tlsMode.value)] else []
  }

  /** The mode of the first entry without a workload selector, set or not. */
  function NamespaceMode(pas: seq<PeerAuthentication>): Option<string> {
    if pas == [] then None else if !pas[0].hasSelector then pas[0].mode else NamespaceMode(pas[1..])
  }

  /** `g.split("/")[-1]`. */
  function ShortName(g: string): string {
    if '/' !in g then g else if g[0] == '/' && '/' !in g[1..] then g[1..] else ShortName(g[1..])
  }

  /** Every (service, gateway reference) occurrence but those to the sidecar mesh. */
  function GatewayUses(vs: VirtualService): seq<(string, string)> {
    FlatMap(GatewayUse(vs.name), vs.gateways)
  }

  function GatewayUse(name: string): string -> seq<(string, string)> {
    (g: string) => if g == "mesh" then [] else [(name, ShortName(g))]
  }

  ghost predicate Bound(services: seq<VirtualService>, gateway: string) {
    exists vs, g :: vs in services && g in vs.gateways && g != "mesh" && ShortName(g) == gateway
  }

  ghost predicate Exists(gateways: seq<Gateway>, name: string) {
    exists g :: g in gateways && g.name == name
  }

  function HostsOf(g: Gateway): seq<string> {
    Concat(g.serverHosts)
  }

  ghost function Unbound(services: seq<VirtualService>): Gateway -> seq<Finding> {
    (g: Gateway) => if Bound(services, g.name) then [] else [GatewayUnbound(g.name, HostsOf(g))]
  }

  ghost function Unknown(gateways: seq<Gateway>): ((string, string)) -> seq<Finding> {
    (u: (string, string)) => if Exists(gateways, u.1) then [] else [UnknownGateway(u.0, u.1)]
  }

  ghost function Findings(
    services: seq<VirtualService>, rules: seq<DestinationRule>, pas: seq<PeerAuthentication>, gateways: seq<Gateway>)
    : seq<Finding>
  {
    FlatMap(Dangling(rules), FlatMap(RouteUses, services))
    + FlatMap(Conflict(NamespaceMode(pas)), rules)
    + FlatMap(Unbound(services), gateways)
    + FlatMap(Unknown(gateways), FlatMap(GatewayUses, services))
  }

  lemma {:induction false} FlatMapAppend<A, B>(f: A -> seq<B>, a: seq<A>, b: seq<A>)
    ensures FlatMap(f, a + b) == FlatMap(f, a) + FlatMap(f, b)
  {
    if a == [] {
      assert a + b == b;
    } else {
      assert (a + b)[1..] == a[1..] + b;
      FlatMapAppend(f, a[1..], b);
      Regroup(f(a[0]), FlatMap(f, a[1..]), FlatMap(f, b));
    }
  }

  lemma {:induction false} FlatMapNext<A, B>(f: A -> seq<B>, s: seq<A>, i: nat)
    requires i < |s|
    ensures FlatMap(f, s[..i + 1]) == FlatMap(f, s[..i]) + f(s[i])
  {
    assert s[..i + 1] == s[..i] + [s[i]];
    FlatMapAppend(f, s[..i], [s[i]]);
    assert [s[i]][1..] == [];
  }

  lemma {:induction false} FlatMapMembers<A, B>(f: A -> seq<B>, s: seq<A>, b: B)
    ensures b in FlatMap(f, s) <==> exists a :: a in s && b in f(a)
  {
    if s == [] {
    } else {
      FlatMapMembers(f, s[1..], b);
      assert s == [s[0]] + s[1..];
    }
  }

  // ---- Reading the configuration ----

  /** The short name of a reference is the part behind its last slash. */
  lemma {:induction false} ShortNameExactly(g: string, short: string)
    ensures ShortName(g) == short <==> LastPart(g, short)
  {
    if '/' !in g {
      forall before
        ensures g != before + ("/" + short)
      {
        assert (before + ("/" + short))[|before|] == '/';
      }
    } else {
      ShortNameExactly(g[1..], short);
      assert g == [g[0]] + g[1..];
      if before :| g[1..] == before + ("/" + short) {
        Regroup([g[0]], before, "/" + short);
        assert g == ([g[0]] + before) + ("/" + short);
      }
      if before :| g == before + ("/" + short) {
        if before == [] {
          assert g == "/" + short && g[1..] == short;
        } else {
          assert g[1..] == before[1..] + ("/" + short);
        }
      }
      if g[0] == '/' && '/' !in g[1..] {
        assert g == [] + ("/" + g[1..]);
      }
    }
  }

  /** The first policy without a selector sets the mode. */
  lemma {:induction false} NamespaceModeExactly(pas: seq<PeerAuthentication>) returns (k: nat)
    ensures k <= |pas| && forall i :: 0 <= i < k ==> pas[i].hasSelector
    ensures k == |pas| ==> NamespaceMode(pas) == None
    ensures k < |pas| ==> !pas[k].hasSelector && NamespaceMode(pas) == pas[k].mode
  {
    if pas == [] || !pas[0].hasSelector {
      k := 0;
    } else {
      var k' := NamespaceModeExactly(pas[1..]);
      k := k' + 1;
    }
  }

  /** One use for each route of each rule, in order, under the service's name. */
  lemma {:induction false} RouteUsesExactly(
    name: string, routes: seq<seq<Route>>, rs: seq<Route>, r: Route, gateways: seq<string>)
    ensures RouteUses(VirtualService(name, [], gateways)) == []
    ensures RouteUses(VirtualService(name, routes + [[]], gateways))
            == RouteUses(VirtualService(name, routes, gateways))
    ensures RouteUses(VirtualService(name, routes + [rs + [r]], gateways))
            == RouteUses(VirtualService(name, routes + [rs], gateways)) + [(name, r)]
  {
    RuleUses(name, routes, []);
    RuleUses(name, routes, rs);
    RuleUses(name, routes, rs + [r]);
    assert Named(name)(rs + [r]) == Named(name)(rs) + [(name, r)];
    Regroup(FlatMap(Named(name), routes), Named(name)(rs), [(name, r)]);
  }

  lemma {:induction false} RuleUses(name: string, routes: seq<seq<Route>>, rs: seq<Route>)
    ensures FlatMap(Named(name), routes + [rs]) == FlatMap(Named(name), routes) + Named(name)(rs)
  {
    FlatMapAppend(Named(name), routes, [rs]);
    assert [rs][1..] == [];
  }

  /** One use for each reference but those to the mesh, in order, under the service's name. */
  lemma {:induction false} GatewayUsesExactly(name: string, routes: seq<seq<Route>>, gateways: seq<string>, g: string)
    ensures GatewayUses(VirtualService(name, routes, [])) == []
    ensures GatewayUses(VirtualService(name, routes, gateways + [g]))
            == GatewayUses(VirtualService(name, routes, gateways)) + if g == "mesh" then [] else [(name, ShortName(g))]
  {
    FlatMapAppend(GatewayUse(name), gateways, [g]);
    assert [g][1..] == [];
  }

  /** The hosts of all servers, in order. */
  lemma {:induction false} HostsExactly(name: string, servers: seq<seq<string>>, hosts: seq<string>)
    ensures HostsOf(Gateway(name, [])) == []
    ensures HostsOf(Gateway(name, servers + [hosts])) == HostsOf(Gateway(name, servers)) + hosts
  {
    if servers == [] {
      assert ([] + [hosts])[1..] == [];
    } else {
      HostsExactly(name, servers[1..], hosts);
      assert (servers + [hosts])[1..] == servers[1..] + [hosts];
      Regroup(servers[0], Concat(servers[1..]), hosts);
    }
  }

  // ---- The analysis ----

  /** The map the code builds knows exactly the defined subsets. */
  ghost predicate Knows(defined: map<string, set<string>>, rules: seq<DestinationRule>) {
    forall h, s :: Defined(rules, h, s) <==> h in defined && s in defined[h]
  }

  lemma DefinedAppend(rules: seq<DestinationRule>, r: DestinationRule, h: string, s: string)
    ensures Defined(rules + [r], h, s) <==> Defined(rules, h, s) || (r.host == h && s in r.subsets)
  {
    assert r in rules + [r];
  }

  lemma KnowsNext(
    was: map<string, set<string>>, defined: map<string, set<string>>, rules: seq<DestinationRule>, r: DestinationRule)
    requires Knows(was, rules)
    requires defined == was[r.host := (if r.host in was then was[r.host] else {}) + r.subsets]
    ensures Knows(defined, rules + [r])
  {
    forall h, s
      ensures Defined(rules + [r], h, s) <==> h in defined && s in defined[h]
    {
      DefinedAppend(rules, r, h, s);
      assert Defined(rules, h, s) <==> h in was && s in was[h];
    }
  }

  method CollectDefined(rules: seq<DestinationRule>) returns (defined: map<string, set<string>>)
    ensures Knows(defined, rules)
  {
    defined := map[];
    for i := 0 to |rules|
      invariant Knows(defined, rules[..i])
    {
      var r := rules[i];
      ghost var was := defined;
      defined := defined[r.host := (if r.host in defined then defined[r.host] else {}) + r.subsets];
      KnowsNext(was, defined, rules[..i], r);
      assert rules[..i + 1] == rules[..i] + [r];
    }
    assert rules[..|rules|] == rules;
  }

  method CheckRoutes(
    services: seq<VirtualService>, defined: map<string, set<string>>, ghost rules: seq<DestinationRule>)
    returns (findings: seq<Finding>)
    requires Knows(defined, rules)
    ensures findings == FlatMap(Dangling(rules), FlatMap(RouteUses, services))
  {
    findings := [];
    for i := 0 to |services|
      invariant findings == FlatMap(Dangling(rules), FlatMap(RouteUses, services[..i]))
    {
      var more := CheckService(services[i], defined, rules);
      FlatMapNext(RouteUses, services, i);
      FlatMapAppend(Dangling(rules), FlatMap(RouteUses, services[..i]), RouteUses(services[i]));
      findings := findings + more;
    }
    assert services[..|services|] == services;
  }

  method CheckService(vs: VirtualService, defined: map<string, set<string>>, ghost rules: seq<DestinationRule>)
    returns (findings: seq<Finding>)
    requires Knows(defined, rules)
    ensures findings == FlatMap(Dangling(rules), RouteUses(vs))
  {
    ghost var named := Named(vs.name);
    findings := [];
    for j := 0 to |vs.routes|
      invariant findings == FlatMap(Dangling(rules), FlatMap(named, vs.routes[..j]))
    {
      var more := CheckRule(vs.name, vs.routes[j], defined, rules);
      FlatMapNext(named, vs.routes, j);
      FlatMapAppend(Dangling(rules), FlatMap(named, vs.routes[..j]), named(vs.routes[j]));
      findings := findings + more;
    }
    assert vs.routes[..|vs.routes|] == vs.routes;
  }

  method CheckRule(name: string, rs: seq<Route>, defined: map<string, set<string>>, ghost rules: seq<DestinationRule>)
    returns (findings: seq<Finding>)
    requires Knows(defined, rules)
    ensures findings == FlatMap(Dangling(rules), Named(name)(rs))
  {
    ghost var f, uses := Dangling(rules), Named(name)(rs);
    findings := [];
    for k := 0 to |rs|
      invariant findings == FlatMap(f, uses[..k])
    {
      FlatMapNext(f, uses, k);
      var r := rs[k];
      assert Defined(rules, r.host, r.subset) <==> r.host in defined && r.subset in defined[r.host];
      if r.subset != "" && !(r.host in defined && r.subset in defined[r.host]) {
        findings := findings + [SubsetNotDefined(name, r.host, r.subset)];
      }
    }
    assert uses[..|rs|] == uses;
  }

  method FindNamespaceMode(pas: seq<PeerAuthentication>) returns (mode: Option<string>)
    ensures mode == NamespaceMode(pas)
  {
    for i := 0 to |pas|
      invariant NamespaceMode(pas[i..]) == NamespaceMode(pas)
    {
      if !pas[i].hasSelector {
        return pas[i].mode;
      }
      assert pas[i..][1..] == pas[i + 1..];
    }
    return None;
  }

  method CheckMtls(rules: seq<DestinationRule>, mode: Option<string>) returns (findings: seq<Finding>)
    ensures findings == FlatMap(Conflict(mode), rules)
  {
    findings := [];
    for i := 0 to |rules|
      invariant findings == FlatMap(Conflict(mode), rules[..i])
    {
      FlatMapNext(Conflict(mode), rules, i);
      var r := rules[i];
      if mode.Some? && r.tlsMode.Some? && Conflicts(mode.value, r.tlsMode.value) {
        findings := findings + [MtlsConflict(r.host, mode.value, r.tlsMode.value)];
      }
    }
    assert rules[..|rules|] == rules;
  }

  method CollectReferenced(services: seq<VirtualService>) returns (referenced: set<string>)
    ensures forall g :: g in referenced <==> Bound(services, g)
  {
    referenced := {};
    for i := 0 to |services|
      invariant forall g :: g in referenced <==> Bound(services[..i], g)
    {
      var vs := services[i];
      var shorts := set g | g in vs.gateways && g != "mesh" :: ShortName(g);
      assert services[..i + 1] == services[..i] + [vs];
      referenced := referenced + shorts;
    }
    assert services[..|services|] == services;
  }

  method CheckGateways(gateways: seq<Gateway>, referenced: set<string>, ghost services: seq<VirtualService>)
    returns (findings: seq<Finding>)
    requires forall g :: g in referenced <==> Bound(services, g)
    ensures findings == FlatMap(Unbound(services), gateways)
  {
    findings := [];
    for i := 0 to |gateways|
      invariant findings == FlatMap(Unbound(services), gateways[..i])
    {
      FlatMapNext(Unbound(services), gateways, i);
      var g := gateways[i];
      if g.name !in referenced {
        findings := findings + [GatewayUnbound(g.name, HostsOf(g))];
      }
    }
    assert gateways[..|gateways|] == gateways;
  }

  method CheckReferences(services: seq<VirtualService>, names: set<string>, ghost gateways: seq<Gateway>)
    returns (findings: seq<Finding>)
    requires forall g :: g in names <==> Exists(gateways, g)
    ensures findings == FlatMap(Unknown(gateways), FlatMap(GatewayUses, services))
  {
    findings := [];
    for i := 0 to |services|
      invariant findings == FlatMap(Unknown(gateways), FlatMap(GatewayUses, services[..i]))
    {
      var more := CheckServiceReferences(services[i], names, gateways);
      FlatMapNext(GatewayUses, services, i);
      FlatMapAppend(Unknown(gateways), FlatMap(GatewayUses, services[..i]), GatewayUses(services[i]));
      findings := findings + more;
    }
    assert services[..|services|] == services;
  }

  method CheckServiceReferences(vs: VirtualService, names: set<string>, ghost gateways: seq<Gateway>)
    returns (findings: seq<Finding>)
    requires forall g :: g in names <==> Exists(gateways, g)
    ensures findings == FlatMap(Unknown(gateways), GatewayUses(vs))
  {
    ghost var use := GatewayUse(vs.name);
    findings := [];
    for j := 0 to |vs.gateways|
      invariant findings == FlatMap(Unknown(gateways), FlatMap(use, vs.gateways[..j]))
    {
      var g := vs.gateways[j];
      FlatMapNext(use, vs.gateways, j);
      FlatMapAppend(Unknown(gateways), FlatMap(use, vs.gateways[..j]), use(g));
      if g != "mesh" {
        assert use(g)[1..] == [];
        if ShortName(g) !in names {
          findings := findings + [UnknownGateway(vs.name, ShortName(g))];
        }
      }
    }
    assert vs.gateways[..|vs.gateways|] == vs.gateways;
  }

  method AnalyzeMesh(
    services: seq<VirtualService>, rules: seq<DestinationRule>, pas: seq<PeerAuthentication>, gateways: seq<Gateway>)
    returns (findings: seq<Finding>)
    ensures findings == Findings(services, rules, pas, gateways)
  {
    var defined := CollectDefined(rules);
    var dangling := CheckRoutes(services, defined, rules);
    var mode := FindNamespaceMode(pas);
    var conflicts := CheckMtls(rules, mode);
    var names := set g | g in gateways :: g.name;
    var referenced := CollectReferenced(services);
    var unbound := CheckGateways(gateways, referenced, services);
    var unknown := CheckReferences(services, names, gateways);
    findings := dangling + conflicts + unbound + unknown;
  }

  // ---- Sound and complete, with multiplicity ----

  ghost function CountIf<A(!new)>(p: A -> bool, s: seq<A>): nat {
    if s == [] then 0 else (if p(s[0]) then 1 else 0) + CountIf(p, s[1..])
  }

  lemma {:induction false} CountFlatMap<A(!new), B>(f: A -> seq<B>, p: A -> bool, s: seq<A>, b: B)
    requires forall a :: multiset(f(a))[b] == if p(a) then 1 else 0
    ensures multiset(FlatMap(f, s))[b] == CountIf(p, s)
  {
    if s == [] {
    } else {
      CountFlatMap(f, p, s[1..], b);
    }
  }

  /** How many configuration entries each finding stands for. */
  ghost function Faults(
    services: seq<VirtualService>, rules: seq<DestinationRule>, pas: seq<PeerAuthentication>, gateways: seq<Gateway>,
    x: Finding): nat
  {
    match x
    case SubsetNotDefined(v, h, s) =>
      if s != "" && !Defined(rules, h, s)
      then CountIf((u: (string, Route)) => u == (v, Route(h, s)), FlatMap(RouteUses, services)) else 0
    case MtlsConflict(h, p, m) =>
      if NamespaceMode(pas) == Some(p) && Conflicts(p, m)
      then CountIf((r: DestinationRule) => r.host == h && r.tlsMode == Some(m), rules) else 0
    case GatewayUnbound(g, hosts) =>
      if Bound(services, g) then 0 else CountIf((w: Gateway) => w.name == g && HostsOf(w) == hosts, gateways)
    case UnknownGateway(v, g) =>
      if Exists(gateways, g) then 0 else CountIf((u: (string, string)) => u == (v, g), FlatMap(GatewayUses, services))
  }

  lemma {:induction false} NeverCounted<A(!new)>(p: A -> bool, s: seq<A>)
    requires forall a :: !p(a)
    ensures CountIf(p, s) == 0
  {
    if s == [] {
    } else {
      NeverCounted(p, s[1..]);
    }
  }

  lemma {:induction false} CountDangling(services: seq<VirtualService>, rules: seq<DestinationRule>, x: Finding)
    ensures multiset(FlatMap(Dangling(rules), FlatMap(RouteUses, services)))[x]
            == if x.SubsetNotDefined? then Faults(services, rules, [], [], x) else 0
  {
    var uses, f := FlatMap(RouteUses, services), Dangling(rules);
    if x.SubsetNotDefined? && x.subset != "" && !Defined(rules, x.host, x.subset) {
      CountFlatMap(f, (u: (string, Route)) => u == (x.virtualService, Route(x.host, x.subset)), uses, x);
    } else {
      var never := (u: (string, Route)) => false;
      CountFlatMap(f, never, uses, x);
      NeverCounted(never, uses);
    }
  }

  lemma {:induction false} CountConflicts(rules: seq<DestinationRule>, pas: seq<PeerAuthentication>, x: Finding)
    ensures multiset(FlatMap(Conflict(NamespaceMode(pas)), rules))[x]
            == if x.MtlsConflict? then Faults([], rules, pas, [], x) else 0
  {
    var f := Conflict(NamespaceMode(pas));
    if x.MtlsConflict? && NamespaceMode(pas) == Some(x.peerMode) && Conflicts(x.peerMode, x.ruleMode) {
      CountFlatMap(f, (r: DestinationRule) => r.host == x.host && r.tlsMode == Some(x.ruleMode), rules, x);
    } else {
      var never := (r: DestinationRule) => false;
      CountFlatMap(f, never, rules, x);
      NeverCounted(never, rules);
    }
  }

  lemma {:induction false} CountUnbound(services: seq<VirtualService>, gateways: seq<Gateway>, x: Finding)
    ensures multiset(FlatMap(Unbound(services), gateways))[x]
            == if x.GatewayUnbound? then Faults(services, [], [], gateways, x) else 0
  {
    var f := Unbound(services);
    if x.GatewayUnbound? && !Bound(services, x.gateway) {
      CountFlatMap(f, (w: Gateway) => w.name == x.gateway && HostsOf(w) == x.hosts, gateways, x);
    } else {
      var never := (w: Gateway) => false;
      CountFlatMap(f, never, gateways, x);
      NeverCounted(never, gateways);
    }
  }

  lemma {:induction false} CountUnknown(services: seq<VirtualService>, gateways: seq<Gateway>, x: Finding)
    ensures multiset(FlatMap(Unknown(gateways), FlatMap(GatewayUses, services)))[x]
            == if x.UnknownGateway? then Faults(services, [], [], gateways, x) else 0
  {
    var uses, f := FlatMap(GatewayUses, services), Unknown(gateways);
    if x.UnknownGateway? && !Exists(gateways, x.gateway) {
      CountFlatMap(f, (u: (string, string)) => u == (x.virtualService, x.gateway), uses, x);
    } else {
      var never := (u: (string, string)) => false;
      CountFlatMap(f, never, uses, x);
      NeverCounted(never, uses);
    }
  }

  /** Each finding occurs exactly as often as the configuration holds the fault it names. */
  lemma {:induction false} SoundAndComplete(
    services: seq<VirtualService>, rules: seq<DestinationRule>, pas: seq<PeerAuthentication>, gateways: seq<Gateway>,
    x: Finding)
    ensures multiset(Findings(services, rules, pas, gateways))[x] == Faults(services, rules, pas, gateways, x)
  {
    CountDangling(services, rules, x);
    CountConflicts(rules, pas, x);
    CountUnbound(services, gateways, x);
    CountUnknown(services, gateways, x);
  }

  // ---- Healthy exactly when consistent ----

  /** Every subset a route names is one of the subsets of a rule for its host. */
  ghost predicate RoutesDefined(services: seq<VirtualService>, rules: seq<DestinationRule>) {
    forall vs, rs, r :: vs in services && rs in vs.routes && r in rs && r.subset != "" ==> Matched(rules, r)
  }

  ghost predicate Matched(rules: seq<DestinationRule>, r: Route) {
    exists d :: d in rules && d.host == r.host && r.subset in d.subsets
  }

  /** No plaintext rule where mutual TLS is demanded, and no mutual-TLS rule where it is switched off. */
  ghost predicate ModesAgree(mode: Option<string>, rules: seq<DestinationRule>) {
    && (mode == Some("STRICT") ==> forall r :: r in rules ==> !Plaintext(r))
    && (mode == Some("DISABLE") ==> forall r :: r in rules ==> !Mutual(r))
  }

  predicate Plaintext(r: DestinationRule) {
    r.tlsMode == Some("DISABLE") || r.tlsMode == Some("SIMPLE")
  }

  predicate Mutual(r: DestinationRule) {
    r.tlsMode == Some("ISTIO_MUTUAL") || r.tlsMode == Some("MUTUAL")
  }

  /** `short` is the part of a reference behind its last slash. */
  ghost predicate LastPart(g: string, short: string) {
    '/' !in short && (g == short || exists before :: g == before + ("/" + short))
  }

  /** The service names the gateway, and not as the sidecar mesh. */
  ghost predicate Binds(vs: VirtualService, gateway: string) {
    exists g :: g in vs.gateways && g != "mesh" && LastPart(g, gateway)
  }

  /** Some service binds every gateway. */
  ghost predicate AllBound(services: seq<VirtualService>, gateways: seq<Gateway>) {
    forall g :: g in gateways ==> exists vs :: vs in services && Binds(vs, g.name)
  }

  /** Every gateway that a service binds is there. */
  ghost predicate ReferencesExist(services: seq<VirtualService>, gateways: seq<Gateway>) {
    forall vs, name :: vs in services && Binds(vs, name) ==> exists g :: g in gateways && g.name == name
  }

  ghost predicate Consistent(
    services: seq<VirtualService>, rules: seq<DestinationRule>, pas: seq<PeerAuthentication>, gateways: seq<Gateway>)
  {
    && RoutesDefined(services, rules)
    && ModesAgree(NamespaceMode(pas), rules)
    && AllBound(services, gateways)
    && ReferencesExist(services, gateways)
  }

  lemma {:induction false} FlatMapEmpty<A, B>(f: A -> seq<B>, s: seq<A>)
    ensures FlatMap(f, s) == [] <==> forall a :: a in s ==> f(a) == []
  {
    if s == [] {
    } else {
      FlatMapEmpty(f, s[1..]);
      assert s == [s[0]] + s[1..];
    }
  }

  lemma {:induction false} RouteUsesMembers(services: seq<VirtualService>, u: (string, Route))
    ensures u in FlatMap(RouteUses, services)
            <==> exists vs, rs :: vs in services && rs in vs.routes && u.1 in rs && u.0 == vs.name
  {
    FlatMapMembers(RouteUses, services, u);
    forall vs | vs in services
      ensures u in RouteUses(vs) <==> exists rs :: rs in vs.routes && u.1 in rs && u.0 == vs.name
    {
      FlatMapMembers(Named(vs.name), vs.routes, u);
      forall rs | rs in vs.routes
        ensures u in Named(vs.name)(rs) <==> u.1 in rs && u.0 == vs.name
      {
        NamedMembers(vs.name, rs, u);
      }
    }
  }

  lemma NamedMembers(name: string, rs: seq<Route>, u: (string, Route))
    ensures u in Named(name)(rs) <==> u.1 in rs && u.0 == name
  {
    var named := Named(name)(rs);
    if u.1 in rs && u.0 == name {
      var i :| 0 <= i < |rs| && rs[i] == u.1;
      assert named[i] == u;
    }
  }

  /** `u` is what the reference `g` of `vs` comes to. */
  ghost predicate Refers(vs: VirtualService, g: string, u: (string, string)) {
    g in vs.gateways && g != "mesh" && u == (vs.name, ShortName(g))
  }

  lemma {:induction false} GatewayUsesMembers(services: seq<VirtualService>, u: (string, string))
    ensures u in FlatMap(GatewayUses, services) <==> exists vs, g :: vs in services && Refers(vs, g, u)
  {
    FlatMapMembers(GatewayUses, services, u);
    forall vs | vs in services
      ensures u in GatewayUses(vs) <==> exists g :: Refers(vs, g, u)
    {
      FlatMapMembers(GatewayUse(vs.name), vs.gateways, u);
      forall g | g in vs.gateways
        ensures u in GatewayUse(vs.name)(g) <==> Refers(vs, g, u)
      {
      }
    }
  }

  lemma {:induction false} NoDangling(services: seq<VirtualService>, rules: seq<DestinationRule>)
    ensures FlatMap(Dangling(rules), FlatMap(RouteUses, services)) == [] <==> RoutesDefined(services, rules)
  {
    var uses, f := FlatMap(RouteUses, services), Dangling(rules);
    FlatMapEmpty(f, uses);
    forall r
      ensures Matched(rules, r) <==> Defined(rules, r.host, r.subset)
    {
    }
    forall u
      ensures u in uses <==> exists vs, rs :: vs in services && rs in vs.routes && u.1 in rs && u.0 == vs.name
    {
      RouteUsesMembers(services, u);
    }
    if FlatMap(f, uses) == [] {
      forall vs, rs, r | vs in services && rs in vs.routes && r in rs && r.subset != ""
        ensures Matched(rules, r)
      {
        var u := (vs.name, r);
        assert u in uses && f(u) == [];
      }
    }
  }

  /** Binding in terms of short names. */
  lemma {:induction false} BindsExactly(vs: VirtualService, name: string)
    ensures Binds(vs, name) <==> exists g :: g in vs.gateways && g != "mesh" && ShortName(g) == name
  {
    forall g
      ensures ShortName(g) == name <==> LastPart(g, name)
    {
      ShortNameExactly(g, name);
    }
  }

  lemma {:induction false} NoUnknown(services: seq<VirtualService>, gateways: seq<Gateway>)
    ensures FlatMap(Unknown(gateways), FlatMap(GatewayUses, services)) == [] <==> ReferencesExist(services, gateways)
  {
    var uses, f := FlatMap(GatewayUses, services), Unknown(gateways);
    FlatMapEmpty(f, uses);
    if FlatMap(f, uses) == [] {
      forall vs, name | vs in services && Binds(vs, name)
        ensures Exists(gateways, name)
      {
        BindsExactly(vs, name);
        var g :| g in vs.gateways && g != "mesh" && ShortName(g) == name;
        var u := (vs.name, name);
        GatewayUsesMembers(services, u);
        assert Refers(vs, g, u);
        assert f(u) == [];
      }
    }
    if ReferencesExist(services, gateways) {
      forall u | u in uses
        ensures f(u) == []
      {
        GatewayUsesMembers(services, u);
        var vs, g :| vs in services && Refers(vs, g, u);
        BindsExactly(vs, u.1);
      }
    }
  }

  lemma {:induction false} NoConflict(rules: seq<DestinationRule>, mode: Option<string>)
    ensures FlatMap(Conflict(mode), rules) == [] <==> ModesAgree(mode, rules)
  {
    FlatMapEmpty(Conflict(mode), rules);
    forall r
      ensures Conflict(mode)(r) == [] <==>
                (mode == Some("STRICT") ==> !Plaintext(r)) && (mode == Some("DISABLE") ==> !Mutual(r))
    {
    }
    assert "STRICT"[0] != "DISABLE"[0];
  }

  lemma {:induction false} NoUnbound(services: seq<VirtualService>, gateways: seq<Gateway>)
    ensures FlatMap(Unbound(services), gateways) == [] <==> AllBound(services, gateways)
  {
    FlatMapEmpty(Unbound(services), gateways);
    forall g | g in gateways
      ensures Unbound(services)(g) == [] <==> exists vs :: vs in services && Binds(vs, g.name)
    {
      forall vs | vs in services
        ensures Binds(vs, g.name) <==> exists ref :: ref in vs.gateways && ref != "mesh" && ShortName(ref) == g.name
      {
        BindsExactly(vs, g.name);
      }
    }
  }

  /** The tool reports a mesh as healthy exactly when it is consistent. */
  lemma {:induction false} HealthyExactly(
    services: seq<VirtualService>, rules: seq<DestinationRule>, pas: seq<PeerAuthentication>, gateways: seq<Gateway>)
    ensures Findings(services, rules, pas, gateways) == [] <==> Consistent(services, rules, pas, gateways)
  {
    NoDangling(services, rules);
    NoConflict(rules, NamespaceMode(pas));
    NoUnbound(services, gateways);
    NoUnknown(services, gateways);
  }

  // ---- Order does not matter ----

  lemma {:induction false} CountAppend<A(!new)>(p: A -> bool, a: seq<A>, b: seq<A>)
    ensures CountIf(p, a + b) == CountIf(p, a) + CountIf(p, b)
  {
    if a == [] {
      assert a + b == b;
    } else {
      assert (a + b)[1..] == a[1..] + b;
      CountAppend(p, a[1..], b);
    }
  }

  /** A permutation of `[x] + rest` is `before + [x] + after` with the others a permutation of `rest`. */
  lemma TakeOut<A>(a: seq<A>, b: seq<A>) returns (before: seq<A>, after: seq<A>)
    requires a != [] && multiset(a) == multiset(b)
    ensures b == before + ([a[0]] + after) && multiset(a[1..]) == multiset(before + after)
  {
    assert a == [a[0]] + a[1..];
    assert multiset(a) == multiset{a[0]} + multiset(a[1..]);
    assert a[0] in multiset(b);
    var i :| 0 <= i < |b| && b[i] == a[0];
    before, after := b[..i], b[i + 1..];
    assert b == before + ([a[0]] + after);
    MultisetMiddle(before, a[0], after);
    Cancel(multiset(a[1..]), multiset(before + after), a[0]);
  }

  lemma MultisetMiddle<A>(before: seq<A>, x: A, after: seq<A>)
    ensures multiset(before + ([x] + after)) == multiset{x} + multiset(before + after)
  {
  }

  lemma Cancel<A>(m: multiset<A>, n: multiset<A>, x: A)
    requires multiset{x} + m == multiset{x} + n
    ensures m == n
  {
    forall y
      ensures m[y] == n[y]
    {
      assert (multiset{x} + m)[y] == (multiset{x} + n)[y];
    }
  }

  lemma {:induction false} CountPermuted<A(!new)>(p: A -> bool, a: seq<A>, b: seq<A>)
    requires multiset(a) == multiset(b)
    ensures CountIf(p, a) == CountIf(p, b)
    decreases |a|
  {
    if a != [] {
      var before, after := TakeOut(a, b);
      CountPermuted(p, a[1..], before + after);
      CountAppend(p, before, after);
      CountAppend(p, before, [a[0]] + after);
      assert ([a[0]] + after)[1..] == after;
    } else {
      assert |multiset(b)| == |b|;
    }
  }

  lemma {:induction false} FlatMapPermuted<A, B>(f: A -> seq<B>, a: seq<A>, b: seq<A>)
    requires multiset(a) == multiset(b)
    ensures multiset(FlatMap(f, a)) == multiset(FlatMap(f, b))
    decreases |a|
  {
    if a != [] {
      var before, after := TakeOut(a, b);
      FlatMapPermuted(f, a[1..], before + after);
      FlatMapAppend(f, before, after);
      FlatMapAppend(f, before, [a[0]] + after);
      assert ([a[0]] + after)[1..] == after;
    } else {
      assert |multiset(b)| == |b|;
    }
  }

  lemma PermutedMembers<A>(a: seq<A>, b: seq<A>, x: A)
    requires multiset(a) == multiset(b)
    ensures x in a <==> x in b
  {
    assert x in multiset(a) <==> x in multiset(b);
  }

  lemma {:induction false} PermutedFacts(
    services: seq<VirtualService>, services': seq<VirtualService>,
    rules: seq<DestinationRule>, rules': seq<DestinationRule>,
    gateways: seq<Gateway>, gateways': seq<Gateway>)
    requires multiset(services) == multiset(services') && multiset(rules) == multiset(rules')
    requires multiset(gateways) == multiset(gateways')
    ensures forall h, s :: Defined(rules, h, s) == Defined(rules', h, s)
    ensures forall g :: Bound(services, g) == Bound(services', g)
    ensures forall g :: Exists(gateways, g) == Exists(gateways', g)
  {
    forall r ensures r in rules <==> r in rules' { PermutedMembers(rules, rules', r); }
    forall vs ensures vs in services <==> vs in services' { PermutedMembers(services, services', vs); }
    forall g ensures g in gateways <==> g in gateways' { PermutedMembers(gateways, gateways', g); }
  }

  /** The order of services, rules and gateways never changes which findings there are, nor how many of each. */
  lemma {:induction false} OrderIndependent(
    services: seq<VirtualService>, services': seq<VirtualService>,
    rules: seq<DestinationRule>, rules': seq<DestinationRule>,
    pas: seq<PeerAuthentication>, gateways: seq<Gateway>, gateways': seq<Gateway>)
    requires multiset(services) == multiset(services') && multiset(rules) == multiset(rules')
    requires multiset(gateways) == multiset(gateways')
    ensures multiset(Findings(services, rules, pas, gateways)) == multiset(Findings(services', rules', pas, gateways'))
  {
    PermutedFacts(services, services', rules, rules', gateways, gateways');
    FlatMapPermuted(RouteUses, services, services');
    FlatMapPermuted(GatewayUses, services, services');
    forall x
      ensures multiset(Findings(services, rules, pas, gateways))[x]
              == multiset(Findings(services', rules', pas, gateways'))[x]
    {
      SoundAndComplete(services, rules, pas, gateways, x);
      SoundAndComplete(services', rules', pas, gateways', x);
      FaultsPermuted(services, services', rules, rules', pas, gateways, gateways', x);
    }
  }

  lemma {:induction false} FaultsPermuted(
    services: seq<VirtualService>, services': seq<VirtualService>,
    rules: seq<DestinationRule>, rules': seq<DestinationRule>,
    pas: seq<PeerAuthentication>, gateways: seq<Gateway>, gateways': seq<Gateway>, x: Finding)
    requires multiset(FlatMap(RouteUses, services)) == multiset(FlatMap(RouteUses, services'))
    requires multiset(FlatMap(GatewayUses, services)) == multiset(FlatMap(GatewayUses, services'))
    requires multiset(rules) == multiset(rules') && multiset(gateways) == multiset(gateways')
    requires forall h, s :: Defined(rules, h, s) == Defined(rules', h, s)
    requires forall g :: Bound(services, g) == Bound(services', g)
    requires forall g :: Exists(gateways, g) == Exists(gateways', g)
    ensures Faults(services, rules, pas, gateways, x) == Faults(services', rules', pas, gateways', x)
  {
    match x {
      case SubsetNotDefined(v, h, s) =>
        CountPermuted((u: (string, Route)) => u == (v, Route(h, s)),
                      FlatMap(RouteUses, services), FlatMap(RouteUses, services'));
      case MtlsConflict(h, p, m) =>
        CountPermuted((r: DestinationRule) => r.host == h && r.tlsMode == Some(m), rules, rules');
      case GatewayUnbound(g, hosts) =>
        CountPermuted((w: Gateway) => w.name == g && HostsOf(w) == hosts, gateways, gateways');
      case UnknownGateway(v, g) =>
        CountPermuted((u: (string, string)) => u == (v, g),
                      FlatMap(GatewayUses, services), FlatMap(GatewayUses, services'));
    }
  }

  /** More destination rules never add a dangling-subset finding. */
  lemma {:induction false} RulesOnlyResolve(
    services: seq<VirtualService>, rules: seq<DestinationRule>, more: seq<DestinationRule>,
    pas: seq<PeerAuthentication>, gateways: seq<Gateway>, x: Finding)
    requires x.SubsetNotDefined? && forall r :: r in rules ==> r in more
    ensures multiset(Findings(services, more, pas, gateways))[x]
            <= multiset(Findings(services, rules, pas, gateways))[x]
  {
    SoundAndComplete(services, rules, pas, gateways, x);
    SoundAndComplete(services, more, pas, gateways, x);
  }

  // ---- The order of peer authentications ----

  predicate Strong(mode: Option<string>) {
    mode == Some("STRICT") || mode == Some("DISABLE")
  }

  /** All policies without a selector set this mode. */
  ghost predicate Agree(pas: seq<PeerAuthentication>) {
    forall p, q :: p in pas && q in pas && !p.hasSelector && !q.hasSelector ==> p.mode == q.mode
  }

  /** No policy without a selector sets a mode that can conflict. */
  ghost predicate Quiet(pas: seq<PeerAuthentication>) {
    forall p :: p in pas && !p.hasSelector ==> !Strong(p.mode)
  }

  ghost predicate PeerOrderIrrelevant(pas: seq<PeerAuthentication>) {
    forall services, rules, gateways, pas' :: multiset(pas') == multiset(pas) ==>
      Findings(services, rules, pas', gateways) == Findings(services, rules, pas, gateways)
  }

  lemma {:induction false} NamespaceModeSource(pas: seq<PeerAuthentication>)
    ensures (exists p :: p in pas && !p.hasSelector && p.mode == NamespaceMode(pas))
            || (NamespaceMode(pas) == None && forall p :: p in pas ==> p.hasSelector)
  {
    if pas == [] {
    } else {
      if pas[0].hasSelector {
        NamespaceModeSource(pas[1..]);
        assert pas == [pas[0]] + pas[1..];
      } else {
        assert pas[0] in pas;
      }
    }
  }

  lemma {:induction false} NoConflictWhenWeak(mode: Option<string>, rules: seq<DestinationRule>)
    requires !Strong(mode)
    ensures FlatMap(Conflict(mode), rules) == []
  {
    NoConflict(rules, mode);
  }

  /** Reordering changes the namespace mode only among those the policies without a selector set. */
  lemma {:induction false} ReorderedMode(pas: seq<PeerAuthentication>, pas': seq<PeerAuthentication>)
    requires multiset(pas) == multiset(pas') && (Agree(pas) || Quiet(pas))
    ensures NamespaceMode(pas') == NamespaceMode(pas) || (!Strong(NamespaceMode(pas')) && !Strong(NamespaceMode(pas)))
  {
    forall p
      ensures p in pas <==> p in pas'
    {
      PermutedMembers(pas, pas', p);
    }
    NamespaceModeSource(pas);
    NamespaceModeSource(pas');
  }

  lemma {:induction false} PeerOrderIrrelevantIf(
    services: seq<VirtualService>, rules: seq<DestinationRule>,
    pas: seq<PeerAuthentication>, pas': seq<PeerAuthentication>, gateways: seq<Gateway>)
    requires multiset(pas) == multiset(pas') && (Agree(pas) || Quiet(pas))
    ensures Findings(services, rules, pas', gateways) == Findings(services, rules, pas, gateways)
  {
    ReorderedMode(pas, pas');
    if NamespaceMode(pas') != NamespaceMode(pas) {
      NoConflictWhenWeak(NamespaceMode(pas), rules);
      NoConflictWhenWeak(NamespaceMode(pas'), rules);
    }
  }

  /** A reordering that puts `p` first. */
  lemma MoveFirst(pas: seq<PeerAuthentication>, p: PeerAuthentication) returns (moved: seq<PeerAuthentication>)
    requires p in pas
    ensures multiset(moved) == multiset(pas) && moved != [] && moved[0] == p
  {
    var i :| 0 <= i < |pas| && pas[i] == p;
    var before, after := pas[..i], pas[i + 1..];
    moved := [p] + (before + after);
    assert pas == before + ([p] + after);
    MultisetMiddle(before, p, after);
    MultisetMiddle([], p, before + after);
    assert [] + ([p] + (before + after)) == moved && [] + (before + after) == before + after;
  }

  /** The rule a strong mode conflicts with, and no other mode does. */
  function Opponent(mode: Option<string>): DestinationRule {
    DestinationRule("db", {}, Some(if mode == Some("STRICT") then "DISABLE" else "MUTUAL"))
  }

  lemma OpponentConflicts(mode: Option<string>, other: Option<string>)
    requires Strong(mode) && other != mode
    ensures FlatMap(Conflict(mode), [Opponent(mode)]) != FlatMap(Conflict(other), [Opponent(mode)])
  {
    var rule := Opponent(mode);
    assert [rule][1..] == [];
    assert FlatMap(Conflict(mode), [rule]) == Conflict(mode)(rule) + [];
    assert FlatMap(Conflict(other), [rule]) == Conflict(other)(rule) + [];
    assert Conflict(mode)(rule) != [] && Conflict(other)(rule) == [];
  }

  lemma {:induction false} FindingsOfRule(pas: seq<PeerAuthentication>, rule: DestinationRule)
    ensures Findings([], [rule], pas, []) == FlatMap(Conflict(NamespaceMode(pas)), [rule])
  {
  }

  lemma {:induction false} PeerOrderShows(
    pas: seq<PeerAuthentication>, strong: PeerAuthentication, other: PeerAuthentication)
    requires strong in pas && !strong.hasSelector && Strong(strong.mode)
    requires other in pas && !other.hasSelector && other.mode != strong.mode
    ensures !PeerOrderIrrelevant(pas)
  {
    var first := MoveFirst(pas, strong);
    var second := MoveFirst(pas, other);
    var rule := Opponent(strong.mode);
    OpponentConflicts(strong.mode, other.mode);
    FindingsOfRule(first, rule);
    FindingsOfRule(second, rule);
    assert Findings([], [rule], first, []) != Findings([], [rule], second, []);
  }

  /**
   * Peer authentications may be reordered freely, whatever else the mesh holds, exactly when those without a selector
   * agree on the mode, or none of them sets one that can conflict.
   */
  lemma {:induction false} PeerOrderIrrelevantExactly(pas: seq<PeerAuthentication>)
    ensures PeerOrderIrrelevant(pas) <==> Agree(pas) || Quiet(pas)
  {
    if Agree(pas) || Quiet(pas) {
      forall services, rules, gateways, pas' | multiset(pas') == multiset(pas)
        ensures Findings(services, rules, pas', gateways) == Findings(services, rules, pas, gateways)
      {
        PeerOrderIrrelevantIf(services, rules, pas, pas', gateways);
      }
    } else {
      var strong :| strong in pas && !strong.hasSelector && Strong(strong.mode);
      var p, q :| p in pas && q in pas && !p.hasSelector && !q.hasSelector && p.mode != q.mode;
      PeerOrderShows(pas, strong, if p.mode != strong.mode then p else q);
    }
  }

  /** Swapping two policies can make a conflict disappear. */
  lemma PeerOrderMatters()
    ensures var strict, off := PeerAuthentication(false, Some("STRICT")), PeerAuthentication(false, None);
            var rule := DestinationRule("db", {}, Some("DISABLE"));
            && Findings([], [rule], [strict, off], []) == [MtlsConflict("db", "STRICT", "DISABLE")]
            && Findings([], [rule], [off, strict], []) == []
  {
    var rule := DestinationRule("db", {}, Some("DISABLE"));
    assert [rule][1..] == [];
  }
}
