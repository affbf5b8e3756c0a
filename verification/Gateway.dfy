/** Gateway routes: subnet discovery in canonical order, and the endpoint table made from it. */
module Gateway {
  import opened Wrappers
  import opened Sorting
  import opened Strings

  // ---- subnet discovery ----

  /** One entry of the P-chain's answer. */
  datatype Blockchain = Blockchain(id: string, name: string, netID: string, subnetID: string)

  datatype ChainRoute = ChainRoute(name: string, id: string)

  function PrimarySubnet(): string { "11111111111111111111111111111111LpoYY" }

  function SubnetOf(b: Blockchain): string {
    if b.netID == "" then b.subnetID else b.netID
  }

  predicate IsRouted(b: Blockchain) {
    SubnetOf(b) != PrimarySubnet() && b.id != ""
  }

  function RouteOf(b: Blockchain): ChainRoute {
    ChainRoute(if b.name == "" then "unknown" else b.name, b.id)
  }

  function Routes(b: Blockchain): seq<ChainRoute> {
    if IsRouted(b) then [RouteOf(b)] else []
  }

  predicate ByNameThenID(a: ChainRoute, b: ChainRoute) {
    if a.name != b.name then Le(a.name, b.name) else Le(a.id, b.id)
  }

  lemma ChainOrderIsTotal(a: ChainRoute, b: ChainRoute, c: ChainRoute)
    ensures ByNameThenID(a, b) || ByNameThenID(b, a)
    ensures ByNameThenID(a, b) && ByNameThenID(b, a) ==> a == b
    ensures ByNameThenID(a, b) && ByNameThenID(b, c) ==> ByNameThenID(a, c)
  {
    LeTotal(a.name, b.name);
    LeTotal(a.id, b.id);
    if ByNameThenID(a, b) && ByNameThenID(b, a) {
      if a.name != b.name { LeAntisymmetric(a.name, b.name); } else { LeAntisymmetric(a.id, b.id); }
    }
    if ByNameThenID(a, b) && ByNameThenID(b, c) {
      if a.name == b.name == c.name {
        LeTransitive(a.id, b.id, c.id);
      } else if a.name != b.name && b.name != c.name {
        LeTransitive(a.name, b.name, c.name);
        if a.name == c.name { LeAntisymmetric(a.name, b.name); }
      }
    }
  }

  lemma ChainOrder(chains: seq<ChainRoute>)
    ensures TotalPreorder(ByNameThenID) && Separates(chains, ByNameThenID)
  {
    forall a, b ensures ByNameThenID(a, b) || ByNameThenID(b, a) { ChainOrderIsTotal(a, b, a); }
    forall a, b, c | ByNameThenID(a, b) && ByNameThenID(b, c) ensures ByNameThenID(a, c) { ChainOrderIsTotal(a, b, c); }
    forall a, b | ByNameThenID(a, b) && ByNameThenID(b, a) ensures a == b { ChainOrderIsTotal(a, b, a); }
  }

  /** `sort.Slice`: some sorted rearrangement; nothing is promised about equal elements. */
  method SortSlice(chains: seq<ChainRoute>) returns (sorted: seq<ChainRoute>)
    ensures IsSortOf(sorted, chains, ByNameThenID)
  {
    ChainOrder(chains);
    sorted := Sort(chains, ByNameThenID);
  }

  ghost function Discovered(answer: seq<Blockchain>): seq<ChainRoute> {
    ChainOrder([]);
    Sort(FlatMap(Routes, answer), ByNameThenID)
  }

  /** The filter loop. */
  method SelectRoutes(blockchains: seq<Blockchain>) returns (chains: seq<ChainRoute>)
    ensures chains == FlatMap(Routes, blockchains)
  {
    chains := [];
    for i := 0 to |blockchains|
      invariant chains == FlatMap(Routes, blockchains[..i])
    {
      assert blockchains[..i + 1][..i] == blockchains[..i];
      var c := blockchains[i];
      var subnet := c.netID;
      if subnet == "" {
        subnet := c.subnetID;
      }
      if subnet == PrimarySubnet() || c.id == "" {
        continue;
      }
      var name := c.name;
      if name == "" {
        name := "unknown";
      }
      chains := chains + [ChainRoute(name, c.id)];
    }
    assert blockchains[..|blockchains|] == blockchains;
  }

  /** A failed query finds nothing. */
  method DiscoverSubnetChains(answer: Option<seq<Blockchain>>) returns (chains: seq<ChainRoute>)
    ensures chains == if answer.None? then [] else Discovered(answer.value)
  {
    if answer.None? {
      return [];
    }
    chains := SelectRoutes(answer.value);
    chains := SortSlice(chains);
    ChainOrder(chains);
    SortUnique(chains, Discovered(answer.value), ByNameThenID);
  }

  /** However the P-chain orders its answer, and however the sort treats ties, the chains come out the same. */
  lemma DiscoveryIgnoresOrder(answer: seq<Blockchain>, shuffled: seq<Blockchain>, sorted: seq<ChainRoute>)
    requires multiset(answer) == multiset(shuffled)
    requires IsSortOf(sorted, FlatMap(Routes, shuffled), ByNameThenID)
    ensures sorted == Discovered(answer)
  {
    FlatMapPermutes(Routes, answer, shuffled);
    ChainOrder(sorted);
    SortUnique(sorted, Discovered(answer), ByNameThenID);
  }

  /** The blockchain is found under this name and ID. */
  ghost predicate Finds(b: Blockchain, c: ChainRoute) {
    && b.id == c.id && c.id != ""
    && (if b.netID != "" then b.netID else b.subnetID) != "11111111111111111111111111111111LpoYY"
    && c.name == if b.name != "" then b.name else "unknown"
  }

  /** What is found: exactly the chains of the answer that have an ID and are off the primary network, by name or as unknown. */
  lemma RoutedIffOffPrimary(answer: seq<Blockchain>, c: ChainRoute)
    ensures c in Discovered(answer) <==> exists b :: b in answer && Finds(b, c)
  {
    var found := FlatMap(Routes, answer);
    assert c in Discovered(answer) <==> c in multiset(Discovered(answer));
    assert c in found <==> c in multiset(found);
    FoundIff(answer, c);
  }

  lemma {:induction false} FoundIff(answer: seq<Blockchain>, c: ChainRoute)
    ensures c in FlatMap(Routes, answer) <==> exists b :: b in answer && Finds(b, c)
  {
    if |answer| > 0 {
      var n := |answer| - 1;
      FoundIff(answer[..n], c);
      assert answer == answer[..n] + [answer[n]];
      RoutesFind(answer[n], c);
    }
  }

  lemma RoutesFind(b: Blockchain, c: ChainRoute)
    ensures c in Routes(b) <==> Finds(b, c)
  {
  }

  /** As often as the answer holds such blockchains. */
  lemma {:induction false} FoundAsOften(answer: seq<Blockchain>, c: ChainRoute)
    ensures multiset(Discovered(answer))[c] == |FindersAt(answer, c)|
  {
    assert multiset(Discovered(answer)) == multiset(FlatMap(Routes, answer));
    FinderCount(answer, c);
  }

  ghost function FindersAt(answer: seq<Blockchain>, c: ChainRoute): set<nat> {
    set i: nat | i < |answer| && Finds(answer[i], c)
  }

  lemma {:induction false} FinderCount(answer: seq<Blockchain>, c: ChainRoute)
    ensures multiset(FlatMap(Routes, answer))[c] == |FindersAt(answer, c)|
  {
    if |answer| > 0 {
      var n := |answer| - 1;
      FinderCount(answer[..n], c);
      RouteCount(answer[n], c);
      FindersGrow(answer, c);
      CountConcat(FlatMap(Routes, answer[..n]), Routes(answer[n]), c);
    }
  }

  lemma RouteCount(b: Blockchain, c: ChainRoute)
    ensures multiset(Routes(b))[c] == if Finds(b, c) then 1 else 0
  {
    RoutesFind(b, c);
  }

  lemma FindersGrow(answer: seq<Blockchain>, c: ChainRoute)
    requires |answer| > 0
    ensures |FindersAt(answer, c)|
            == |FindersAt(answer[..|answer| - 1], c)| + if Finds(answer[|answer| - 1], c) then 1 else 0
  {
    var n := |answer| - 1;
    assert FindersAt(answer, c) == FindersAt(answer[..n], c) + if Finds(answer[n], c) then {n} else {};
  }

  lemma CountConcat(s: seq<ChainRoute>, t: seq<ChainRoute>, c: ChainRoute)
    ensures multiset(s + t)[c] == multiset(s)[c] + multiset(t)[c]
  {
  }

  /** And in the order of the names, and of the IDs within a name. */
  lemma FoundInOrder(answer: seq<Blockchain>, i: nat, j: nat)
    requires i < j < |Discovered(answer)|
    ensures var a, b := Discovered(answer)[i], Discovered(answer)[j];
            Le(a.name, b.name) && (a.name == b.name ==> Le(a.id, b.id))
  {
    var a, b := Discovered(answer)[i], Discovered(answer)[j];
    assert ByNameThenID(a, b);
    LeTotal(a.name, a.name);
  }

  // ---- the endpoint table ----

  datatype RateLimit = RateLimit(maxRate: int, every: string, clientMaxRate: int)

  datatype Endpoint = Endpoint(path: string, urlPattern: string, host: string, verb: string, limit: Option<RateLimit>)

  datatype Route = Route(prefix: string, backend: string, methods: seq<string>, rateLimit: Option<RateLimit>)

  datatype Spec = Spec(
    namespace: string,
    autoRoutes: bool,
    rateLimits: Option<RateLimit>,
    indexerRefs: seq<string>,
    routes: seq<Route>)

  function Limit(rl: Option<RateLimit>): Option<RateLimit> {
    if rl.Some? && rl.value.maxRate > 0 then rl else None
  }

  predicate HasPrefix(s: string, prefix: string) {
    prefix <= s
  }

  function EnsureScheme(backend: string): string {
    if HasPrefix(backend, "http://") || HasPrefix(backend, "https://") then backend else "http://" + backend
  }

  function BaseEndpoints(backend: string, limit: Option<RateLimit>): seq<Endpoint> {
    [ Endpoint("/v1/chain/C/rpc", "/v1/chain/C/rpc", backend, "POST", limit),
      Endpoint("/v1/chain/C/ws", "/v1/chain/C/ws", backend, "", None),
      Endpoint("/v1/chain/X", "/v1/chain/X", backend, "POST", None),
      Endpoint("/v1/chain/P", "/v1/chain/P", backend, "POST", None),
      Endpoint("/v1/info", "/v1/info", backend, "POST", None),
      Endpoint("/v1/health", "/v1/health", backend, "", None) ]
  }

  function ChainPath(id: string, end: string): string {
    "/v1/chain/" + id + end
  }

  function ChainEndpoints(backend: string, limit: Option<RateLimit>): ChainRoute -> seq<Endpoint> {
    (c: ChainRoute) =>
      [ Endpoint(ChainPath(c.id, "/rpc"), ChainPath(c.id, "/rpc"), backend, "POST", limit),
        Endpoint(ChainPath(c.id, "/ws"), ChainPath(c.id, "/ws"), backend, "", None) ]
  }

  /** What the cluster itself serves. */
  function AutoEndpoints(spec: Spec, protocol: string, backend: string, chains: seq<ChainRoute>): seq<Endpoint> {
    var limit := Limit(spec.rateLimits);
    if !spec.autoRoutes || backend == "" then []
    else if protocol == "lux" then BaseEndpoints(backend, limit) + FlatMap(ChainEndpoints(backend, limit), chains)
    else [Endpoint("/rpc", "/", backend, "POST", limit)]
  }

  function IndexerEndpoint(namespace: string): string -> seq<Endpoint> {
    (ref: string) => [Endpoint("/api/indexer/" + ref, "/", "http://" + ref + "." + namespace + ".svc:8080", "", None)]
  }

  function RouteEndpoint(route: Route): seq<Endpoint> {
    var verb := if |route.methods| > 0 && route.methods[0] != "" then route.methods[0] else "GET";
    [Endpoint(route.prefix, route.prefix, EnsureScheme(route.backend), verb, Limit(route.rateLimit))]
  }

  function Endpoints(spec: Spec, protocol: string, backend: string, chains: seq<ChainRoute>): seq<Endpoint> {
    AutoEndpoints(spec, protocol, backend, chains)
    + FlatMap(IndexerEndpoint(spec.namespace), spec.indexerRefs) + FlatMap(RouteEndpoint, spec.routes)
  }

  method AppendAuto(spec: Spec, protocol: string, backend: string, chains: seq<ChainRoute>)
    returns (endpoints: seq<Endpoint>)
    ensures endpoints == AutoEndpoints(spec, protocol, backend, chains)
  {
    endpoints := [];
    var limit := Limit(spec.rateLimits);
    if spec.autoRoutes && backend != "" {
      if protocol == "lux" {
        endpoints := endpoints
          + [ Endpoint("/v1/chain/C/rpc", "/v1/chain/C/rpc", backend, "POST", limit),
              Endpoint("/v1/chain/C/ws", "/v1/chain/C/ws", backend, "", None),
              Endpoint("/v1/chain/X", "/v1/chain/X", backend, "POST", None),
              Endpoint("/v1/chain/P", "/v1/chain/P", backend, "POST", None),
              Endpoint("/v1/info", "/v1/info", backend, "POST", None),
              Endpoint("/v1/health", "/v1/health", backend, "", None) ];
        for i := 0 to |chains|
          invariant endpoints == BaseEndpoints(backend, limit) + FlatMap(ChainEndpoints(backend, limit), chains[..i])
        {
          assert chains[..i + 1][..i] == chains[..i];
          var rpcPath := "/v1/chain/" + chains[i].id + "/rpc";
          var wsPath := "/v1/chain/" + chains[i].id + "/ws";
          endpoints := endpoints + [ Endpoint(rpcPath, rpcPath, backend, "POST", limit),
                                     Endpoint(wsPath, wsPath, backend, "", None) ];
        }
        assert chains[..|chains|] == chains;
      } else {
        endpoints := [Endpoint("/rpc", "/", backend, "POST", limit)];
      }
    }
  }

  method AppendIndexers(spec: Spec, start: seq<Endpoint>) returns (endpoints: seq<Endpoint>)
    ensures endpoints == start + FlatMap(IndexerEndpoint(spec.namespace), spec.indexerRefs)
  {
    endpoints := start;
    for i := 0 to |spec.indexerRefs|
      invariant endpoints == start + FlatMap(IndexerEndpoint(spec.namespace), spec.indexerRefs[..i])
    {
      assert spec.indexerRefs[..i + 1][..i] == spec.indexerRefs[..i];
      var ref := spec.indexerRefs[i];
      var host := "http://" + ref + "." + spec.namespace + ".svc:8080";
      endpoints := endpoints + [Endpoint("/api/indexer/" + ref, "/", host, "", None)];
    }
    assert spec.indexerRefs[..|spec.indexerRefs|] == spec.indexerRefs;
  }

  method BuildGatewayConfig(spec: Spec, protocol: string, backend: string, chains: seq<ChainRoute>)
    returns (endpoints: seq<Endpoint>, count: nat)
    ensures endpoints == Endpoints(spec, protocol, backend, chains)
    ensures count == |endpoints|
  {
    endpoints := AppendAuto(spec, protocol, backend, chains);
    endpoints := AppendIndexers(spec, endpoints);
    ghost var start := endpoints;
    for i := 0 to |spec.routes|
      invariant endpoints == start + FlatMap(RouteEndpoint, spec.routes[..i])
    {
      assert spec.routes[..i + 1][..i] == spec.routes[..i];
      var route := spec.routes[i];
      var verb := "GET";
      if |route.methods| > 0 && route.methods[0] != "" {
        verb := route.methods[0];
      }
      endpoints := endpoints
        + [Endpoint(route.prefix, route.prefix, EnsureScheme(route.backend), verb, Limit(route.rateLimit))];
    }
    assert spec.routes[..|spec.routes|] == spec.routes;
    count := |endpoints|;
  }

  lemma {:induction false} FlatMapLength<A, B>(f: A -> seq<B>, s: seq<A>, n: nat)
    requires forall x | x in s :: |f(x)| == n
    ensures |FlatMap(f, s)| == n * |s|
  {
    if |s| > 0 {
      FlatMapLength(f, s[..|s| - 1], n);
      assert |f(s[|s| - 1])| == n;
    }
  }

  /** Six base routes and two a chain, or one for another protocol; one an indexer and one a custom route. */
  lemma EndpointCount(spec: Spec, protocol: string, backend: string, chains: seq<ChainRoute>)
    ensures |Endpoints(spec, protocol, backend, chains)|
            == (if !spec.autoRoutes || backend == "" then 0 else if protocol == "lux" then 6 + 2 * |chains| else 1)
               + |spec.indexerRefs| + |spec.routes|
  {
    FlatMapLength(ChainEndpoints(backend, Limit(spec.rateLimits)), chains, 2);
    FlatMapLength(IndexerEndpoint(spec.namespace), spec.indexerRefs, 1);
    FlatMapLength(RouteEndpoint, spec.routes, 1);
  }

  /** The rate limit of an endpoint: the configured one when its rate is positive. */
  lemma LimitIsConfigured(rl: Option<RateLimit>)
    ensures Limit(rl) == if rl.Some? && rl.value.maxRate > 0 then rl else None
  {
  }

  /** An endpoint that a lux cluster serves: which paths are passed through as they are, with which verb and limit. */
  ghost predicate ServedByLux(e: Endpoint, backend: string, limited: Option<RateLimit>, chains: seq<ChainRoute>) {
    && e.host == backend && e.urlPattern == e.path
    && (|| (e.path == "/v1/chain/C/rpc" && e.verb == "POST" && e.limit == limited)
        || (e.path == "/v1/chain/C/ws" && e.verb == "" && e.limit == None)
        || (e.path in ["/v1/chain/X", "/v1/chain/P", "/v1/info"] && e.verb == "POST" && e.limit == None)
        || (e.path == "/v1/health" && e.verb == "" && e.limit == None)
        || (exists c :: c in chains && e.path == "/v1/chain/" + c.id + "/rpc" && e.verb == "POST" && e.limit == limited)
        || (exists c :: c in chains && e.path == "/v1/chain/" + c.id + "/ws" && e.verb == "" && e.limit == None))
  }

  /** The root passthrough of a cluster of another protocol. */
  predicate ServedByOther(e: Endpoint, backend: string, limited: Option<RateLimit>) {
    e == Endpoint("/rpc", "/", backend, "POST", limited)
  }

  predicate IsIndexer(e: Endpoint, ref: string, namespace: string) {
    e == Endpoint("/api/indexer/" + ref, "/", "http://" + ref + "." + namespace + ".svc:8080", "", None)
  }

  /** A route of the spec: its prefix, its backend with a scheme, its first method or GET, and its own limit. */
  predicate IsRoute(e: Endpoint, r: Route) {
    && e.path == r.prefix && e.urlPattern == r.prefix
    && e.host == (if "http://" <= r.backend || "https://" <= r.backend then r.backend else "http://" + r.backend)
    && e.verb == (if |r.methods| > 0 && r.methods[0] != "" then r.methods[0] else "GET")
    && e.limit == (if r.rateLimit.Some? && r.rateLimit.value.maxRate > 0 then r.rateLimit else None)
  }

  lemma BaseServed(e: Endpoint, backend: string, limit: Option<RateLimit>)
    ensures e in BaseEndpoints(backend, limit) <==> ServedByLux(e, backend, limit, [])
  {
  }

  lemma ChainServed(e: Endpoint, backend: string, limit: Option<RateLimit>, c: ChainRoute)
    ensures e in ChainEndpoints(backend, limit)(c) <==>
            && e.host == backend && e.urlPattern == e.path
            && (|| (e.path == "/v1/chain/" + c.id + "/rpc" && e.verb == "POST" && e.limit == limit)
                || (e.path == "/v1/chain/" + c.id + "/ws" && e.verb == "" && e.limit == None))
  {
  }

  lemma LuxServed(e: Endpoint, backend: string, limit: Option<RateLimit>, chains: seq<ChainRoute>)
    ensures e in BaseEndpoints(backend, limit) + FlatMap(ChainEndpoints(backend, limit), chains)
            <==> ServedByLux(e, backend, limit, chains)
  {
    BaseServed(e, backend, limit);
    SomeOf(ChainEndpoints(backend, limit), chains, e);
    forall c ensures e in ChainEndpoints(backend, limit)(c) <==>
            && e.host == backend && e.urlPattern == e.path
            && (|| (e.path == "/v1/chain/" + c.id + "/rpc" && e.verb == "POST" && e.limit == limit)
                || (e.path == "/v1/chain/" + c.id + "/ws" && e.verb == "" && e.limit == None))
    {
      ChainServed(e, backend, limit, c);
    }
  }

  lemma {:induction false} SomeOf<A>(f: A -> seq<Endpoint>, s: seq<A>, e: Endpoint)
    ensures e in FlatMap(f, s) <==> exists x :: x in s && e in f(x)
  {
    if |s| > 0 {
      var n := |s| - 1;
      SomeOf(f, s[..n], e);
      assert s == s[..n] + [s[n]];
    }
  }

  lemma IndexersServed(spec: Spec, e: Endpoint)
    ensures e in FlatMap(IndexerEndpoint(spec.namespace), spec.indexerRefs)
            <==> exists ref :: ref in spec.indexerRefs && IsIndexer(e, ref, spec.namespace)
  {
    SomeOf(IndexerEndpoint(spec.namespace), spec.indexerRefs, e);
    forall ref ensures e in IndexerEndpoint(spec.namespace)(ref) <==> IsIndexer(e, ref, spec.namespace) {
    }
  }

  lemma RoutesServed(spec: Spec, e: Endpoint)
    ensures e in FlatMap(RouteEndpoint, spec.routes) <==> exists r :: r in spec.routes && IsRoute(e, r)
  {
    SomeOf(RouteEndpoint, spec.routes, e);
    forall r ensures e in RouteEndpoint(r) <==> IsRoute(e, r) {
    }
  }

  /** The table holds exactly what the cluster serves, an endpoint for each indexer and one for each route of the spec. */
  lemma TableServes(spec: Spec, protocol: string, backend: string, chains: seq<ChainRoute>, e: Endpoint)
    ensures var limited := if spec.rateLimits.Some? && spec.rateLimits.value.maxRate > 0 then spec.rateLimits else None;
            e in Endpoints(spec, protocol, backend, chains) <==>
              || (spec.autoRoutes && backend != ""
                  && if protocol == "lux" then ServedByLux(e, backend, limited, chains) else ServedByOther(e, backend, limited))
              || (exists ref :: ref in spec.indexerRefs && IsIndexer(e, ref, spec.namespace))
              || (exists r :: r in spec.routes && IsRoute(e, r))
  {
    LimitIsConfigured(spec.rateLimits);
    LuxServed(e, backend, Limit(spec.rateLimits), chains);
    IndexersServed(spec, e);
    RoutesServed(spec, e);
  }

  // ---- no path twice ----

  lemma ChainPathsDiffer(a: string, b: string)
    ensures ChainPath(a, "/rpc") == ChainPath(b, "/rpc") <==> a == b
    ensures ChainPath(a, "/ws") == ChainPath(b, "/ws") <==> a == b
    ensures ChainPath(a, "/rpc") != ChainPath(b, "/ws")
  {
    SameMiddle("/v1/chain/", a, b, "/rpc");
    SameMiddle("/v1/chain/", a, b, "/ws");
    var s, t := ChainPath(a, "/rpc"), ChainPath(b, "/ws");
    assert s[|s| - 1] == 'c' && t[|t| - 1] == 's';
  }

  lemma {:induction false} ChainEndpointAt(f: ChainRoute -> seq<Endpoint>, chains: seq<ChainRoute>, k: nat)
    requires k < |chains| && forall c | c in chains :: |f(c)| == 2
    ensures |FlatMap(f, chains)| == 2 * |chains|
    ensures FlatMap(f, chains)[2 * k] == f(chains[k])[0] && FlatMap(f, chains)[2 * k + 1] == f(chains[k])[1]
  {
    var n := |chains| - 1;
    FlatMapLength(f, chains, 2);
    FlatMapLength(f, chains[..n], 2);
    assert |f(chains[n])| == 2;
    if k < n { ChainEndpointAt(f, chains[..n], k); }
  }

  ghost predicate Distinct(paths: seq<string>) {
    forall i, j | 0 <= i < j < |paths| :: paths[i] != paths[j]
  }

  function Paths(endpoints: seq<Endpoint>): (ps: seq<string>)
    ensures |ps| == |endpoints|
  {
    seq(|endpoints|, i requires 0 <= i < |endpoints| => endpoints[i].path)
  }

  /** The table path at each position: six fixed ones, then two a chain. */
  function PathAt(chains: seq<ChainRoute>, i: nat): string
    requires i < 6 + 2 * |chains|
  {
    if i == 0 then "/v1/chain/C/rpc"
    else if i == 1 then "/v1/chain/C/ws"
    else if i == 2 then "/v1/chain/X"
    else if i == 3 then "/v1/chain/P"
    else if i == 4 then "/v1/info"
    else if i == 5 then "/v1/health"
    else ChainPath(chains[(i - 6) / 2].id, if i % 2 == 0 then "/rpc" else "/ws")
  }

  lemma BasePathAt(backend: string, limit: Option<RateLimit>, chains: seq<ChainRoute>, i: nat)
    requires i < 6
    ensures |BaseEndpoints(backend, limit)| == 6 && BaseEndpoints(backend, limit)[i].path == PathAt(chains, i)
  {
  }

  lemma ChainPathAt(backend: string, limit: Option<RateLimit>, chains: seq<ChainRoute>, i: nat)
    requires i < 2 * |chains|
    ensures |FlatMap(ChainEndpoints(backend, limit), chains)| == 2 * |chains|
    ensures FlatMap(ChainEndpoints(backend, limit), chains)[i].path
            == ChainPath(chains[i / 2].id, if i % 2 == 0 then "/rpc" else "/ws")
  {
    ChainEndpointAt(ChainEndpoints(backend, limit), chains, i / 2);
    assert i == if i % 2 == 0 then 2 * (i / 2) else 2 * (i / 2) + 1;
  }

  lemma AutoPathAt(backend: string, limit: Option<RateLimit>, chains: seq<ChainRoute>, i: nat)
    requires i < 6 + 2 * |chains|
    ensures var table := BaseEndpoints(backend, limit) + FlatMap(ChainEndpoints(backend, limit), chains);
            |table| == 6 + 2 * |chains| && table[i].path == PathAt(chains, i)
  {
    FlatMapLength(ChainEndpoints(backend, limit), chains, 2);
    if i < 6 {
      BasePathAt(backend, limit, chains, i);
    } else {
      ChainPathAt(backend, limit, chains, i - 6);
      assert (i - 6) % 2 == i % 2;
    }
  }

  lemma FixedPaths()
    ensures ChainPath("C", "/rpc") == "/v1/chain/C/rpc" && ChainPath("C", "/ws") == "/v1/chain/C/ws"
  {
  }

  lemma FixedPathsDiffer(chains: seq<ChainRoute>, i: nat, j: nat)
    requires i < j < 6
    ensures PathAt(chains, i) != PathAt(chains, j)
  {
  }

  /** A chain's path is a fixed one exactly when the chain is called C. */
  lemma FixedAgainstChain(chains: seq<ChainRoute>, i: nat, j: nat)
    requires i < 6 <= j < 6 + 2 * |chains|
    ensures PathAt(chains, i) == PathAt(chains, j) <==> i < 2 && j % 2 == i && chains[(j - 6) / 2].id == "C"
  {
    var id := chains[(j - 6) / 2].id;
    FixedPaths();
    ChainPathsDiffer("C", id);
    ChainPathsDiffer(id, "C");
    assert |PathAt(chains, j)| >= 13;
  }

  /** Two chain paths agree exactly when they serve the same thing of the same ID. */
  lemma ChainAgainstChain(chains: seq<ChainRoute>, i: nat, j: nat)
    requires 6 <= i < 6 + 2 * |chains| && 6 <= j < 6 + 2 * |chains|
    ensures PathAt(chains, i) == PathAt(chains, j)
            <==> i % 2 == j % 2 && chains[(i - 6) / 2].id == chains[(j - 6) / 2].id
  {
    ChainPathsDiffer(chains[(i - 6) / 2].id, chains[(j - 6) / 2].id);
    ChainPathsDiffer(chains[(j - 6) / 2].id, chains[(i - 6) / 2].id);
  }

  ghost predicate IdsClash(chains: seq<ChainRoute>) {
    || (exists c :: c in chains && c.id == "C")
    || (exists k, l :: 0 <= k < l < |chains| && chains[k].id == chains[l].id)
  }

  /** Which two positions of the table hold one path, if any do. */
  lemma PathsClash(chains: seq<ChainRoute>, i: nat, j: nat)
    requires i < j < 6 + 2 * |chains| && PathAt(chains, i) == PathAt(chains, j)
    ensures IdsClash(chains)
  {
    if j < 6 {
      FixedPathsDiffer(chains, i, j);
    } else if i < 6 {
      FixedAgainstChain(chains, i, j);
      assert chains[(j - 6) / 2] in chains;
    } else {
      ChainAgainstChain(chains, i, j);
      assert (i - 6) / 2 < (j - 6) / 2;
    }
  }

  lemma ClashingPositions(chains: seq<ChainRoute>) returns (i: nat, j: nat)
    requires IdsClash(chains)
    ensures i < j < 6 + 2 * |chains| && PathAt(chains, i) == PathAt(chains, j)
  {
    if c :| c in chains && c.id == "C" {
      var k :| 0 <= k < |chains| && chains[k] == c;
      i, j := 0, 6 + 2 * k;
      assert (j - 6) / 2 == k && j % 2 == 0;
      FixedAgainstChain(chains, i, j);
    } else {
      var k, l :| 0 <= k < l < |chains| && chains[k].id == chains[l].id;
      i, j := 6 + 2 * k, 6 + 2 * l;
      assert (i - 6) / 2 == k && (j - 6) / 2 == l && i % 2 == j % 2 == 0;
      ChainAgainstChain(chains, i, j);
    }
  }

  /** The paths a lux cluster gets are pairwise distinct exactly when its chain IDs are, and none is C. */
  lemma AutoPathsAreDistinctIff(spec: Spec, backend: string, chains: seq<ChainRoute>)
    requires spec.autoRoutes && backend != ""
    ensures Distinct(Paths(AutoEndpoints(spec, "lux", backend, chains))) <==> !IdsClash(chains)
  {
    var ps := Paths(AutoEndpoints(spec, "lux", backend, chains));
    AutoPathAt(backend, Limit(spec.rateLimits), chains, 0);
    forall i | 0 <= i < |ps| ensures ps[i] == PathAt(chains, i) {
      AutoPathAt(backend, Limit(spec.rateLimits), chains, i);
    }
    if IdsClash(chains) {
      var i, j := ClashingPositions(chains);
      assert ps[i] == ps[j];
    } else {
      forall i, j | 0 <= i < j < |ps| ensures ps[i] != ps[j] {
        if PathAt(chains, i) == PathAt(chains, j) { PathsClash(chains, i, j); }
      }
    }
  }

  // ---- the status map ----

  function MapOf(chains: seq<ChainRoute>): map<string, string> {
    if |chains| == 0 then map[]
    else MapOf(chains[..|chains| - 1])[chains[|chains| - 1].name := chains[|chains| - 1].id]
  }

  /** `chainRouteMap`: no map at all when nothing was found. */
  method ChainRouteMap(chains: seq<ChainRoute>) returns (m: Option<map<string, string>>)
    ensures m == if chains == [] then None else Some(MapOf(chains))
  {
    if |chains| == 0 {
      return None;
    }
    var names: map<string, string> := map[];
    for i := 0 to |chains|
      invariant names == MapOf(chains[..i])
    {
      assert chains[..i + 1][..i] == chains[..i];
      names := names[chains[i].name := chains[i].id];
    }
    assert chains[..|chains|] == chains;
    m := Some(names);
  }

  /** A name shows the last ID it was found with. */
  lemma {:induction false} MapHoldsLast(chains: seq<ChainRoute>, name: string)
    ensures name in MapOf(chains) <==> exists c :: c in chains && c.name == name
    ensures name in MapOf(chains) ==>
              exists k :: 0 <= k < |chains| && chains[k] == ChainRoute(name, MapOf(chains)[name])
                          && forall l | k < l < |chains| :: chains[l].name != name
  {
    if |chains| > 0 {
      var n := |chains| - 1;
      MapHoldsLast(chains[..n], name);
      assert chains == chains[..n] + [chains[n]];
      if chains[n].name == name {
        assert chains[n] == ChainRoute(name, MapOf(chains)[name]);
      } else if name in MapOf(chains) {
        var k :| 0 <= k < n && chains[..n][k] == ChainRoute(name, MapOf(chains)[name])
                 && forall l | k < l < n :: chains[..n][l].name != name;
        assert chains[k] == chains[..n][k];
        assert forall l | k < l < n :: chains[l] == chains[..n][l];
      }
    }
  }

  /** Of the chains of one name, the status shows the greatest ID. */
  lemma StatusShowsGreatestId(answer: seq<Blockchain>, c: ChainRoute)
    requires c in Discovered(answer)
    ensures c.name in MapOf(Discovered(answer))
    ensures ChainRoute(c.name, MapOf(Discovered(answer))[c.name]) in Discovered(answer)
    ensures Le(c.id, MapOf(Discovered(answer))[c.name])
  {
    var chains := Discovered(answer);
    MapHoldsLast(chains, c.name);
    var k :| 0 <= k < |chains| && chains[k] == ChainRoute(c.name, MapOf(chains)[c.name])
             && forall l | k < l < |chains| :: chains[l].name != c.name;
    var l :| 0 <= l < |chains| && chains[l] == c;
    LeTotal(c.id, c.id);
    assert l < k ==> ByNameThenID(chains[l], chains[k]);
  }

  /** The status shows every routed chain exactly when no two of them share a name. */
  lemma StatusShowsAllIff(chains: seq<ChainRoute>)
    ensures (forall c | c in chains :: c.name in MapOf(chains) && MapOf(chains)[c.name] == c.id)
            <==> forall c, d | c in chains && d in chains && c.name == d.name :: c.id == d.id
  {
  }
}
