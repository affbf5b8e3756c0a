/** The luxd command line, printed once as an argument list and once as a shell script. */
module LuxFlags {
  import opened Wrappers
  import opened Sorting
  import opened Strings
  import opened Patterns
  import opened Shell

  datatype Spec = Spec(
    networkID: string,
    rpc: int,
    p2p: int,
    adminEnabled: bool,
    indexEnabled: bool,
    metricsEnabled: Option<bool>,
    bootstrapNodes: seq<string>,
    allowPrivateIPs: bool,
    params: map<string, string>,
    keysSecret: Option<string>,
    chains: seq<string>,
    protocolConfig: bool,
    plugins: Option<nat>)

  function RpcPort(spec: Spec): int {
    if spec.rpc > 0 then spec.rpc else 9650
  }

  function StakingPort(spec: Spec): int {
    if spec.p2p > 0 then spec.p2p else 9651
  }

  predicate IsPrivateNetwork(networkID: string) {
    networkID != "1" && networkID != "5"
  }

  predicate NeedsConfigMap(spec: Spec) {
    |spec.chains| > 0 || spec.protocolConfig
  }

  function Luxd(): string { "/luxd/build/luxd" }

  function StakingDir(): string { "/staking" }

  // ---- what luxd is to be run with ----

  function NodeFlags(spec: Spec): seq<string> {
    ["--network-id=" + spec.networkID, "--public-ip-resolution-service=ifcfg.me", "--db-dir=/data/db"]
  }

  function PortFlags(spec: Spec): seq<string> {
    [ "--http-port=" + Decimal(RpcPort(spec)),
      "--staking-port=" + Decimal(StakingPort(spec)),
      "--http-host=0.0.0.0" ]
  }

  function BaseFlags(spec: Spec): seq<string> {
    NodeFlags(spec) + PortFlags(spec)
  }

  function ApiFlags(spec: Spec): seq<string> {
    (if spec.adminEnabled then ["--api-admin-enabled=true"] else [])
    + (if spec.indexEnabled then ["--index-enabled=true"] else [])
    + (if spec.metricsEnabled == Some(false) then [] else ["--api-metrics-enabled=true"])
  }

  function NetworkFlags(spec: Spec): seq<string> {
    (if IsPrivateNetwork(spec.networkID) then ["--sybil-protection-enabled=false"] else [])
    + (if spec.bootstrapNodes == [] then [] else ["--bootstrap-ips=" + Join(spec.bootstrapNodes, ',')])
    + (if spec.allowPrivateIPs then ["--allow-private-ips=true"] else [])
  }

  /** Five parameters have names of their own; any other key is passed through. */
  function ParamName(key: string): string {
    if key == "snowSampleSize" then "--snow-sample-size="
    else if key == "snowQuorumSize" then "--snow-quorum-size="
    else if key == "snowVirtuousCommitThreshold" then "--snow-virtuous-commit-threshold="
    else if key == "snowRogueCommitThreshold" then "--snow-rogue-commit-threshold="
    else if key == "snowConcurrentRepolls" then "--snow-concurrent-repolls="
    else "--" + key + "="
  }

  function ParamFlag(key: string, value: string): string {
    ParamName(key) + value
  }

  /** One order in which ranging over the map may visit it. */
  ghost predicate IsVisit(params: map<string, string>, visit: seq<string>) {
    && (forall key :: key in visit <==> key in params)
    && (forall i, j | 0 <= i < j < |visit| :: visit[i] != visit[j])
  }

  function ParamFlags(params: map<string, string>): string -> seq<string> {
    (key: string) => if key in params then [ParamFlag(key, params[key])] else []
  }

  function ConsensusFlags(params: map<string, string>, visit: seq<string>): seq<string> {
    FlatMap(ParamFlags(params), visit)
  }

  function KeyFlags(spec: Spec): seq<string> {
    if spec.keysSecret == None || spec.keysSecret == Some("") then []
    else
      [ "--staking-tls-cert-file=" + StakingDir() + "/staker.crt",
        "--staking-tls-key-file=" + StakingDir() + "/staker.key",
        "--staking-signer-key-file=" + StakingDir() + "/signer.key" ]
  }

  function ChainFlag(chain: string): seq<string> {
    ["--track-subnets=" + chain]
  }

  function PluginFlags(spec: Spec): seq<string> {
    if spec.plugins == None || spec.plugins == Some(0) then [] else ["--plugin-dir=/plugins"]
  }

  function Flags(spec: Spec, visit: seq<string>): seq<string> {
    BaseFlags(spec) + ApiFlags(spec) + NetworkFlags(spec) + ConsensusFlags(spec.params, visit)
    + KeyFlags(spec) + FlatMap(ChainFlag, spec.chains) + PluginFlags(spec)
  }

  // ---- the list, flag by flag ----

  /** The flag a parameter prints: five keys have names of their own, any other is the name. */
  ghost predicate PrintsParam(f: string, key: string, value: string) {
    f == if key == "snowSampleSize" then "--snow-sample-size=" + value
         else if key == "snowQuorumSize" then "--snow-quorum-size=" + value
         else if key == "snowVirtuousCommitThreshold" then "--snow-virtuous-commit-threshold=" + value
         else if key == "snowRogueCommitThreshold" then "--snow-rogue-commit-threshold=" + value
         else if key == "snowConcurrentRepolls" then "--snow-concurrent-repolls=" + value
         else "--" + key + "=" + value
  }

  ghost predicate IsFixedFlag(spec: Spec, f: string) {
    || f == "--network-id=" + spec.networkID
    || f == "--public-ip-resolution-service=ifcfg.me"
    || f == "--db-dir=/data/db"
    || f == "--http-port=" + Decimal(if spec.rpc > 0 then spec.rpc else 9650)
    || f == "--staking-port=" + Decimal(if spec.p2p > 0 then spec.p2p else 9651)
    || f == "--http-host=0.0.0.0"
  }

  ghost predicate IsApiFlag(spec: Spec, f: string) {
    || (spec.adminEnabled && f == "--api-admin-enabled=true")
    || (spec.indexEnabled && f == "--index-enabled=true")
    || ((spec.metricsEnabled == None || spec.metricsEnabled == Some(true)) && f == "--api-metrics-enabled=true")
  }

  ghost predicate IsNetworkFlag(spec: Spec, f: string) {
    || (spec.networkID != "1" && spec.networkID != "5" && f == "--sybil-protection-enabled=false")
    || (|spec.bootstrapNodes| > 0 && f == "--bootstrap-ips=" + Join(spec.bootstrapNodes, ','))
    || (spec.allowPrivateIPs && f == "--allow-private-ips=true")
  }

  ghost predicate IsParamFlag(spec: Spec, f: string) {
    exists key :: key in spec.params && PrintsParam(f, key, spec.params[key])
  }

  ghost predicate IsKeyFlag(spec: Spec, f: string) {
    && spec.keysSecret.Some? && spec.keysSecret.value != ""
    && (|| f == "--staking-tls-cert-file=" + "/staking" + "/staker.crt"
        || f == "--staking-tls-key-file=" + "/staking" + "/staker.key"
        || f == "--staking-signer-key-file=" + "/staking" + "/signer.key")
  }

  ghost predicate IsChainFlag(spec: Spec, f: string) {
    exists chain :: chain in spec.chains && f == "--track-subnets=" + chain
  }

  ghost predicate IsPluginFlag(spec: Spec, f: string) {
    spec.plugins.Some? && spec.plugins.value > 0 && f == "--plugin-dir=/plugins"
  }

  ghost predicate IsAsked(spec: Spec, f: string) {
    || IsFixedFlag(spec, f) || IsApiFlag(spec, f) || IsNetworkFlag(spec, f) || IsParamFlag(spec, f)
    || IsKeyFlag(spec, f) || IsChainFlag(spec, f) || IsPluginFlag(spec, f)
  }

  /** How many flags a spec asks for: one a switch, a parameter and a chain, three for its keys. */
  ghost function AskedCount(spec: Spec): nat {
    6 + (if spec.adminEnabled then 1 else 0) + (if spec.indexEnabled then 1 else 0)
    + (if spec.metricsEnabled == None || spec.metricsEnabled == Some(true) then 1 else 0)
    + (if spec.networkID != "1" && spec.networkID != "5" then 1 else 0)
    + (if |spec.bootstrapNodes| > 0 then 1 else 0) + (if spec.allowPrivateIPs then 1 else 0) + |spec.params|
    + (if spec.keysSecret.Some? && spec.keysSecret.value != "" then 3 else 0) + |spec.chains|
    + (if spec.plugins.Some? && spec.plugins.value > 0 then 1 else 0)
  }

  /** What a spec asks of the list, whatever the order of its parameters. */
  ghost predicate RunsAsAsked(spec: Spec, args: seq<string>) {
    |args| == AskedCount(spec) && forall f :: f in args <==> IsAsked(spec, f)
  }

  lemma FixedFlags(spec: Spec, f: string)
    ensures f in BaseFlags(spec) <==> IsFixedFlag(spec, f)
  {
  }

  lemma SwitchFlags(spec: Spec, f: string)
    ensures f in ApiFlags(spec) <==> IsApiFlag(spec, f)
    ensures f in NetworkFlags(spec) <==> IsNetworkFlag(spec, f)
  {
    var metrics: seq<string> := if spec.metricsEnabled == Some(false) then [] else ["--api-metrics-enabled=true"];
    assert metrics == [] <==> spec.metricsEnabled != None && spec.metricsEnabled != Some(true) by {
      assert spec.metricsEnabled.Some? && !spec.metricsEnabled.value ==> spec.metricsEnabled == Some(false);
    }
  }

  lemma KeyAndPluginFlags(spec: Spec, f: string)
    ensures f in KeyFlags(spec) <==> IsKeyFlag(spec, f)
    ensures f in PluginFlags(spec) <==> IsPluginFlag(spec, f)
  {
  }

  lemma PrintedParam(key: string, value: string, f: string)
    ensures f == ParamFlag(key, value) <==> PrintsParam(f, key, value)
  {
  }

  lemma {:induction false} InFlatMap(g: string -> seq<string>, s: seq<string>, f: string)
    ensures f in FlatMap(g, s) <==> exists x :: x in s && f in g(x)
  {
    if |s| > 0 {
      var n := |s| - 1;
      InFlatMap(g, s[..n], f);
      assert s == s[..n] + [s[n]];
    }
  }

  lemma ParamsPrinted(spec: Spec, visit: seq<string>, f: string)
    requires IsVisit(spec.params, visit)
    ensures f in ConsensusFlags(spec.params, visit) <==> IsParamFlag(spec, f)
  {
    InFlatMap(ParamFlags(spec.params), visit, f);
    forall key | key in spec.params
      ensures f in ParamFlags(spec.params)(key) <==> PrintsParam(f, key, spec.params[key])
    {
      PrintedParam(key, spec.params[key], f);
    }
  }

  lemma ChainsPrinted(spec: Spec, f: string)
    ensures f in FlatMap(ChainFlag, spec.chains) <==> IsChainFlag(spec, f)
  {
    InFlatMap(ChainFlag, spec.chains, f);
  }

  /** The flag list is what the spec asks for: no flag is missing, and none is there that nothing asks for. */
  lemma FlagsAreAsAsked(spec: Spec, visit: seq<string>)
    requires IsVisit(spec.params, visit)
    ensures RunsAsAsked(spec, Flags(spec, visit))
  {
    FlagsAreCounted(spec, visit);
    forall f ensures f in Flags(spec, visit) <==> IsAsked(spec, f) { FlagIsAsked(spec, visit, f); }
  }

  lemma SwitchesAreCounted(spec: Spec)
    ensures |BaseFlags(spec)| == 6
    ensures |ApiFlags(spec)| == (if spec.adminEnabled then 1 else 0) + (if spec.indexEnabled then 1 else 0)
              + (if spec.metricsEnabled == None || spec.metricsEnabled == Some(true) then 1 else 0)
    ensures |NetworkFlags(spec)| == (if spec.networkID != "1" && spec.networkID != "5" then 1 else 0)
              + (if |spec.bootstrapNodes| > 0 then 1 else 0) + (if spec.allowPrivateIPs then 1 else 0)
  {
    assert spec.metricsEnabled.Some? && !spec.metricsEnabled.value ==> spec.metricsEnabled == Some(false);
  }

  lemma {:induction false} VisitsEachOnce(keys: set<string>, visit: seq<string>)
    requires forall key :: key in visit <==> key in keys
    requires forall i, j | 0 <= i < j < |visit| :: visit[i] != visit[j]
    ensures |visit| == |keys|
  {
    if |visit| == 0 {
      assert keys == {} by { assert forall key :: key in keys ==> key in visit; }
    } else {
      var n := |visit| - 1;
      assert visit == visit[..n] + [visit[n]];
      VisitsEachOnce(keys - {visit[n]}, visit[..n]);
    }
  }

  lemma ParamsAndChainsAreCounted(spec: Spec, visit: seq<string>)
    requires IsVisit(spec.params, visit)
    ensures |ConsensusFlags(spec.params, visit)| == |spec.params|
    ensures |FlatMap(ChainFlag, spec.chains)| == |spec.chains|
  {
    FlagAt(spec.params, visit);
    VisitsEachOnce(spec.params.Keys, visit);
    assert |spec.params.Keys| == |spec.params|;
    FlatMapOfSingletons(ChainFlag, spec.chains);
  }

  lemma KeysAndPluginsAreCounted(spec: Spec)
    ensures |KeyFlags(spec)| == if spec.keysSecret.Some? && spec.keysSecret.value != "" then 3 else 0
    ensures |PluginFlags(spec)| == if spec.plugins.Some? && spec.plugins.value > 0 then 1 else 0
  {
  }

  lemma FlagsAreCounted(spec: Spec, visit: seq<string>)
    requires IsVisit(spec.params, visit)
    ensures |Flags(spec, visit)| == AskedCount(spec)
  {
    SwitchesAreCounted(spec);
    ParamsAndChainsAreCounted(spec, visit);
    KeysAndPluginsAreCounted(spec);
    SevenLong(BaseFlags(spec), ApiFlags(spec), NetworkFlags(spec), ConsensusFlags(spec.params, visit),
              KeyFlags(spec), FlatMap(ChainFlag, spec.chains), PluginFlags(spec));
  }

  lemma SevenLong(a: seq<string>, b: seq<string>, c: seq<string>, d: seq<string>,
                  e: seq<string>, g: seq<string>, h: seq<string>)
    ensures |a + b + c + d + e + g + h| == |a| + |b| + |c| + |d| + |e| + |g| + |h|
  {
  }

  lemma FlagIsAsked(spec: Spec, visit: seq<string>, f: string)
    requires IsVisit(spec.params, visit)
    ensures f in Flags(spec, visit) <==> IsAsked(spec, f)
  {
    FixedFlags(spec, f);
    SwitchFlags(spec, f);
    KeyAndPluginFlags(spec, f);
    ParamsPrinted(spec, visit, f);
    ChainsPrinted(spec, f);
    InSeven(f, BaseFlags(spec), ApiFlags(spec), NetworkFlags(spec), ConsensusFlags(spec.params, visit),
            KeyFlags(spec), FlatMap(ChainFlag, spec.chains), PluginFlags(spec));
  }

  lemma InSeven(f: string, a: seq<string>, b: seq<string>, c: seq<string>, d: seq<string>,
                e: seq<string>, g: seq<string>, h: seq<string>)
    ensures f in a + b + c + d + e + g + h
            <==> f in a || f in b || f in c || f in d || f in e || f in g || f in h
  {
  }

  // ---- which flags a spec gets, as long as no parameter prints them too ----

  /** Where the flag names differ. */
  ghost predicate Begins(f: string, c: char, d: char) {
    |f| >= 9 && f[2] == c && f[3] == d
  }

  lemma FixedBegin(spec: Spec, f: string)
    requires IsFixedFlag(spec, f)
    ensures Begins(f, 'n', 'e') || Begins(f, 'p', 'u') || Begins(f, 'd', 'b') || Begins(f, 's', 't') || Begins(f, 'h', 't')
  {
  }

  lemma ApiBegin(spec: Spec, f: string)
    requires IsApiFlag(spec, f)
    ensures Begins(f, 'a', 'p') || Begins(f, 'i', 'n')
  {
  }

  lemma NetworkBegin(spec: Spec, f: string)
    requires IsNetworkFlag(spec, f)
    ensures Begins(f, 's', 'y') || Begins(f, 'b', 'o') || Begins(f, 'a', 'l')
  {
  }

  lemma RestBegin(spec: Spec, f: string)
    ensures IsKeyFlag(spec, f) ==> Begins(f, 's', 't')
    ensures IsChainFlag(spec, f) ==> Begins(f, 't', 'r')
    ensures IsPluginFlag(spec, f) ==> Begins(f, 'p', 'l')
  {
  }

  lemma GroupsBegin(spec: Spec, f: string)
    ensures IsFixedFlag(spec, f) ==>
              Begins(f, 'n', 'e') || Begins(f, 'p', 'u') || Begins(f, 'd', 'b') || Begins(f, 's', 't') || Begins(f, 'h', 't')
    ensures IsApiFlag(spec, f) ==> Begins(f, 'a', 'p') || Begins(f, 'i', 'n')
    ensures IsNetworkFlag(spec, f) ==> Begins(f, 's', 'y') || Begins(f, 'b', 'o') || Begins(f, 'a', 'l')
    ensures IsKeyFlag(spec, f) ==> Begins(f, 's', 't')
    ensures IsChainFlag(spec, f) ==> Begins(f, 't', 'r')
    ensures IsPluginFlag(spec, f) ==> Begins(f, 'p', 'l')
  {
    if IsFixedFlag(spec, f) { FixedBegin(spec, f); }
    if IsApiFlag(spec, f) { ApiBegin(spec, f); }
    if IsNetworkFlag(spec, f) { NetworkBegin(spec, f); }
    RestBegin(spec, f);
  }

  /** A flag is in the list only because its own group asks for it. */
  lemma OneGroupAsks(spec: Spec, args: seq<string>, f: string)
    requires RunsAsAsked(spec, args) && !IsParamFlag(spec, f)
    ensures Begins(f, 'n', 'e') || Begins(f, 'h', 't') ==> (f in args <==> IsFixedFlag(spec, f))
    ensures Begins(f, 's', 't') ==> (f in args <==> IsFixedFlag(spec, f) || IsKeyFlag(spec, f))
    ensures Begins(f, 'a', 'p') || Begins(f, 'i', 'n') ==> (f in args <==> IsApiFlag(spec, f))
    ensures Begins(f, 's', 'y') || Begins(f, 'b', 'o') || Begins(f, 'a', 'l') ==> (f in args <==> IsNetworkFlag(spec, f))
    ensures Begins(f, 't', 'r') ==> (f in args <==> IsChainFlag(spec, f))
    ensures Begins(f, 'p', 'l') ==> (f in args <==> IsPluginFlag(spec, f))
  {
    GroupsBegin(spec, f);
  }

  /** Sybil protection is off exactly on networks other than 1 and 5; nodes are listed and private addresses allowed on request. */
  lemma NetworkFlagsIff(spec: Spec, args: seq<string>, nodes: string)
    requires RunsAsAsked(spec, args)
    ensures !IsParamFlag(spec, "--sybil-protection-enabled=false") ==>
              ("--sybil-protection-enabled=false" in args <==> spec.networkID != "1" && spec.networkID != "5")
    ensures !IsParamFlag(spec, "--bootstrap-ips=" + nodes) ==>
              ("--bootstrap-ips=" + nodes in args <==> |spec.bootstrapNodes| > 0 && nodes == Join(spec.bootstrapNodes, ','))
    ensures !IsParamFlag(spec, "--allow-private-ips=true") ==>
              ("--allow-private-ips=true" in args <==> spec.allowPrivateIPs)
  {
    NetworkFlagNames(spec, nodes);
    NetworkGroup(spec, args, "--sybil-protection-enabled=false");
    NetworkGroup(spec, args, "--bootstrap-ips=" + nodes);
    NetworkGroup(spec, args, "--allow-private-ips=true");
  }

  lemma NetworkGroup(spec: Spec, args: seq<string>, f: string)
    requires RunsAsAsked(spec, args)
    requires Begins(f, 's', 'y') || Begins(f, 'b', 'o') || Begins(f, 'a', 'l')
    ensures !IsParamFlag(spec, f) ==> (f in args <==> IsNetworkFlag(spec, f))
  {
    if !IsParamFlag(spec, f) { OneGroupAsks(spec, args, f); }
  }

  lemma NetworkFlagNames(spec: Spec, nodes: string)
    ensures IsNetworkFlag(spec, "--sybil-protection-enabled=false") <==> spec.networkID != "1" && spec.networkID != "5"
    ensures IsNetworkFlag(spec, "--bootstrap-ips=" + nodes)
            <==> |spec.bootstrapNodes| > 0 && nodes == Join(spec.bootstrapNodes, ',')
    ensures IsNetworkFlag(spec, "--allow-private-ips=true") <==> spec.allowPrivateIPs
  {
    SameTail("--bootstrap-ips=", nodes, Join(spec.bootstrapNodes, ','));
    assert Begins("--sybil-protection-enabled=false", 's', 'y');
    assert Begins("--allow-private-ips=true", 'a', 'l');
    assert Begins("--bootstrap-ips=" + nodes, 'b', 'o');
    assert Begins("--bootstrap-ips=" + Join(spec.bootstrapNodes, ','), 'b', 'o');
  }

  lemma SameTail(front: string, a: string, b: string)
    ensures front + a == front + b <==> a == b
  {
    if front + a == front + b {
      assert a == (front + a)[|front|..] && b == (front + b)[|front|..];
    }
  }

  /** The ports are the configured ones when positive, 9650 and 9651 otherwise. */
  lemma PortFlagsIff(spec: Spec, args: seq<string>, text: string)
    requires RunsAsAsked(spec, args)
    ensures !IsParamFlag(spec, "--http-port=" + text) ==>
              ("--http-port=" + text in args <==> text == Decimal(if spec.rpc > 0 then spec.rpc else 9650))
    ensures !IsParamFlag(spec, "--staking-port=" + text) ==>
              ("--staking-port=" + text in args <==> text == Decimal(if spec.p2p > 0 then spec.p2p else 9651))
  {
    PortFlagNames(spec, text);
    StakingPortIsNoKey(spec, text);
    HttpPortLetters(text);
    FixedGroup(spec, args, "--http-port=" + text);
    FixedGroup(spec, args, "--staking-port=" + text);
  }

  /** luxd is told its own network. */
  lemma NetworkIdIff(spec: Spec, args: seq<string>, text: string)
    requires RunsAsAsked(spec, args)
    ensures !IsParamFlag(spec, "--network-id=" + text) ==>
              ("--network-id=" + text in args <==> text == spec.networkID)
  {
    PortFlagNames(spec, text);
    StakingPortIsNoKey(spec, text);
    HttpPortLetters(text);
    FixedGroup(spec, args, "--network-id=" + text);
  }

  lemma FixedGroup(spec: Spec, args: seq<string>, f: string)
    requires RunsAsAsked(spec, args) && !IsKeyFlag(spec, f)
    requires Begins(f, 'n', 'e') || Begins(f, 'h', 't') || Begins(f, 's', 't')
    ensures !IsParamFlag(spec, f) ==> (f in args <==> IsFixedFlag(spec, f))
  {
    if !IsParamFlag(spec, f) { OneGroupAsks(spec, args, f); }
  }

  lemma StakingPortIsNoKey(spec: Spec, text: string)
    ensures !IsKeyFlag(spec, "--staking-port=" + text)
    ensures !IsKeyFlag(spec, "--http-port=" + text) && !IsKeyFlag(spec, "--network-id=" + text)
  {
    assert ("--staking-port=" + text)[10] == 'p';
    assert Begins("--http-port=" + text, 'h', 't') && Begins("--network-id=" + text, 'n', 'e');
    KeyLetters(spec, "--staking-port=" + text);
    KeyLetters(spec, "--http-port=" + text);
    KeyLetters(spec, "--network-id=" + text);
  }

  lemma KeyLetters(spec: Spec, f: string)
    ensures IsKeyFlag(spec, f) ==> |f| > 14 && Begins(f, 's', 't') && f[10] != 'p'
  {
  }

  lemma PortFlagNames(spec: Spec, text: string)
    ensures IsFixedFlag(spec, "--http-port=" + text) <==> text == Decimal(if spec.rpc > 0 then spec.rpc else 9650)
    ensures IsFixedFlag(spec, "--staking-port=" + text) <==> text == Decimal(if spec.p2p > 0 then spec.p2p else 9651)
    ensures IsFixedFlag(spec, "--network-id=" + text) <==> text == spec.networkID
  {
    SameTail("--http-port=", text, Decimal(if spec.rpc > 0 then spec.rpc else 9650));
    SameTail("--staking-port=", text, Decimal(if spec.p2p > 0 then spec.p2p else 9651));
    SameTail("--network-id=", text, spec.networkID);
    HttpPortLetters(text);
    FixedByLetters(spec, "--http-port=" + text);
    FixedByLetters(spec, "--staking-port=" + text);
    FixedByLetters(spec, "--network-id=" + text);
  }

  lemma HttpPortLetters(text: string)
    ensures Begins("--http-port=" + text, 'h', 't') && ("--http-port=" + text)[7] == 'p'
    ensures Begins("--staking-port=" + text, 's', 't') && Begins("--network-id=" + text, 'n', 'e')
  {
  }

  lemma FixedByLetters(spec: Spec, f: string)
    ensures Begins(f, 'n', 'e') ==> (IsFixedFlag(spec, f) <==> f == "--network-id=" + spec.networkID)
    ensures Begins(f, 'h', 't') && f[7] == 'p' ==>
              (IsFixedFlag(spec, f) <==> f == "--http-port=" + Decimal(if spec.rpc > 0 then spec.rpc else 9650))
    ensures Begins(f, 's', 't') ==>
              (IsFixedFlag(spec, f) <==> f == "--staking-port=" + Decimal(if spec.p2p > 0 then spec.p2p else 9651))
  {
  }

  /** Each API is on as the spec says, metrics unless they are switched off. */
  lemma ApiFlagsIff(spec: Spec, args: seq<string>)
    requires RunsAsAsked(spec, args)
    ensures !IsParamFlag(spec, "--api-admin-enabled=true") ==>
              ("--api-admin-enabled=true" in args <==> spec.adminEnabled)
    ensures !IsParamFlag(spec, "--index-enabled=true") ==>
              ("--index-enabled=true" in args <==> spec.indexEnabled)
    ensures !IsParamFlag(spec, "--api-metrics-enabled=true") ==>
              ("--api-metrics-enabled=true" in args <==> spec.metricsEnabled == None || spec.metricsEnabled == Some(true))
  {
    ApiFlagNames(spec);
    ApiGroup(spec, args, "--api-admin-enabled=true");
    ApiGroup(spec, args, "--index-enabled=true");
    ApiGroup(spec, args, "--api-metrics-enabled=true");
  }

  lemma ApiGroup(spec: Spec, args: seq<string>, f: string)
    requires RunsAsAsked(spec, args) && (Begins(f, 'a', 'p') || Begins(f, 'i', 'n'))
    ensures !IsParamFlag(spec, f) ==> (f in args <==> IsApiFlag(spec, f))
  {
    if !IsParamFlag(spec, f) { OneGroupAsks(spec, args, f); }
  }

  lemma ApiFlagNames(spec: Spec)
    ensures IsApiFlag(spec, "--api-admin-enabled=true") <==> spec.adminEnabled
    ensures IsApiFlag(spec, "--index-enabled=true") <==> spec.indexEnabled
    ensures IsApiFlag(spec, "--api-metrics-enabled=true")
            <==> spec.metricsEnabled == None || spec.metricsEnabled == Some(true)
  {
    assert "--api-admin-enabled=true"[6] != "--api-metrics-enabled=true"[6];
    assert Begins("--index-enabled=true", 'i', 'n');
    assert Begins("--api-admin-enabled=true", 'a', 'p') && Begins("--api-metrics-enabled=true", 'a', 'p');
  }

  /** The three staking files are named when there is a secret, a chain is tracked when it is listed, plugins when there are any. */
  lemma KeyFlagsIff(spec: Spec, args: seq<string>, f: string)
    requires RunsAsAsked(spec, args) && !IsParamFlag(spec, f)
    requires || f == "--staking-tls-cert-file=" + "/staking" + "/staker.crt"
             || f == "--staking-tls-key-file=" + "/staking" + "/staker.key"
             || f == "--staking-signer-key-file=" + "/staking" + "/signer.key"
    ensures f in args <==> spec.keysSecret != None && spec.keysSecret != Some("")
  {
    KeyFileLetters(f);
    NoFixedFlagIsAFile(spec, f);
    OneGroupAsks(spec, args, f);
    assert spec.keysSecret.Some? && spec.keysSecret.value == "" ==> spec.keysSecret == Some("");
  }

  lemma KeyFileLetters(f: string)
    requires || f == "--staking-tls-cert-file=" + "/staking" + "/staker.crt"
             || f == "--staking-tls-key-file=" + "/staking" + "/staker.key"
             || f == "--staking-signer-key-file=" + "/staking" + "/signer.key"
    ensures |f| > 14 && Begins(f, 's', 't') && f[10] != 'p'
  {
  }

  lemma NoFixedFlagIsAFile(spec: Spec, f: string)
    requires |f| > 14 && Begins(f, 's', 't') && f[10] != 'p'
    ensures !IsFixedFlag(spec, f)
  {
  }

  lemma TrackedIff(spec: Spec, args: seq<string>, chain: string)
    requires RunsAsAsked(spec, args)
    ensures !IsParamFlag(spec, "--track-subnets=" + chain) ==>
              ("--track-subnets=" + chain in args <==> chain in spec.chains)
  {
    var f := "--track-subnets=" + chain;
    assert Begins(f, 't', 'r');
    forall other | f == "--track-subnets=" + other ensures chain == other {
      SameTail("--track-subnets=", chain, other);
    }
    if !IsParamFlag(spec, f) { OneGroupAsks(spec, args, f); }
  }

  lemma PluginDirIff(spec: Spec, args: seq<string>)
    requires RunsAsAsked(spec, args) && !IsParamFlag(spec, "--plugin-dir=/plugins")
    ensures "--plugin-dir=/plugins" in args <==> spec.plugins != None && spec.plugins != Some(0)
  {
    PluginLetters("--plugin-dir=/plugins");
    OneGroupAsks(spec, args, "--plugin-dir=/plugins");
  }

  lemma PluginLetters(f: string)
    requires f == "--plugin-dir=/plugins"
    ensures Begins(f, 'p', 'l')
  {
  }

  // ---- the two printers ----

  method ConsensusArg(key: string, value: string) returns (arg: string)
    ensures arg == ParamFlag(key, value)
  {
    match key {
      case "snowSampleSize" => arg := "--snow-sample-size=" + value;
      case "snowQuorumSize" => arg := "--snow-quorum-size=" + value;
      case "snowVirtuousCommitThreshold" => arg := "--snow-virtuous-commit-threshold=" + value;
      case "snowRogueCommitThreshold" => arg := "--snow-rogue-commit-threshold=" + value;
      case "snowConcurrentRepolls" => arg := "--snow-concurrent-repolls=" + value;
      case _ => arg := "--" + key + "=" + value;
    }
  }

  /** Ranging over a map: any order may come up. */
  method ConsensusArgs(params: map<string, string>) returns (args: seq<string>)
    ensures exists visit :: IsVisit(params, visit) && args == ConsensusFlags(params, visit)
  {
    args := [];
    ghost var visit: seq<string> := [];
    var left := params.Keys;
    while left != {}
      invariant left <= params.Keys
      invariant forall key :: key in visit <==> key in params && key !in left
      invariant forall i, j | 0 <= i < j < |visit| :: visit[i] != visit[j]
      invariant args == ConsensusFlags(params, visit)
      decreases left
    {
      var key :| key in left;
      var arg := ConsensusArg(key, params[key]);
      args := args + [arg];
      assert (visit + [key])[..|visit|] == visit;
      left := left - {key};
      visit := visit + [key];
    }
  }

  /** `BuildCommand`: with a config file the container runs the script, without one it runs luxd. */
  method BuildCommand(spec: Spec) returns (command: string, args: seq<string>)
    ensures NeedsConfigMap(spec) ==> command == "/bin/sh" && args == ["/configs/startup.sh"]
    ensures !NeedsConfigMap(spec) ==>
              command == Luxd() && exists visit :: IsVisit(spec.params, visit) && args == Flags(spec, visit)
    ensures if |spec.chains| > 0 || spec.protocolConfig then command == "/bin/sh" && args == ["/configs/startup.sh"]
            else command == "/luxd/build/luxd" && RunsAsAsked(spec, args)
  {
    if NeedsConfigMap(spec) {
      return "/bin/sh", ["/configs/startup.sh"];
    }
    args := StartArgs(spec);
    args := AppendApi(spec, args);
    args := AppendNetwork(spec, args);
    var consensus := ConsensusArgs(spec.params);
    ghost var visit :| IsVisit(spec.params, visit) && consensus == ConsensusFlags(spec.params, visit);
    args := args + consensus;
    args := AppendKeys(spec, args);
    args := AppendChains(spec, args);
    args := AppendPlugins(spec, args);
    assert args == Flags(spec, visit);
    FlagsAreAsAsked(spec, visit);
    command := "/luxd/build/luxd";
  }

  method StartArgs(spec: Spec) returns (args: seq<string>)
    ensures args == BaseFlags(spec)
  {
    args := [ "--network-id=" + spec.networkID,
              "--public-ip-resolution-service=ifcfg.me",
              "--db-dir=/data/db",
              "--http-port=" + Decimal(RpcPort(spec)),
              "--staking-port=" + Decimal(StakingPort(spec)) ];
    args := args + ["--http-host=0.0.0.0"];
  }

  method AppendApi(spec: Spec, start: seq<string>) returns (args: seq<string>)
    ensures args == start + ApiFlags(spec)
  {
    args := start;
    if spec.adminEnabled {
      args := args + ["--api-admin-enabled=true"];
    }
    if spec.indexEnabled {
      args := args + ["--index-enabled=true"];
    }
    if spec.metricsEnabled.None? || spec.metricsEnabled.value {
      args := args + ["--api-metrics-enabled=true"];
    }
  }

  method AppendNetwork(spec: Spec, start: seq<string>) returns (args: seq<string>)
    ensures args == start + NetworkFlags(spec)
  {
    args := start;
    if IsPrivateNetwork(spec.networkID) {
      args := args + ["--sybil-protection-enabled=false"];
    }
    if |spec.bootstrapNodes| > 0 {
      args := args + ["--bootstrap-ips=" + Join(spec.bootstrapNodes, ',')];
    }
    if spec.allowPrivateIPs {
      args := args + ["--allow-private-ips=true"];
    }
  }

  method AppendKeys(spec: Spec, start: seq<string>) returns (args: seq<string>)
    ensures args == start + KeyFlags(spec)
  {
    args := start;
    if spec.keysSecret.Some? && spec.keysSecret.value != "" {
      args := args + ["--staking-tls-cert-file=" + StakingDir() + "/staker.crt"];
      args := args + ["--staking-tls-key-file=" + StakingDir() + "/staker.key"];
      args := args + ["--staking-signer-key-file=" + StakingDir() + "/signer.key"];
    }
  }

  method AppendPlugins(spec: Spec, start: seq<string>) returns (args: seq<string>)
    ensures args == start + PluginFlags(spec)
  {
    args := start;
    if spec.plugins.Some? && spec.plugins.value > 0 {
      args := args + ["--plugin-dir=/plugins"];
    }
  }

  method AppendChains(spec: Spec, start: seq<string>) returns (args: seq<string>)
    ensures args == start + FlatMap(ChainFlag, spec.chains)
  {
    args := start;
    for i := 0 to |spec.chains|
      invariant args == start + FlatMap(ChainFlag, spec.chains[..i])
    {
      assert spec.chains[..i + 1][..i] == spec.chains[..i];
      args := args + ["--track-subnets=" + spec.chains[i]];
    }
    assert spec.chains[..|spec.chains|] == spec.chains;
  }

  /** The commands before luxd: complete lines, none of which holds text of the spec. */
  function PreludeParts(spec: Spec): seq<string> {
    StartParts() + AliasParts(spec) + ConfigParts(spec)
  }

  function StartParts(): seq<string> {
    ["#!/bin/sh\nset -e\n\n", "mkdir -p /data/db\n"]
  }

  function AliasParts(spec: Spec): seq<string> {
    if |spec.chains| == 0 then []
    else ["mkdir -p /data/configs\n", "cp /configs/chain-aliases.json /data/configs/ 2>/dev/null || true\n"]
  }

  function ConfigParts(spec: Spec): seq<string> {
    if !spec.protocolConfig then []
    else
      [ "cp /configs/evm-config.json /data/configs/ 2>/dev/null || true\n",
        "cp /configs/upgrade.json /data/configs/ 2>/dev/null || true\n" ]
  }

  function Concat(parts: seq<string>): string {
    if |parts| == 0 then "" else Concat(parts[..|parts| - 1]) + parts[|parts| - 1]
  }

  function Prelude(spec: Spec): string {
    Concat(PreludeParts(spec)) + ['\n']
  }

  /** `strings.Builder`, with what has been written so far. */
  class Builder {
    var text: string
    ghost var parts: seq<string>
    ghost var flags: seq<string>

    ghost predicate Valid()
      reads this
    {
      text == Concat(parts) + Lines(flags)
    }

    constructor ()
      ensures Valid() && parts == [] && flags == []
    {
      text, parts, flags := "", [], [];
    }

    method WriteString(s: string)
      requires Valid() && flags == []
      modifies this
      ensures Valid() && flags == [] && parts == old(parts) + [s]
    {
      assert (parts + [s])[..|parts|] == parts;
      text, parts := text + s, parts + [s];
    }

    method WriteFlag(flag: string)
      requires Valid()
      modifies this
      ensures Valid() && parts == old(parts) && flags == old(flags) + [flag]
    {
      LinesAppend(flags, flag);
      text, flags := text + Line(flag), flags + [flag];
    }
  }

  method WritePrelude(spec: Spec, sb: Builder)
    requires sb.Valid() && sb.flags == [] && sb.parts == []
    modifies sb
    ensures sb.Valid() && sb.flags == [] && sb.parts == PreludeParts(spec)
  {
    WriteStart(sb);
    WriteAliasCommands(spec, sb);
    WriteConfigCommands(spec, sb);
  }

  method WriteStart(sb: Builder)
    requires sb.Valid() && sb.flags == []
    modifies sb
    ensures sb.Valid() && sb.flags == [] && sb.parts == old(sb.parts) + StartParts()
  {
    sb.WriteString("#!/bin/sh\nset -e\n\n");
    sb.WriteString("mkdir -p /data/db\n");
  }

  method WriteAliasCommands(spec: Spec, sb: Builder)
    requires sb.Valid() && sb.flags == []
    modifies sb
    ensures sb.Valid() && sb.flags == [] && sb.parts == old(sb.parts) + AliasParts(spec)
  {
    if |spec.chains| > 0 {
      sb.WriteString("mkdir -p /data/configs\n");
      sb.WriteString("cp /configs/chain-aliases.json /data/configs/ 2>/dev/null || true\n");
    }
  }

  method WriteConfigCommands(spec: Spec, sb: Builder)
    requires sb.Valid() && sb.flags == []
    modifies sb
    ensures sb.Valid() && sb.flags == [] && sb.parts == old(sb.parts) + ConfigParts(spec)
  {
    if spec.protocolConfig {
      sb.WriteString("cp /configs/evm-config.json /data/configs/ 2>/dev/null || true\n");
      sb.WriteString("cp /configs/upgrade.json /data/configs/ 2>/dev/null || true\n");
    }
  }

  method WriteNode(spec: Spec, sb: Builder)
    requires sb.Valid()
    modifies sb
    ensures sb.Valid() && sb.parts == old(sb.parts) && sb.flags == old(sb.flags) + NodeFlags(spec)
  {
    sb.WriteFlag("--network-id=" + spec.networkID);
    sb.WriteFlag("--public-ip-resolution-service=ifcfg.me");
    sb.WriteFlag("--db-dir=/data/db");
  }

  method WritePorts(spec: Spec, sb: Builder)
    requires sb.Valid()
    modifies sb
    ensures sb.Valid() && sb.parts == old(sb.parts) && sb.flags == old(sb.flags) + PortFlags(spec)
  {
    sb.WriteFlag("--http-port=" + Decimal(RpcPort(spec)));
    sb.WriteFlag("--staking-port=" + Decimal(StakingPort(spec)));
    sb.WriteFlag("--http-host=0.0.0.0");
  }

  method WriteBase(spec: Spec, sb: Builder)
    requires sb.Valid() && sb.flags == []
    modifies sb
    ensures sb.Valid() && sb.parts == old(sb.parts) && sb.flags == BaseFlags(spec)
  {
    WriteNode(spec, sb);
    WritePorts(spec, sb);
  }

  method WriteApi(spec: Spec, sb: Builder)
    requires sb.Valid()
    modifies sb
    ensures sb.Valid() && sb.parts == old(sb.parts) && sb.flags == old(sb.flags) + ApiFlags(spec)
  {
    if spec.adminEnabled {
      sb.WriteFlag("--api-admin-enabled=true");
    }
    if spec.indexEnabled {
      sb.WriteFlag("--index-enabled=true");
    }
    if spec.metricsEnabled.None? || spec.metricsEnabled.value {
      sb.WriteFlag("--api-metrics-enabled=true");
    }
  }

  method WriteNetwork(spec: Spec, sb: Builder)
    requires sb.Valid()
    modifies sb
    ensures sb.Valid() && sb.parts == old(sb.parts) && sb.flags == old(sb.flags) + NetworkFlags(spec)
  {
    if IsPrivateNetwork(spec.networkID) {
      sb.WriteFlag("--sybil-protection-enabled=false");
    }
    if |spec.bootstrapNodes| > 0 {
      sb.WriteFlag("--bootstrap-ips=" + Join(spec.bootstrapNodes, ','));
    }
    if spec.allowPrivateIPs {
      sb.WriteFlag("--allow-private-ips=true");
    }
  }

  method WriteConsensus(spec: Spec, sb: Builder) returns (ghost visit: seq<string>)
    requires sb.Valid()
    modifies sb
    ensures sb.Valid() && sb.parts == old(sb.parts) && IsVisit(spec.params, visit)
    ensures sb.flags == old(sb.flags) + ConsensusFlags(spec.params, visit)
  {
    var args := ConsensusArgs(spec.params);
    visit :| IsVisit(spec.params, visit) && args == ConsensusFlags(spec.params, visit);
    WriteAll(args, sb);
  }

  method WriteAll(args: seq<string>, sb: Builder)
    requires sb.Valid()
    modifies sb
    ensures sb.Valid() && sb.parts == old(sb.parts) && sb.flags == old(sb.flags) + args
  {
    ghost var start := sb.flags;
    for i := 0 to |args|
      invariant sb.Valid() && sb.parts == old(sb.parts) && sb.flags == start + args[..i]
    {
      sb.WriteFlag(args[i]);
      assert args[..i + 1] == args[..i] + [args[i]];
    }
  }

  method WriteKeys(spec: Spec, sb: Builder)
    requires sb.Valid()
    modifies sb
    ensures sb.Valid() && sb.parts == old(sb.parts) && sb.flags == old(sb.flags) + KeyFlags(spec)
  {
    if spec.keysSecret.Some? && spec.keysSecret.value != "" {
      sb.WriteFlag("--staking-tls-cert-file=" + StakingDir() + "/staker.crt");
      sb.WriteFlag("--staking-tls-key-file=" + StakingDir() + "/staker.key");
      sb.WriteFlag("--staking-signer-key-file=" + StakingDir() + "/signer.key");
    }
  }

  method WriteChains(spec: Spec, sb: Builder)
    requires sb.Valid()
    modifies sb
    ensures sb.Valid() && sb.parts == old(sb.parts)
    ensures sb.flags == old(sb.flags) + FlatMap(ChainFlag, spec.chains)
  {
    for i := 0 to |spec.chains|
      invariant sb.Valid() && sb.parts == old(sb.parts)
      invariant sb.flags == old(sb.flags) + FlatMap(ChainFlag, spec.chains[..i])
    {
      assert spec.chains[..i + 1][..i] == spec.chains[..i];
      sb.WriteFlag("--track-subnets=" + spec.chains[i]);
    }
    assert spec.chains[..|spec.chains|] == spec.chains;
  }

  method WritePlugins(spec: Spec, sb: Builder)
    requires sb.Valid()
    modifies sb
    ensures sb.Valid() && sb.parts == old(sb.parts) && sb.flags == old(sb.flags) + PluginFlags(spec)
  {
    if spec.plugins.Some? && spec.plugins.value > 0 {
      sb.WriteFlag("--plugin-dir=/plugins");
    }
  }

  /** The part of the script that runs luxd. */
  function ExecText(flags: seq<string>): string {
    TrimRight(Printed("exec", Luxd(), flags)) + ['\n']
  }

  /** `buildStartupScript`. */
  method BuildStartupScript(spec: Spec) returns (content: string)
    ensures exists visit ::
              IsVisit(spec.params, visit) && content == Prelude(spec) + ExecText(Flags(spec, visit))
    ensures exists args :: RunsAsAsked(spec, args) && RunsFromScript(spec, content, args)
  {
    var sb := new Builder();
    WritePrelude(spec, sb);
    sb.WriteString("\nexec /luxd/build/luxd \\\n");
    WriteBase(spec, sb);
    WriteApi(spec, sb);
    WriteNetwork(spec, sb);
    ghost var visit := WriteConsensus(spec, sb);
    WriteKeys(spec, sb);
    WriteChains(spec, sb);
    WritePlugins(spec, sb);
    content := TrimRight(sb.text) + ['\n'];
    WrittenText(PreludeParts(spec), Flags(spec, visit));
    ScriptIsAsAsked(spec, content, visit);
  }

  /**
   * The script makes its directories and copies its files, and then runs luxd; a shell reads that command
   * as luxd with these arguments, whatever files there are, exactly when the spec is safe.
   */
  ghost predicate RunsFromScript(spec: Spec, content: string, args: seq<string>) {
    exists command ::
      && content == "#!/bin/sh\nset -e\n\n" + "mkdir -p /data/db\n" + AliasText(spec) + ConfigText(spec) + "\n" + command
      && (ReadsAs(command, ["exec", "/luxd/build/luxd"] + args) <==> SafeSpec(spec))
  }

  /** The chain aliases are copied when there are chains. */
  ghost function AliasText(spec: Spec): string {
    if |spec.chains| > 0
    then "mkdir -p /data/configs\n" + "cp /configs/chain-aliases.json /data/configs/ 2>/dev/null || true\n"
    else ""
  }

  /** Two config files are copied when there is a protocol config. */
  ghost function ConfigText(spec: Spec): string {
    if spec.protocolConfig
    then "cp /configs/evm-config.json /data/configs/ 2>/dev/null || true\n"
         + "cp /configs/upgrade.json /data/configs/ 2>/dev/null || true\n"
    else ""
  }

  lemma ScriptIsAsAsked(spec: Spec, content: string, visit: seq<string>)
    requires IsVisit(spec.params, visit) && content == Prelude(spec) + ExecText(Flags(spec, visit))
    ensures exists args :: RunsAsAsked(spec, args) && RunsFromScript(spec, content, args)
  {
    var args := Flags(spec, visit);
    FlagsAreAsAsked(spec, visit);
    ScriptReadsBackIffSafe(spec, visit);
    PreludeText(spec);
    var command := ExecText(args);
    assert RunsFromScript(spec, content, args);
  }

  lemma PreludeText(spec: Spec)
    ensures Prelude(spec) == "#!/bin/sh\nset -e\n\n" + "mkdir -p /data/db\n" + AliasText(spec) + ConfigText(spec) + "\n"
  {
    StartText();
    AliasesAppend(spec, StartParts());
    ConfigsAppend(spec, StartParts() + AliasParts(spec));
  }

  lemma StartText()
    ensures Concat(StartParts()) == "#!/bin/sh\nset -e\n\n" + "mkdir -p /data/db\n"
  {
    ConcatTwo([], "#!/bin/sh\nset -e\n\n", "mkdir -p /data/db\n");
    assert [] + StartParts() == StartParts();
  }

  lemma AliasesAppend(spec: Spec, parts: seq<string>)
    ensures Concat(parts + AliasParts(spec)) == Concat(parts) + AliasText(spec)
  {
    if |spec.chains| == 0 {
      assert parts + [] == parts;
    } else {
      ConcatTwo(parts, "mkdir -p /data/configs\n",
                "cp /configs/chain-aliases.json /data/configs/ 2>/dev/null || true\n");
    }
  }

  lemma ConfigsAppend(spec: Spec, parts: seq<string>)
    ensures Concat(parts + ConfigParts(spec)) == Concat(parts) + ConfigText(spec)
  {
    if !spec.protocolConfig {
      assert parts + [] == parts;
    } else {
      ConcatTwo(parts, "cp /configs/evm-config.json /data/configs/ 2>/dev/null || true\n",
                "cp /configs/upgrade.json /data/configs/ 2>/dev/null || true\n");
    }
  }

  lemma ConcatTwo(parts: seq<string>, a: string, b: string)
    ensures Concat(parts + [a, b]) == Concat(parts) + (a + b)
  {
    var all := parts + [a, b];
    assert all[..|parts| + 1] == parts + [a] && (parts + [a])[..|parts|] == parts;
  }

  lemma WrittenText(parts: seq<string>, flags: seq<string>)
    ensures TrimRight(Concat(parts + ["\nexec /luxd/build/luxd \\\n"]) + Lines(flags)) + ['\n']
            == Concat(parts) + ['\n'] + ExecText(flags)
  {
    var all := parts + ["\nexec /luxd/build/luxd \\\n"];
    assert all[..|parts|] == parts;
    var front := Concat(parts) + ['\n'];
    ExecLine();
    assert Concat(all) + Lines(flags) == front + Printed("exec", Luxd(), flags);
    TrimKeepsExec(flags);
    TrimKeepsFront(front, Printed("exec", Luxd(), flags));
  }

  lemma ExecLine()
    ensures "\nexec /luxd/build/luxd \\\n" == ['\n'] + ("exec" + [' '] + Luxd() + [' ', '\\', '\n'])
  {
  }

  lemma TrimKeepsExec(flags: seq<string>)
    ensures TrimRight(Printed("exec", Luxd(), flags)) != ""
  {
    assert Printed("exec", Luxd(), flags)[0] == 'e';
  }

  // ---- the shell reads the flags back ----

  predicate IsKnownKey(key: string) {
    || key == "snowSampleSize" || key == "snowQuorumSize" || key == "snowVirtuousCommitThreshold"
    || key == "snowRogueCommitThreshold" || key == "snowConcurrentRepolls"
  }

  /** What of a parameter is text of the spec. */
  function ParamText(key: string, value: string): string {
    if IsKnownKey(key) then value else key + "=" + value
  }

  /** Every text of the spec that reaches a flag, as it gets there, is one that a shell takes as it stands. */
  ghost predicate SafeSpec(spec: Spec) {
    && SafeFrom(spec.networkID, true)
    && SafeFrom(Join(spec.bootstrapNodes, ','), true)
    && (forall key | key in spec.params :: SafeParam(spec.params, key))
    && (forall chain | chain in spec.chains :: SafeFrom(chain, true))
  }

  ghost predicate SafeParam(params: map<string, string>, key: string) {
    key in params ==> SafeFrom(ParamText(key, params[key]), true)
  }

  predicate IsOption(f: string) {
    f != "" && f[0] == '-'
  }

  ghost predicate Options(flags: seq<string>) {
    forall f | f in flags :: IsOption(f)
  }

  ghost predicate AllPlain(flags: seq<string>) {
    forall f | f in flags :: Plain(f)
  }

  ghost predicate AllSafe(flags: seq<string>) {
    forall f | f in flags :: Safe(f)
  }

  lemma PlainFlagsAreSafe(flags: seq<string>)
    requires AllPlain(flags)
    ensures AllSafe(flags)
  {
    forall f | f in flags ensures Safe(f) { PlainStands([], f); }
  }

  lemma AllSafeConcat(a: seq<string>, b: seq<string>)
    ensures AllSafe(a + b) <==> AllSafe(a) && AllSafe(b)
    ensures Options(a + b) <==> Options(a) && Options(b)
  {
  }

  lemma PlainConcat(a: string, b: string)
    ensures Plain(a + b) <==> Plain(a) && Plain(b)
  {
  }

  lemma {:induction false} DecimalIsPlain(n: nat)
    ensures Plain(Digits(n))
  {
    if n >= 10 {
      DecimalIsPlain(n / 10);
      PlainConcat(Digits(n / 10), [Digit(n % 10)]);
    }
  }

  lemma {:induction false} CommasArePlain(xs: seq<string>)
    ensures Plain(Join(xs, ',')) <==> AllPlain(xs)
  {
    if |xs| == 1 {
      assert forall x :: x in xs <==> x == xs[0];
    } else if |xs| > 1 {
      CommasArePlain(xs[1..]);
      PlainConcat(xs[0] + [','], Join(xs[1..], ','));
      PlainConcat(xs[0], [',']);
      assert forall x :: x in xs <==> x == xs[0] || x in xs[1..];
    }
  }

  /** Letters, digits and the signs of flag names and paths: one comparison settles each. */
  predicate Tame(c: char) {
    'a' <= c <= 'z' || 'A' <= c <= 'Z' || '-' <= c <= '9' || c == '='
  }

  lemma TameIsPlain(s: string)
    requires forall c | c in s :: Tame(c)
    ensures Plain(s)
  {
  }

  lemma BaseNamesArePlain()
    ensures Plain("--network-id=") && Plain("--http-port=") && Plain("--staking-port=")
  {
  }

  lemma ResolutionFlagIsPlain()
    ensures Plain("--public-ip-resolution-service=ifcfg.me")
  {
    TameIsPlain("--public-ip-resolution-service=ifcfg.me");
  }

  lemma PathFlagsArePlain()
    ensures Plain("--db-dir=/data/db") && Plain("--http-host=0.0.0.0")
  {
    TameIsPlain("--db-dir=/data/db");
    TameIsPlain("--http-host=0.0.0.0");
  }

  lemma NodeFlagsAreSafe(spec: Spec)
    ensures AllSafe(NodeFlags(spec)) <==> SafeFrom(spec.networkID, true)
    ensures Options(NodeFlags(spec))
  {
    var fs := NodeFlags(spec);
    BaseNamesArePlain();
    ResolutionFlagIsPlain();
    PathFlagsArePlain();
    SafeAfterPlain("--network-id=", spec.networkID);
    PlainFlagsAreSafe([fs[1], fs[2]]);
    AllSafeConcat([fs[0]], [fs[1], fs[2]]);
    assert fs == [fs[0]] + [fs[1], fs[2]];
    OneFlag([fs[0]]);
  }

  lemma PortFlagsArePlain(spec: Spec)
    ensures AllPlain(PortFlags(spec)) && Options(PortFlags(spec))
  {
    BaseNamesArePlain();
    PathFlagsArePlain();
    DecimalIsPlain(RpcPort(spec));
    PlainConcat("--http-port=", Decimal(RpcPort(spec)));
    DecimalIsPlain(StakingPort(spec));
    PlainConcat("--staking-port=", Decimal(StakingPort(spec)));
  }

  lemma BaseFlagsAreSafe(spec: Spec)
    ensures AllSafe(BaseFlags(spec)) <==> SafeFrom(spec.networkID, true)
    ensures Options(BaseFlags(spec))
  {
    NodeFlagsAreSafe(spec);
    PortFlagsArePlain(spec);
    PlainFlagsAreSafe(PortFlags(spec));
    AllSafeConcat(NodeFlags(spec), PortFlags(spec));
  }

  lemma ApiFlagsArePlain(spec: Spec)
    ensures AllPlain(ApiFlags(spec)) && Options(ApiFlags(spec))
  {
    TameIsPlain("--api-admin-enabled=true");
    TameIsPlain("--index-enabled=true");
    TameIsPlain("--api-metrics-enabled=true");
  }

  lemma SwitchFlagsArePlain()
    ensures Plain("--sybil-protection-enabled=false") && IsOption("--sybil-protection-enabled=false")
    ensures Plain("--allow-private-ips=true") && IsOption("--allow-private-ips=true")
  {
    TameIsPlain("--sybil-protection-enabled=false");
    TameIsPlain("--allow-private-ips=true");
  }

  lemma BootstrapFlagIsSafe(nodes: seq<string>)
    ensures Safe("--bootstrap-ips=" + Join(nodes, ',')) <==> SafeFrom(Join(nodes, ','), true)
    ensures IsOption("--bootstrap-ips=" + Join(nodes, ','))
  {
    TameIsPlain("--bootstrap-ips=");
    SafeAfterPlain("--bootstrap-ips=", Join(nodes, ','));
  }

  lemma NetworkFlagsAreSafe(spec: Spec)
    ensures AllSafe(NetworkFlags(spec)) <==> SafeFrom(Join(spec.bootstrapNodes, ','), true)
    ensures Options(NetworkFlags(spec))
  {
    SwitchFlagsArePlain();
    BootstrapFlagIsSafe(spec.bootstrapNodes);
    var sybil: seq<string> := if IsPrivateNetwork(spec.networkID) then ["--sybil-protection-enabled=false"] else [];
    var nodes: seq<string> := if spec.bootstrapNodes == [] then [] else ["--bootstrap-ips=" + Join(spec.bootstrapNodes, ',')];
    var allow: seq<string> := if spec.allowPrivateIPs then ["--allow-private-ips=true"] else [];
    PlainFlagsAreSafe(sybil);
    PlainFlagsAreSafe(allow);
    AllSafeConcat(sybil + nodes, allow);
    AllSafeConcat(sybil, nodes);
    OneFlag(nodes);
    PlainStands([], "");
  }

  lemma OneFlag(fs: seq<string>)
    ensures |fs| == 1 ==> (AllSafe(fs) <==> Safe(fs[0])) && (Options(fs) <==> IsOption(fs[0]))
  {
  }

  lemma StakingFileIsPlain(name: string, file: string)
    requires Plain(name) && IsOption(name) && Plain(file)
    ensures Plain(name + StakingDir() + file) && IsOption(name + StakingDir() + file)
  {
  }

  lemma KeyFlagsArePlain(spec: Spec)
    ensures AllPlain(KeyFlags(spec)) && Options(KeyFlags(spec))
  {
    TameIsPlain("--staking-tls-cert-file=");
    TameIsPlain("--staking-tls-key-file=");
    TameIsPlain("--staking-signer-key-file=");
    TameIsPlain("/staker.crt");
    TameIsPlain("/staker.key");
    TameIsPlain("/signer.key");
    StakingFileIsPlain("--staking-tls-cert-file=", "/staker.crt");
    StakingFileIsPlain("--staking-tls-key-file=", "/staker.key");
    StakingFileIsPlain("--staking-signer-key-file=", "/signer.key");
  }

  lemma PluginFlagsArePlain(spec: Spec)
    ensures AllPlain(PluginFlags(spec)) && Options(PluginFlags(spec))
  {
    TameIsPlain("--plugin-dir=/plugins");
  }

  lemma {:induction false} FlatMapSafe(f: string -> seq<string>, s: seq<string>)
    ensures AllSafe(FlatMap(f, s)) <==> forall x | x in s :: AllSafe(f(x))
    ensures Options(FlatMap(f, s)) <==> forall x | x in s :: Options(f(x))
  {
    if |s| > 0 {
      var n := |s| - 1;
      FlatMapSafe(f, s[..n]);
      AllSafeConcat(FlatMap(f, s[..n]), f(s[n]));
      assert forall x :: x in s <==> x in s[..n] || x == s[n];
    }
  }

  lemma ChainFlagsAreSafe(chains: seq<string>)
    ensures AllSafe(FlatMap(ChainFlag, chains)) <==> forall c | c in chains :: SafeFrom(c, true)
    ensures Options(FlatMap(ChainFlag, chains))
  {
    FlatMapSafe(ChainFlag, chains);
    forall c ensures AllSafe(ChainFlag(c)) <==> SafeFrom(c, true) { ChainFlagIsSafe(c); }
    forall c ensures Options(ChainFlag(c)) { ChainFlagIsSafe(c); }
  }

  lemma ChainFlagIsSafe(chain: string)
    ensures AllSafe(ChainFlag(chain)) <==> SafeFrom(chain, true)
    ensures Options(ChainFlag(chain))
  {
    TameIsPlain("--track-subnets=");
    SafeAfterPlain("--track-subnets=", chain);
    OneFlag(ChainFlag(chain));
  }

  lemma KnownNamesArePlain()
    ensures Plain("--snow-sample-size=") && Plain("--snow-quorum-size=") && Plain("--snow-concurrent-repolls=")
  {
    TameIsPlain("--snow-sample-size=");
    TameIsPlain("--snow-quorum-size=");
    TameIsPlain("--snow-concurrent-repolls=");
  }

  lemma CommitNamesArePlain()
    ensures Plain("--snow-virtuous-commit-threshold=") && Plain("--snow-rogue-commit-threshold=")
  {
    TameIsPlain("--snow-virtuous-commit-threshold=");
    TameIsPlain("--snow-rogue-commit-threshold=");
  }

  lemma KnownParamIsSafe(key: string, value: string)
    requires IsKnownKey(key)
    ensures Safe(ParamFlag(key, value)) <==> SafeFrom(value, true)
    ensures IsOption(ParamFlag(key, value))
  {
    KnownNamesArePlain();
    CommitNamesArePlain();
    NameEndsInEquals(key);
    SafeAfterPlain(ParamName(key), value);
  }

  lemma NameEndsInEquals(key: string)
    ensures |ParamName(key)| >= 3 && ParamName(key)[0] == '-' && ParamName(key)[|ParamName(key)| - 1] == '='
  {
  }

  lemma OtherParamIsSafe(key: string, value: string)
    requires !IsKnownKey(key)
    ensures Safe(ParamFlag(key, value)) <==> SafeFrom(key + "=" + value, true)
    ensures IsOption(ParamFlag(key, value))
  {
    TameIsPlain("--");
    SafeAfterPlain("--", key + "=" + value);
    assert ParamFlag(key, value) == "--" + (key + "=" + value);
  }

  lemma ParamFlagIsSafe(params: map<string, string>, key: string)
    ensures AllSafe(ParamFlags(params)(key)) <==> SafeParam(params, key)
    ensures Options(ParamFlags(params)(key))
  {
    if key in params {
      OneFlag(ParamFlags(params)(key));
      if IsKnownKey(key) { KnownParamIsSafe(key, params[key]); } else { OtherParamIsSafe(key, params[key]); }
    }
  }

  lemma ConsensusFlagsAreSafe(params: map<string, string>, visit: seq<string>)
    ensures AllSafe(ConsensusFlags(params, visit)) <==> forall key | key in visit :: SafeParam(params, key)
    ensures Options(ConsensusFlags(params, visit))
  {
    FlatMapSafe(ParamFlags(params), visit);
    forall key ensures AllSafe(ParamFlags(params)(key)) <==> SafeParam(params, key) { ParamFlagIsSafe(params, key); }
    forall key ensures Options(ParamFlags(params)(key)) { ParamFlagIsSafe(params, key); }
  }

  lemma FlagsAreSafeIffSpecIs(spec: Spec, visit: seq<string>)
    requires IsVisit(spec.params, visit)
    ensures AllSafe(Flags(spec, visit)) <==> SafeSpec(spec)
    ensures Options(Flags(spec, visit))
  {
    var a, b, c, d := BaseFlags(spec), ApiFlags(spec), NetworkFlags(spec), ConsensusFlags(spec.params, visit);
    var e, f, g := KeyFlags(spec), FlatMap(ChainFlag, spec.chains), PluginFlags(spec);
    BaseFlagsAreSafe(spec);
    ApiFlagsArePlain(spec);
    PlainFlagsAreSafe(b);
    NetworkFlagsAreSafe(spec);
    ConsensusFlagsAreSafe(spec.params, visit);
    KeyFlagsArePlain(spec);
    PlainFlagsAreSafe(e);
    ChainFlagsAreSafe(spec.chains);
    PluginFlagsArePlain(spec);
    PlainFlagsAreSafe(g);
    SevenSafe(a, b, c, d, e, f, g);
  }

  lemma SevenSafe(a: seq<string>, b: seq<string>, c: seq<string>, d: seq<string>,
                  e: seq<string>, f: seq<string>, g: seq<string>)
    ensures AllSafe(a + b + c + d + e + f + g)
            <==> AllSafe(a) && AllSafe(b) && AllSafe(c) && AllSafe(d) && AllSafe(e) && AllSafe(f) && AllSafe(g)
    ensures Options(a + b + c + d + e + f + g)
            <==> Options(a) && Options(b) && Options(c) && Options(d) && Options(e) && Options(f) && Options(g)
  {
    AllSafeConcat(a, b);
    AllSafeConcat(a + b, c);
    AllSafeConcat(a + b + c, d);
    AllSafeConcat(a + b + c + d, e);
    AllSafeConcat(a + b + c + d + e, f);
    AllSafeConcat(a + b + c + d + e + f, g);
  }

  /** Text with no special character at all is safe anywhere. */
  lemma PlainIsSafe(s: string, inside: bool)
    requires Plain(s)
    ensures SafeFrom(s, inside)
  {
    AfterPlainText(s, "", inside);
    assert s + "" == s;
  }

  /** So a spec whose texts hold no special character is safe. */
  lemma PlainSpecIsSafe(spec: Spec)
    requires Plain(spec.networkID) && AllPlain(spec.bootstrapNodes) && AllPlain(spec.chains)
    requires forall key | key in spec.params :: Plain(key) && Plain(spec.params[key])
    ensures SafeSpec(spec)
  {
    PlainIsSafe(spec.networkID, true);
    CommasArePlain(spec.bootstrapNodes);
    PlainIsSafe(Join(spec.bootstrapNodes, ','), true);
    forall key | key in spec.params ensures SafeParam(spec.params, key) {
      TameIsPlain("=");
      PlainConcat(key, "=");
      PlainConcat(key + "=", spec.params[key]);
      PlainIsSafe(ParamText(key, spec.params[key]), true);
    }
    forall chain | chain in spec.chains ensures SafeFrom(chain, true) { PlainIsSafe(chain, true); }
  }

  lemma ExecWordsArePlain()
    ensures Word("exec") && Word(Luxd()) && Plain("exec") && Plain(Luxd())
  {
  }

  lemma ExecReadsBackIffSafe(flags: seq<string>)
    requires |flags| > 0 && Options(flags)
    ensures ReadsAs(ExecText(flags), ["exec", Luxd()] + flags) <==> AllSafe(flags)
  {
    ExecWordsArePlain();
    ReadsBackIffSafe("exec", Luxd(), flags);
  }

  /** Whatever files there are, the script's command is run with exactly the flags of the list for exactly the safe specs. */
  lemma ScriptReadsBackIffSafe(spec: Spec, visit: seq<string>)
    requires IsVisit(spec.params, visit)
    ensures ReadsAs(ExecText(Flags(spec, visit)), ["exec", Luxd()] + Flags(spec, visit)) <==> SafeSpec(spec)
  {
    FlagsAreSafeIffSpecIs(spec, visit);
    FlagsAreMany(spec, visit);
    ExecReadsBackIffSafe(Flags(spec, visit));
  }

  lemma FlagsAreMany(spec: Spec, visit: seq<string>)
    ensures |Flags(spec, visit)| >= 6
  {
  }

  /**
   * Giving a cluster a protocol config moves it from the argument list to the script, and luxd still gets
   * the arguments it had whatever files there are, for exactly the safe specs.
   */
  lemma ScriptRunsTheArguments(spec: Spec, visit: seq<string>)
    requires IsVisit(spec.params, visit)
    ensures var moved := spec.(protocolConfig := true);
            && NeedsConfigMap(moved)
            && (ReadsAs(ExecText(Flags(moved, visit)), ["exec", Luxd()] + Flags(spec, visit)) <==> SafeSpec(spec))
  {
    ScriptReadsBackIffSafe(spec, visit);
    SameFlags(spec, visit);
  }

  lemma SameFlags(spec: Spec, visit: seq<string>)
    ensures Flags(spec.(protocolConfig := true), visit) == Flags(spec, visit)
  {
  }

  // ---- the order of the parameters ----

  /** Whatever order the map is visited in, luxd gets the same flags as often. */
  lemma FlagsPermute(spec: Spec, visit: seq<string>, visit': seq<string>)
    requires IsVisit(spec.params, visit) && IsVisit(spec.params, visit')
    ensures multiset(Flags(spec, visit)) == multiset(Flags(spec, visit'))
  {
    VisitsPermute(visit, visit');
    FlatMapPermutes(ParamFlags(spec.params), visit, visit');
    SwapInside(BaseFlags(spec) + ApiFlags(spec) + NetworkFlags(spec),
               ConsensusFlags(spec.params, visit), ConsensusFlags(spec.params, visit'),
               KeyFlags(spec), FlatMap(ChainFlag, spec.chains), PluginFlags(spec));
  }

  lemma SwapInside(front: seq<string>, s: seq<string>, t: seq<string>, a: seq<string>, b: seq<string>, c: seq<string>)
    requires multiset(s) == multiset(t)
    ensures multiset(front + s + a + b + c) == multiset(front + t + a + b + c)
  {
  }

  lemma {:induction false} DistinctCount(s: seq<string>, x: string)
    requires forall i, j | 0 <= i < j < |s| :: s[i] != s[j]
    ensures multiset(s)[x] == if x in s then 1 else 0
  {
    if |s| > 0 {
      var n := |s| - 1;
      DistinctCount(s[..n], x);
      assert s == s[..n] + [s[n]];
    }
  }

  lemma VisitsPermute(s: seq<string>, t: seq<string>)
    requires forall i, j | 0 <= i < j < |s| :: s[i] != s[j]
    requires forall i, j | 0 <= i < j < |t| :: t[i] != t[j]
    requires forall x :: x in s <==> x in t
    ensures multiset(s) == multiset(t)
  {
    forall x ensures multiset(s)[x] == multiset(t)[x] {
      DistinctCount(s, x);
      DistinctCount(t, x);
    }
  }

  lemma FlagAt(params: map<string, string>, visit: seq<string>)
    requires forall key | key in visit :: key in params
    ensures |ConsensusFlags(params, visit)| == |visit|
    ensures forall i | 0 <= i < |visit| :: ConsensusFlags(params, visit)[i] == ParamFlag(visit[i], params[visit[i]])
  {
    FlatMapOfSingletons(ParamFlags(params), visit);
  }

  lemma Listing(keys: set<string>) returns (s: seq<string>)
    ensures forall key :: key in s <==> key in keys
    ensures forall i, j | 0 <= i < j < |s| :: s[i] != s[j]
  {
    if keys == {} {
      s := [];
    } else {
      var key :| key in keys;
      var rest := Listing(keys - {key});
      s := [key] + rest;
    }
  }

  lemma VisitFrom(params: map<string, string>, key: string) returns (visit: seq<string>)
    requires key in params
    ensures IsVisit(params, visit) && |visit| > 0 && visit[0] == key
  {
    var rest := Listing(params.Keys - {key});
    visit := [key] + rest;
  }

  /** Two renderings of the parameters agree for sure exactly when all of them print the same flag. */
  lemma ParamsAreStableIff(params: map<string, string>)
    ensures (forall v, w | IsVisit(params, v) && IsVisit(params, w) ::
               ConsensusFlags(params, v) == ConsensusFlags(params, w))
            <==> AllPrintOneFlag(params)
  {
    if AllPrintOneFlag(params) {
      forall v, w | IsVisit(params, v) && IsVisit(params, w)
        ensures ConsensusFlags(params, v) == ConsensusFlags(params, w)
      {
        SameVisits(params, v, w);
      }
    } else {
      var k, l :| k in params && l in params && ParamFlag(k, params[k]) != ParamFlag(l, params[l]);
      var v := VisitFrom(params, k);
      var w := VisitFrom(params, l);
      FlagAt(params, v);
      FlagAt(params, w);
      assert ConsensusFlags(params, v)[0] != ConsensusFlags(params, w)[0];
    }
  }

  ghost predicate AllPrintOneFlag(params: map<string, string>) {
    forall k, l | k in params && l in params :: ParamFlag(k, params[k]) == ParamFlag(l, params[l])
  }

  /** And so do two renderings of the whole list. */
  lemma RenderingIsStableIff(spec: Spec)
    ensures (forall v, w | IsVisit(spec.params, v) && IsVisit(spec.params, w) :: Flags(spec, v) == Flags(spec, w))
            <==> AllPrintOneFlag(spec.params)
  {
    ParamsAreStableIff(spec.params);
    forall v, w | IsVisit(spec.params, v) && IsVisit(spec.params, w)
      ensures Flags(spec, v) == Flags(spec, w) <==> ConsensusFlags(spec.params, v) == ConsensusFlags(spec.params, w)
    {
      SameAround(spec, v, w);
    }
  }

  lemma SameAround(spec: Spec, v: seq<string>, w: seq<string>)
    requires IsVisit(spec.params, v) && IsVisit(spec.params, w)
    ensures Flags(spec, v) == Flags(spec, w) <==> ConsensusFlags(spec.params, v) == ConsensusFlags(spec.params, w)
  {
    VisitsPermute(v, w);
    assert |v| == |multiset(v)| == |multiset(w)| == |w|;
    FlagAt(spec.params, v);
    FlagAt(spec.params, w);
    CancelAround(BaseFlags(spec) + ApiFlags(spec) + NetworkFlags(spec),
                 ConsensusFlags(spec.params, v), ConsensusFlags(spec.params, w),
                 KeyFlags(spec), FlatMap(ChainFlag, spec.chains), PluginFlags(spec));
  }

  lemma CancelAround(front: seq<string>, s: seq<string>, t: seq<string>, a: seq<string>, b: seq<string>, c: seq<string>)
    requires |s| == |t|
    ensures front + s + a + b + c == front + t + a + b + c <==> s == t
  {
    var x, y := front + s + a + b + c, front + t + a + b + c;
    if x == y {
      assert s == x[|front|..|front| + |s|] && t == y[|front|..|front| + |s|];
    }
  }

  lemma SameVisits(params: map<string, string>, v: seq<string>, w: seq<string>)
    requires IsVisit(params, v) && IsVisit(params, w)
    requires forall k, l | k in params && l in params :: ParamFlag(k, params[k]) == ParamFlag(l, params[l])
    ensures ConsensusFlags(params, v) == ConsensusFlags(params, w)
  {
    VisitsPermute(v, w);
    assert |v| == |multiset(v)| == |multiset(w)| == |w|;
    FlagAt(params, v);
    FlagAt(params, w);
    AllEqual(params, v, w, ConsensusFlags(params, v), ConsensusFlags(params, w));
  }

  lemma AllEqual(params: map<string, string>, v: seq<string>, w: seq<string>, a: seq<string>, b: seq<string>)
    requires |a| == |v| == |w| == |b|
    requires forall key | key in v || key in w :: key in params
    requires forall k, l | k in params && l in params :: ParamFlag(k, params[k]) == ParamFlag(l, params[l])
    requires forall i | 0 <= i < |v| :: a[i] == ParamFlag(v[i], params[v[i]]) && b[i] == ParamFlag(w[i], params[w[i]])
    ensures a == b
  {
  }
}
