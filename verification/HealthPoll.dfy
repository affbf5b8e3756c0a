/** The parallel health poll: its fan-out, its canonical order, and the aggregates it reports. */
module HealthPoll {
  import opened Strings
  import opened Sorting

  type int32 = x: int | -0x8000_0000 <= x < 0x8000_0000
  type int64 = x: int | -0x8000_0000_0000_0000 <= x < 0x8000_0000_0000_0000

  /** Two's complement wrap-around of an `int32` result. */
  function Wrap32(x: int): int32 {
    (x + 0x8000_0000) % 0x1_0000_0000 - 0x8000_0000
  }

  datatype NodeStatus = NodeStatus(
    name: string, externalIP: string, nodeID: string, bootstrapped: bool, healthy: bool,
    connectedPeers: int32, pChainHeight: int64, cChainHeight: int64)

  /** A listed pod, with the record its health and info APIs decode to when it is polled. */
  datatype Pod = Pod(name: string, ip: string, answer: NodeStatus)

  function Address(ext: map<string, string>, name: string): string {
    if name in ext then ext[name] else ""
  }

  function Blank(pod: Pod, ext: map<string, string>): NodeStatus {
    NodeStatus(pod.name, Address(ext, pod.name), "", false, false, 0, 0, 0)
  }

  /** What a poll of one pod on its own reports: a pod without an address is never asked. */
  function ReportOf(pod: Pod, ext: map<string, string>): NodeStatus {
    if pod.ip == "" then Blank(pod, ext)
    else pod.answer.(name := pod.name, externalIP := Address(ext, pod.name))
  }

  /** The sequential poll, in list order. */
  function Reports(pods: seq<Pod>, ext: map<string, string>): seq<NodeStatus> {
    FlatMap((pod: Pod) => [ReportOf(pod, ext)], pods)
  }

  lemma {:induction false} ReportsAt(pods: seq<Pod>, ext: map<string, string>)
    ensures |Reports(pods, ext)| == |pods|
    ensures forall i | 0 <= i < |pods| :: Reports(pods, ext)[i] == ReportOf(pods[i], ext)
  {
    if |pods| > 0 { ReportsAt(pods[..|pods| - 1], ext); }
  }

  predicate ByName(a: NodeStatus, b: NodeStatus) {
    Le(a.name, b.name)
  }

  lemma ByNameIsAnOrder()
    ensures TotalPreorder(ByName)
  {
    forall x, y ensures ByName(x, y) || ByName(y, x) { LeTotal(x.name, y.name); }
    forall x, y, z | ByName(x, y) && ByName(y, z) ensures ByName(x, z) { LeTransitive(x.name, y.name, z.name); }
  }

  /** `Status.Nodes` after a poll. */
  function Nodes(pods: seq<Pod>, ext: map<string, string>): seq<NodeStatus> {
    ByNameIsAnOrder();
    Sort(Reports(pods, ext), ByName)
  }

  // ---- the fan-out: one launching loop, one goroutine per addressed pod, one shared slice ----

  datatype Worker =
    | Unlaunched
    | Asking
    | Answered(s: NodeStatus)
    | NameCopied(s: NodeStatus)
    | Filled(s: NodeStatus)
    | Done

  datatype FanOut = FanOut(next: nat, results: seq<NodeStatus>, workers: seq<Worker>)

  ghost predicate Initial(pods: seq<Pod>, s: FanOut) {
    s.next == 0 && |s.results| == |s.workers| == |pods| && forall i | 0 <= i < |pods| :: s.workers[i] == Unlaunched
  }

  /** The loop writes its slot, then starts a goroutine for it when the pod has an address. */
  ghost predicate Launch(pods: seq<Pod>, ext: map<string, string>, s: FanOut, s': FanOut) {
    && s.next < |pods| == |s.results| == |s.workers|
    && s' == FanOut(s.next + 1,
                    s.results[s.next := Blank(pods[s.next], ext)],
                    s.workers[s.next := if pods[s.next].ip == "" then Done else Asking])
  }

  /** One step of the goroutine for slot `i`; reads of the shared slot are steps of their own. */
  ghost predicate Work(pods: seq<Pod>, s: FanOut, s': FanOut, i: nat) {
    && i < |pods| == |s.results| == |s.workers|
    && s'.next == s.next
    && match s.workers[i] {
         case Unlaunched => false
         case Done => false
         case Asking => s'.results == s.results && s'.workers == s.workers[i := Answered(pods[i].answer)]
         case Answered(a) =>
           s'.results == s.results && s'.workers == s.workers[i := NameCopied(a.(name := s.results[i].name))]
         case NameCopied(a) =>
           s'.results == s.results && s'.workers == s.workers[i := Filled(a.(externalIP := s.results[i].externalIP))]
         case Filled(a) => s'.results == s.results[i := a] && s'.workers == s.workers[i := Done]
       }
  }

  ghost predicate Step(pods: seq<Pod>, ext: map<string, string>, s: FanOut, s': FanOut) {
    Launch(pods, ext, s, s') || exists i: nat :: Work(pods, s, s', i)
  }

  ghost predicate IsRun(pods: seq<Pod>, ext: map<string, string>, run: seq<FanOut>) {
    && |run| > 0
    && Initial(pods, run[0])
    && forall k | 0 <= k < |run| - 1 :: Step(pods, ext, run[k], run[k + 1])
  }

  /** The wait group is released. */
  ghost predicate Finished(pods: seq<Pod>, s: FanOut) {
    s.next == |pods| == |s.workers| && forall i | 0 <= i < |pods| :: s.workers[i] == Done
  }

  ghost predicate CanStep(pods: seq<Pod>, ext: map<string, string>, s: FanOut) {
    exists s' {:trigger Step(pods, ext, s, s')} :: Step(pods, ext, s, s')
  }

  ghost predicate Coherent(pod: Pod, ext: map<string, string>, w: Worker, slot: NodeStatus) {
    match w
    case Unlaunched => false
    case Asking => pod.ip != "" && slot == Blank(pod, ext)
    case Answered(a) => pod.ip != "" && slot == Blank(pod, ext) && a == pod.answer
    case NameCopied(a) => pod.ip != "" && slot == Blank(pod, ext) && a == pod.answer.(name := pod.name)
    case Filled(a) => pod.ip != "" && a == ReportOf(pod, ext)
    case Done => slot == ReportOf(pod, ext)
  }

  ghost predicate Inv(pods: seq<Pod>, ext: map<string, string>, s: FanOut) {
    && s.next <= |pods| == |s.results| == |s.workers|
    && (forall i | 0 <= i < s.next :: Coherent(pods[i], ext, s.workers[i], s.results[i]))
    && (forall i | s.next <= i < |pods| :: s.workers[i] == Unlaunched)
  }

  lemma LaunchKeepsInv(pods: seq<Pod>, ext: map<string, string>, s: FanOut, s': FanOut)
    requires Inv(pods, ext, s) && Launch(pods, ext, s, s')
    ensures Inv(pods, ext, s')
  {
  }

  lemma WorkKeepsInv(pods: seq<Pod>, ext: map<string, string>, s: FanOut, s': FanOut, i: nat)
    requires Inv(pods, ext, s) && Work(pods, s, s', i)
    ensures Inv(pods, ext, s')
  {
    assert i < s.next && Coherent(pods[i], ext, s.workers[i], s.results[i]);
    assert Coherent(pods[i], ext, s'.workers[i], s'.results[i]);
  }

  lemma {:induction false} RunInv(pods: seq<Pod>, ext: map<string, string>, run: seq<FanOut>)
    requires IsRun(pods, ext, run)
    ensures Inv(pods, ext, run[|run| - 1])
  {
    if |run| > 1 {
      var n := |run| - 1;
      var s, s' := run[n - 1], run[n];
      assert Step(pods, ext, s, s');
      RunInv(pods, ext, run[..n]);
      if Launch(pods, ext, s, s') {
        LaunchKeepsInv(pods, ext, s, s');
      } else {
        var i: nat :| Work(pods, s, s', i);
        WorkKeepsInv(pods, ext, s, s', i);
      }
    }
  }

  /** Steps still to be taken for one slot. */
  function Cost(pod: Pod, w: Worker): nat {
    match w
    case Unlaunched => if pod.ip == "" then 1 else 5
    case Asking => 4
    case Answered(_) => 3
    case NameCopied(_) => 2
    case Filled(_) => 1
    case Done => 0
  }

  ghost function TotalCost(pods: seq<Pod>, workers: seq<Worker>): nat
    requires |pods| == |workers|
  {
    if |pods| == 0 then 0
    else Cost(pods[0], workers[0]) + TotalCost(pods[1..], workers[1..])
  }

  lemma {:induction false} TotalCostUpdate(pods: seq<Pod>, workers: seq<Worker>, i: nat, w: Worker)
    requires i < |pods| == |workers|
    ensures TotalCost(pods, workers[i := w]) == TotalCost(pods, workers) - Cost(pods[i], workers[i]) + Cost(pods[i], w)
  {
    if i > 0 {
      assert workers[i := w][1..] == workers[1..][i - 1 := w];
      TotalCostUpdate(pods[1..], workers[1..], i - 1, w);
    } else {
      assert workers[0 := w][1..] == workers[1..];
    }
  }

  lemma {:induction false} TotalCostBound(pods: seq<Pod>, workers: seq<Worker>)
    requires |pods| == |workers|
    ensures TotalCost(pods, workers) <= 5 * |pods|
  {
    if |pods| > 0 { TotalCostBound(pods[1..], workers[1..]); }
  }

  lemma {:induction false} LaunchCostsOne(pods: seq<Pod>, ext: map<string, string>, s: FanOut, s': FanOut)
    requires Launch(pods, ext, s, s') && s.workers[s.next] == Unlaunched
    ensures |s'.workers| == |pods| && TotalCost(pods, s'.workers) == TotalCost(pods, s.workers) - 1
  {
    TotalCostUpdate(pods, s.workers, s.next, if pods[s.next].ip == "" then Done else Asking);
  }

  lemma {:induction false} WorkCostsOne(pods: seq<Pod>, s: FanOut, s': FanOut, i: nat)
    requires Work(pods, s, s', i)
    ensures |s'.workers| == |pods| && TotalCost(pods, s'.workers) == TotalCost(pods, s.workers) - 1
  {
    var w := s'.workers[i];
    assert s'.workers == s.workers[i := w];
    TotalCostUpdate(pods, s.workers, i, w);
  }

  /** No interleaving takes more than five steps for each pod. */
  lemma {:induction false} FanOutIsBounded(pods: seq<Pod>, ext: map<string, string>, run: seq<FanOut>)
    requires IsRun(pods, ext, run)
    ensures |run[|run| - 1].workers| == |pods|
    ensures |run| - 1 + TotalCost(pods, run[|run| - 1].workers) <= 5 * |pods|
  {
    if |run| == 1 {
      TotalCostBound(pods, run[0].workers);
    } else {
      var n := |run| - 1;
      FanOutIsBounded(pods, ext, run[..n]);
      RunInv(pods, ext, run[..n]);
      var s, s' := run[n - 1], run[n];
      assert Step(pods, ext, s, s');
      if Launch(pods, ext, s, s') {
        LaunchCostsOne(pods, ext, s, s');
      } else {
        var i: nat :| Work(pods, s, s', i);
        WorkCostsOne(pods, s, s', i);
      }
    }
  }

  /** Nothing waits for anything that cannot move: an unfinished fan-out always has a next step. */
  lemma FanOutNeverBlocks(pods: seq<Pod>, ext: map<string, string>, run: seq<FanOut>)
    requires IsRun(pods, ext, run)
    ensures Finished(pods, run[|run| - 1]) || CanStep(pods, ext, run[|run| - 1])
  {
    var s := run[|run| - 1];
    RunInv(pods, ext, run);
    if s.next < |pods| {
      var s' := FanOut(s.next + 1,
                       s.results[s.next := Blank(pods[s.next], ext)],
                       s.workers[s.next := if pods[s.next].ip == "" then Done else Asking]);
      assert Step(pods, ext, s, s');
    } else if i :| 0 <= i < |pods| && s.workers[i] != Done {
      assert Coherent(pods[i], ext, s.workers[i], s.results[i]);
      var slot := s.results[i];
      var s' := match s.workers[i] {
        case Answered(a) => s.(workers := s.workers[i := NameCopied(a.(name := slot.name))])
        case NameCopied(a) => s.(workers := s.workers[i := Filled(a.(externalIP := slot.externalIP))])
        case Filled(a) => s.(results := s.results[i := a], workers := s.workers[i := Done])
        case Asking => s.(workers := s.workers[i := Answered(pods[i].answer)])
        case Unlaunched => s
        case Done => s
      };
      assert Work(pods, s, s', i);
      assert Step(pods, ext, s, s');
    }
  }

  /** Every interleaving that reaches the wait leaves exactly what the sequential poll leaves. */
  lemma FanOutMatchesSequential(pods: seq<Pod>, ext: map<string, string>, run: seq<FanOut>)
    requires IsRun(pods, ext, run)
    requires Finished(pods, run[|run| - 1])
    ensures run[|run| - 1].results == Reports(pods, ext)
  {
    RunInv(pods, ext, run);
    ReportsAt(pods, ext);
    var s := run[|run| - 1];
    assert forall i | 0 <= i < |pods| :: Coherent(pods[i], ext, s.workers[i], s.results[i]);
  }

  ghost predicate DistinctNames(pods: seq<Pod>) {
    forall i, j | 0 <= i < j < |pods| :: pods[i].name != pods[j].name
  }

  lemma NamesSeparateReports(pods: seq<Pod>, ext: map<string, string>, nodes: seq<NodeStatus>)
    requires DistinctNames(pods)
    requires multiset(nodes) == multiset(Reports(pods, ext))
    ensures Separates(nodes, ByName)
  {
    forall x, y | x in nodes && y in nodes && ByName(x, y) && ByName(y, x) ensures x == y {
      assert x in multiset(nodes) && y in multiset(nodes);
      LeAntisymmetric(x.name, y.name);
      NameDecidesReport(pods, ext, x, y);
    }
  }

  lemma NameDecidesReport(pods: seq<Pod>, ext: map<string, string>, x: NodeStatus, y: NodeStatus)
    requires DistinctNames(pods)
    requires x in multiset(Reports(pods, ext)) && y in multiset(Reports(pods, ext)) && x.name == y.name
    ensures x == y
  {
    ReportsAt(pods, ext);
    var i := ReportIndex(pods, Reports(pods, ext), ext, x);
    var j := ReportIndex(pods, Reports(pods, ext), ext, y);
    NameDecidesIndex(pods, i, j);
  }

  lemma NameDecidesIndex(pods: seq<Pod>, i: nat, j: nat)
    requires DistinctNames(pods) && i < |pods| && j < |pods| && pods[i].name == pods[j].name
    ensures i == j
  {
  }

  lemma ReportIndex(pods: seq<Pod>, reports: seq<NodeStatus>, ext: map<string, string>, x: NodeStatus) returns (i: nat)
    requires x in multiset(reports) && |reports| == |pods|
    requires forall i | 0 <= i < |pods| :: reports[i] == ReportOf(pods[i], ext)
    ensures i < |pods| && reports[i] == x && pods[i].name == x.name
  {
    i :| 0 <= i < |reports| && reports[i] == x;
  }

  /**
   * Neither the interleaving, nor the order the pods were listed in, nor the sorting algorithm shows:
   * any correct sort of what any finished fan-out over any reordering leaves is the same list.
   */
  lemma PollIsDeterministic(
      pods: seq<Pod>, listed: seq<Pod>, ext: map<string, string>, run: seq<FanOut>, sorted: seq<NodeStatus>)
    requires DistinctNames(pods) && multiset(listed) == multiset(pods)
    requires IsRun(listed, ext, run) && Finished(listed, run[|run| - 1])
    requires IsSortOf(sorted, run[|run| - 1].results, ByName)
    ensures sorted == Nodes(pods, ext)
  {
    FanOutMatchesSequential(listed, ext, run);
    FlatMapPermutes((pod: Pod) => [ReportOf(pod, ext)], listed, pods);
    ByNameIsAnOrder();
    NamesSeparateReports(pods, ext, sorted);
    SortUnique(sorted, Nodes(pods, ext), ByName);
  }

  // ---- aggregation ----

  function HealthyCount(nodes: seq<NodeStatus>): (n: nat)
    ensures n <= |nodes|
  {
    if |nodes| == 0 then 0
    else HealthyCount(nodes[..|nodes| - 1]) + if nodes[|nodes| - 1].healthy then 1 else 0
  }

  function PeerSum(nodes: seq<NodeStatus>): int {
    if |nodes| == 0 then 0 else PeerSum(nodes[..|nodes| - 1]) + nodes[|nodes| - 1].connectedPeers
  }

  /** The positive P-chain heights, in node order. */
  function Heights(nodes: seq<NodeStatus>): (hs: seq<int64>)
    ensures forall h | h in hs :: h > 0
  {
    if |nodes| == 0 then []
    else
      var n := nodes[|nodes| - 1];
      Heights(nodes[..|nodes| - 1]) + if n.pChainHeight > 0 then [n.pChainHeight] else []
  }

  datatype Reason = NodeUnhealthy(name: string) | HeightSkewExceeds(skew: int, limit: int)

  function UnhealthyReasons(nodes: seq<NodeStatus>): seq<Reason> {
    if |nodes| == 0 then []
    else
      var n := nodes[|nodes| - 1];
      UnhealthyReasons(nodes[..|nodes| - 1]) + if n.healthy then [] else [NodeUnhealthy(n.name)]
  }

  /** The configured limit, defaulted. */
  function SkewLimit(maxHeightSkew: int64): (limit: int64)
    ensures limit > 0
  {
    if maxHeightSkew <= 0 then 100 else maxHeightSkew
  }

  ghost function Gap(h: int64, g: int64): int {
    h as int - g as int
  }

  /** `skew` is the widest gap between two of the heights. */
  ghost predicate IsSkew(hs: seq<int64>, skew: int) {
    && (|hs| <= 1 ==> skew == 0)
    && (forall h, g | h in hs && g in hs :: Gap(h, g) <= skew)
    && (|hs| > 1 ==> exists h, g :: h in hs && g in hs && Gap(h, g) == skew)
  }

  datatype Summary = Summary(
    nodes: seq<NodeStatus>, healthy: int32, totalPeers: int32, heightSkew: int64, reasons: seq<Reason>)

  function Lowest(hs: seq<int64>): (lo: int64)
    requires |hs| > 0
    ensures lo in hs && forall h | h in hs :: lo <= h
  {
    var n := |hs| - 1;
    if n == 0 then hs[0]
    else
      var m := Lowest(hs[..n]);
      assert hs == hs[..n] + [hs[n]];
      if hs[n] < m then hs[n] else m
  }

  function Highest(hs: seq<int64>): (hi: int64)
    requires |hs| > 0
    ensures hi in hs && forall h | h in hs :: h <= hi
  {
    var n := |hs| - 1;
    if n == 0 then hs[0]
    else
      var m := Highest(hs[..n]);
      assert hs == hs[..n] + [hs[n]];
      if hs[n] > m then hs[n] else m
  }

  /** The subtraction stays inside `int64`. */
  function Skew(hs: seq<int64>): int64
    requires forall h | h in hs :: h > 0
  {
    if |hs| > 1 then Highest(hs) - Lowest(hs) else 0
  }

  lemma SkewIsTheWidestGap(hs: seq<int64>)
    requires forall h | h in hs :: h > 0
    ensures Skew(hs) >= 0 && IsSkew(hs, Skew(hs))
  {
  }

  function Summarize(nodes: seq<NodeStatus>, maxHeightSkew: int64): Summary {
    var skew := Skew(Heights(nodes));
    var limit := SkewLimit(maxHeightSkew);
    Summary(nodes, Wrap32(HealthyCount(nodes)), Wrap32(PeerSum(nodes)), skew,
            UnhealthyReasons(nodes) + if skew > limit then [HeightSkewExceeds(skew, limit)] else [])
  }

  method Spread(heights: seq<int64>) returns (lo: int64, hi: int64)
    requires |heights| > 0
    ensures lo == Lowest(heights) && hi == Highest(heights)
  {
    lo, hi := heights[0], heights[0];
    for k := 0 to |heights|
      invariant k > 0 ==> lo == Lowest(heights[..k]) && hi == Highest(heights[..k])
      invariant k == 0 ==> lo == hi == heights[0]
    {
      var h := heights[k];
      assert heights[..k + 1][..k] == heights[..k];
      if h < lo { lo := h; }
      if h > hi { hi := h; }
    }
    assert heights[..|heights|] == heights;
  }

  lemma WrapSum(a: int, b: int)
    ensures Wrap32(Wrap32(a) + b) == Wrap32(a + b)
  {
  }

  lemma WrapOfCount(n: nat)
    ensures Wrap32(n) <= n
    ensures n < 0x8000_0000 ==> Wrap32(n) == n
  {
  }

  /** The first aggregation loop, over the sorted results. */
  method Tally(results: seq<NodeStatus>)
    returns (healthy: int32, totalPeers: int32, heights: seq<int64>, degraded: seq<Reason>)
    ensures healthy == Wrap32(HealthyCount(results))
    ensures totalPeers == Wrap32(PeerSum(results))
    ensures heights == Heights(results)
    ensures degraded == UnhealthyReasons(results)
  {
    healthy, totalPeers, heights, degraded := 0, 0, [], [];
    for k := 0 to |results|
      invariant healthy == Wrap32(HealthyCount(results[..k]))
      invariant totalPeers == Wrap32(PeerSum(results[..k]))
      invariant heights == Heights(results[..k])
      invariant degraded == UnhealthyReasons(results[..k])
    {
      var n := results[k];
      assert results[..k + 1][..k] == results[..k];
      WrapSum(HealthyCount(results[..k]), 1);
      WrapSum(PeerSum(results[..k]), n.connectedPeers);
      if n.healthy {
        healthy := Wrap32(healthy + 1);
      } else {
        degraded := degraded + [NodeUnhealthy(n.name)];
      }
      totalPeers := Wrap32(totalPeers + n.connectedPeers);
      if n.pChainHeight > 0 {
        heights := heights + [n.pChainHeight];
      }
    }
    assert results[..|results|] == results;
  }

  method Aggregate(results: seq<NodeStatus>, maxHeightSkew: int64) returns (s: Summary)
    ensures s == Summarize(results, maxHeightSkew)
  {
    var healthy, totalPeers, heights, degraded := Tally(results);
    var skew: int64 := 0;
    if |heights| > 1 {
      var lo, hi := Spread(heights);
      skew := hi - lo;
      var limit := SkewLimit(maxHeightSkew);
      if skew > limit {
        degraded := degraded + [HeightSkewExceeds(skew, limit)];
      }
    }
    s := Summary(results, healthy, totalPeers, skew, degraded);
  }

  /** The poll as one thread runs it: launch, ask, fill in the slot, then sort. */
  method Poll(pods: seq<Pod>, ext: map<string, string>, maxHeightSkew: int64) returns (s: Summary)
    ensures s == Summarize(Nodes(pods, ext), maxHeightSkew)
  {
    var results := new NodeStatus[|pods|](_ => NodeStatus("", "", "", false, false, 0, 0, 0));
    for i := 0 to |pods|
      invariant forall k | 0 <= k < i :: results[k] == ReportOf(pods[k], ext)
    {
      var pod := pods[i];
      results[i] := Blank(pod, ext);
      if pod.ip != "" {
        var a := pod.answer;
        a := a.(name := results[i].name);
        a := a.(externalIP := results[i].externalIP);
        results[i] := a;
      }
    }
    ReportsAt(pods, ext);
    assert results[..] == Reports(pods, ext);
    ByNameIsAnOrder();
    var sorted := Sort(results[..], ByName);
    s := Aggregate(sorted, maxHeightSkew);
  }

  // ---- what the aggregates mean ----

  lemma {:induction false} UnhealthyCount(nodes: seq<NodeStatus>)
    ensures HealthyCount(nodes) + |UnhealthyReasons(nodes)| == |nodes|
    ensures |UnhealthyReasons(nodes)| == 0 <==> forall n | n in nodes :: n.healthy
  {
    if |nodes| > 0 {
      var k := |nodes| - 1;
      UnhealthyCount(nodes[..k]);
      assert nodes == nodes[..k] + [nodes[k]];
    }
  }

  ghost function HealthyAt(nodes: seq<NodeStatus>): set<nat> {
    set i: nat | i < |nodes| && nodes[i].healthy
  }

  lemma {:induction false} HealthyCountIsExact(nodes: seq<NodeStatus>)
    ensures HealthyCount(nodes) == |HealthyAt(nodes)|
  {
    if |nodes| > 0 {
      var k := |nodes| - 1;
      HealthyCountIsExact(nodes[..k]);
      assert HealthyAt(nodes) == HealthyAt(nodes[..k]) + if nodes[k].healthy then {k} else {};
    }
  }

  /**
   * Every reason is accounted for: one for each unhealthy pod, and one more exactly when the skew is
   * over the configured limit, or over 100 when none is. The skew is the widest gap between two positive
   * heights. The counts are the counted nodes' up to the wrap-around of an `int32`.
   */
  lemma AggregationIsExact(nodes: seq<NodeStatus>, maxHeightSkew: int64)
    ensures var s := Summarize(nodes, maxHeightSkew);
            var limit := if maxHeightSkew > 0 then maxHeightSkew else 100;
            && |HealthyAt(nodes)| + |s.reasons| == |nodes| + (if s.heightSkew > limit then 1 else 0)
            && s.heightSkew >= 0 && IsSkew(Heights(nodes), s.heightSkew)
            && s.healthy <= |HealthyAt(nodes)|
            && (|nodes| < 0x8000_0000 ==> s.healthy == |HealthyAt(nodes)|)
  {
    UnhealthyCount(nodes);
    HealthyCountIsExact(nodes);
    WrapOfCount(HealthyCount(nodes));
    SkewIsTheWidestGap(Heights(nodes));
  }

  lemma {:induction false} ReasonIffUnhealthy(nodes: seq<NodeStatus>, r: Reason)
    ensures r in UnhealthyReasons(nodes) <==> exists n :: n in nodes && !n.healthy && r == NodeUnhealthy(n.name)
  {
    if |nodes| > 0 {
      var k := |nodes| - 1;
      ReasonIffUnhealthy(nodes[..k], r);
      assert nodes == nodes[..k] + [nodes[k]];
    }
  }

  /** Which reasons there are: every unhealthy node by name, and the skew with the limit it is over. */
  lemma ReasonsAreExact(nodes: seq<NodeStatus>, maxHeightSkew: int64, r: Reason)
    ensures var s := Summarize(nodes, maxHeightSkew);
            var limit := if maxHeightSkew > 0 then maxHeightSkew else 100;
            r in s.reasons <==>
              || (exists n :: n in nodes && !n.healthy && r == NodeUnhealthy(n.name))
              || (s.heightSkew > limit && r == HeightSkewExceeds(s.heightSkew, limit))
  {
    ReasonIffUnhealthy(nodes, r);
  }

  /** The skew over the nodes themselves: an upper bound on the gaps of positive heights that some two of them attain. */
  lemma SkewIsExact(nodes: seq<NodeStatus>, maxHeightSkew: int64)
    ensures var skew := Summarize(nodes, maxHeightSkew).heightSkew;
            && (forall n, m | n in nodes && m in nodes && n.pChainHeight > 0 && m.pChainHeight > 0 ::
                  Gap(n.pChainHeight, m.pChainHeight) <= skew)
            && (skew == 0 || exists n, m :: n in nodes && m in nodes && n.pChainHeight > 0 && m.pChainHeight > 0
                                            && Gap(n.pChainHeight, m.pChainHeight) == skew)
  {
    var hs := Heights(nodes);
    SkewIsTheWidestGap(hs);
    forall n, m | n in nodes && m in nodes && n.pChainHeight > 0 && m.pChainHeight > 0
      ensures Gap(n.pChainHeight, m.pChainHeight) <= Skew(hs)
    {
      HeightsOf(nodes, n);
      HeightsOf(nodes, m);
    }
    if |hs| > 1 {
      var h, g :| h in hs && g in hs && Gap(h, g) == Skew(hs);
      var n := HeightIsOfANode(nodes, h);
      var m := HeightIsOfANode(nodes, g);
    }
  }

  lemma {:induction false} HeightIsOfANode(nodes: seq<NodeStatus>, h: int64) returns (n: NodeStatus)
    requires h in Heights(nodes)
    ensures n in nodes && n.pChainHeight == h && h > 0
  {
    var k := |nodes| - 1;
    assert nodes == nodes[..k] + [nodes[k]];
    if h in Heights(nodes[..k]) { n := HeightIsOfANode(nodes[..k], h); } else { n := nodes[k]; }
  }

  /** One more node adds its peers to the total, which starts at zero and wraps around like an `int32`. */
  lemma PeersAddUp(nodes: seq<NodeStatus>, n: NodeStatus, maxHeightSkew: int64)
    ensures Summarize([], maxHeightSkew).totalPeers == 0
    ensures var total := Summarize(nodes, maxHeightSkew).totalPeers;
            (Summarize(nodes + [n], maxHeightSkew).totalPeers - (total + n.connectedPeers)) % 0x1_0000_0000 == 0
  {
    assert (nodes + [n])[..|nodes|] == nodes;
    WrapSum(PeerSum(nodes), n.connectedPeers);
    WrapIsCongruent(Wrap32(PeerSum(nodes)) + n.connectedPeers);
  }

  lemma WrapIsCongruent(x: int)
    ensures (Wrap32(x) - x) % 0x1_0000_0000 == 0
  {
    var y := x + 0x8000_0000;
    assert y == 0x1_0000_0000 * (y / 0x1_0000_0000) + y % 0x1_0000_0000;
  }

  /** What the poll lists of a pod: its name and address, and the answer's fields when it has an address to ask. */
  lemma PollListsEachPod(pods: seq<Pod>, ext: map<string, string>, pod: Pod)
    requires pod in pods
    ensures |Nodes(pods, ext)| == |pods|
    ensures exists n ::
              && n in Nodes(pods, ext) && n.name == pod.name
              && n.externalIP == (if pod.name in ext then ext[pod.name] else "")
              && (if pod.ip == "" then
                    !n.healthy && !n.bootstrapped && n.nodeID == "" && n.connectedPeers == 0
                    && n.pChainHeight == 0 && n.cChainHeight == 0
                  else
                    && n.healthy == pod.answer.healthy && n.bootstrapped == pod.answer.bootstrapped
                    && n.nodeID == pod.answer.nodeID && n.connectedPeers == pod.answer.connectedPeers
                    && n.pChainHeight == pod.answer.pChainHeight && n.cChainHeight == pod.answer.cChainHeight)
  {
    EveryReportIsListed(pods, ext);
    assert ReportOf(pod, ext) in Nodes(pods, ext);
  }

  /** And in the order of the names. */
  lemma PollSortsByName(pods: seq<Pod>, ext: map<string, string>, i: nat, j: nat)
    requires i < j < |Nodes(pods, ext)|
    ensures Le(Nodes(pods, ext)[i].name, Nodes(pods, ext)[j].name)
  {
    assert ByName(Nodes(pods, ext)[i], Nodes(pods, ext)[j]);
  }

  lemma {:induction false} HeightsOf(nodes: seq<NodeStatus>, n: NodeStatus)
    requires n in nodes && n.pChainHeight > 0
    ensures n.pChainHeight in Heights(nodes)
  {
    var k := |nodes| - 1;
    if n != nodes[k] {
      assert nodes == nodes[..k] + [nodes[k]];
      HeightsOf(nodes[..k], n);
    }
  }

  lemma EveryReportIsListed(pods: seq<Pod>, ext: map<string, string>)
    ensures |Nodes(pods, ext)| == |pods|
    ensures forall pod | pod in pods :: ReportOf(pod, ext) in Nodes(pods, ext)
  {
    ByNameIsAnOrder();
    ReportsAt(pods, ext);
    forall pod | pod in pods ensures ReportOf(pod, ext) in Nodes(pods, ext) {
      var i :| 0 <= i < |pods| && pods[i] == pod;
      assert Reports(pods, ext)[i] in multiset(Reports(pods, ext));
      assert ReportOf(pod, ext) in multiset(Nodes(pods, ext));
    }
  }

  /** A summary with no reasons hides nothing about the pods it was made from. */
  lemma NoReasonsMeansAllWell(pods: seq<Pod>, ext: map<string, string>, maxHeightSkew: int64)
    requires |Summarize(Nodes(pods, ext), maxHeightSkew).reasons| == 0
    ensures forall pod | pod in pods :: ReportOf(pod, ext).healthy
    ensures Summarize(Nodes(pods, ext), maxHeightSkew).healthy <= |pods|
    ensures forall p, q | p in pods && q in pods
              && ReportOf(p, ext).pChainHeight > 0 && ReportOf(q, ext).pChainHeight > 0 ::
              Gap(ReportOf(p, ext).pChainHeight, ReportOf(q, ext).pChainHeight) <= if maxHeightSkew > 0 then maxHeightSkew else 100
  {
    EveryReportIsListed(pods, ext);
    NoReasonsInAList(Nodes(pods, ext), maxHeightSkew);
  }

  lemma NoReasonsInAList(nodes: seq<NodeStatus>, maxHeightSkew: int64)
    requires |Summarize(nodes, maxHeightSkew).reasons| == 0
    ensures forall n | n in nodes :: n.healthy
    ensures Summarize(nodes, maxHeightSkew).healthy <= |nodes|
    ensures forall n, m | n in nodes && m in nodes && n.pChainHeight > 0 && m.pChainHeight > 0 ::
              Gap(n.pChainHeight, m.pChainHeight) <= if maxHeightSkew > 0 then maxHeightSkew else 100
  {
    AggregationIsExact(nodes, maxHeightSkew);
    UnhealthyCount(nodes);
    forall n, m | n in nodes && m in nodes && n.pChainHeight > 0 && m.pChainHeight > 0
      ensures Gap(n.pChainHeight, m.pChainHeight) <= Summarize(nodes, maxHeightSkew).heightSkew
    {
      HeightsOf(nodes, n);
      HeightsOf(nodes, m);
    }
  }
}
