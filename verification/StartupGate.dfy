/** The startup-gate script, alone and in a system of nodes that gate on each other. */
module StartupGate {

  /** The gate settings of a cluster, as written by its owner. */
  datatype GateSpec = GateSpec(minPeers: int, timeoutSeconds: int, checkIntervalSeconds: int, startAnyway: bool)

  /** The constants the script is rendered with. `targets` is how many ordinals TARGETS lists. */
  datatype Gate = Gate(min: nat, timeout: nat, interval: nat, startAnyway: bool, targets: nat) {
    predicate Valid() { min > 0 && timeout > 0 && interval > 0 }
  }

  function Render(spec: GateSpec, replicas: int): (g: Gate)
    ensures g.Valid()
    ensures spec.minPeers > 0 ==> g.min == spec.minPeers
    ensures spec.minPeers <= 0 ==> g.min == 1
    ensures spec.timeoutSeconds > 0 ==> g.timeout == spec.timeoutSeconds
    ensures spec.timeoutSeconds <= 0 ==> g.timeout == 300
    ensures spec.checkIntervalSeconds > 0 ==> g.interval == spec.checkIntervalSeconds
    ensures spec.checkIntervalSeconds <= 0 ==> g.interval == 10
    ensures g.startAnyway == spec.startAnyway
    ensures replicas > 0 ==> g.targets == replicas
    ensures replicas <= 0 ==> g.targets == 0
  {
    Gate(if spec.minPeers <= 0 then 1 else spec.minPeers,
         if spec.timeoutSeconds <= 0 then 300 else spec.timeoutSeconds,
         if spec.checkIntervalSeconds <= 0 then 10 else spec.checkIntervalSeconds,
         spec.startAnyway,
         if replicas <= 0 then 0 else replicas)
  }

  /** Where one execution of the script is: about to probe target `next`, or finished. */
  datatype Script = Sweeping(elapsed: nat, next: nat, ok: nat) | Exit(code: nat)

  const START := Sweeping(0, 0, 0)

  /** The `curl` of the next target. */
  function Probe(s: Script, answered: bool): Script
    requires s.Sweeping?
  {
    Sweeping(s.elapsed, s.next + 1, if answered then s.ok + 1 else s.ok)
  }

  /** The end of a sweep: the quorum test, the sleep, and the loop condition. */
  function EndSweep(g: Gate, s: Script): Script
    requires s.Sweeping?
  {
    if s.ok >= g.min then Exit(0)
    else if s.elapsed + g.interval < g.timeout then Sweeping(s.elapsed + g.interval, 0, 0)
    else if g.startAnyway then Exit(0)
    else Exit(1)
  }

  // ---- one script, run to its end ----

  /** How many targets below `n` answer in a sweep. */
  function Answers(probe: nat -> bool, n: nat): (ok: nat)
    ensures ok <= n
  {
    if n == 0 then 0 else Answers(probe, n - 1) + if probe(n - 1) then 1 else 0
  }

  ghost function AnsweringBelow(probe: nat -> bool, n: nat): set<nat> {
    set j | 0 <= j < n && probe(j)
  }

  lemma {:induction false} AnswersCount(probe: nat -> bool, n: nat)
    ensures Answers(probe, n) == |AnsweringBelow(probe, n)|
  {
    if n > 0 {
      AnswersCount(probe, n - 1);
      assert AnsweringBelow(probe, n) == AnsweringBelow(probe, n - 1) + if probe(n - 1) then {n - 1} else {};
    }
  }

  /** Sweeps the timeout leaves room for: the timeout over the interval, rounded up. */
  function MaxSweeps(g: Gate): (n: nat)
    requires g.Valid()
  {
    (g.timeout + g.interval - 1) / g.interval
  }

  lemma MaxSweepsBounds(g: Gate, k: nat)
    requires g.Valid()
    ensures k < MaxSweeps(g) <==> k * g.interval < g.timeout
  {
    var n := MaxSweeps(g);
    var t := g.timeout + g.interval - 1;
    assert t == n * g.interval + t % g.interval;
    assert n * g.interval < g.timeout + g.interval;
    assert n * g.interval >= g.timeout;
    if k < n {
      assert k * g.interval <= (n - 1) * g.interval == n * g.interval - g.interval;
    } else {
      assert k * g.interval >= n * g.interval;
    }
  }

  /** The script's small steps, driven to its exit by what the targets answer in each sweep. */
  function Drive(g: Gate, probe: nat -> nat -> bool, sweep: nat, s: Script): Script
    requires g.Valid()
    requires s.Sweeping? ==> s.elapsed < g.timeout && s.next <= g.targets
    decreases if s.Exit? then 0 else 1, if s.Exit? then 0 else g.timeout - s.elapsed,
              if s.Exit? then 0 else g.targets - s.next
  {
    if s.Exit? then s
    else if s.next < g.targets then Drive(g, probe, sweep, Probe(s, probe(sweep)(s.next)))
    else Drive(g, probe, sweep + 1, EndSweep(g, s))
  }

  /** Some sweep that the timeout leaves room for reaches the quorum. */
  ghost predicate QuorumSeen(g: Gate, probe: nat -> nat -> bool)
    requires g.Valid()
  {
    exists k | 0 <= k < MaxSweeps(g) :: Answers(probe(k), g.targets) >= g.min
  }

  /**
   * The script as the shell runs it; `probe(k)(j)` says whether target `j` answers in sweep `k`. It ends
   * where the small steps end, it exits 0 exactly for a quorum in one sweep or for
   * StartAnyway, it stops at the first sweep with a quorum, and it never exceeds the sweep bound.
   */
  method Run(g: Gate, probe: nat -> nat -> bool) returns (code: nat, sweeps: nat)
    requires g.Valid()
    ensures Exit(code) == Drive(g, probe, 0, START)
    ensures sweeps <= MaxSweeps(g)
    ensures code == 0 <==> g.startAnyway || QuorumSeen(g, probe)
    ensures code == 0 || code == 1
    ensures QuorumSeen(g, probe) ==> 0 < sweeps && Answers(probe(sweeps - 1), g.targets) >= g.min
    ensures forall k | 0 <= k < sweeps - 1 :: Answers(probe(k), g.targets) < g.min
    ensures !QuorumSeen(g, probe) ==> sweeps == MaxSweeps(g)
  {
    var elapsed: nat := 0;
    sweeps := 0;
    ghost var at := START;
    MaxSweepsBounds(g, 0);
    while elapsed < g.timeout
      invariant elapsed == sweeps * g.interval
      invariant sweeps <= MaxSweeps(g)
      invariant elapsed < g.timeout ==> at == Sweeping(elapsed, 0, 0)
      invariant elapsed >= g.timeout ==> at == Exit(if g.startAnyway then 0 else 1)
      invariant Drive(g, probe, 0, START) == Drive(g, probe, sweeps, at)
      invariant forall k | 0 <= k < sweeps :: Answers(probe(k), g.targets) < g.min
      decreases g.timeout + g.interval - elapsed
    {
      MaxSweepsBounds(g, sweeps);
      var ok: nat := 0;
      for host := 0 to g.targets
        invariant ok == Answers(probe(sweeps), host)
        invariant at == Sweeping(elapsed, host, ok)
        invariant Drive(g, probe, 0, START) == Drive(g, probe, sweeps, at)
      {
        at := Probe(at, probe(sweeps)(host));
        if probe(sweeps)(host) { ok := ok + 1; }
      }
      at := EndSweep(g, at);
      sweeps := sweeps + 1;
      if ok >= g.min {
        return 0, sweeps;
      }
      elapsed := elapsed + g.interval;
    }
    MaxSweepsBounds(g, sweeps);
    code := if g.startAnyway then 0 else 1;
  }

  // ---- many nodes ----

  /** A pod: running its gate script, or past it, healthy or not. */
  datatype Node = Gating(script: Script) | Started(healthy: bool)

  datatype Action =
    | ProbeNext(i: nat, answered: bool)
    | FinishSweep(i: nat)
    | Retry(i: nat)
    | BecomeHealthy(i: nat)
    | LoseHealth(i: nat)
    | Restart(i: nat)

  predicate Healthy(s: seq<Node>, j: nat) {
    j < |s| && s[j] == Started(true)
  }

  /** A finished sweep's effect on the pod: exit 0 lets the node container start. */
  function Settle(s: Script): Node {
    if s == Exit(0) then Started(false) else Gating(s)
  }

  /**
   * One step of one pod. A probe is answered only by a target that is healthy at that moment, and may
   * fail even then; other pods move between any two probes of a sweep. A failed gate is retried by the
   * kubelet, and any pod may be restarted at any time, which runs its gate from the top.
   */
  predicate Step(g: Gate, s: seq<Node>, s': seq<Node>, a: Action) {
    a.i < |s| &&
    match a
    case ProbeNext(i, answered) =>
      && s[i].Gating? && s[i].script.Sweeping? && s[i].script.next < g.targets
      && (answered ==> Healthy(s, s[i].script.next))
      && s' == s[i := Gating(Probe(s[i].script, answered))]
    case FinishSweep(i) =>
      && s[i].Gating? && s[i].script.Sweeping? && s[i].script.next == g.targets
      && s' == s[i := Settle(EndSweep(g, s[i].script))]
    case Retry(i) => s[i].Gating? && s[i].script.Exit? && s' == s[i := Gating(START)]
    case BecomeHealthy(i) => s[i].Started? && s' == s[i := Started(true)]
    case LoseHealth(i) => s[i].Started? && s' == s[i := Started(false)]
    case Restart(i) => s' == s[i := Gating(START)]
  }

  ghost predicate IsRun(g: Gate, states: seq<seq<Node>>, actions: seq<Action>) {
    && |states| == |actions| + 1
    && forall k | 0 <= k < |actions| :: Step(g, states[k], states[k + 1], actions[k])
  }

  /** Every gate is inside its loops: a target of the list, no more answers than probes, time left. */
  ghost predicate InRange(g: Gate, s: seq<Node>) {
    forall i | 0 <= i < |s| && s[i].Gating? && s[i].script.Sweeping? ::
      s[i].script.ok <= s[i].script.next <= g.targets && s[i].script.elapsed < g.timeout
  }

  /** No run ever takes a gate out of its loops, and pods are started only by a gate that exits 0. */
  lemma {:induction false} GatesStayInRange(g: Gate, states: seq<seq<Node>>, actions: seq<Action>, k: nat)
    requires g.Valid() && IsRun(g, states, actions) && k <= |actions| && InRange(g, states[0])
    ensures InRange(g, states[k]) && |states[k]| == |states[0]|
    ensures k > 0 ==>
              forall i | 0 <= i < |states[0]| && states[k][i].Started? && states[k - 1][i].Gating? ::
                && states[k - 1][i].script.Sweeping? && states[k - 1][i].script.next == g.targets
                && (states[k - 1][i].script.ok >= g.min
                    || (g.startAnyway && states[k - 1][i].script.elapsed + g.interval >= g.timeout))
  {
    if k > 0 {
      GatesStayInRange(g, states, actions, k - 1);
      assert Step(g, states[k - 1], states[k], actions[k - 1]);
    }
  }

  ghost function StartedSet(s: seq<Node>): set<nat> {
    set j: nat | j < |s| && s[j].Started?
  }

  ghost function Below(r: set<nat>, n: nat): set<nat> {
    set j | j in r && j < n
  }

  lemma BelowGrows(r: set<nat>, n: nat)
    ensures |Below(r, n + 1)| == |Below(r, n)| + if n in r then 1 else 0
  {
    if n in r {
      assert Below(r, n + 1) == Below(r, n) + {n};
    } else {
      assert Below(r, n + 1) == Below(r, n);
    }
  }

  /** Every count a gate holds is covered by the pods that were started when the run began. */
  ghost predicate Covered(r: set<nat>, s: seq<Node>) {
    && StartedSet(s) <= r
    && forall i | 0 <= i < |s| && s[i].Gating? && s[i].script.Sweeping? ::
         s[i].script.ok <= |Below(r, s[i].script.next)|
  }

  lemma StepKeepsCovered(g: Gate, r: set<nat>, s: seq<Node>, s': seq<Node>, a: Action)
    requires g.Valid() && !g.startAnyway
    requires |Below(r, g.targets)| < g.min && Covered(r, s) && Step(g, s, s', a)
    ensures Covered(r, s') && StartedSet(s') <= StartedSet(s)
  {
    var i := a.i;
    if a.ProbeNext? {
      BelowGrows(r, s[i].script.next);
      if a.answered { assert s[i].script.next in StartedSet(s); }
    }
    forall j | j in StartedSet(s') ensures j in StartedSet(s) {
      assert j == i || s'[j] == s[j];
    }
  }

  /**
   * Under Fail, with fewer than MIN targets started when the run begins and every other pod at the top
   * of its gate, no gate ever passes: whatever is started in a later state was started in every earlier one.
   */
  lemma {:induction false} NoGatePasses(g: Gate, states: seq<seq<Node>>, actions: seq<Action>, k: nat)
    requires g.Valid() && !g.startAnyway
    requires IsRun(g, states, actions) && k <= |actions|
    requires |Below(StartedSet(states[0]), g.targets)| < g.min
    requires forall i | 0 <= i < |states[0]| && states[0][i].Gating? :: states[0][i].script == START
    ensures Covered(StartedSet(states[0]), states[k])
    ensures k > 0 ==> StartedSet(states[k]) <= StartedSet(states[k - 1])
  {
    if k > 0 {
      NoGatePasses(g, states, actions, k - 1);
      StepKeepsCovered(g, StartedSet(states[0]), states[k - 1], states[k], actions[k - 1]);
    }
  }

  // ---- the converse: a steady quorum lets everyone through ----

  /** While this holds of a step, the pods in `h` stay healthy and answer, and pod `i` sweeps undisturbed. */
  ghost predicate Steady(g: Gate, s: seq<Node>, a: Action, h: set<nat>, i: nat) {
    && (forall j | j in h :: j < g.targets && Healthy(s, j))
    && (a.ProbeNext? && a.i == i && i < |s| && s[i].Gating? && s[i].script.Sweeping? && s[i].script.next in h
        ==> a.answered)
    && !(a.Restart? && a.i == i)
  }

  ghost predicate CountsQuorum(s: seq<Node>, h: set<nat>, i: nat, elapsed: nat) {
    && i < |s| && s[i].Gating? && s[i].script.Sweeping?
    && s[i].script.elapsed == elapsed
    && s[i].script.ok >= |Below(h, s[i].script.next)|
  }

  lemma {:induction false} SweepCountsQuorum(
      g: Gate, states: seq<seq<Node>>, actions: seq<Action>, h: set<nat>, i: nat, elapsed: nat, k: nat)
    requires IsRun(g, states, actions) && k <= |actions|
    requires i < |states[0]| && states[0][i] == Gating(Sweeping(elapsed, 0, 0))
    requires forall m | 0 <= m < k :: Steady(g, states[m], actions[m], h, i) && actions[m] != FinishSweep(i)
    ensures CountsQuorum(states[k], h, i, elapsed)
  {
    if k == 0 {
      assert Below(h, 0) == {};
    } else {
      SweepCountsQuorum(g, states, actions, h, i, elapsed, k - 1);
      var a := actions[k - 1];
      assert Steady(g, states[k - 1], a, h, i);
      assert Step(g, states[k - 1], states[k], a);
      if a.i == i && a.ProbeNext? { BelowGrows(h, states[k - 1][i].script.next); }
    }
  }

  /**
   * A pod whose sweep starts while MIN targets are healthy, stay so and answer is started by the very
   * action that ends that sweep, under either policy.
   */
  lemma SteadyQuorumPassesFirstSweep(
      g: Gate, states: seq<seq<Node>>, actions: seq<Action>, h: set<nat>, i: nat, elapsed: nat)
    requires g.Valid() && IsRun(g, states, actions) && |actions| > 0
    requires i < |states[0]| && states[0][i] == Gating(Sweeping(elapsed, 0, 0))
    requires |h| >= g.min
    requires forall m | 0 <= m < |actions| :: Steady(g, states[m], actions[m], h, i)
    requires forall m | 0 <= m < |actions| - 1 :: actions[m] != FinishSweep(i)
    requires actions[|actions| - 1] == FinishSweep(i)
    ensures |states[|actions|]| == |states[|actions| - 1]|
    ensures states[|actions|][i] == Started(false)
  {
    var k := |actions| - 1;
    SweepCountsQuorum(g, states, actions, h, i, elapsed, k);
    assert Steady(g, states[k], actions[k], h, i);
    assert Step(g, states[k], states[k + 1], actions[k]);
    assert Below(h, g.targets) == h;
  }

  /** Such a sweep cannot get stuck either: the pod always has a next step that keeps the sweep steady. */
  lemma SweepCanAdvance(g: Gate, s: seq<Node>, h: set<nat>, i: nat)
    requires i < |s| && s[i].Gating? && s[i].script.Sweeping? && s[i].script.next <= g.targets
    requires forall j | j in h :: j < g.targets && Healthy(s, j)
    ensures exists a: Action, s' ::
              a.i == i && (a.ProbeNext? || a.FinishSweep?) && Step(g, s, s', a) && Steady(g, s, a, h, i)
  {
    if s[i].script.next < g.targets {
      var a := ProbeNext(i, Healthy(s, s[i].script.next));
      assert Step(g, s, s[i := Gating(Probe(s[i].script, a.answered))], a) && Steady(g, s, a, h, i);
    } else {
      var a := FinishSweep(i);
      assert Step(g, s, s[i := Settle(EndSweep(g, s[i].script))], a) && Steady(g, s, a, h, i);
    }
  }

  // ---- the threshold ----

  /** A run from `s0` to `s`. */
  ghost predicate Reaches(g: Gate, states: seq<seq<Node>>, actions: seq<Action>, s0: seq<Node>, s: seq<Node>) {
    IsRun(g, states, actions) && states[0] == s0 && states[|actions|] == s
  }

  lemma Extend(g: Gate, states: seq<seq<Node>>, actions: seq<Action>, s0: seq<Node>, s: seq<Node>,
               a: Action, s': seq<Node>)
    returns (states': seq<seq<Node>>, actions': seq<Action>)
    requires Reaches(g, states, actions, s0, s) && Step(g, s, s', a)
    ensures Reaches(g, states', actions', s0, s')
  {
    states', actions' := states + [s'], actions + [a];
    forall k | 0 <= k < |actions'| ensures Step(g, states'[k], states'[k + 1], actions'[k]) {
      if k < |actions| { assert Step(g, states[k], states[k + 1], actions[k]); }
    }
  }

  /** `s` with its started pods below `n` healthy. */
  function Healed(s: seq<Node>, n: nat): (h: seq<Node>)
    ensures |h| == |s|
    ensures forall j | 0 <= j < |s| :: h[j] == if j < n && s[j].Started? then Started(true) else s[j]
  {
    seq(|s|, j requires 0 <= j < |s| => if j < n && s[j].Started? then Started(true) else s[j])
  }

  lemma {:induction false} ReachesHealed(g: Gate, s: seq<Node>, n: nat)
    returns (states: seq<seq<Node>>, actions: seq<Action>)
    ensures Reaches(g, states, actions, s, Healed(s, n))
  {
    if n == 0 {
      states, actions := [s], [];
      assert Healed(s, 0) == s;
    } else {
      states, actions := ReachesHealed(g, s, n - 1);
      var before, after := Healed(s, n - 1), Healed(s, n);
      if n - 1 < |s| && s[n - 1].Started? {
        assert after == before[n - 1 := Started(true)];
        states, actions := Extend(g, states, actions, s, before, BecomeHealthy(n - 1), after);
      } else {
        assert after == before;
      }
    }
  }

  /** Pod `i` having probed the targets below `n`. */
  ghost function Probed(h: seq<Node>, i: nat, n: nat): seq<Node>
    requires i < |h|
  {
    h[i := Gating(Sweeping(0, n, |Below(StartedSet(h), n)|))]
  }

  lemma {:induction false} ReachesProbed(g: Gate, s: seq<Node>, i: nat, n: nat)
    returns (states: seq<seq<Node>>, actions: seq<Action>)
    requires i < |s| && s[i] == Gating(START) && n <= g.targets
    ensures Reaches(g, states, actions, s, Probed(Healed(s, g.targets), i, n))
  {
    var h := Healed(s, g.targets);
    if n == 0 {
      states, actions := ReachesHealed(g, s, g.targets);
      assert Below(StartedSet(h), 0) == {};
      assert Probed(h, i, 0) == h;
    } else {
      states, actions := ReachesProbed(g, s, i, n - 1);
      BelowGrows(StartedSet(h), n - 1);
      var before := Probed(h, i, n - 1);
      var a := ProbeNext(i, n - 1 in StartedSet(h));
      assert Probed(h, i, n) == before[i := Gating(Probe(before[i].script, a.answered))];
      states, actions := Extend(g, states, actions, s, before, a, Probed(h, i, n));
    }
  }

  lemma HealedKeepsStarted(s: seq<Node>, n: nat)
    ensures StartedSet(Healed(s, n)) == StartedSet(s)
  {
  }

  /**
   * Under Fail, a pod at the top of its gate among others that are, too, or are started, can start in some
   * run exactly when MIN targets are started to begin with.
   */
  lemma GatePassesIff(g: Gate, s: seq<Node>, i: nat)
    requires g.Valid() && !g.startAnyway
    requires i < |s| && s[i].Gating? && forall j | 0 <= j < |s| && s[j].Gating? :: s[j].script == START
    ensures (exists states, actions, s': seq<Node> :: Reaches(g, states, actions, s, s') && i < |s'| && s'[i].Started?)
            <==> |Below(StartedSet(s), g.targets)| >= g.min
  {
    if |Below(StartedSet(s), g.targets)| >= g.min {
      var h := Healed(s, g.targets);
      var states, actions := ReachesProbed(g, s, i, g.targets);
      HealedKeepsStarted(s, g.targets);
      var before := Probed(h, i, g.targets);
      var after := before[i := Started(false)];
      states, actions := Extend(g, states, actions, s, before, FinishSweep(i), after);
      assert after[i].Started?;
    } else {
      forall states, actions, s': seq<Node> | Reaches(g, states, actions, s, s') && i < |s'| ensures !s'[i].Started? {
        NoGatePasses(g, states, actions, |actions|);
        assert i in StartedSet(s') <==> s'[i].Started?;
        assert i !in StartedSet(s);
      }
    }
  }

  /** In particular no pod of a cluster that has none started, such as a new one, ever starts under Fail. */
  lemma NewClusterNeverStarts(g: Gate, states: seq<seq<Node>>, actions: seq<Action>, k: nat)
    requires g.Valid() && !g.startAnyway && IsRun(g, states, actions) && k <= |actions|
    requires forall j | 0 <= j < |states[0]| :: states[0][j] == Gating(START)
    ensures forall j | 0 <= j < |states[k]| :: states[k][j].Gating?
  {
    assert StartedSet(states[0]) == {};
    assert Below(StartedSet(states[0]), g.targets) == {};
    NoGatePasses(g, states, actions, k);
    forall j: nat | j < |states[k]| ensures states[k][j].Gating? {
      assert j !in StartedSet(states[k]);
    }
  }
}
