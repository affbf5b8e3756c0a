/** The boot protocol of a lux pod on its data volume: seed-restore, RLP import, gate, node, with crashes anywhere. */
module BootVolume {
  import opened Wrappers

  type OtherPath = p: string | p !in ["/data/.rlp-imported", "/data/.restore-complete", "/data/.seeded"] witness ""

  /** The marker files the scripts look at, and a path that leads to none of them. */
  datatype Path = RlpImported | RestoreComplete | Seeded | Elsewhere(path: OtherPath)

  type OtherName = n: string | n !in ["Never", "IfEmpty"] witness ""

  /** The seed script only compares the policy with Never and with IfEmpty. */
  datatype Policy = Never | IfEmpty | OtherPolicy(name: OtherName)

  datatype SeedSpec = SeedSpec(enabled: bool, policy: Policy, objectStore: bool, markerPath: Option<Path>)

  datatype RlpSpec = RlpSpec(enabled: bool, filename: string, baseURL: string, cChainID: string)

  datatype Config = Config(plugins: bool, seed: Option<SeedSpec>, rlp: Option<RlpSpec>, gate: bool)

  datatype Container = InitPlugins | SeedRestore | RlpImport | StartupGate

  predicate SeedActive(c: Config) {
    c.seed.Some? && c.seed.value.enabled
  }

  predicate RlpActive(c: Config) {
    c.rlp.Some? && c.rlp.value.enabled && c.rlp.value.filename != "" && c.rlp.value.baseURL != ""
  }

  function DriverContainers(c: Config): seq<Container> {
    (if c.plugins then [InitPlugins] else []) + (if SeedActive(c) then [SeedRestore] else [])
  }

  /** The pod's init containers: the driver's, then what the reconcile appends. */
  function InitOrder(c: Config): seq<Container> {
    DriverContainers(c) + (if RlpActive(c) then [RlpImport] else []) + (if c.gate then [StartupGate] else [])
  }

  function SeedMarker(c: Config): Path
    requires SeedActive(c)
  {
    match c.seed.value.markerPath
    case None => RestoreComplete
    case Some(p) => p
  }

  /** `[ -s "$RLP" ]` tells Empty from the other two, and nothing more. */
  datatype RlpFile = Empty | Truncated | Whole

  datatype Volume = Volume(files: set<Path>, rlp: RlpFile)

  /** What the RLP script does to the chain, and its final touch. */
  datatype Event = Cleared | NodeStarted | Imported(rlp: RlpFile) | ImportFailed | Marked

  datatype Pc =
    | Begin
    | SeedExtract | SeedTouch
    | RlpSeedCheck | RlpTouchSkip | RlpHaveFile | RlpDownload | RlpCheckFile | RlpClear | RlpLaunch
    | RlpWait(i: nat) | RlpHeight | RlpCall | RlpTouch

  /** `at` counts the init containers that have completed; past the last one the node runs. */
  datatype Boot = Boot(vol: Volume, cfg: Config, at: nat, pc: Pc, log: seq<Event>)

  function Exit0(s: Boot): Boot {
    s.(at := s.at + 1, pc := Begin)
  }

  function Touch(s: Boot, p: Path): Boot {
    s.(vol := s.vol.(files := s.vol.files + {p}))
  }

  /** Files may appear, the RLP file may change, nothing is removed. */
  predicate Unpacks(v: Volume, v': Volume) {
    v.files <= v'.files
  }

  predicate SeedStep(s: Boot, s': Boot)
    requires SeedActive(s.cfg)
  {
    var seed := s.cfg.seed.value;
    match s.pc
    case Begin =>
      if seed.policy.Never? || (seed.policy.IfEmpty? && SeedMarker(s.cfg) in s.vol.files)
      then s' == Exit0(s)
      else s' == s.(pc := SeedExtract)
    case SeedExtract =>
      if seed.objectStore
      then Unpacks(s.vol, s'.vol) && (s' == s.(vol := s'.vol) || s' == s.(vol := s'.vol, pc := SeedTouch))
      else s' == s.(pc := SeedTouch)
    case SeedTouch => s' == Exit0(Touch(s, SeedMarker(s.cfg)))
    case _ => false
  }

  /** Up to 150 failed probes are tolerated; one more fails the container. */
  const MAX_WAIT: nat := 150

  /** One probe of the temporary node; a container that gives up starts over. */
  function NextWait(i: nat, answered: bool): Pc {
    if answered then RlpHeight else if i + 1 > MAX_WAIT then Begin else RlpWait(i + 1)
  }

  predicate RlpStep(s: Boot, s': Boot)
    requires RlpActive(s.cfg)
  {
    match s.pc
    case Begin => if RlpImported in s.vol.files then s' == Exit0(s) else s' == s.(pc := RlpSeedCheck)
    case RlpSeedCheck =>
      s' == s.(pc := if RestoreComplete in s.vol.files || Seeded in s.vol.files then RlpTouchSkip else RlpHaveFile)
    case RlpTouchSkip => s' == Exit0(Touch(s, RlpImported))
    case RlpHaveFile => s' == s.(pc := if s.vol.rlp.Empty? then RlpDownload else RlpCheckFile)
    case RlpDownload =>
      s'.vol.files == s.vol.files
      && (s' == s.(vol := s'.vol) || s' == s.(vol := s'.vol, pc := RlpCheckFile))
    case RlpCheckFile => if s.vol.rlp.Empty? then s' == Exit0(s) else s' == s.(pc := RlpClear)
    case RlpClear =>
      s' == s.(pc := RlpLaunch, log := if s.cfg.rlp.value.cChainID == "" then s.log else s.log + [Cleared])
    case RlpLaunch => s' == s.(pc := RlpWait(0), log := s.log + [NodeStarted])
    case RlpWait(i) => s' == s.(pc := NextWait(i, true)) || s' == s.(pc := NextWait(i, false))
    case RlpHeight => s' == s.(pc := RlpCall) || s' == s.(pc := RlpTouch)
    case RlpCall =>
      || s' == s.(pc := RlpTouch, log := s.log + [Imported(s.vol.rlp)])
      || s' == s.(pc := RlpTouch, log := s.log + [ImportFailed])
    case RlpTouch => s' == Exit0(Touch(s, RlpImported)).(log := s.log + [Marked])
    case _ => false
  }

  /** The running container moves on. The node may add files of its own. */
  predicate Progress(s: Boot, s': Boot) {
    var order := InitOrder(s.cfg);
    if s.at < |order| then
      match order[s.at]
      case SeedRestore => SeedActive(s.cfg) && SeedStep(s, s')
      case RlpImport => RlpActive(s.cfg) && RlpStep(s, s')
      case _ => s' == Exit0(s)
    else
      s' == s.(vol := s'.vol) && Unpacks(s.vol, s'.vol)
  }

  /** A container that fails or is killed is started over. */
  predicate Crash(s: Boot, s': Boot) {
    s' == s.(pc := Begin)
  }

  /** The pod is started over, from its first init container, possibly from a changed spec. */
  predicate PodRestart(s: Boot, s': Boot) {
    s' == Boot(s.vol, s'.cfg, 0, Begin, s.log)
  }

  predicate Step(s: Boot, s': Boot) {
    Progress(s, s') || Crash(s, s') || PodRestart(s, s')
  }

  ghost predicate IsRun(run: seq<Boot>) {
    && |run| > 0
    && run[0].at == 0 && run[0].pc == Begin && run[0].log == []
    && forall k | 0 <= k < |run| - 1 :: Step(run[k], run[k + 1])
  }

  // ---- once marked, nothing follows ----

  predicate InSeed(pc: Pc) {
    pc.SeedExtract? || pc.SeedTouch?
  }

  /** The program counter belongs to the running container, and no RLP step runs past a marker. */
  ghost predicate Orderly(s: Boot) {
    var order := InitOrder(s.cfg);
    && s.at <= |order|
    && (s.pc.Begin? || (s.at < |order| && order[s.at] == if InSeed(s.pc) then SeedRestore else RlpImport))
    && (RlpImported in s.vol.files ==> s.pc.Begin? || InSeed(s.pc))
    && (Marked in s.log ==> RlpImported in s.vol.files)
  }

  /** A marked volume stays marked and its log stays as it is. */
  ghost predicate Settled(s: Boot, s': Boot) {
    RlpImported in s.vol.files ==> RlpImported in s'.vol.files && s'.log == s.log
  }

  /** What one step may do to the marker and to the log. */
  ghost predicate Advances(s: Boot, s': Boot) {
    && Orderly(s')
    && Settled(s, s')
    && s.log <= s'.log && |s'.log| <= |s.log| + 1
  }

  lemma RlpStepAdvances(s: Boot, s': Boot)
    requires Orderly(s) && s.at < |InitOrder(s.cfg)| && InitOrder(s.cfg)[s.at] == RlpImport
    requires RlpActive(s.cfg) && RlpStep(s, s')
    ensures Advances(s, s')
  {
  }

  lemma SeedStepAdvances(s: Boot, s': Boot)
    requires Orderly(s) && s.at < |InitOrder(s.cfg)| && InitOrder(s.cfg)[s.at] == SeedRestore
    requires SeedActive(s.cfg) && SeedStep(s, s')
    ensures Advances(s, s')
  {
  }

  lemma StepAdvances(s: Boot, s': Boot)
    requires Orderly(s) && Step(s, s')
    ensures Advances(s, s')
  {
    var order := InitOrder(s.cfg);
    if Progress(s, s') && s.at < |order| {
      match order[s.at] {
        case SeedRestore => SeedStepAdvances(s, s');
        case RlpImport => RlpStepAdvances(s, s');
        case _ => assert s' == Exit0(s);
      }
    }
  }

  lemma {:induction false} RunIsOrderly(run: seq<Boot>, k: nat)
    requires IsRun(run) && k < |run|
    ensures Orderly(run[k])
    ensures k > 0 ==> Orderly(run[k - 1]) && Advances(run[k - 1], run[k])
  {
    if k > 0 {
      RunIsOrderly(run, k - 1);
      StepAdvances(run[k - 1], run[k]);
    }
  }

  lemma {:induction false} SettledThroughout(run: seq<Boot>, j: nat, k: nat)
    requires forall i | 0 < i < |run| :: Settled(run[i - 1], run[i])
    requires j <= k < |run| && RlpImported in run[j].vol.files
    ensures RlpImported in run[k].vol.files && run[k].log == run[j].log
    decreases k - j
  {
    if j < k {
      SettledThroughout(run, j, k - 1);
      assert Settled(run[k - 1], run[k]);
    }
  }

  /**
   * Once `/data/.rlp-imported` exists, through any crashes, pod restarts and spec changes, no later
   * attempt clears chain data, starts the temporary node, imports or marks again.
   */
  lemma MarkerIsFinal(run: seq<Boot>, j: nat, k: nat)
    requires IsRun(run) && j <= k < |run|
    requires RlpImported in run[j].vol.files
    ensures RlpImported in run[k].vol.files && run[k].log == run[j].log
  {
    forall i | 0 < i < |run| ensures Settled(run[i - 1], run[i]) {
      RunIsOrderly(run, i);
    }
    SettledThroughout(run, j, k);
  }

  /** At most one attempt of a run completes, and it is the last thing the script ever does. */
  lemma {:induction false} CompletionIsLast(run: seq<Boot>, k: nat)
    requires IsRun(run) && k < |run|
    ensures forall e | 0 <= e < |run[k].log| - 1 :: run[k].log[e] != Marked
  {
    if k > 0 {
      CompletionIsLast(run, k - 1);
      RunIsOrderly(run, k);
    }
  }

  // ---- seed-restore keeps the RLP import away ----

  /** Seed-restore is on, may not skip silently, and leaves a marker that the RLP script looks for. */
  predicate Protected(c: Config) {
    SeedActive(c) && !c.seed.value.policy.Never? && !SeedMarker(c).Elsewhere?
  }

  /** Past seed-restore its marker is on the volume. */
  ghost predicate Guarded(s: Boot) {
    && (s.at >= |DriverContainers(s.cfg)| ==> SeedActive(s.cfg) && SeedMarker(s.cfg) in s.vol.files)
    && (s.pc.Begin? || InSeed(s.pc) || s.pc.RlpSeedCheck? || s.pc.RlpTouchSkip?)
    && s.log == []
  }

  lemma StepKeepsGuard(s: Boot, s': Boot)
    requires Protected(s.cfg) && Protected(s'.cfg)
    requires Orderly(s) && Guarded(s) && Step(s, s')
    ensures Guarded(s')
  {
  }

  /** The volume holds a marker that keeps the RLP script away from the chain. */
  predicate Sheltered(v: Volume) {
    RlpImported in v.files || RestoreComplete in v.files || Seeded in v.files
  }

  /** Nothing has been touched, and on a sheltered volume nothing is about to be. */
  ghost predicate Sealed(s: Boot) {
    && Sheltered(s.vol)
    && (s.pc.Begin? || InSeed(s.pc) || s.pc.RlpSeedCheck? || s.pc.RlpTouchSkip?)
    && s.log == []
  }

  /** From then on no protection is needed: any spec may follow. */
  lemma StepKeepsSeal(s: Boot, s': Boot)
    requires Orderly(s) && Sealed(s) && Step(s, s')
    ensures Sealed(s')
  {
  }

  lemma GuardLastsToTheSeal(s: Boot, s': Boot)
    requires Protected(s.cfg) && Orderly(s) && Guarded(s) && Step(s, s')
    requires Protected(s'.cfg) || Sheltered(s'.vol)
    ensures (Protected(s'.cfg) && Guarded(s')) || Sealed(s')
  {
    if Protected(s'.cfg) { StepKeepsGuard(s, s'); }
  }

  /**
   * If every spec of a run protects until a marker is on the volume, no attempt in the run ever clears,
   * starts the temporary node, imports or marks, whatever the specs after that say.
   */
  lemma {:induction false} ProtectedNeverImports(run: seq<Boot>, k: nat)
    requires IsRun(run) && k < |run|
    requires forall j | 0 <= j <= k :: Protected(run[j].cfg) || Sheltered(run[j].vol)
    ensures (Protected(run[k].cfg) && Guarded(run[k])) || Sealed(run[k])
    ensures run[k].log == []
  {
    if k == 0 {
      if Protected(run[0].cfg) { assert |DriverContainers(run[0].cfg)| > 0; }
    } else {
      ProtectedNeverImports(run, k - 1);
      RunIsOrderly(run, k - 1);
      assert Step(run[k - 1], run[k]);
      if Sealed(run[k - 1]) { StepKeepsSeal(run[k - 1], run[k]); } else { GuardLastsToTheSeal(run[k - 1], run[k]); }
    }
  }

  // ---- and only so ----

  function Fresh(c: Config): Boot {
    Boot(Volume({}, Empty), c, 0, Begin, [])
  }

  /** A run of one spec that starts on an empty volume and ends in `s`. */
  ghost predicate Reaches(run: seq<Boot>, c: Config, s: Boot) {
    IsRun(run) && run[0] == Fresh(c) && run[|run| - 1] == s && forall k | 0 <= k < |run| :: run[k].cfg == c
  }

  lemma Extend(run: seq<Boot>, c: Config, s: Boot, s': Boot) returns (longer: seq<Boot>)
    requires Reaches(run, c, s) && Step(s, s') && s'.cfg == c
    ensures Reaches(longer, c, s') && longer == run + [s']
  {
    longer := run + [s'];
    forall k | 0 <= k < |longer| - 1 ensures Step(longer[k], longer[k + 1]) {
      if k < |run| - 1 { assert Step(run[k], run[k + 1]); }
    }
  }

  /** On an empty volume the driver's containers can complete, leaving at most a marker of no use. */
  lemma PastDriver(c: Config) returns (run: seq<Boot>, s: Boot)
    requires !Protected(c)
    ensures Reaches(run, c, s)
    ensures s.at == |DriverContainers(c)| && s.pc == Begin && s.log == [] && s.vol.rlp == Empty
    ensures forall p | p in s.vol.files :: p.Elsewhere?
  {
    s := Fresh(c);
    run := [s];
    if c.plugins {
      run := Extend(run, c, s, Exit0(s));
      s := Exit0(s);
    }
    if SeedActive(c) {
      assert InitOrder(c)[s.at] == SeedRestore;
      if c.seed.value.policy.Never? {
        run := Extend(run, c, s, Exit0(s));
        s := Exit0(s);
      } else {
        run := Extend(run, c, s, s.(pc := SeedExtract));
        s := s.(pc := SeedExtract);
        run := Extend(run, c, s, s.(pc := SeedTouch));
        s := s.(pc := SeedTouch);
        run := Extend(run, c, s, Exit0(Touch(s, SeedMarker(c))));
        s := Exit0(Touch(s, SeedMarker(c)));
      }
    }
  }

  /** An unprotected spec can reach the download. */
  lemma ReachesDownload(c: Config) returns (run: seq<Boot>, s: Boot)
    requires RlpActive(c) && !Protected(c)
    ensures Reaches(run, c, s)
    ensures s.at == |DriverContainers(c)| && s.pc == RlpDownload && s.log == []
  {
    run, s := PastDriver(c);
    assert InitOrder(c)[s.at] == RlpImport;
    run := Extend(run, c, s, s.(pc := RlpSeedCheck));
    s := s.(pc := RlpSeedCheck);
    run := Extend(run, c, s, s.(pc := RlpHaveFile));
    s := s.(pc := RlpHaveFile);
    run := Extend(run, c, s, s.(pc := RlpDownload));
    s := s.(pc := RlpDownload);
  }

  /** And the temporary node, with whatever the download left in the RLP file. */
  lemma ReachesLaunch(c: Config, file: RlpFile) returns (run: seq<Boot>, s: Boot)
    requires RlpActive(c) && !Protected(c) && !file.Empty?
    ensures Reaches(run, c, s)
    ensures s.at == |DriverContainers(c)| && s.pc == RlpWait(0) && s.vol.rlp == file
    ensures s.log == (if c.rlp.value.cChainID == "" then [] else [Cleared]) + [NodeStarted]
  {
    run, s := ReachesDownload(c);
    assert InitOrder(c)[s.at] == RlpImport;
    var got := s.(vol := s.vol.(rlp := file), pc := RlpCheckFile);
    run := Extend(run, c, s, got);
    run := Extend(run, c, got, got.(pc := RlpClear));
    s := got.(pc := RlpClear);
    var cleared := s.(pc := RlpLaunch, log := if c.rlp.value.cChainID == "" then s.log else s.log + [Cleared]);
    run := Extend(run, c, s, cleared);
    s := cleared.(pc := RlpWait(0), log := cleared.log + [NodeStarted]);
    run := Extend(run, c, cleared, s);
  }

  /** The exact condition: a spec with an active RLP import never touches the chain iff it is protected. */
  lemma ProtectionIsExact(c: Config)
    requires RlpActive(c)
    ensures Protected(c) <==> forall run, s | Reaches(run, c, s) :: s.log == []
  {
    if Protected(c) {
      forall run, s | Reaches(run, c, s) ensures s.log == [] {
        ProtectedNeverImports(run, |run| - 1);
      }
    } else {
      var run, s := ReachesLaunch(c, Whole);
      assert s.log[|s.log| - 1] == NodeStarted;
    }
  }

  /** How an attempt that got as far as the temporary node may end. */
  datatype Ending = HighEnough | CallFailed | CallSucceeded

  function Outcome(e: Ending, file: RlpFile): seq<Event> {
    match e
    case HighEnough => []
    case CallFailed => [ImportFailed]
    case CallSucceeded => [Imported(file)]
  }

  /** The last step before marking was this ending's. */
  predicate EndedIn(log: seq<Event>, e: Ending, file: RlpFile) {
    |log| >= 2 && log[|log| - 1] == Marked
    && match e
       case HighEnough => log[|log| - 2] == NodeStarted
       case CallFailed => log[|log| - 2] == ImportFailed
       case CallSucceeded => log[|log| - 2] == Imported(file)
  }

  /** From the temporary node on, every ending gets to the final touch, with whatever file. */
  lemma ReachesTouch(c: Config, file: RlpFile, e: Ending) returns (run: seq<Boot>, s: Boot)
    requires RlpActive(c) && !Protected(c) && !file.Empty?
    ensures Reaches(run, c, s)
    ensures s.at == |DriverContainers(c)| && s.pc == RlpTouch && s.vol.rlp == file
    ensures s.log == (if c.rlp.value.cChainID == "" then [] else [Cleared]) + [NodeStarted] + Outcome(e, file)
  {
    run, s := ReachesLaunch(c, file);
    assert InitOrder(c)[s.at] == RlpImport;
    run := Extend(run, c, s, s.(pc := RlpHeight));
    s := s.(pc := RlpHeight);
    if !e.HighEnough? {
      run := Extend(run, c, s, s.(pc := RlpCall));
      s := s.(pc := RlpCall);
    }
    var ended := s.(pc := RlpTouch, log := s.log + Outcome(e, file));
    run := Extend(run, c, s, ended);
    s := ended;
  }

  /** And so it marks, with or without an import. */
  lemma ReachesMark(c: Config, file: RlpFile, e: Ending) returns (run: seq<Boot>, s: Boot)
    requires RlpActive(c) && !Protected(c) && !file.Empty?
    ensures Reaches(run, c, s) && RlpImported in s.vol.files && s.vol.rlp == file
    ensures EndedIn(s.log, e, file) && forall f | f in s.log && f.Imported? :: f in Outcome(e, file)
  {
    run, s := ReachesTouch(c, file, e);
    assert InitOrder(c)[s.at] == RlpImport;
    var marked := Exit0(Touch(s, RlpImported)).(log := s.log + [Marked]);
    run := Extend(run, c, s, marked);
    s := marked;
  }

  /**
   * Marking stands for a whole import exactly under the specs that never get to mark: a height that is
   * reached already, a failed import call and a file cut short are each marked all the same.
   */
  lemma MarkMeansWholeImportIff(c: Config)
    requires RlpActive(c)
    ensures Protected(c) <==>
            forall run, s | Reaches(run, c, s) :: Marked in s.log ==> Imported(Whole) in s.log
  {
    if Protected(c) {
      ProtectionIsExact(c);
    } else {
      var run, s := ReachesMark(c, Whole, CallFailed);
      assert s.log[|s.log| - 1] == Marked && Imported(Whole) !in s.log;
    }
  }

  /** Each ending, with each file that is not empty, can be marked exactly under the specs that do not protect. */
  lemma EveryEndingIsMarkedIff(c: Config, e: Ending, file: RlpFile)
    requires RlpActive(c) && !file.Empty?
    ensures !Protected(c) <==>
            exists run, s :: Reaches(run, c, s) && s.vol.rlp == file && RlpImported in s.vol.files && EndedIn(s.log, e, file)
  {
    if Protected(c) {
      ProtectionIsExact(c);
    } else {
      var run, s := ReachesMark(c, file, e);
    }
  }

  /** In particular a file cut short by the download can be imported and marked. */
  lemma TruncatedImportIsMarkedIff(c: Config)
    requires RlpActive(c)
    ensures !Protected(c) <==>
            exists run, s :: Reaches(run, c, s) && RlpImported in s.vol.files && Imported(Truncated) in s.log
  {
    if Protected(c) {
      ProtectionIsExact(c);
    } else {
      var run, s := ReachesMark(c, Truncated, CallSucceeded);
      assert s.log[|s.log| - 2] == Imported(Truncated);
    }
  }

  // ---- the containers ----

  function Rank(x: Container): nat {
    match x
    case InitPlugins => 0
    case SeedRestore => 1
    case RlpImport => 2
    case StartupGate => 3
  }

  /** Which init containers a pod has, each once: plugins, seed-restore, RLP import, gate, in this order. */
  lemma ContainersInOrder(c: Config)
    ensures var order := InitOrder(c);
            && (forall i, j | 0 <= i < j < |order| :: Rank(order[i]) < Rank(order[j]))
            && (InitPlugins in order <==> c.plugins)
            && (SeedRestore in order <==> c.seed.Some? && c.seed.value.enabled)
            && (RlpImport in order <==>
                  c.rlp.Some? && c.rlp.value.enabled && c.rlp.value.filename != "" && c.rlp.value.baseURL != "")
            && (StartupGate in order <==> c.gate)
  {
  }

  // ---- what seed-restore does on a volume that has its marker ----

  ghost predicate OfOneSpec(run: seq<Boot>, c: Config) {
    IsRun(run) && forall k | 0 <= k < |run| :: run[k].cfg == c
  }

  /** The policy Never extracts nothing, in no run. */
  lemma {:induction false} NeverExtractsNothing(run: seq<Boot>, k: nat)
    requires IsRun(run) && k < |run|
    ensures InSeed(run[k].pc) ==> run[k].cfg.seed.Some? && !run[k].cfg.seed.value.policy.Never?
  {
    if k > 0 {
      NeverExtractsNothing(run, k - 1);
      RunIsOrderly(run, k);
      assert Step(run[k - 1], run[k]);
    }
  }

  lemma MarkerEndsExtraction(s: Boot, s': Boot)
    requires Orderly(s) && Step(s, s') && s'.cfg == s.cfg && SeedActive(s.cfg) && s.cfg.seed.value.policy.IfEmpty?
    requires SeedMarker(s.cfg) in s.vol.files && !s.pc.SeedExtract?
    ensures SeedMarker(s.cfg) in s'.vol.files && !s'.pc.SeedExtract?
  {
  }

  lemma {:induction false} NoExtractionOnceMarked(run: seq<Boot>, c: Config, m: nat, k: nat)
    requires OfOneSpec(run, c) && m <= k < |run| && SeedActive(c) && c.seed.value.policy.IfEmpty?
    requires run[m].pc.Begin? && SeedMarker(c) in run[m].vol.files
    ensures SeedMarker(c) in run[k].vol.files && !run[k].pc.SeedExtract?
    decreases k - m
  {
    if m < k {
      NoExtractionOnceMarked(run, c, m, k - 1);
      RunIsOrderly(run, k);
      assert Step(run[k - 1], run[k]);
      MarkerEndsExtraction(run[k - 1], run[k]);
    }
  }

  /** A container starts with the seed marker on the volume, and later the seed archive is being unpacked. */
  ghost predicate ExtractsAgain(run: seq<Boot>, c: Config, m: nat, k: nat)
    requires SeedActive(c)
  {
    && OfOneSpec(run, c) && m < k < |run|
    && run[m].pc.Begin? && SeedMarker(c) in run[m].vol.files
    && run[k].pc.SeedExtract?
  }

  /** From the top of a pod, seed-restore is reached. */
  lemma ReachesSeed(run: seq<Boot>, c: Config, s: Boot) returns (longer: seq<Boot>, s': Boot)
    requires Reaches(run, c, s) && SeedActive(c) && s.at == 0 && s.pc.Begin?
    ensures Reaches(longer, c, s') && s'.vol == s.vol && s'.pc.Begin? && s'.at < |InitOrder(c)|
    ensures InitOrder(c)[s'.at] == SeedRestore && run <= longer
  {
    longer, s' := run, s;
    if c.plugins {
      assert InitOrder(c)[0] == InitPlugins;
      longer := Extend(longer, c, s, Exit0(s));
      s' := Exit0(s);
    }
  }

  /** Under any policy but Never and IfEmpty a run unpacks, marks, restarts and unpacks again. */
  lemma ReachesSecondExtraction(c: Config) returns (run: seq<Boot>, m: nat, k: nat)
    requires SeedActive(c) && c.seed.value.policy.OtherPolicy?
    ensures ExtractsAgain(run, c, m, k)
  {
    var s := Fresh(c);
    run := [s];
    run, s := ReachesSeed(run, c, s);
    run := Extend(run, c, s, s.(pc := SeedExtract));
    s := s.(pc := SeedExtract);
    run := Extend(run, c, s, s.(pc := SeedTouch));
    s := s.(pc := SeedTouch);
    var marked := Exit0(Touch(s, SeedMarker(c)));
    run := Extend(run, c, s, marked);
    m := |run| - 1;
    var again := Boot(marked.vol, c, 0, Begin, marked.log);
    var first := run;
    run := Extend(run, c, marked, again);
    run, s := ReachesSeed(run, c, again);
    run := Extend(run, c, s, s.(pc := SeedExtract));
    k := |run| - 1;
    assert run[m] == first[m];
  }

  /**
   * Once a container starts with the seed marker on the volume, later starts of one spec can unpack the
   * archive over it exactly under a policy other than Never and IfEmpty.
   */
  lemma ExtractsAgainIff(c: Config)
    requires SeedActive(c)
    ensures (exists run, m, k :: ExtractsAgain(run, c, m, k)) <==> c.seed.value.policy != Never && c.seed.value.policy != IfEmpty
  {
    if c.seed.value.policy.OtherPolicy? {
      var run, m, k := ReachesSecondExtraction(c);
    } else {
      forall run, m, k | ExtractsAgain(run, c, m, k) ensures false {
        NeverExtractsNothing(run, k);
        if c.seed.value.policy.IfEmpty? { NoExtractionOnceMarked(run, c, m, k); }
      }
    }
  }

  lemma SeedPassed(s: Boot, s': Boot)
    requires Orderly(s) && Step(s, s') && s'.cfg == s.cfg && SeedActive(s.cfg) && !s.cfg.seed.value.policy.Never?
    requires s.at >= |DriverContainers(s.cfg)| ==> SeedMarker(s.cfg) in s.vol.files
    ensures s'.at >= |DriverContainers(s'.cfg)| ==> SeedMarker(s'.cfg) in s'.vol.files
  {
    var driver := DriverContainers(s.cfg);
    assert driver[|driver| - 1] == SeedRestore && InitOrder(s.cfg)[|driver| - 1] == SeedRestore;
  }

  /** Past seed-restore, except under Never, its marker is there: the configured path, or the default one. */
  lemma {:induction false} SeedLeavesItsMarker(run: seq<Boot>, c: Config, k: nat)
    requires OfOneSpec(run, c) && k < |run| && SeedActive(c) && !c.seed.value.policy.Never?
    requires run[k].at >= |DriverContainers(c)|
    ensures (if c.seed.value.markerPath.Some? then c.seed.value.markerPath.value else RestoreComplete) in run[k].vol.files
  {
    MarkedPastSeed(run, c, k);
  }

  lemma {:induction false} MarkedPastSeed(run: seq<Boot>, c: Config, k: nat)
    requires OfOneSpec(run, c) && k < |run| && SeedActive(c) && !c.seed.value.policy.Never?
    ensures run[k].at >= |DriverContainers(c)| ==> SeedMarker(c) in run[k].vol.files
  {
    if k == 0 {
      assert |DriverContainers(c)| > 0;
    } else {
      MarkedPastSeed(run, c, k - 1);
      RunIsOrderly(run, k);
      assert Step(run[k - 1], run[k]);
      SeedPassed(run[k - 1], run[k]);
    }
  }

  /** Without an object store, a step of seed-restore writes its marker and nothing else. */
  lemma SeedWithoutStoreWritesItsMarker(s: Boot, s': Boot)
    requires s.at < |InitOrder(s.cfg)| && InitOrder(s.cfg)[s.at] == SeedRestore && Progress(s, s')
    requires s.cfg.seed.Some? && !s.cfg.seed.value.objectStore
    ensures s'.vol.rlp == s.vol.rlp && s.vol.files <= s'.vol.files <= s.vol.files + {SeedMarker(s.cfg)}
  {
  }

  // ---- what the RLP script does with the file ----

  predicate AtRlp(s: Boot) {
    s.at < |InitOrder(s.cfg)| && InitOrder(s.cfg)[s.at] == RlpImport
  }

  /** The wait goes to the height at any probe that is answered, and on to the next until 151 were not. */
  lemma WaitGoesOn(s: Boot, s': Boot, i: nat)
    requires AtRlp(s) && RlpActive(s.cfg) && s.pc == RlpWait(i)
    ensures Progress(s, s') <==> s' == s.(pc := RlpHeight) || s' == s.(pc := if i < 150 then RlpWait(i + 1) else Begin)
  {
  }

  lemma FileStays(s: Boot, s': Boot)
    requires Orderly(s) && AtRlp(s) && Step(s, s') && s'.cfg == s.cfg && s'.at == s.at
    requires !s.vol.rlp.Empty? && !s.pc.RlpDownload?
    ensures s'.vol.rlp == s.vol.rlp && !s'.pc.RlpDownload?
  {
  }

  /** A file that is there is not downloaded again, whole or not, however often the container starts over. */
  lemma {:induction false} PresentFileIsKept(run: seq<Boot>, c: Config, m: nat, k: nat)
    requires OfOneSpec(run, c) && m <= k < |run| && AtRlp(run[m])
    requires forall j | m <= j <= k :: run[j].at == run[m].at
    requires !run[m].vol.rlp.Empty? && !run[m].pc.RlpDownload?
    ensures run[k].vol.rlp == run[m].vol.rlp && !run[k].pc.RlpDownload?
    decreases k - m
  {
    if m < k {
      PresentFileIsKept(run, c, m, k - 1);
      RunIsOrderly(run, k);
      assert Step(run[k - 1], run[k]);
      FileStays(run[k - 1], run[k]);
    }
  }

  /** A file that is missing after the download ends the container in peace, and leaves no marker. */
  lemma MissingFileLeavesNoMarker(run: seq<Boot>, k: nat)
    requires IsRun(run) && k + 1 < |run| && run[k].pc.RlpCheckFile? && Progress(run[k], run[k + 1])
    ensures if run[k].vol.rlp.Empty? then
              run[k + 1].at == run[k].at + 1 && run[k + 1].log == run[k].log && RlpImported !in run[k + 1].vol.files
            else run[k + 1].pc == RlpClear
  {
    RunIsOrderly(run, k);
  }

  ghost predicate EachStartCleared(log: seq<Event>) {
    forall i | 0 <= i < |log| && log[i] == NodeStarted :: i > 0 && log[i - 1] == Cleared
  }

  /** Chain data is cleared before every start of the temporary node when the chain's directory is given, and never otherwise. */
  ghost predicate ClearedAsAsked(s: Boot, directory: string) {
    if directory == "" then Cleared !in s.log
    else
      && (s.pc.RlpLaunch? ==> |s.log| > 0 && s.log[|s.log| - 1] == Cleared)
      && EachStartCleared(s.log)
  }

  /** What a step does to the log, as far as clearing and starting go. */
  lemma LogGrows(s: Boot, s': Boot)
    requires RlpActive(s.cfg) && Orderly(s) && Step(s, s') && s'.cfg == s.cfg
    ensures s'.log == s.log || (exists e :: s'.log == s.log + [e] && (e == Cleared ==> s.cfg.rlp.value.cChainID != "")
                                            && (e == NodeStarted ==> s.pc.RlpLaunch?))
    ensures s'.pc.RlpLaunch? ==>
              s.pc.RlpClear? && s'.log == if s.cfg.rlp.value.cChainID == "" then s.log else s.log + [Cleared]
  {
  }

  lemma ClearedStep(s: Boot, s': Boot)
    requires RlpActive(s.cfg) && Orderly(s) && Step(s, s') && s'.cfg == s.cfg
    requires ClearedAsAsked(s, s.cfg.rlp.value.cChainID)
    ensures ClearedAsAsked(s', s.cfg.rlp.value.cChainID)
  {
    LogGrows(s, s');
  }

  lemma {:induction false} ClearsAsAsked(run: seq<Boot>, c: Config, k: nat)
    requires OfOneSpec(run, c) && k < |run| && RlpActive(c)
    ensures ClearedAsAsked(run[k], c.rlp.value.cChainID)
  {
    if k > 0 {
      ClearsAsAsked(run, c, k - 1);
      RunIsOrderly(run, k);
      assert Step(run[k - 1], run[k]);
      ClearedStep(run[k - 1], run[k]);
    }
  }

  /** The wait, driven step by step by what each probe answers. */
  function DriveWait(answers: nat -> bool, pc: Pc): Pc
    requires pc.RlpWait? ==> pc.i <= MAX_WAIT
    decreases if pc.RlpWait? then MAX_WAIT + 1 - pc.i else 0
  {
    if pc.RlpWait? then DriveWait(answers, NextWait(pc.i, answers(pc.i))) else pc
  }

  /**
   * The wait for the temporary node as the shell runs it. It ends where the steps end, and it gives up
   * after exactly 151 failed probes, never earlier or later.
   */
  method WaitForNode(answers: nat -> bool) returns (healthy: bool, failed: nat)
    ensures DriveWait(answers, RlpWait(0)) == if healthy then RlpHeight else Begin
    ensures failed <= 151
    ensures healthy <==> exists k | 0 <= k < 151 :: answers(k)
    ensures forall k | 0 <= k < failed :: !answers(k)
    ensures if healthy then answers(failed) else failed == 151
  {
    var i := 0;
    while !answers(i)
      invariant i <= MAX_WAIT
      invariant DriveWait(answers, RlpWait(0)) == DriveWait(answers, RlpWait(i))
      invariant forall k | 0 <= k < i :: !answers(k)
      decreases MAX_WAIT + 1 - i
    {
      i := i + 1;
      if i > MAX_WAIT { return false, i; }
    }
    return true, i;
  }
}
