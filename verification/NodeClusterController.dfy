/** The NodeCluster status machine: one reconcile, and what runs of reconciles persist. */
module NodeClusterController {
  import opened Wrappers
  import opened Conditions
  import opened HealthPoll

  datatype Phase =
    NoPhase | PhasePending | PhaseCreating | PhaseBootstrapping | PhaseRunning | PhaseDegraded | PhaseDeleting

  /** The reason words of the conditions. */
  datatype Word =
    | UnknownProtocolWord | CreatingWord | NoReplicasReady | PartiallyReady | BootstrappingWord | DegradedWord
    | AllReplicasReady | Complete | Healthy

  /** The message texts, with what is formatted into them. */
  datatype Text =
    | NotSupported(protocol: Protocol)
    | BuildingResources
    | NoneYet
    | ReadyCount(ready: int32, replicas: int32)
    | NodesBootstrapping
    | HealthyOf(healthy: int32, replicas: int32)
    | Reasons(reasons: seq<Reason>)
    | AllReady
    | ReconciliationComplete
    | AllHealthy

  type Entry = Condition<Word, Text>
  type Request = Call<Word, Text>
  type Entries = ConditionList<Word, Text>

  datatype Status = Status(
    phase: Phase, observedGeneration: int, readyReplicas: int32, currentReplicas: int32, bootstrapComplete: bool,
    healthyReplicas: int32, heightSkew: int64, totalPeers: int32, nodes: seq<NodeStatus>,
    externalIPs: map<string, string>, degradedReasons: seq<Reason>, conditions: seq<Entry>)

  const EMPTY := Status(NoPhase, 0, 0, 0, false, 0, 0, 0, [], map[], [], [])

  datatype Readiness = Readiness(ready: int32, current: int32)

  /**
   * Everything one reconcile reads from outside the status: the spec, the outcome of each call to the
   * API server, the StatefulSet's readiness, the pod list (`None` when listing fails) and the clock.
   */
  datatype Observation = Observation(
    protocol: Protocol, generation: int, replicas: Option<int32>, maxHeightSkew: int64,
    firstWriteOk: bool, resourcesApplied: bool, statefulSet: Option<Readiness>,
    podList: Option<seq<Pod>>, addresses: map<string, string>, lastWriteOk: bool,
    nowFirst: int, nowReady: int, nowProgressing: int, nowDegraded: int)

  /** A protocol name: one of the six with a registered driver, or any other. */
  datatype Protocol = Lux | Ethereum | Solana | Bitcoin | Cosmos | Generic | Unregistered(name: string)

  function Replicas(o: Observation): int32 {
    if o.replicas.Some? then o.replicas.value else 3
  }

  /** The health poll of this reconcile, or `None` when it polls nothing. */
  function PollOf(o: Observation): Option<Summary> {
    if o.protocol.Lux? && o.podList.Some? && |o.podList.value| > 0
    then Some(Summarize(Nodes(o.podList.value, o.addresses), o.maxHeightSkew))
    else None
  }

  /** Which branch of the reconcile wrote a status. */
  datatype Cause = UnknownProtocol | FirstSeen | NoneReady | SomeReady | StillBootstrapping | Unhealthy | AllWell

  datatype Write = Write(cause: Cause, status: Status)

  function PhaseOf(c: Cause): Phase {
    match c
    case UnknownProtocol => PhaseDegraded
    case FirstSeen => PhaseCreating
    case NoneReady => PhaseCreating
    case SomeReady => PhaseBootstrapping
    case StillBootstrapping => PhaseBootstrapping
    case Unhealthy => PhaseDegraded
    case AllWell => PhaseRunning
  }

  function DegradedMessage(s: Status, o: Observation): Text {
    if |s.degradedReasons| > 0 then Reasons(s.degradedReasons) else HealthyOf(s.healthyReplicas, Replicas(o))
  }

  function ReadyCall(c: Cause, s: Status, o: Observation): Request {
    var text := match c {
      case UnknownProtocol => NotSupported(o.protocol)
      case FirstSeen => BuildingResources
      case NoneReady => NoneYet
      case SomeReady => ReadyCount(s.readyReplicas, Replicas(o))
      case StillBootstrapping => NodesBootstrapping
      case Unhealthy => DegradedMessage(s, o)
      case AllWell => AllReady
    };
    Call(Ready, if c == AllWell then ConditionTrue else ConditionFalse, ReadyWord(c), text, o.nowReady)
  }

  function ReadyWord(c: Cause): Word {
    match c
    case UnknownProtocol => UnknownProtocolWord
    case FirstSeen => CreatingWord
    case NoneReady => NoReplicasReady
    case SomeReady => PartiallyReady
    case StillBootstrapping => BootstrappingWord
    case Unhealthy => DegradedWord
    case AllWell => AllReplicasReady
  }

  /** The condition calls each branch makes, in order. */
  function Calls(c: Cause, s: Status, o: Observation): seq<Request> {
    match c
    case FirstSeen => [Call(Progressing, ConditionTrue, CreatingWord, BuildingResources, o.nowFirst)]
    case Unhealthy =>
      [ReadyCall(c, s, o), Call(Degraded, ConditionTrue, DegradedWord, DegradedMessage(s, o), o.nowDegraded)]
    case AllWell =>
      [ReadyCall(c, s, o),
       Call(Progressing, ConditionFalse, Complete, ReconciliationComplete, o.nowProgressing),
       Call(Degraded, ConditionFalse, Healthy, AllHealthy, o.nowDegraded)]
    case _ => [ReadyCall(c, s, o)]
  }

  /** The status a branch leaves, from the one it starts with. */
  function Concluded(c: Cause, s: Status, o: Observation): Status {
    s.(phase := PhaseOf(c),
       bootstrapComplete := s.bootstrapComplete || c == AllWell,
       conditions := Replay(s.conditions, Calls(c, s, o)))
  }

  function WithPoll(s: Status, poll: Option<Summary>, addresses: map<string, string>): Status {
    if poll.None? then s
    else
      s.(nodes := poll.value.nodes,
         healthyReplicas := poll.value.healthy,
         totalPeers := poll.value.totalPeers,
         heightSkew := poll.value.heightSkew,
         degradedReasons := poll.value.reasons,
         externalIPs := if addresses == map[] then s.externalIPs else addresses)
  }

  function WithReadiness(s: Status, r: Option<Readiness>): Status {
    if r.None? then s else s.(readyReplicas := r.value.ready, currentReplicas := r.value.current)
  }

  /** The status after reading the StatefulSet and polling, before the phase is chosen. */
  function Observed(s: Status, o: Observation, poll: Option<Summary>): Status {
    WithPoll(WithReadiness(s, o.statefulSet), poll, o.addresses).(observedGeneration := o.generation)
  }

  /** The branch chosen for an observed status. */
  function Verdict(s: Status, o: Observation, polled: bool): Cause {
    if s.readyReplicas == 0 then NoneReady
    else if s.readyReplicas < Replicas(o) then SomeReady
    else if polled && s.healthyReplicas == 0 then StillBootstrapping
    else if polled && (s.healthyReplicas < Replicas(o) || |s.degradedReasons| > 0) then Unhealthy
    else AllWell
  }

  predicate Fresh(s: Status) {
    s.phase == NoPhase || s.phase == PhasePending
  }

  /** The closing write of a reconcile that gets that far. */
  function Closing(s: Status, o: Observation, poll: Option<Summary>): Write {
    var seen := Observed(s, o, poll);
    var c := Verdict(seen, o, poll.Some?);
    Write(c, Concluded(c, seen, o))
  }

  /** The writes one reconcile of a stored status lands, in order. */
  function Writes(s: Status, o: Observation, poll: Option<Summary>): (ws: seq<Write>)
    ensures |ws| <= 2
  {
    if o.protocol.Unregistered? then
      if o.lastWriteOk then [Write(UnknownProtocol, Concluded(UnknownProtocol, s, o))] else []
    else if Fresh(s) then
      if !o.firstWriteOk then []
      else
        var begun := Write(FirstSeen, Concluded(FirstSeen, s, o));
        [begun] + if o.resourcesApplied && o.lastWriteOk then [Closing(begun.status, o, poll)] else []
    else if o.resourcesApplied && o.lastWriteOk then [Closing(s, o, poll)] else []
  }

  function After(s: Status, ws: seq<Write>): Status {
    if |ws| == 0 then s else ws[|ws| - 1].status
  }

  // ---- the controller, step by step ----

  /** The in-memory object a reconcile edits. */
  class Cluster {
    var phase: Phase
    var observedGeneration: int
    var readyReplicas: int32
    var currentReplicas: int32
    var bootstrapComplete: bool
    var healthyReplicas: int32
    var heightSkew: int64
    var totalPeers: int32
    var nodes: seq<NodeStatus>
    var externalIPs: map<string, string>
    var degradedReasons: seq<Reason>
    const conditions: Entries

    constructor (s: Status)
      ensures Value() == s && fresh(conditions)
    {
      phase, observedGeneration := s.phase, s.observedGeneration;
      readyReplicas, currentReplicas := s.readyReplicas, s.currentReplicas;
      bootstrapComplete, healthyReplicas := s.bootstrapComplete, s.healthyReplicas;
      heightSkew, totalPeers, nodes := s.heightSkew, s.totalPeers, s.nodes;
      externalIPs, degradedReasons := s.externalIPs, s.degradedReasons;
      conditions := new ConditionList(s.conditions);
    }

    function Value(): Status
      reads this, conditions
    {
      Status(phase, observedGeneration, readyReplicas, currentReplicas, bootstrapComplete, healthyReplicas,
             heightSkew, totalPeers, nodes, externalIPs, degradedReasons, conditions.items)
    }

    method RecordPoll(s: Summary, addresses: map<string, string>)
      modifies this
      ensures Value() == WithPoll(old(Value()), Some(s), addresses)
    {
      nodes := s.nodes;
      healthyReplicas := s.healthy;
      totalPeers := s.totalPeers;
      heightSkew := s.heightSkew;
      degradedReasons := s.reasons;
      if addresses != map[] { externalIPs := addresses; }
    }

    /** Poll every listed pod and overwrite the health fields; false when there is nothing to poll. */
    method PollHealth(o: Observation) returns (polled: bool, ghost poll: Option<Summary>)
      requires o.protocol.Lux?
      modifies this
      ensures poll == PollOf(o) && polled == poll.Some?
      ensures Value() == WithPoll(old(Value()), poll, o.addresses)
    {
      if o.podList.None? || |o.podList.value| == 0 { return false, None; }
      var s := Poll(o.podList.value, o.addresses, o.maxHeightSkew);
      RecordPoll(s, o.addresses);
      return true, Some(s);
    }

    method MarkUnsupported(o: Observation)
      modifies this, conditions
      ensures Value() == Concluded(UnknownProtocol, old(Value()), o)
    {
      UnfoldReplay(conditions.items, Calls(UnknownProtocol, Value(), o));
      conditions.SetCondition(Ready, ConditionFalse, UnknownProtocolWord, NotSupported(o.protocol), o.nowReady);
      phase := PhaseDegraded;
    }

    method MarkCreating(o: Observation)
      modifies this, conditions
      ensures Value() == Concluded(FirstSeen, old(Value()), o)
    {
      UnfoldReplay(conditions.items, Calls(FirstSeen, Value(), o));
      phase := PhaseCreating;
      conditions.SetCondition(Progressing, ConditionTrue, CreatingWord, BuildingResources, o.nowFirst);
    }

    method ReadStatefulSet(o: Observation)
      modifies this
      ensures Value() == WithReadiness(old(Value()), o.statefulSet)
    {
      if o.statefulSet.Some? {
        readyReplicas := o.statefulSet.value.ready;
        currentReplicas := o.statefulSet.value.current;
      }
    }

    method MarkUnhealthy(o: Observation)
      modifies this, conditions
      ensures Value() == Concluded(Unhealthy, old(Value()), o)
    {
      UnfoldReplay(conditions.items, Calls(Unhealthy, Value(), o));
      phase := PhaseDegraded;
      var msg := HealthyOf(healthyReplicas, Replicas(o));
      if |degradedReasons| > 0 { msg := Reasons(degradedReasons); }
      conditions.SetCondition(Ready, ConditionFalse, DegradedWord, msg, o.nowReady);
      conditions.SetCondition(Degraded, ConditionTrue, DegradedWord, msg, o.nowDegraded);
    }

    method MarkRunning(o: Observation)
      modifies this, conditions
      ensures Value() == Concluded(AllWell, old(Value()), o)
    {
      RunningStatus(Value(), o);
      phase := PhaseRunning;
      bootstrapComplete := true;
      conditions.SetCondition(Ready, ConditionTrue, AllReplicasReady, AllReady, o.nowReady);
      conditions.SetCondition(Progressing, ConditionFalse, Complete, ReconciliationComplete, o.nowProgressing);
      conditions.SetCondition(Degraded, ConditionFalse, Healthy, AllHealthy, o.nowDegraded);
    }

    /** The phase switch. */
    method Conclude(o: Observation, polled: bool) returns (ghost cause: Cause)
      modifies this, conditions
      ensures cause == Verdict(old(Value()), o, polled)
      ensures Value() == Concluded(cause, old(Value()), o)
    {
      var replicas := Replicas(o);
      ghost var before := Value();
      cause := Verdict(before, o, polled);
      UnfoldReplay(before.conditions, Calls(cause, before, o));
      if readyReplicas == 0 {
        phase := PhaseCreating;
        conditions.SetCondition(Ready, ConditionFalse, NoReplicasReady, NoneYet, o.nowReady);
      } else if readyReplicas < replicas {
        phase := PhaseBootstrapping;
        conditions.SetCondition(Ready, ConditionFalse, PartiallyReady,
          ReadyCount(readyReplicas, replicas), o.nowReady);
      } else if polled && healthyReplicas == 0 {
        phase := PhaseBootstrapping;
        conditions.SetCondition(Ready, ConditionFalse, BootstrappingWord, NodesBootstrapping, o.nowReady);
      } else if polled && (healthyReplicas < replicas || |degradedReasons| > 0) {
        MarkUnhealthy(o);
      } else {
        MarkRunning(o);
      }
    }

    /** Everything between building the resources and the closing write. */
    method Refresh(o: Observation) returns (ghost cause: Cause, ghost poll: Option<Summary>)
      modifies this, conditions
      ensures poll == PollOf(o)
      ensures Write(cause, Value()) == Closing(old(Value()), o, poll)
    {
      ReadStatefulSet(o);
      var polled := false;
      poll := None;
      if o.protocol.Lux? {
        polled, poll := PollHealth(o);
      }
      observedGeneration := o.generation;
      cause := Conclude(o, polled);
    }
  }

  lemma RunningStatus(s: Status, o: Observation)
    ensures Concluded(AllWell, s, o)
            == s.(phase := PhaseRunning, bootstrapComplete := true,
                  conditions := Upsert(Upsert(Upsert(s.conditions,
                    Call(Ready, ConditionTrue, AllReplicasReady, AllReady, o.nowReady)),
                    Call(Progressing, ConditionFalse, Complete, ReconciliationComplete, o.nowProgressing)),
                    Call(Degraded, ConditionFalse, Healthy, AllHealthy, o.nowDegraded)))
  {
    UnfoldReplay(s.conditions, Calls(AllWell, s, o));
  }

  /** Up to three calls, replayed one upsert at a time. */
  lemma UnfoldReplay(cs: seq<Entry>, calls: seq<Request>)
    requires 1 <= |calls| <= 3
    ensures |calls| == 1 ==> Replay(cs, calls) == Upsert(cs, calls[0])
    ensures |calls| == 2 ==> Replay(cs, calls) == Upsert(Upsert(cs, calls[0]), calls[1])
    ensures |calls| == 3 ==> Replay(cs, calls) == Upsert(Upsert(Upsert(cs, calls[0]), calls[1]), calls[2])
  {
  }

  /** The controller over the stored status; `written` is the ghost record of every write that landed. */
  class Controller {
    var stored: Status
    ghost var written: seq<Write>

    constructor (s: Status)
      ensures stored == s && written == []
    {
      stored := s;
      written := [];
    }

    /** A status write that lands. */
    method Land(cluster: Cluster, ghost cause: Cause)
      modifies this
      ensures stored == cluster.Value()
      ensures written == old(written) + [Write(cause, stored)]
    {
      stored := cluster.Value();
      written := written + [Write(cause, stored)];
    }

    /** A protocol without a driver: say so and stop. */
    method Reject(cluster: Cluster, o: Observation)
      requires cluster.Value() == stored
      modifies this, cluster, cluster.conditions
      ensures o.lastWriteOk ==>
                && stored == Concluded(UnknownProtocol, old(stored), o)
                && written == old(written) + [Write(UnknownProtocol, stored)]
      ensures !o.lastWriteOk ==> stored == old(stored) && written == old(written)
    {
      cluster.MarkUnsupported(o);
      if o.lastWriteOk { Land(cluster, UnknownProtocol); }
    }

    /** Build the resources, observe, and write the verdict. */
    method Finish(cluster: Cluster, o: Observation)
      requires cluster.Value() == stored
      modifies this, cluster, cluster.conditions
      ensures o.resourcesApplied && o.lastWriteOk ==>
                && stored == Closing(old(stored), o, PollOf(o)).status
                && written == old(written) + [Closing(old(stored), o, PollOf(o))]
      ensures !(o.resourcesApplied && o.lastWriteOk) ==> stored == old(stored) && written == old(written)
    {
      if !o.resourcesApplied { return; }
      ghost var cause, poll := cluster.Refresh(o);
      if o.lastWriteOk { Land(cluster, cause); }
    }

    /** The early write that shows a new object as Creating; false when it fails. */
    method Announce(cluster: Cluster, o: Observation) returns (go: bool)
      requires cluster.Value() == stored
      modifies this, cluster, cluster.conditions
      ensures go == (!Fresh(old(stored)) || o.firstWriteOk)
      ensures go ==> cluster.Value() == stored
      ensures Fresh(old(stored)) && o.firstWriteOk ==>
                && stored == Concluded(FirstSeen, old(stored), o)
                && written == old(written) + [Write(FirstSeen, stored)]
      ensures !(Fresh(old(stored)) && o.firstWriteOk) ==> stored == old(stored) && written == old(written)
    {
      if cluster.phase == NoPhase || cluster.phase == PhasePending {
        cluster.MarkCreating(o);
        if !o.firstWriteOk { return false; }
        Land(cluster, FirstSeen);
      }
      return true;
    }

    method Reconcile(o: Observation) returns (ghost poll: Option<Summary>)
      modifies this
      ensures poll == PollOf(o)
      ensures written == old(written) + Writes(old(stored), o, poll)
      ensures stored == After(old(stored), Writes(old(stored), o, poll))
    {
      ghost var s, earlier := stored, written;
      poll := PollOf(o);
      var cluster := new Cluster(stored);
      if o.protocol.Unregistered? {
        Reject(cluster, o);
        RejectedWrites(s, o, poll, stored, earlier, written);
        return;
      }
      var go := Announce(cluster, o);
      if !go {
        UnannouncedWrites(s, o, poll);
        return;
      }
      ghost var begun, announced := stored, written;
      Finish(cluster, o);
      FinishedWrites(s, o, poll, begun, stored, earlier, announced, written);
    }
  }

  lemma RejectedWrites(s: Status, o: Observation, poll: Option<Summary>, t: Status, h: seq<Write>, h': seq<Write>)
    requires o.protocol.Unregistered?
    requires if o.lastWriteOk then t == Concluded(UnknownProtocol, s, o) && h' == h + [Write(UnknownProtocol, t)]
             else t == s && h' == h
    ensures h' == h + Writes(s, o, poll) && t == After(s, Writes(s, o, poll))
  {
  }

  lemma UnannouncedWrites(s: Status, o: Observation, poll: Option<Summary>)
    requires !o.protocol.Unregistered? && Fresh(s) && !o.firstWriteOk
    ensures Writes(s, o, poll) == []
  {
  }

  lemma FinishedWrites(s: Status, o: Observation, poll: Option<Summary>, begun: Status, t: Status,
                       h: seq<Write>, h': seq<Write>, h'': seq<Write>)
    requires !o.protocol.Unregistered?
    requires if Fresh(s) then o.firstWriteOk && begun == Concluded(FirstSeen, s, o) && h' == h + [Write(FirstSeen, begun)]
             else begun == s && h' == h
    requires if o.resourcesApplied && o.lastWriteOk
             then t == Closing(begun, o, poll).status && h'' == h' + [Closing(begun, o, poll)]
             else t == begun && h'' == h'
    ensures h'' == h + Writes(s, o, poll) && t == After(s, Writes(s, o, poll))
  {
  }

  // ---- runs ----

  /** One reconcile of a run: what it read, and what its poll returned. */
  datatype Round = Round(o: Observation, poll: Option<Summary>)

  /** Every write of a run of reconciles that starts from the empty status. */
  function History(run: seq<Round>): seq<Write> {
    if |run| == 0 then []
    else
      var earlier := History(run[..|run| - 1]);
      earlier + Writes(After(EMPTY, earlier), run[|run| - 1].o, run[|run| - 1].poll)
  }

  datatype Topic = AboutReady | AboutDegraded | AboutProgressing | AboutBootstrap

  /** Does a branch write what this topic is read from? */
  predicate Concerns(c: Cause, topic: Topic) {
    match topic
    case AboutReady => c != FirstSeen
    case AboutDegraded => c == Unhealthy || c == AllWell
    case AboutProgressing => c == FirstSeen || c == AllWell
    case AboutBootstrap => c == AllWell
  }

  /** The last cause in the history that concerns a topic. */
  function Last(h: seq<Write>, topic: Topic): Option<Cause> {
    if |h| == 0 then None
    else if Concerns(h[|h| - 1].cause, topic) then Some(h[|h| - 1].cause)
    else Last(h[..|h| - 1], topic)
  }

  predicate Reads(cs: seq<Entry>, t: ConditionType, status: ConditionStatus, reason: Word) {
    Lookup(cs, t).Some? && Lookup(cs, t).value.status == status && Lookup(cs, t).value.reason == reason
  }

  predicate HasReason(cs: seq<Entry>, t: ConditionType, reason: Word) {
    Lookup(cs, t).Some? && Lookup(cs, t).value.reason == reason
  }

  ghost predicate ReadyTells(cs: seq<Entry>, c: Option<Cause>) {
    match c
    case None => Lookup(cs, Ready).None?
    case Some(c) => Reads(cs, Ready, if c == AllWell then ConditionTrue else ConditionFalse, ReadyWord(c))
  }

  ghost predicate DegradedTells(cs: seq<Entry>, c: Option<Cause>) {
    match c
    case None => Lookup(cs, Degraded).None?
    case Some(c) => if c == Unhealthy then Reads(cs, Degraded, ConditionTrue, DegradedWord)
                    else Reads(cs, Degraded, ConditionFalse, Healthy)
  }

  ghost predicate ProgressingTells(cs: seq<Entry>, c: Option<Cause>) {
    match c
    case None => Lookup(cs, Progressing).None?
    case Some(c) => if c == FirstSeen then Reads(cs, Progressing, ConditionTrue, CreatingWord)
                    else Reads(cs, Progressing, ConditionFalse, Complete)
  }

  /** What a stored status says about the writes that led to it. */
  ghost predicate Tells(s: Status, h: seq<Write>) {
    && s.phase == (if |h| == 0 then NoPhase else PhaseOf(h[|h| - 1].cause))
    && DistinctTypes(s.conditions)
    && ReadyTells(s.conditions, Last(h, AboutReady))
    && DegradedTells(s.conditions, Last(h, AboutDegraded))
    && ProgressingTells(s.conditions, Last(h, AboutProgressing))
    && (s.bootstrapComplete <==> Last(h, AboutBootstrap).Some?)
  }

  /** Where in a branch's calls one type is written, and that nothing else in them touches it. */
  lemma CallsLookup(c: Cause, s: Status, o: Observation, t: ConditionType)
    ensures var calls := Calls(c, s, o);
            var before, after := Lookup(s.conditions, t), Lookup(Concluded(c, s, o).conditions, t);
            && 1 <= |calls| <= 3
            && (calls[0].ctype == t ==> after == Stored(before, calls[0]))
            && (|calls| >= 2 && calls[1].ctype == t ==> after == Stored(before, calls[1]))
            && (|calls| == 3 && calls[2].ctype == t ==> after == Stored(before, calls[2]))
            && ((forall k | 0 <= k < |calls| :: calls[k].ctype != t) ==> after == before)
  {
    var calls := Calls(c, s, o);
    var cs := s.conditions;
    UnfoldReplay(cs, calls);
    UpsertLookup(cs, calls[0], t);
    if |calls| >= 2 { UpsertLookup(Upsert(cs, calls[0]), calls[1], t); }
    if |calls| == 3 { UpsertLookup(Upsert(Upsert(cs, calls[0]), calls[1]), calls[2], t); }
  }

  /** What a branch does to the three conditions. */
  ghost predicate Turned(before: seq<Entry>, after: seq<Entry>, c: Cause) {
    && (DistinctTypes(before) ==> DistinctTypes(after))
    && (if Concerns(c, AboutReady) then ReadyTells(after, Some(c)) else Lookup(after, Ready) == Lookup(before, Ready))
    && (if Concerns(c, AboutDegraded) then DegradedTells(after, Some(c))
        else Lookup(after, Degraded) == Lookup(before, Degraded))
    && (if Concerns(c, AboutProgressing) then ProgressingTells(after, Some(c))
        else Lookup(after, Progressing) == Lookup(before, Progressing))
  }

  lemma ConcludedReady(c: Cause, s: Status, o: Observation)
    ensures var after := Concluded(c, s, o).conditions;
            if Concerns(c, AboutReady) then ReadyTells(after, Some(c)) else Lookup(after, Ready) == Lookup(s.conditions, Ready)
  {
    CallsLookup(c, s, o, Ready);
  }

  lemma ConcludedDegraded(c: Cause, s: Status, o: Observation)
    ensures var after := Concluded(c, s, o).conditions;
            if Concerns(c, AboutDegraded) then DegradedTells(after, Some(c)) else Lookup(after, Degraded) == Lookup(s.conditions, Degraded)
  {
    CallsLookup(c, s, o, Degraded);
  }

  lemma ConcludedProgressing(c: Cause, s: Status, o: Observation)
    ensures var after := Concluded(c, s, o).conditions;
            if Concerns(c, AboutProgressing) then ProgressingTells(after, Some(c)) else Lookup(after, Progressing) == Lookup(s.conditions, Progressing)
  {
    CallsLookup(c, s, o, Progressing);
  }

  lemma ConcludedTurns(c: Cause, s: Status, o: Observation)
    ensures Turned(s.conditions, Concluded(c, s, o).conditions, c)
  {
    if DistinctTypes(s.conditions) { ReplayKeepsTypesDistinct(s.conditions, Calls(c, s, o)); }
    ConcludedReady(c, s, o);
    ConcludedDegraded(c, s, o);
    ConcludedProgressing(c, s, o);
  }

  /** A write that turns the conditions of `s` as its cause says. */
  ghost predicate Follows(s: Status, w: Write) {
    && w.status.phase == PhaseOf(w.cause)
    && w.status.bootstrapComplete == (s.bootstrapComplete || w.cause == AllWell)
    && Turned(s.conditions, w.status.conditions, w.cause)
  }

  ghost predicate Chain(start: Status, h: seq<Write>) {
    forall k | 0 <= k < |h| :: Follows(After(start, h[..k]), h[k])
  }

  lemma ClosingFollows(s: Status, o: Observation, poll: Option<Summary>)
    ensures Follows(s, Closing(s, o, poll))
  {
    ConcludedTurns(Closing(s, o, poll).cause, Observed(s, o, poll), o);
  }

  lemma OneFollows(s: Status, w: Write)
    requires Follows(s, w)
    ensures Chain(s, [w])
  {
  }

  lemma TwoFollow(s: Status, w: Write, v: Write)
    requires Follows(s, w) && Follows(w.status, v)
    ensures Chain(s, [w] + [v])
  {
  }

  lemma WritesFollow(s: Status, o: Observation, poll: Option<Summary>)
    ensures Chain(s, Writes(s, o, poll))
  {
    if o.protocol.Unregistered? {
      ConcludedTurns(UnknownProtocol, s, o);
      if o.lastWriteOk { OneFollows(s, Write(UnknownProtocol, Concluded(UnknownProtocol, s, o))); }
    } else if Fresh(s) {
      var begun := Write(FirstSeen, Concluded(FirstSeen, s, o));
      ConcludedTurns(FirstSeen, s, o);
      OneFollows(s, begun);
      ClosingFollows(begun.status, o, poll);
      TwoFollow(s, begun, Closing(begun.status, o, poll));
      assert [begun] + [] == [begun];
    } else {
      ClosingFollows(s, o, poll);
      OneFollows(s, Closing(s, o, poll));
    }
  }

  lemma AfterAppend(start: Status, h: seq<Write>, ws: seq<Write>)
    ensures After(start, h + ws) == After(After(start, h), ws)
  {
    if |ws| == 0 { assert h + ws == h; }
  }

  lemma FollowsAppended(start: Status, h: seq<Write>, ws: seq<Write>, k: nat)
    requires k < |ws| && Follows(After(After(start, h), ws[..k]), ws[k])
    ensures Follows(After(start, (h + ws)[..|h| + k]), (h + ws)[|h| + k])
  {
    AfterAppend(start, h, ws[..k]);
    assert (h + ws)[..|h| + k] == h + ws[..k];
  }

  lemma ChainAppend(start: Status, h: seq<Write>, ws: seq<Write>)
    requires Chain(start, h) && Chain(After(start, h), ws)
    ensures Chain(start, h + ws)
  {
    var all := h + ws;
    forall k | 0 <= k < |all| ensures Follows(After(start, all[..k]), all[k]) {
      if k < |h| {
        assert all[..k] == h[..k];
      } else {
        FollowsAppended(start, h, ws, k - |h|);
      }
    }
  }

  lemma {:induction false} HistoryIsChain(run: seq<Round>)
    ensures Chain(EMPTY, History(run))
  {
    if |run| > 0 {
      var n := |run| - 1;
      HistoryIsChain(run[..n]);
      var earlier := History(run[..n]);
      WritesFollow(After(EMPTY, earlier), run[n].o, run[n].poll);
      ChainAppend(EMPTY, earlier, Writes(After(EMPTY, earlier), run[n].o, run[n].poll));
    }
  }

  lemma FollowsTells(s: Status, h: seq<Write>)
    requires |h| > 0
    requires Tells(s, h[..|h| - 1]) && Follows(s, h[|h| - 1])
    ensures Tells(h[|h| - 1].status, h)
  {
  }

  lemma ChainPrefix(start: Status, h: seq<Write>, n: nat)
    requires n <= |h| && Chain(start, h)
    ensures Chain(start, h[..n])
  {
  }

  lemma {:induction false} ChainTells(h: seq<Write>)
    requires Chain(EMPTY, h)
    ensures Tells(After(EMPTY, h), h)
  {
    if |h| > 0 {
      var n := |h| - 1;
      ChainPrefix(EMPTY, h, n);
      ChainTells(h[..n]);
      FollowsTells(After(EMPTY, h[..n]), h);
    }
  }

  /**
   * In every run, after every single write, including the first one of a reconcile that then fails, the
   * phase and the three conditions are a function of which branches wrote before.
   */
  lemma StatusTellsHistory(run: seq<Round>, k: nat)
    requires k <= |History(run)|
    ensures Tells(After(EMPTY, History(run)[..k]), History(run)[..k])
  {
    HistoryIsChain(run);
    ChainPrefix(EMPTY, History(run), k);
    ChainTells(History(run)[..k]);
  }

  /** The status invariant: it holds of every status any run persists. */
  lemma StatusInvariant(run: seq<Round>, k: nat)
    requires k < |History(run)|
    ensures var s := History(run)[k].status;
            && DistinctTypes(s.conditions)
            && (IsReady(s.conditions) <==> s.phase == PhaseRunning)
            && (s.phase == PhaseRunning ==>
                  && s.bootstrapComplete
                  && Is(s.conditions, Degraded, ConditionFalse)
                  && Is(s.conditions, Progressing, ConditionFalse))
            && (HasReason(s.conditions, Ready, DegradedWord) ==> Is(s.conditions, Degraded, ConditionTrue))
  {
    StatusTellsHistory(run, k + 1);
    FirstSeenComesFirst(run);
    var h := History(run)[..k + 1];
    assert h[|h| - 1] == History(run)[k];
    TellsInvariant(History(run)[k].status, h);
  }

  lemma TellsInvariant(s: Status, h: seq<Write>)
    requires Tells(s, h) && |h| > 0
    requires |h| > 1 ==> h[|h| - 1].cause != FirstSeen
    ensures IsReady(s.conditions) <==> s.phase == PhaseRunning
    ensures s.phase == PhaseRunning ==>
              s.bootstrapComplete && Is(s.conditions, Degraded, ConditionFalse)
              && Is(s.conditions, Progressing, ConditionFalse)
    ensures HasReason(s.conditions, Ready, DegradedWord) ==> Is(s.conditions, Degraded, ConditionTrue)
  {
    var c := h[|h| - 1].cause;
    if c == FirstSeen {
      assert h[..|h| - 1] == [];
      assert Last(h, AboutReady) == None;
    } else {
      assert Last(h, AboutReady) == Some(c);
    }
  }

  lemma WritesAnnounceOnce(s: Status, o: Observation, poll: Option<Summary>)
    ensures forall k | 0 <= k < |Writes(s, o, poll)| :: Writes(s, o, poll)[k].cause == FirstSeen ==> k == 0 && Fresh(s)
    ensures |Writes(s, o, poll)| > 0 || !Fresh(s) ==> !Fresh(After(s, Writes(s, o, poll)))
  {
  }

  /** Only the very first write of a run can be the one that announces the object. */
  lemma {:induction false} FirstSeenComesFirst(run: seq<Round>)
    ensures forall k | 0 < k < |History(run)| :: History(run)[k].cause != FirstSeen
    ensures |History(run)| > 0 ==> !Fresh(After(EMPTY, History(run)))
  {
    if |run| > 0 {
      var n := |run| - 1;
      FirstSeenComesFirst(run[..n]);
      var earlier := History(run[..n]);
      WritesAnnounceOnce(After(EMPTY, earlier), run[n].o, run[n].poll);
    }
  }

  // ---- what a reconcile stores, from what it read ----

  /** The phase for so many ready replicas of so many wanted, and what the poll counted. */
  ghost predicate PhaseFits(t: Status, ready: int, want: int, polled: bool) {
    && (t.phase == PhaseCreating <==> ready == 0)
    && (t.phase == PhaseBootstrapping <==> ready != 0 && (ready < want || (polled && t.healthyReplicas == 0)))
    && (t.phase == PhaseRunning <==>
          ready != 0 && ready >= want
          && (polled ==> t.healthyReplicas != 0 && t.healthyReplicas >= want && t.degradedReasons == []))
    && (t.phase == PhaseDegraded <==>
          ready != 0 && ready >= want && polled && t.healthyReplicas != 0
          && (t.healthyReplicas < want || t.degradedReasons != []))
  }

  /** The counts and the phase of a closing status. */
  lemma ClosingPhase(s: Status, o: Observation)
    ensures var t := Closing(s, o, PollOf(o)).status;
            var ready := if o.statefulSet.Some? then o.statefulSet.value.ready else s.readyReplicas;
            var want := if o.replicas.Some? then o.replicas.value else 3;
            var polled := o.protocol == Lux && o.podList.Some? && o.podList.value != [];
            && t.readyReplicas == ready
            && t.currentReplicas == (if o.statefulSet.Some? then o.statefulSet.value.current else s.currentReplicas)
            && t.observedGeneration == o.generation
            && PhaseFits(t, ready, want, polled)
            && (t.bootstrapComplete <==> s.bootstrapComplete || t.phase == PhaseRunning)
  {
  }

  /** The health fields of a closing status: those of the poll, or what was there. */
  lemma ClosingHealthFields(s: Status, o: Observation, poll: Option<Summary>)
    ensures var t := Closing(s, o, poll).status;
            && t.nodes == (if poll.Some? then poll.value.nodes else s.nodes)
            && t.healthyReplicas == (if poll.Some? then poll.value.healthy else s.healthyReplicas)
            && t.totalPeers == (if poll.Some? then poll.value.totalPeers else s.totalPeers)
            && t.heightSkew == (if poll.Some? then poll.value.heightSkew else s.heightSkew)
            && t.degradedReasons == (if poll.Some? then poll.value.reasons else s.degradedReasons)
            && t.externalIPs == (if poll.Some? && o.addresses != map[] then o.addresses else s.externalIPs)
  {
  }

  /** What is polled: the listed pods of a lux cluster, when there are any. */
  lemma PollsIff(o: Observation)
    ensures PollOf(o).Some? <==> o.protocol == Lux && o.podList.Some? && o.podList.value != []
    ensures PollOf(o).Some? ==> PollOf(o).value == Summarize(Nodes(o.podList.value, o.addresses), o.maxHeightSkew)
  {
  }

  /** A condition after a call with these values: kept when status and reason repeat, otherwise written anew. */
  function Told(before: Option<Entry>, t: ConditionType, st: ConditionStatus, w: Word, m: Text, now: int): Option<Entry> {
    if before.Some? && before.value.status == st && before.value.reason == w then before
    else Some(Condition(t, st, w, m, now))
  }

  predicate ClosesWith(c: Cause) {
    c != UnknownProtocol && c != FirstSeen
  }

  lemma ReadyTold(c: Cause, x: Status, o: Observation)
    requires ClosesWith(c)
    ensures var want := if o.replicas.Some? then o.replicas.value else 3;
            var before := Lookup(x.conditions, Ready);
            Lookup(Concluded(c, x, o).conditions, Ready)
            == if c == NoneReady then Told(before, Ready, ConditionFalse, NoReplicasReady, NoneYet, o.nowReady)
               else if c == SomeReady then
                 Told(before, Ready, ConditionFalse, PartiallyReady, ReadyCount(x.readyReplicas, want), o.nowReady)
               else if c == StillBootstrapping then
                 Told(before, Ready, ConditionFalse, BootstrappingWord, NodesBootstrapping, o.nowReady)
               else if c == Unhealthy then Told(before, Ready, ConditionFalse, DegradedWord, Trouble(x, want), o.nowReady)
               else Told(before, Ready, ConditionTrue, AllReplicasReady, AllReady, o.nowReady)
  {
    CallsLookup(c, x, o, Ready);
  }

  lemma DegradedTold(c: Cause, x: Status, o: Observation)
    requires ClosesWith(c)
    ensures var want := if o.replicas.Some? then o.replicas.value else 3;
            var before := Lookup(x.conditions, Degraded);
            Lookup(Concluded(c, x, o).conditions, Degraded)
            == if c == Unhealthy then Told(before, Degraded, ConditionTrue, DegradedWord, Trouble(x, want), o.nowDegraded)
               else if c == AllWell then Told(before, Degraded, ConditionFalse, Healthy, AllHealthy, o.nowDegraded)
               else before
  {
    CallsLookup(c, x, o, Degraded);
  }

  lemma ProgressingTold(c: Cause, x: Status, o: Observation)
    requires ClosesWith(c)
    ensures var before := Lookup(x.conditions, Progressing);
            Lookup(Concluded(c, x, o).conditions, Progressing)
            == if c == AllWell
               then Told(before, Progressing, ConditionFalse, Complete, ReconciliationComplete, o.nowProgressing)
               else before
  {
    CallsLookup(c, x, o, Progressing);
  }

  /** The message about unhealthy nodes. */
  function Trouble(t: Status, want: int32): Text {
    if t.degradedReasons == [] then HealthyOf(t.healthyReplicas, want) else Reasons(t.degradedReasons)
  }

  /** The Ready condition of a closing status, by its phase and counts. */
  lemma ClosingReady(s: Status, o: Observation, poll: Option<Summary>)
    ensures var t := Closing(s, o, poll).status;
            var want := if o.replicas.Some? then o.replicas.value else 3;
            var before, after := Lookup(s.conditions, Ready), Lookup(t.conditions, Ready);
            after == if t.phase == PhaseCreating then
                       Told(before, Ready, ConditionFalse, NoReplicasReady, NoneYet, o.nowReady)
                     else if t.phase == PhaseBootstrapping && t.readyReplicas < want then
                       Told(before, Ready, ConditionFalse, PartiallyReady, ReadyCount(t.readyReplicas, want), o.nowReady)
                     else if t.phase == PhaseBootstrapping then
                       Told(before, Ready, ConditionFalse, BootstrappingWord, NodesBootstrapping, o.nowReady)
                     else if t.phase == PhaseDegraded then
                       Told(before, Ready, ConditionFalse, DegradedWord, Trouble(t, want), o.nowReady)
                     else Told(before, Ready, ConditionTrue, AllReplicasReady, AllReady, o.nowReady)
  {
    ReadyTold(Closing(s, o, poll).cause, Observed(s, o, poll), o);
  }

  /** And the Degraded condition, which only Degraded and Running write. */
  lemma ClosingDegraded(s: Status, o: Observation, poll: Option<Summary>)
    ensures var t := Closing(s, o, poll).status;
            var want := if o.replicas.Some? then o.replicas.value else 3;
            var before := Lookup(s.conditions, Degraded);
            Lookup(t.conditions, Degraded)
            == if t.phase == PhaseDegraded then Told(before, Degraded, ConditionTrue, DegradedWord, Trouble(t, want), o.nowDegraded)
               else if t.phase == PhaseRunning then Told(before, Degraded, ConditionFalse, Healthy, AllHealthy, o.nowDegraded)
               else before
  {
    DegradedTold(Closing(s, o, poll).cause, Observed(s, o, poll), o);
  }

  /** And the Progressing condition, which only Running writes. */
  lemma ClosingProgressing(s: Status, o: Observation, poll: Option<Summary>)
    ensures var t := Closing(s, o, poll).status;
            var before := Lookup(s.conditions, Progressing);
            Lookup(t.conditions, Progressing)
            == if t.phase == PhaseRunning
               then Told(before, Progressing, ConditionFalse, Complete, ReconciliationComplete, o.nowProgressing)
               else before
  {
    ProgressingTold(Closing(s, o, poll).cause, Observed(s, o, poll), o);
  }

  /** Which writes land: none, the early one, the closing one or both. */
  lemma WritesThatLand(s: Status, o: Observation)
    ensures var ws := Writes(s, o, PollOf(o));
            var isNew := s.phase == NoPhase || s.phase == PhasePending;
            var closes := o.resourcesApplied && o.lastWriteOk;
            if o.protocol.Unregistered? then |ws| == if o.lastWriteOk then 1 else 0
            else if isNew && !o.firstWriteOk then ws == []
            else |ws| == (if isNew then 1 else 0) + (if closes then 1 else 0)
  {
  }

  /** The early write: phase Creating and the Progressing condition, nothing else. */
  lemma EarlyWrite(s: Status, o: Observation)
    requires !o.protocol.Unregistered? && (s.phase == NoPhase || s.phase == PhasePending) && o.firstWriteOk
    ensures var t := Writes(s, o, PollOf(o))[0].status;
            && t == s.(phase := PhaseCreating, conditions := t.conditions)
            && Lookup(t.conditions, Progressing)
               == Told(Lookup(s.conditions, Progressing), Progressing, ConditionTrue, CreatingWord, BuildingResources, o.nowFirst)
            && forall c | c != Progressing :: Lookup(t.conditions, c) == Lookup(s.conditions, c)
  {
    forall c: ConditionType ensures Lookup(Concluded(FirstSeen, s, o).conditions, c)
        == if c == Progressing
           then Told(Lookup(s.conditions, c), c, ConditionTrue, CreatingWord, BuildingResources, o.nowFirst)
           else Lookup(s.conditions, c)
    {
      CallsLookup(FirstSeen, s, o, c);
    }
  }

  /** The write for a protocol without a driver: phase Degraded and the Ready condition, nothing else. */
  lemma UnsupportedWrite(s: Status, o: Observation)
    requires o.protocol.Unregistered? && o.lastWriteOk
    ensures var t := Writes(s, o, PollOf(o))[0].status;
            && t == s.(phase := PhaseDegraded, conditions := t.conditions)
            && Lookup(t.conditions, Ready)
               == Told(Lookup(s.conditions, Ready), Ready, ConditionFalse, UnknownProtocolWord, NotSupported(o.protocol), o.nowReady)
            && forall c | c != Ready :: Lookup(t.conditions, c) == Lookup(s.conditions, c)
  {
    forall c: ConditionType ensures Lookup(Concluded(UnknownProtocol, s, o).conditions, c)
        == if c == Ready
           then Told(Lookup(s.conditions, c), c, ConditionFalse, UnknownProtocolWord, NotSupported(o.protocol), o.nowReady)
           else Lookup(s.conditions, c)
    {
      CallsLookup(UnknownProtocol, s, o, c);
    }
  }

  /**
   * What is stored after a reconcile that gets to its closing write: the phase that fits what it read, with
   * the stored ready count when the StatefulSet cannot be read, and 3 wanted when the spec does not say.
   */
  lemma ReconcileStores(s: Status, o: Observation)
    requires !o.protocol.Unregistered? && o.resourcesApplied && o.lastWriteOk
    requires s.phase == NoPhase || s.phase == PhasePending ==> o.firstWriteOk
    ensures var t := After(s, Writes(s, o, PollOf(o)));
            var ready := if o.statefulSet.Some? then o.statefulSet.value.ready else s.readyReplicas;
            var want := if o.replicas.Some? then o.replicas.value else 3;
            var polled := o.protocol == Lux && o.podList.Some? && o.podList.value != [];
            && t.readyReplicas == ready && t.observedGeneration == o.generation
            && PhaseFits(t, ready, want, polled)
            && (t.bootstrapComplete <==> s.bootstrapComplete || t.phase == PhaseRunning)
  {
    if s.phase == NoPhase || s.phase == PhasePending {
      ClosingPhase(Concluded(FirstSeen, s, o), o);
    } else {
      ClosingPhase(s, o);
    }
  }

  // ---- what Running means ----

  /** A reconcile that polled and ended in Running saw no unhealthy pod, enough pods, and no wide skew. */
  lemma NoHiddenUnhealthyNode(s: Status, o: Observation)
    requires PollOf(o).Some?
    requires Closing(s, o, PollOf(o)).status.phase == PhaseRunning
    ensures var pods := o.podList.value;
            && (forall pod | pod in pods :: ReportOf(pod, o.addresses).healthy)
            && Replicas(o) <= |pods|
            && forall p, q | p in pods && q in pods
                 && ReportOf(p, o.addresses).pChainHeight > 0 && ReportOf(q, o.addresses).pChainHeight > 0 ::
                 Gap(ReportOf(p, o.addresses).pChainHeight, ReportOf(q, o.addresses).pChainHeight)
                 <= if o.maxHeightSkew > 0 then o.maxHeightSkew else 100
  {
    assert PollOf(o).value.reasons == [];
    NoReasonsMeansAllWell(o.podList.value, o.addresses, o.maxHeightSkew);
  }

  /** Running can list degraded reasons exactly when this reconcile did not poll and an earlier one left some. */
  lemma RunningListsReasonsIffStale(s: Status, o: Observation, poll: Option<Summary>)
    requires Closing(s, o, poll).status.phase == PhaseRunning
    ensures Closing(s, o, poll).status.degradedReasons != [] <==> poll.None? && s.degradedReasons != []
  {
  }

  ghost predicate ListsUnhealthy(nodes: seq<NodeStatus>) {
    exists n :: n in nodes && !n.healthy
  }

  lemma ClosingNodes(s: Status, o: Observation, poll: Option<Summary>)
    requires Closing(s, o, poll).status.phase == PhaseRunning
    ensures Closing(s, o, poll).status.nodes == if poll.None? then s.nodes else poll.value.nodes
    ensures poll.Some? ==> poll.value.reasons == []
  {
  }

  /** And it can list an unhealthy node exactly when it did not poll and the earlier list had one. */
  lemma RunningListsUnhealthyIffStale(s: Status, o: Observation)
    requires Closing(s, o, PollOf(o)).status.phase == PhaseRunning
    ensures ListsUnhealthy(Closing(s, o, PollOf(o)).status.nodes) <==> PollOf(o).None? && ListsUnhealthy(s.nodes)
  {
    ClosingNodes(s, o, PollOf(o));
    if PollOf(o).Some? { NoReasonsInAList(Nodes(o.podList.value, o.addresses), o.maxHeightSkew); }
  }

  function OneReplicaRound(podList: Option<seq<Pod>>, ext: map<string, string>): Observation {
    Observation(Lux, 1, Some(1), 100, true, true, Some(Readiness(1, 1)), podList, ext, true, 0, 0, 0, 0)
  }

  lemma TwoRounds(a: Round, b: Round)
    ensures var first := Writes(EMPTY, a.o, a.poll);
            History([a, b]) == first + Writes(After(EMPTY, first), b.o, b.poll)
  {
    var run := [a, b];
    assert run[..1] == [a] && [a][..0] == [];
    assert History([]) == [];
    assert History([a]) == [] + Writes(EMPTY, a.o, a.poll);
  }

  lemma PollOutlivesAFailedListing(p: Option<Summary>, pods: seq<Pod>, ext: map<string, string>)
    requires p.Some?
    ensures var h := History([Round(OneReplicaRound(Some(pods), ext), p), Round(OneReplicaRound(None, ext), None)]);
            && |h| == 3 && h[2].status.phase == PhaseRunning
            && h[2].status.degradedReasons == p.value.reasons && h[2].status.nodes == p.value.nodes
  {
    TwoRounds(Round(OneReplicaRound(Some(pods), ext), p), Round(OneReplicaRound(None, ext), None));
    FirstRoundKeepsPoll(p, pods, ext);
    UnpolledRoundKeepsPoll(After(EMPTY, Writes(EMPTY, OneReplicaRound(Some(pods), ext), p)), ext);
  }

  lemma FirstRoundKeepsPoll(p: Option<Summary>, pods: seq<Pod>, ext: map<string, string>)
    requires p.Some?
    ensures var ws := Writes(EMPTY, OneReplicaRound(Some(pods), ext), p);
            && |ws| == 2 && !Fresh(After(EMPTY, ws))
            && After(EMPTY, ws).degradedReasons == p.value.reasons && After(EMPTY, ws).nodes == p.value.nodes
  {
  }

  lemma UnpolledRoundKeepsPoll(s: Status, ext: map<string, string>)
    requires !Fresh(s)
    ensures var ws := Writes(s, OneReplicaRound(None, ext), None);
            && |ws| == 1 && ws[0].status.phase == PhaseRunning
            && ws[0].status.degradedReasons == s.degradedReasons && ws[0].status.nodes == s.nodes
  {
  }

  lemma UnhealthyPodIsAReason(pod: Pod, ext: map<string, string>, maxHeightSkew: int64)
    requires !ReportOf(pod, ext).healthy
    ensures Summarize(Nodes([pod], ext), maxHeightSkew).reasons != []
  {
    assert [pod][0] in [pod];
    if Summarize(Nodes([pod], ext), maxHeightSkew).reasons == [] { NoReasonsMeansAllWell([pod], ext, maxHeightSkew); }
  }

  /** It happens: after one poll of an unhealthy pod, a reconcile whose pod listing fails reports Running and lists it. */
  lemma RunningCanHideAnUnhealthyNode(pod: Pod, ext: map<string, string>)
    requires !ReportOf(pod, ext).healthy
    ensures var first, second := OneReplicaRound(Some([pod]), ext), OneReplicaRound(None, ext);
            var h := History([Round(first, PollOf(first)), Round(second, PollOf(second))]);
            && |h| == 3 && h[2].status.phase == PhaseRunning && h[2].status.degradedReasons != []
            && ReportOf(pod, ext) in h[2].status.nodes && ListsUnhealthy(h[2].status.nodes)
  {
    var p := PollOf(OneReplicaRound(Some([pod]), ext));
    UnhealthyPodIsAReason(pod, ext, 100);
    assert [pod][0] in [pod];
    EveryReportIsListed([pod], ext);
    PollOutlivesAFailedListing(p, [pod], ext);
  }
}
