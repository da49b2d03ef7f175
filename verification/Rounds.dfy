/** One node's reporting engine as a state machine over atomic steps. */
module Rounds {
  import opened Basics
  import opened Assembler
  import opened Observations
  import opened Quorum
  import opened Acceptance
  import Schedule

  const INIT_ROUND: nat := 1

  // ---- Messages ----

  datatype Tag = Tag(epoch: nat, round: nat, leader: string)

  /** A job as announced; `templateParses` tells whether its template decodes to the parameters of a direct request. */
  datatype JobInfo = JobInfo(jobId: string, jobType: string, templateParses: bool)

  datatype Body =
    | ObserveReq(jobs: seq<JobInfo>)
    | ObserveResp(responses: seq<Response>)
    | ObservationMap(doc: Doc)
    | ReportReq(doc: Doc)
    | ReportRes(reports: JobReports)
    | BroadcastFinal(final: FinalReport)
    | FinalEcho
    | ProgressRound

  /** A decoded message; `Untagged` stands for messages without epoch, round and leader. */
  datatype Message = Tagged(from: string, tag: Tag, body: Body, sig: Signature) | Untagged(from: string)

  datatype Outgoing = ToAll(tag: Tag, body: Body) | ToLeader(leader: string, tag: Tag, body: Body) | NewEpoch

  // ---- Environment ----

  /** Places where the code as written drops what it receives: the peer flag of the echo check is never set,
      ProgressRound is missing from the table that the gate consults, and the decoder has no case for three kinds. */
  datatype Wiring = Wiring(peerFlagSet: bool, progressInTable: bool,
                           decodesFinal: bool, decodesEcho: bool, decodesProgress: bool)

  const AS_WRITTEN: Wiring := Wiring(false, false, false, false, false)

  /** An echo can be counted or a PROGRESS-ROUND obeyed. */
  predicate LetsAdvance(wiring: Wiring) {
    (wiring.peerFlagSet && wiring.decodesEcho) || (wiring.progressInTable && wiring.decodesProgress)
  }

  datatype Env = Env(
    isKey: string -> bool,
    verify: (string, Tag, Body, Signature) -> bool,
    digest: Hasher,
    docDigest: Doc -> Digest,
    parse: Parser,
    job: string -> JobSpec,
    wiring: Wiring)

  // ---- State ----

  datatype Phase = PhaseNil | PhaseObserve | PhaseGrace | PhaseReport | PhaseFinal | PhaseTransmit

  datatype LeaderState = LeaderState(
    observations: ObsMap, finalReport: Option<FinalReport>, reports: seq<Report>, attestations: nat, phase: Phase)

  datatype Cache = Cache(
    observeN: nat, jobs: seq<string>, jobReports: JobReports, followerObs: ObsMap, finalReport: FinalReport)

  /** A message that passed the gate, with the peers known when it arrived. */
  datatype Admitted = Admitted(msg: Message, known: set<string>)

  datatype Config = Config(isLeader: bool, epoch: nat, leader: string, id: string, n: nat, f: nat)

  datatype Node = Node(
    config: Config,
    curRound: nat,
    ready: bool,
    stopped: bool,
    ls: LeaderState,
    cache: Cache,
    jobSchedule: map<int, seq<JobInfo>>,
    registry: set<string>,
    pending: multiset<Phase>,  // phases signalled and not yet handled
    owed: nat,                 // round changes started and not yet done
    history: seq<Admitted>)    // what passed the gate since the last initialisation

  const EMPTY_FINAL: FinalReport := FinalReport(map[], [])
  const EMPTY_CACHE: Cache := Cache(0, [], map[], map[], EMPTY_FINAL)

  function InitialLeaderState(phase: Phase): LeaderState {
    LeaderState(map[], None, [PLACEHOLDER], 0, phase)
  }

  function TagOf(s: Node): Tag {
    Tag(s.config.epoch, s.curRound, s.config.leader)
  }

  // ---- The gate ----

  predicate InPhaseTable(wiring: Wiring, body: Body) {
    body.ProgressRound? ==> wiring.progressInTable
  }

  /** The decoder knows the kind of message; others never reach the engine. */
  predicate Decoded(wiring: Wiring, body: Body) {
    && (body.BroadcastFinal? ==> wiring.decodesFinal)
    && (body.FinalEcho? ==> wiring.decodesEcho)
    && (body.ProgressRound? ==> wiring.decodesProgress)
  }

  /** The message is decoded and passes `rpcMsgPrechecks`: it has the common fields, a phase, and this node's tag. */
  predicate Admits(env: Env, s: Node, m: Message) {
    m.Tagged? && Decoded(env.wiring, m.body) && InPhaseTable(env.wiring, m.body) && m.tag == TagOf(s)
  }

  predicate Verified(env: Env, m: Message)
    requires m.Tagged?
  {
    env.isKey(m.from) && env.verify(m.from, m.tag, m.body, m.sig)
  }

  /** `VerifySigAndPeer`. */
  predicate SignedPeer(env: Env, m: Message, known: set<string>)
    requires m.Tagged?
  {
    Verified(env, m) && env.wiring.peerFlagSet && m.from in known
  }

  function ReportOf(m: Message): Report
    requires m.Tagged? && m.body.ReportRes?
  {
    Report(m.from, m.body.reports, m.sig)
  }

  // ---- Handlers ----

  /** `NewJobFromInfo` succeeds. */
  predicate Instantiates(job: JobInfo) {
    job.jobType == DIRECT_REQUEST && job.templateParses
  }

  /** The job IDs cached before the first job that cannot be instantiated. */
  function Castable(jobs: seq<JobInfo>): (ids: seq<string>)
    ensures |ids| <= |jobs|
  {
    if jobs == [] || !Instantiates(jobs[0]) then [] else [jobs[0].jobId] + Castable(jobs[1..])
  }

  function OnObserveReq(s: Node, jobs: seq<JobInfo>, observed: Option<seq<Response>>): (Node, seq<Outgoing>) {
    if s.curRound > Schedule.MAX_ROUNDS then
      (s.(stopped := true), [NewEpoch])
    else
      var s' := s.(cache := s.cache.(jobs := s.cache.jobs + Castable(jobs)));
      if |Castable(jobs)| < |jobs| || observed.None? then (s', [])
      else (s', [ToLeader(s.config.leader, TagOf(s), ObserveResp(observed.value))])
  }

  function OnObserveResp(env: Env, s: Node, m: Message): Node
    requires m.Tagged? && m.body.ObserveResp?
  {
    if !Verified(env, m) then s else
      var stored := s.(ls := s.ls.(observations := s.ls.observations[m.from := Grouped(m.body.responses)]),
                       cache := s.cache.(observeN := s.cache.observeN + 1));
      if stored.cache.observeN > 2 * s.config.f + 1
      then stored.(ls := stored.ls.(phase := PhaseGrace), pending := s.pending + multiset{PhaseGrace})
      else stored
  }

  function OnObservationMap(s: Node, doc: Doc): Node {
    if doc.Malformed? then s else s.(cache := s.cache.(followerObs := Decode(doc)))
  }

  /** The reports every follower computes from the observation map `om`. */
  ghost function JobReportsOf(env: Env, om: ObsMap): JobReports {
    map j | j in JobsOf(om) && Assembled(env.job(j), Collected(om, om.Keys, j), env.parse).Value?
      :: Assembled(env.job(j), Collected(om, om.Keys, j), env.parse).value
  }

  /** The data of a REPORT-REQ equals the marshalled cached map, by hash. */
  ghost predicate Matches(env: Env, doc: Doc, cached: ObsMap) {
    doc.Object? && env.docDigest(doc) == env.docDigest(Encode(cached))
  }

  ghost function OnReportReq(env: Env, s: Node, doc: Doc): (Node, seq<Outgoing>) {
    if !Matches(env, doc, s.cache.followerObs) then (s, []) else
      var reports := JobReportsOf(env, Decode(doc));
      (s.(cache := s.cache.(jobReports := reports)), [ToLeader(s.config.leader, TagOf(s), ReportRes(reports))])
  }

  /** `pick` is what assembling the reports, the new one included, yields. */
  function OnReportRes(env: Env, s: Node, m: Message, pick: Option<FinalReport>): Node
    requires m.Tagged? && m.body.ReportRes?
  {
    if !Verified(env, m) then s else
      var added := s.(ls := s.ls.(reports := s.ls.reports + [ReportOf(m)]));
      if |added.ls.reports| >= s.config.n && pick.Some?
      then added.(ls := added.ls.(finalReport := pick, phase := PhaseFinal),
                  pending := s.pending + multiset{PhaseFinal})
      else added
  }

  ghost predicate TakesFinal(env: Env, f: nat, m: Message, known: set<string>)
    requires m.Tagged? && m.body.BroadcastFinal?
  {
    Verified(env, m) &&
    Accepts(m.body.final.signatories, f, known, env.isKey, SignsPayload(env, m.tag, m.body))
  }

  /** The signatory's signature verifies for the broadcast itself. */
  function SignsPayload(env: Env, tag: Tag, body: Body): Signatory -> bool {
    (x: Signatory) => env.verify(x.id, tag, body, x.sign)
  }

  ghost function OnBroadcastFinal(env: Env, s: Node, m: Message, known: set<string>): (Node, seq<Outgoing>)
    requires m.Tagged? && m.body.BroadcastFinal?
  {
    if !TakesFinal(env, s.config.f, m, known) then (s, []) else
      (s.(cache := s.cache.(finalReport := m.body.final)), [ToLeader(s.config.leader, TagOf(s), FinalEcho)])
  }

  function OnFinalEcho(env: Env, s: Node, m: Message, known: set<string>): Node
    requires m.Tagged?
  {
    if !SignedPeer(env, m, known) then s else
      var counted := s.(ls := s.ls.(attestations := s.ls.attestations + 1));
      if counted.ls.attestations >= s.config.f + 1
      then counted.(ls := counted.ls.(phase := PhaseTransmit), pending := s.pending + multiset{PhaseTransmit})
      else counted
  }

  function OnProgressRound(env: Env, s: Node, m: Message): Node
    requires m.Tagged?
  {
    if env.isKey(s.config.leader) && env.verify(s.config.leader, m.tag, m.body, m.sig)
    then s.(owed := s.owed + 1) else s
  }

  ghost function OnMessage(env: Env, s: Node, m: Message, known: set<string>, observed: Option<seq<Response>>,
                           pick: Option<FinalReport>): (Node, seq<Outgoing>)
    requires m.Tagged?
  {
    match m.body
    case ObserveReq(jobs) => OnObserveReq(s, jobs, observed)
    case ObserveResp(_) => (OnObserveResp(env, s, m), [])
    case ObservationMap(doc) => (OnObservationMap(s, doc), [])
    case ReportReq(doc) => OnReportReq(env, s, doc)
    case ReportRes(_) => (OnReportRes(env, s, m, pick), [])
    case BroadcastFinal(_) => OnBroadcastFinal(env, s, m, known)
    case FinalEcho => (OnFinalEcho(env, s, m, known), [])
    case ProgressRound => (OnProgressRound(env, s, m), [])
  }

  function Recorded(s: Node, m: Message, known: set<string>): Node {
    s.(history := s.history + [Admitted(m, known)])
  }

  ghost function OnReceive(env: Env, s: Node, m: Message, known: set<string>, observed: Option<seq<Response>>,
                           pick: Option<FinalReport>): (Node, seq<Outgoing>)
  {
    if !s.ready || !Admits(env, s, m) then (s, []) else OnMessage(env, Recorded(s, m, known), m, known, observed, pick)
  }

  /** Without a final report the handler dereferences nil, which ends the node. */
  function OnTransmit(s: Node): (Node, seq<Outgoing>) {
    if s.ls.finalReport.None? then (s.(stopped := true), [])
    else if s.ls.finalReport.value.report.Keys <= s.registry
    then (s.(owed := s.owed + 1), [ToAll(TagOf(s), ProgressRound)])
    else (s, [])
  }

  /** The handler of a phase; for Grace, the moment its timer fires. */
  ghost function OnPhase(s: Node, phase: Phase): (Node, seq<Outgoing>) {
    match phase
    case PhaseNil => (s, [])
    case PhaseObserve =>
      (s.(ls := s.ls.(phase := PhaseObserve)),
       [ToAll(TagOf(s), ObserveReq(Schedule.Bucket(s.jobSchedule, s.curRound)))])
    case PhaseGrace =>
      (s.(ls := s.ls.(phase := PhaseReport), pending := s.pending + multiset{PhaseReport}), [])
    case PhaseReport =>
      var doc := Encode(s.ls.observations);
      (s, [ToAll(TagOf(s), ObservationMap(doc)), ToAll(TagOf(s), ReportReq(doc))])
    case PhaseFinal =>
      (s, if s.ls.finalReport.None? then [] else [ToAll(TagOf(s), BroadcastFinal(s.ls.finalReport.value))])
    case PhaseTransmit => OnTransmit(s)
  }

  /** A handler run for a signalled phase. */
  ghost function OnHandle(s: Node, phase: Phase): (Node, seq<Outgoing>)
    requires phase in s.pending
  {
    OnPhase(s.(pending := s.pending - multiset{phase}), phase)
  }

  /** `progressToNextRound`: a node that is the leader resets its leader state, any other node its cache. */
  function OnProgress(s: Node): Node
    requires s.owed > 0
  {
    var moved := s.(owed := s.owed - 1, curRound := s.curRound + 1);
    if s.config.id == s.config.leader
    then moved.(ls := InitialLeaderState(PhaseObserve).(finalReport := Some(EMPTY_FINAL)))
    else moved.(cache := EMPTY_CACHE)
  }

  function OnStart(s: Node, registry: set<string>, queue: seq<JobInfo>): Node
  {
    var known := s.(registry := registry, ready := true);
    if s.config.isLeader
    then known.(jobSchedule := Schedule.Scheduled(s.jobSchedule, queue),
                pending := s.pending + multiset{PhaseObserve})
    else known
  }

  /** `initReporter`; handlers and round changes already under way are not called off. */
  function OnInit(s: Node, config: Config): Node {
    s.(config := config, curRound := INIT_ROUND, ready := false,
       ls := InitialLeaderState(if config.isLeader then PhaseObserve else PhaseNil),
       cache := EMPTY_CACHE, jobSchedule := map[], registry := {}, history := [])
  }

  // ---- Runs ----

  datatype Event =
    | Init(config: Config)
    | Start(registry: set<string>, queue: seq<JobInfo>)
    | Receive(msg: Message, known: set<string>, observed: Option<seq<Response>>, pick: Option<FinalReport>)
    | Handle(phase: Phase)
    | Progress

  /** Whether receiving `m` runs assembly. */
  predicate Assembles(env: Env, s: Node, m: Message) {
    s.ready && Admits(env, s, m) && m.body.ReportRes? && Verified(env, m) && |s.ls.reports| + 1 >= s.config.n
  }

  ghost predicate Enabled(env: Env, s: Node, e: Event) {
    !s.stopped &&
    match e
    case Init(_) => true
    case Start(_, _) => true
    case Receive(m, known, observed, pick) =>
      Assembles(env, s, m) ==>
        IsAssembly(s.ls.reports + [ReportOf(m)], s.config.f + 1, env.digest, pick)
    case Handle(phase) => phase in s.pending
    case Progress => s.owed > 0
  }

  ghost function Step(env: Env, s: Node, e: Event): (Node, seq<Outgoing>)
    requires Enabled(env, s, e)
  {
    match e
    case Init(config) => (OnInit(s, config), [])
    case Start(registry, queue) => (OnStart(s, registry, queue), [])
    case Receive(m, known, observed, pick) => OnReceive(env, s, m, known, observed, pick)
    case Handle(phase) => OnHandle(s, phase)
    case Progress => (OnProgress(s), [])
  }

  /** The engine as the pacemaker first creates it, then initialised. */
  function FirstNode(config: Config): Node {
    var leaderState := InitialLeaderState(PhaseNil);
    var created := Node(config, 0, false, false, leaderState, EMPTY_CACHE, map[], {}, multiset{}, 0, []);
    OnInit(created, config)
  }

  ghost predicate Next(env: Env, s: Node, e: Event, s': Node) {
    Enabled(env, s, e) && s' == Step(env, s, e).0
  }

  /** The states a freshly initialised engine goes through when the steps `evs` happen in this order. */
  ghost predicate IsRun(env: Env, config: Config, states: seq<Node>, evs: seq<Event>) {
    && |states| == |evs| + 1
    && states[0] == FirstNode(config)
    && forall i :: 0 <= i < |evs| ==> Next(env, states[i], evs[i], states[i + 1])
  }
}
