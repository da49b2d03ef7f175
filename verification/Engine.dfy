/** The reporting engine of one node: its fields and handlers, each carrying out one step of `Rounds`. */
module Engine {
  import opened Basics
  import opened Assembler
  import opened Observations
  import opened Quorum
  import opened Acceptance
  import opened Rounds
  import opened RoundSafety
  import Schedule

  /** `expected` holds the assembled value of exactly the jobs that can be assembled. */
  ghost predicate Expects(env: Env, jobObservations: JobMap, expected: JobReports) {
    && expected.Keys <= jobObservations.Keys
    && forall j :: j in jobObservations ==> Entry(env, j, jobObservations[j], expected)
  }

  ghost predicate Entry(env: Env, j: string, obs: seq<Response>, expected: JobReports) {
    match Assembled(env.job(j), multiset(obs), env.parse)
    case Value(v) => j in expected && expected[j] == v
    case Failed(_) => j !in expected
  }

  lemma ReportsExpected(env: Env, om: ObsMap, jobObservations: JobMap)
    requires jobObservations.Keys == JobsOf(om)
    requires forall j :: j in jobObservations ==> multiset(jobObservations[j]) == Collected(om, om.Keys, j)
    ensures Expects(env, jobObservations, JobReportsOf(env, om))
  {
    forall j | j in jobObservations ensures Entry(env, j, jobObservations[j], JobReportsOf(env, om)) {
      assert multiset(jobObservations[j]) == Collected(om, om.Keys, j);
    }
  }

  method AssembleJob(env: Env, j: string, obs: seq<Response>, ghost expected: JobReports) returns (value: Option<Json>)
    requires Entry(env, j, obs, expected)
    ensures value == if j in expected then Some(expected[j]) else None
  {
    var r := Assemble(env.job(j), obs, env.parse);
    value := if r.Value? then Some(r.value) else None;
  }

  function Without(m: JobReports, ks: set<string>): JobReports {
    map j | j in m && j !in ks :: m[j]
  }

  lemma WithoutStep(m: JobReports, ks: set<string>, j: string)
    requires j in ks
    ensures Without(m, ks - {j}) == if j in m then Without(m, ks)[j := m[j]] else Without(m, ks)
  {
  }

  lemma WithoutEnds(m: JobReports, ks: set<string>)
    requires m.Keys <= ks
    ensures Without(m, ks) == map[] && Without(m, {}) == m
  {
  }

  /** Assembles every job that can be assembled, in any order, skipping the others. */
  method AssembleJobs(env: Env, jobObservations: JobMap, ghost expected: JobReports) returns (values: JobReports)
    requires Expects(env, jobObservations, expected)
    ensures values == expected
  {
    values := map[];
    var todo := jobObservations.Keys;
    WithoutEnds(expected, todo);
    while todo != {}
      invariant todo <= jobObservations.Keys
      invariant values == Without(expected, todo)
      decreases |todo|
    {
      var j :| j in todo;
      WithoutStep(expected, todo, j);
      var value := AssembleJob(env, j, jobObservations[j], expected);
      if value.Some? {
        values := values[j := value.value];
      }
      todo := todo - {j};
    }
  }

  method Marshalled(m: ObsMap) returns (doc: Doc)
    ensures doc == Encode(m)
  {
    var map' := new ObservationSafeMap.Of(m);
    doc := map'.MarshalJSON();
  }

  class ReportingEngine {
    const env: Env

    var config: Config
    var curRound: nat
    var ready: bool
    var stopped: bool
    var leaderState: LeaderState
    var cacheLayer: Cache
    var jobSchedule: map<int, seq<JobInfo>>
    var jobRegistry: set<string>
    var pending: multiset<Phase>
    var owed: nat
    ghost var history: seq<Admitted>

    ghost function State(): Node
      reads this
    {
      Node(config, curRound, ready, stopped, leaderState, cacheLayer, jobSchedule, jobRegistry, pending, owed, history)
    }

    /** What the node holds is what the messages admitted in its present round (or since initialisation) say. */
    ghost predicate Valid()
      reads this
    {
      Invariant(env, State())
    }

    constructor (env: Env, config: Config)
      ensures Valid() && this.env == env && State() == FirstNode(config)
    {
      this.env := env;
      this.config := config;
      curRound, ready, stopped := INIT_ROUND, false, false;
      leaderState := InitialLeaderState(if config.isLeader then PhaseObserve else PhaseNil);
      cacheLayer := EMPTY_CACHE;
      jobSchedule, jobRegistry, pending, owed, history := map[], {}, multiset{}, 0, [];
      new;
      FirstHolds(env, config);
    }

    method ResetAll(config: Config)
      modifies this
      ensures State() == OnInit(old(State()), config)
    {
      this.config := config;
      curRound, ready := INIT_ROUND, false;
      leaderState := InitialLeaderState(PhaseNil);
      if config.isLeader {
        leaderState := leaderState.(phase := PhaseObserve);
      }
      cacheLayer := EMPTY_CACHE;
      jobSchedule, jobRegistry, history := map[], {}, [];
    }

    /** `initReporter`: whatever was stored is gone; signalled phases and round changes under way are not. */
    method InitReporter(config: Config)
      requires Valid()
      modifies this
      ensures Valid() && State() == OnInit(old(State()), config)
      ensures leaderState.reports == [PLACEHOLDER] && leaderState.observations == map[] && history == []
      ensures pending == old(pending) && owed == old(owed)
    {
      ghost var before := State();
      ResetAll(config);
      InitHolds(env, before, config);
    }

    method Start(registry: set<string>, queue: seq<JobInfo>) returns (rest: seq<JobInfo>)
      requires Valid()
      modifies this`jobSchedule, this`jobRegistry, this`pending, this`ready
      ensures Valid() && State() == OnStart(old(State()), registry, queue)
    {
      StartKeeps(env, State(), registry, queue);
      jobRegistry := registry;
      rest := queue;
      if config.isLeader {
        jobSchedule, rest := Schedule.DealRounds(jobSchedule, queue);
        pending := pending + multiset{PhaseObserve};
      }
      ready := true;
    }

    function CurrentTag(): Tag
      reads this
    {
      Tag(config.epoch, curRound, config.leader)
    }

    method HandleObserveReq(jobs: seq<JobInfo>, observed: Option<seq<Response>>) returns (sent: seq<Outgoing>)
      modifies this`cacheLayer, this`stopped
      ensures (State(), sent) == OnObserveReq(old(State()), jobs, observed)
    {
      if curRound > Schedule.MAX_ROUNDS {
        stopped := true;
        return [NewEpoch];
      }
      var all := CacheJobs(jobs);
      if !all || observed.None? {
        return [];
      }
      return [ToLeader(config.leader, CurrentTag(), ObserveResp(observed.value))];
    }

    /** Instantiates the jobs one by one, keeping each in the cache, up to the first that fails. */
    method CacheJobs(jobs: seq<JobInfo>) returns (all: bool)
      modifies this`cacheLayer
      ensures cacheLayer == old(cacheLayer).(jobs := old(cacheLayer.jobs) + Castable(jobs))
      ensures all <==> |Castable(jobs)| == |jobs|
    {
      for i := 0 to |jobs|
        invariant cacheLayer.(jobs := cacheLayer.jobs + Castable(jobs[i..]))
                  == old(cacheLayer).(jobs := old(cacheLayer.jobs) + Castable(jobs))
        invariant |Castable(jobs)| == i + |Castable(jobs[i..])|
      {
        assert jobs[i..][1..] == jobs[i + 1..];
        if !Instantiates(jobs[i]) {
          assert cacheLayer.jobs + [] == cacheLayer.jobs;
          return false;
        }
        assert cacheLayer.jobs + Castable(jobs[i..]) == cacheLayer.jobs + [jobs[i].jobId] + Castable(jobs[i + 1..]);
        cacheLayer := cacheLayer.(jobs := cacheLayer.jobs + [jobs[i].jobId]);
      }
      assert cacheLayer.jobs + [] == cacheLayer.jobs;
      return true;
    }

    method HandleObserveResp(msg: Message)
      requires msg.Tagged? && msg.body.ObserveResp?
      modifies this`cacheLayer, this`leaderState, this`pending
      ensures State() == OnObserveResp(env, old(State()), msg)
    {
      if !Verified(env, msg) {
        return;
      }
      var observationMap := GroupByJob(msg.body.responses);
      leaderState := leaderState.(observations := leaderState.observations[msg.from := observationMap]);
      cacheLayer := cacheLayer.(observeN := cacheLayer.observeN + 1);
      if cacheLayer.observeN > 2 * config.f + 1 {
        leaderState := leaderState.(phase := PhaseGrace);
        pending := pending + multiset{PhaseGrace};
      }
    }

    method HandleObservationMap(data: Doc)
      modifies this`cacheLayer
      ensures State() == OnObservationMap(old(State()), data)
    {
      var obsMap := new ObservationSafeMap();
      var ok := obsMap.UnmarshalJSON(data);
      if ok {
        assert obsMap.store == Decode(data);
        cacheLayer := cacheLayer.(followerObs := obsMap.store);
      }
    }

    method HandleReportReq(data: Doc) returns (sent: seq<Outgoing>)
      modifies this`cacheLayer
      ensures (State(), sent) == OnReportReq(env, old(State()), data)
    {
      var obsMap := new ObservationSafeMap();
      var ok := obsMap.UnmarshalJSON(data);
      if !ok {
        return [];
      }
      assert obsMap.store == Decode(data);
      var cached := Marshalled(cacheLayer.followerObs);
      if env.docDigest(data) != env.docDigest(cached) {
        return [];
      }
      var jobObservations := Transpose(obsMap.store);
      ReportsExpected(env, obsMap.store, jobObservations);
      var values := AssembleJobs(env, jobObservations, JobReportsOf(env, obsMap.store));
      cacheLayer := cacheLayer.(jobReports := values);
      return [ToLeader(config.leader, CurrentTag(), ReportRes(values))];
    }

    method HandleReportRes(msg: Message) returns (ghost pick: Option<FinalReport>)
      requires msg.Tagged? && msg.body.ReportRes?
      modifies this`leaderState, this`pending
      ensures State() == OnReportRes(env, old(State()), msg, pick)
      ensures Verified(env, msg) && |old(leaderState.reports)| + 1 >= config.n ==>
                IsAssembly(old(leaderState.reports) + [ReportOf(msg)], config.f + 1, env.digest, pick)
    {
      pick := None;
      if !Verified(env, msg) {
        return;
      }
      leaderState := leaderState.(reports := leaderState.reports + [Report(msg.from, msg.body.reports, msg.sig)]);
      if |leaderState.reports| >= config.n {
        pick := TryFinal();
      }
    }

    /** Assembles what was collected; a consensus becomes the final report. */
    method TryFinal() returns (ghost pick: Option<FinalReport>)
      modifies this`leaderState, this`pending
      ensures IsAssembly(old(leaderState.reports), config.f + 1, env.digest, pick)
      ensures leaderState == if pick.None? then old(leaderState)
                             else old(leaderState).(finalReport := pick, phase := PhaseFinal)
      ensures pending == if pick.Some? then old(pending) + multiset{PhaseFinal} else old(pending)
    {
      var final := AssembleFinalReport(leaderState.reports, config.f, env.digest);
      pick := final;
      if final.Some? {
        leaderState := leaderState.(finalReport := final, phase := PhaseFinal);
        pending := pending + multiset{PhaseFinal};
      }
    }

    method HandleBroadcastFinal(msg: Message, known: set<string>) returns (sent: seq<Outgoing>)
      requires msg.Tagged? && msg.body.BroadcastFinal?
      modifies this`cacheLayer
      ensures (State(), sent) == OnBroadcastFinal(env, old(State()), msg, known)
    {
      if !Verified(env, msg) {
        return [];
      }
      var ok := VerifySignatories(msg.body.final.signatories, config.f, known, env.isKey,
                                  SignsPayload(env, msg.tag, msg.body));
      if !ok {
        return [];
      }
      cacheLayer := cacheLayer.(finalReport := msg.body.final);
      return [ToLeader(config.leader, CurrentTag(), FinalEcho)];
    }

    method HandleFinalEcho(msg: Message, known: set<string>)
      requires msg.Tagged?
      modifies this`leaderState, this`pending
      ensures State() == OnFinalEcho(env, old(State()), msg, known)
    {
      if !SignedPeer(env, msg, known) {
        return;
      }
      leaderState := leaderState.(attestations := leaderState.attestations + 1);
      if leaderState.attestations >= config.f + 1 {
        leaderState := leaderState.(phase := PhaseTransmit);
        pending := pending + multiset{PhaseTransmit};
      }
    }

    method HandleProgressRound(msg: Message)
      requires msg.Tagged?
      modifies this`owed
      ensures State() == OnProgressRound(env, old(State()), msg)
    {
      if env.isKey(config.leader) && env.verify(config.leader, msg.tag, msg.body, msg.sig) {
        owed := owed + 1;
      }
    }

    /** The handlers of messages meant for followers. */
    method DispatchFollower(msg: Message, known: set<string>, observed: Option<seq<Response>>)
      returns (sent: seq<Outgoing>)
      requires msg.Tagged?
      requires msg.body.ObserveReq? || msg.body.ObservationMap? || msg.body.ReportReq? || msg.body.BroadcastFinal?
      modifies this`cacheLayer, this`stopped
      ensures (State(), sent) == OnMessage(env, old(State()), msg, known, observed, None)
    {
      sent := [];
      match msg.body
      case ObserveReq(jobs) => sent := HandleObserveReq(jobs, observed);
      case ObservationMap(doc) => HandleObservationMap(doc);
      case ReportReq(doc) => sent := HandleReportReq(doc);
      case BroadcastFinal(_) => sent := HandleBroadcastFinal(msg, known);
    }

    /** The handler for each kind of message. */
    method Dispatch(msg: Message, known: set<string>, observed: Option<seq<Response>>)
      returns (sent: seq<Outgoing>, ghost pick: Option<FinalReport>)
      requires msg.Tagged?
      modifies this`cacheLayer, this`leaderState, this`pending, this`owed, this`stopped
      ensures (State(), sent) == OnMessage(env, old(State()), msg, known, observed, pick)
      ensures msg.body.ReportRes? && Verified(env, msg) && |old(leaderState.reports)| + 1 >= config.n ==>
                IsAssembly(old(leaderState.reports) + [ReportOf(msg)], config.f + 1, env.digest, pick)
    {
      sent, pick := [], None;
      match msg.body
      case ObserveResp(_) => HandleObserveResp(msg);
      case ReportRes(_) => pick := HandleReportRes(msg);
      case FinalEcho => HandleFinalEcho(msg, known);
      case ProgressRound => HandleProgressRound(msg);
      case _ => sent := DispatchFollower(msg, known, observed);
    }

    /** The decoder, the gate and what is behind it. */
    method Receive(msg: Message, known: set<string>, observed: Option<seq<Response>>)
      returns (sent: seq<Outgoing>, ghost pick: Option<FinalReport>)
      requires !stopped
      modifies this
      ensures Enabled(env, old(State()), Event.Receive(msg, known, observed, pick))
      ensures (State(), sent) == Step(env, old(State()), Event.Receive(msg, known, observed, pick))
    {
      sent, pick := [], None;
      if !msg.Tagged? || !Decoded(env.wiring, msg.body) {
        return;
      }
      if !ready || !InPhaseTable(env.wiring, msg.body) || msg.tag != CurrentTag() {
        return;
      }
      history := history + [Admitted(msg, known)];
      sent, pick := Dispatch(msg, known, observed);
    }

    /** `ProcessMessage`: nothing happens unless the engine is ready and the message passes the gate. */
    method ProcessMessage(msg: Message, known: set<string>, observed: Option<seq<Response>>)
      returns (sent: seq<Outgoing>, ghost pick: Option<FinalReport>)
      requires Valid() && !stopped
      modifies this
      ensures Valid() && Next(env, old(State()), Event.Receive(msg, known, observed, pick), State())
      ensures sent == Step(env, old(State()), Event.Receive(msg, known, observed, pick)).1
    {
      ghost var before := State();
      sent, pick := Receive(msg, known, observed);
      NextKeeps(env, before, Event.Receive(msg, known, observed, pick), State());
    }

    method HandleObserve() returns (sent: seq<Outgoing>)
      modifies this`leaderState
      ensures sent == [ToAll(TagOf(State()), ObserveReq(Schedule.Bucket(jobSchedule, curRound)))]
      ensures leaderState == old(leaderState).(phase := PhaseObserve)
    {
      sent := [ToAll(CurrentTag(), ObserveReq(Schedule.Bucket(jobSchedule, curRound)))];
      leaderState := leaderState.(phase := PhaseObserve);
    }

    /** The grace timer fires. */
    method HandleGrace()
      modifies this`leaderState, this`pending
      ensures leaderState == old(leaderState).(phase := PhaseReport)
      ensures pending == old(pending) + multiset{PhaseReport}
    {
      leaderState := leaderState.(phase := PhaseReport);
      pending := pending + multiset{PhaseReport};
    }

    method HandleReport() returns (sent: seq<Outgoing>)
      ensures var doc := Encode(leaderState.observations);
              sent == [ToAll(TagOf(State()), ObservationMap(doc)), ToAll(TagOf(State()), ReportReq(doc))]
    {
      var data := Marshalled(leaderState.observations);
      sent := [ToAll(CurrentTag(), ObservationMap(data)), ToAll(CurrentTag(), ReportReq(data))];
    }

    method HandleFinal() returns (sent: seq<Outgoing>)
      ensures sent == match leaderState.finalReport
                      case None => []
                      case Some(fin) => [ToAll(TagOf(State()), BroadcastFinal(fin))]
    {
      sent := [];
      if leaderState.finalReport.Some? {
        sent := [ToAll(CurrentTag(), BroadcastFinal(leaderState.finalReport.value))];
      }
    }

    method HandleTransmit() returns (sent: seq<Outgoing>)
      modifies this`owed, this`stopped
      ensures (State(), sent) == OnTransmit(old(State()))
    {
      sent := [];
      if leaderState.finalReport.None? {
        stopped := true;
      } else if leaderState.finalReport.value.report.Keys <= jobRegistry {
        sent := [ToAll(CurrentTag(), ProgressRound)];
        owed := owed + 1;
      }
    }

    method RunPhase(p: Phase) returns (sent: seq<Outgoing>)
      modifies this`pending, this`leaderState, this`owed, this`stopped
      ensures (State(), sent) == OnPhase(old(State()), p)
    {
      sent := [];
      match p
      case PhaseNil =>
      case PhaseObserve => sent := HandleObserve();
      case PhaseGrace => HandleGrace();
      case PhaseReport => sent := HandleReport();
      case PhaseFinal => sent := HandleFinal();
      case PhaseTransmit => sent := HandleTransmit();
    }

    /** Runs the handler of a signalled phase. */
    method HandlePhase(p: Phase) returns (sent: seq<Outgoing>)
      requires Valid() && p in pending
      modifies this`pending, this`leaderState, this`owed, this`stopped
      ensures Valid() && (State(), sent) == OnHandle(old(State()), p)
    {
      HandleKeeps(env, State(), p);
      pending := pending - multiset{p};
      sent := RunPhase(p);
    }

    method ResetRound()
      requires owed > 0
      modifies this`owed, this`leaderState, this`cacheLayer, this`curRound
      ensures State() == OnProgress(old(State()))
    {
      owed := owed - 1;
      if config.id == config.leader {
        leaderState := LeaderState(map[], Some(EMPTY_FINAL), [PLACEHOLDER], 0, PhaseObserve);
      } else {
        cacheLayer := EMPTY_CACHE;
      }
      curRound := curRound + 1;
    }

    /** `progressToNextRound`: afterwards the leader holds nothing of the old round and keeps its cache, any other node
        the other way round, and no message belongs to the new round yet. */
    method ProgressToNextRound()
      requires Valid() && owed > 0
      modifies this`owed, this`leaderState, this`cacheLayer, this`curRound
      ensures Valid() && State() == OnProgress(old(State()))
      ensures curRound == old(curRound) + 1 && Current(State()) == []
      ensures LeadsItself(State()) ==> leaderState.reports == [PLACEHOLDER] && leaderState.observations == map[]
                                       && leaderState.attestations == 0 && cacheLayer == old(cacheLayer)
      ensures !LeadsItself(State()) ==> cacheLayer == EMPTY_CACHE && leaderState == old(leaderState)
    {
      ghost var before := State();
      ResetRound();
      ProgressKeeps(env, before);
    }
  }
}
