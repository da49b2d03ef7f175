/** How far runs get: which wirings let a node leave its first round, and how often a leader announces jobs. */
module Progress {
  import opened Basics
  import opened Assembler
  import opened Quorum
  import opened Consensus
  import opened Rounds
  import opened RoundSafety
  import opened Agreement
  import Schedule

  // ---- Leaving the first round ----

  /** Unless the wiring lets an echo be counted or a PROGRESS-ROUND be obeyed, no run ever counts an echo, signals
      transmission or leaves the first round; the wiring as written does not. */
  lemma NeverAdvances(env: Env, config: Config, states: seq<Node>, evs: seq<Event>, i: nat)
    requires IsRun(env, config, states, evs) && i < |states| && !LetsAdvance(env.wiring)
    ensures Stuck(states[i])
  {
    RunsKeepInvariant(env, config, states, evs, i);
  }

  /** A run continued by one more round change. */
  lemma ThenProgress(env: Env, config: Config, states: seq<Node>, evs: seq<Event>)
    returns (states': seq<Node>, evs': seq<Event>)
    requires IsRun(env, config, states, evs) && !states[|evs|].stopped && states[|evs|].owed > 0
    ensures IsRun(env, config, states', evs') && states'[|evs'|].curRound == states[|evs|].curRound + 1
  {
    var s := states[|evs|];
    ExtendRun(env, config, states, evs, Event.Progress, OnProgress(s));
    states', evs' := states + [OnProgress(s)], evs + [Event.Progress];
  }

  /** Where decoder and gate let PROGRESS-ROUND through, one that verifies for the leader takes a node to the second
      round. */
  lemma ProgressMessageAdvances(env: Env, m: Message) returns (config: Config, states: seq<Node>, evs: seq<Event>)
    requires env.wiring.progressInTable && env.wiring.decodesProgress
    requires m.Tagged? && m.tag == Tag(0, INIT_ROUND, "L") && m.body.ProgressRound?
    requires env.isKey("L") && env.verify("L", m.tag, m.body, m.sig)
    ensures IsRun(env, config, states, evs) && states[|evs|].curRound == INIT_ROUND + 1
  {
    config, states, evs := StartedRun(env, 1, {});
    var s := states[|evs|];
    var e, s' := Receive(m, {}, None, None), OnProgressRound(env, Recorded(s, m, {}), m);
    assert Admits(env, s, m) && OnReceive(env, s, m, {}, None, None).0 == s';
    ExtendRun(env, config, states, evs, e, s');
    states, evs := ThenProgress(env, config, states + [s'], evs + [e]);
  }

  /** `m` is a verified echo for the first round of leader "L". */
  ghost predicate IsEcho(env: Env, m: Message) {
    m.Tagged? && m.tag == Tag(0, INIT_ROUND, "L") && m.body.FinalEcho? && Verified(env, m)
  }

  /** The leader "L" of a committee of `n`, in its first round, with `k` echoes counted and final report `fin`. */
  ghost predicate Echoed(s: Node, n: nat, registry: set<string>, k: nat, fin: Option<FinalReport>) {
    && s.ready && !s.stopped && s.curRound == INIT_ROUND && s.config == Config(true, 0, "L", "L", n, FaultBound(n))
    && s.registry == registry && s.ls.attestations == k && s.ls.finalReport == fin
    && (k >= s.config.f + 1 ==> PhaseTransmit in s.pending)
  }

  lemma CollectEcho(env: Env, s: Node, n: nat, registry: set<string>, k: nat, fin: Option<FinalReport>, m: Message)
    returns (e: Event, s': Node)
    requires env.wiring.peerFlagSet && env.wiring.decodesEcho && Echoed(s, n, registry, k, fin) && IsEcho(env, m)
    ensures Next(env, s, e, s') && Echoed(s', n, registry, k + 1, fin)
  {
    e, s' := Receive(m, {m.from}, None, None), OnFinalEcho(env, Recorded(s, m, {m.from}), m, {m.from});
    assert Admits(env, s, m) && OnReceive(env, s, m, {m.from}, None, None).0 == s';
  }

  /** Any verified reports on which the honest senders agree, enough for n, followed by any verified echoes. */
  lemma {:induction false} RunWithEchoes(env: Env, n: nat, honest: JobReports, faulty: set<string>, got: seq<Report>,
                                         echoes: seq<Message>)
    returns (config: Config, states: seq<Node>, evs: seq<Event>, fin: Option<FinalReport>)
    requires env.wiring.peerFlagSet && env.wiring.decodesEcho
    requires (forall r :: r in got ==> Verified(env, Bringing(r))) && FullGot(n, honest, faulty, got, env.digest)
    requires forall m :: m in echoes ==> IsEcho(env, m)
    ensures IsRun(env, config, states, evs) && Echoed(states[|evs|], n, honest.Keys, |echoes|, fin)
    ensures fin.Some? && fin.value.report.Keys <= honest.Keys
  {
    if echoes == [] {
      config, states, evs := RunWithReports(env, n, honest.Keys, got);
      fin := states[|evs|].ls.finalReport;
      CollectedIsFinal(env, config, states, evs, n, honest, faulty, got);
    } else {
      var front, m := echoes[..|echoes| - 1], echoes[|echoes| - 1];
      config, states, evs, fin := RunWithEchoes(env, n, honest, faulty, got, front);
      var e, s' := CollectEcho(env, states[|evs|], n, honest.Keys, |front|, fin, m);
      ExtendRun(env, config, states, evs, e, s');
      states, evs := states + [s'], evs + [e];
    }
  }

  lemma ThenTransmit(env: Env, config: Config, states: seq<Node>, evs: seq<Event>)
    returns (states': seq<Node>, evs': seq<Event>)
    requires IsRun(env, config, states, evs) && !states[|evs|].stopped && PhaseTransmit in states[|evs|].pending
    requires states[|evs|].ls.finalReport.Some? && ReportedBy(states[|evs|]).Keys <= states[|evs|].registry
    ensures IsRun(env, config, states', evs') && states'[|evs'|].curRound == states[|evs|].curRound + 1
  {
    var s := states[|evs|];
    var s' := OnHandle(s, PhaseTransmit).0;
    ExtendRun(env, config, states, evs, Handle(PhaseTransmit), s');
    states', evs' := ThenProgress(env, config, states + [s'], evs + [Handle(PhaseTransmit)]);
  }

  /** Reports that are enough for n, at most f from faulty senders and the others carrying `honest`, which has something
      to report. */
  ghost predicate FullGot(n: nat, honest: JobReports, faulty: set<string>, got: seq<Report>, digest: Hasher) {
    && |got| >= 1 && |got| + 1 >= n && FaultyReports(got, faulty) <= FaultBound(n)
    && HonestAgree(got, faulty, honest) && NoForgery(got, honest, digest) && Encodable(honest, digest) != map[]
  }

  lemma CollectedIsFinal(env: Env, config: Config, states: seq<Node>, evs: seq<Event>, n: nat, honest: JobReports,
                         faulty: set<string>, got: seq<Report>)
    requires IsRun(env, config, states, evs) && Collecting(states[|evs|], n, honest.Keys, got)
    requires FullGot(n, honest, faulty, got, env.digest)
    ensures states[|evs|].ls.finalReport.Some? && ReportedBy(states[|evs|]).Keys <= honest.Keys
  {
    var s := states[|evs|];
    assert s.ls.reports[1..] == got;
    RunsKeepInvariant(env, config, states, evs, |evs|);
    FinalFollowsAgreement(env, s, honest, faulty);
  }

  lemma SoleReport(r: Report, digest: Hasher)
    requires Encodable(r.reports, digest) != map[]
    ensures FullGot(1, r.reports, {}, [r], digest)
  {
    assert [r][..0] == [];
    assert FaultyReports([r], {}) == 0;
  }

  /** Where echoes are decoded and the peer flag is set, a full round of verified reports and f + 1 verified echoes take
      the leader of a committee of any size to the second round. */
  lemma EchoesAdvance(env: Env, n: nat, honest: JobReports, faulty: set<string>, got: seq<Report>, echoes: seq<Message>)
    returns (config: Config, states: seq<Node>, evs: seq<Event>)
    requires env.wiring.peerFlagSet && env.wiring.decodesEcho
    requires (forall r :: r in got ==> Verified(env, Bringing(r))) && FullGot(n, honest, faulty, got, env.digest)
    requires |echoes| >= FaultBound(n) + 1 && forall m :: m in echoes ==> IsEcho(env, m)
    ensures IsRun(env, config, states, evs) && states[|evs|].curRound == INIT_ROUND + 1
  {
    var fin;
    config, states, evs, fin := RunWithEchoes(env, n, honest, faulty, got, echoes);
    states, evs := ThenTransmit(env, config, states, evs);
  }

  /** Some run of a node wired like this leaves its first round. */
  ghost predicate CanAdvance(wiring: Wiring) {
    exists env: Env, config, states: seq<Node>, evs ::
      env.wiring == wiring && IsRun(env, config, states, evs) && states[|evs|].curRound > INIT_ROUND
  }

  /** An environment in which every key parses and every signature verifies. */
  function Trusting(wiring: Wiring): Env {
    var job := JobSpec(DIRECT_REQUEST, NUMERIC);
    Env(_ => true, (_, _, _, _) => true, _ => Some([]), _ => [], _ => None, _ => job, wiring)
  }

  /** Exactly which wirings let a node leave its first round: those that decode and admit PROGRESS-ROUND, or decode
      FINAL-ECHO and set the peer flag. */
  lemma AdvancesIff(wiring: Wiring)
    ensures CanAdvance(wiring) <==> LetsAdvance(wiring)
    ensures !LetsAdvance(AS_WRITTEN)
  {
    if !LetsAdvance(wiring) {
      forall env: Env, config, states: seq<Node>, evs | env.wiring == wiring && IsRun(env, config, states, evs)
        ensures states[|evs|].curRound == INIT_ROUND
      {
        NeverAdvances(env, config, states, evs, |evs|);
      }
    } else {
      var env, sig, tag := Trusting(wiring), Signature(0, 0), Tag(0, INIT_ROUND, "L");
      if wiring.progressInTable && wiring.decodesProgress {
        var config, states, evs := ProgressMessageAdvances(env, Tagged("L", tag, ProgressRound, sig));
      } else {
        var reports: JobReports := map["job" := Null];
        assert "job" in Encodable(reports, env.digest);
        SoleReport(Report("F", reports, sig), env.digest);
        var config, states, evs :=
          EchoesAdvance(env, 1, reports, {}, [Report("F", reports, sig)], [Tagged("F", tag, FinalEcho, sig)]);
      }
    }
  }

  // ---- Announcing jobs ----

  /** The observe phases handled. */
  function ObserveHandled(evs: seq<Event>): nat {
    if evs == [] then 0 else
      ObserveHandled(evs[..|evs| - 1]) + if evs[|evs| - 1] == Handle(PhaseObserve) then 1 else 0
  }

  /** The starts, event `k` happening in `states[k]`, of the node as leader. */
  function LeaderStarts(states: seq<Node>, evs: seq<Event>): nat
    requires |states| >= |evs|
  {
    if evs == [] then 0 else
      var last := |evs| - 1;
      LeaderStarts(states, evs[..last]) + if evs[last].Start? && states[last].config.isLeader then 1 else 0
  }

  lemma MessageSignals(env: Env, s: Node, m: Message, known: set<string>, observed: Option<seq<Response>>,
                       pick: Option<FinalReport>)
    requires m.Tagged?
    ensures OnMessage(env, s, m, known, observed, pick).0.pending[PhaseObserve] == s.pending[PhaseObserve]
  {
  }

  lemma HandleSignals(s: Node, phase: Phase)
    requires phase in s.pending
    ensures OnHandle(s, phase).0.pending[PhaseObserve] + (if phase == PhaseObserve then 1 else 0)
            == s.pending[PhaseObserve]
  {
  }

  lemma StepSignals(env: Env, s: Node, e: Event)
    requires Enabled(env, s, e)
    ensures Step(env, s, e).0.pending[PhaseObserve] + (if e == Handle(PhaseObserve) then 1 else 0)
            == s.pending[PhaseObserve] + (if e.Start? && s.config.isLeader then 1 else 0)
  {
    match e
    case Receive(m, known, observed, pick) =>
      if s.ready && Admits(env, s, m) {
        MessageSignals(env, Recorded(s, m, known), m, known, observed, pick);
      }
    case Handle(phase) => HandleSignals(s, phase);
    case _ =>
  }

  /** In any run the observe phase is signalled by the node's starts as leader and by nothing else, in particular by no
      round change: those waiting and those handled are together as many as these starts. */
  lemma {:induction false} ObserveSignals(env: Env, config: Config, states: seq<Node>, evs: seq<Event>, i: nat)
    requires IsRun(env, config, states, evs) && i <= |evs|
    ensures states[i].pending[PhaseObserve] + ObserveHandled(evs[..i]) == LeaderStarts(states, evs[..i])
  {
    if i > 0 {
      ObserveSignals(env, config, states, evs, i - 1);
      assert evs[..i][..i - 1] == evs[..i - 1];
      assert Next(env, states[i - 1], evs[i - 1], states[i]);
      StepSignals(env, states[i - 1], evs[i - 1]);
    }
  }

  ghost predicate Announces(sent: seq<Outgoing>) {
    exists o :: o in sent && o.ToAll? && o.body.ObserveReq?
  }

  /** Jobs are announced by handling an observe phase and by no other step. */
  lemma AnnouncedByHandling(env: Env, s: Node, e: Event)
    requires Enabled(env, s, e)
    ensures Announces(Step(env, s, e).1) <==> e == Handle(PhaseObserve)
  {
    match e
    case Receive(m, known, observed, pick) =>
      if s.ready && Admits(env, s, m) {
        RepliesDoNotAnnounce(env, Recorded(s, m, known), m, known, observed, pick);
      }
    case Handle(phase) =>
      if phase == PhaseObserve {
        assert OnHandle(s, phase).1[0].body.ObserveReq?;
      }
    case _ =>
  }

  lemma RepliesDoNotAnnounce(env: Env, s: Node, m: Message, known: set<string>, observed: Option<seq<Response>>,
                             pick: Option<FinalReport>)
    requires m.Tagged?
    ensures !Announces(OnMessage(env, s, m, known, observed, pick).1)
  {
  }

  /** The node was initialised right before event `j`, and not started from there up to event `k`. */
  predicate Unstarted(evs: seq<Event>, j: nat, k: nat) {
    j <= k <= |evs| && (j == 0 || evs[j - 1].Init?) && forall l :: j <= l < k ==> !evs[l].Start?
  }

  lemma MessageKeepsSchedule(env: Env, s: Node, m: Message, known: set<string>, observed: Option<seq<Response>>,
                             pick: Option<FinalReport>)
    requires m.Tagged?
    ensures OnMessage(env, s, m, known, observed, pick).0.jobSchedule == s.jobSchedule
  {
  }

  lemma StepKeepsSchedule(env: Env, s: Node, e: Event)
    requires Enabled(env, s, e) && !e.Start?
    ensures Step(env, s, e).0.jobSchedule == if e.Init? then map[] else s.jobSchedule
  {
    match e
    case Receive(m, known, observed, pick) =>
      if s.ready && Admits(env, s, m) {
        MessageKeepsSchedule(env, Recorded(s, m, known), m, known, observed, pick);
      }
    case _ =>
  }

  lemma {:induction false} NoScheduleYet(env: Env, config: Config, states: seq<Node>, evs: seq<Event>, j: nat, k: nat)
    requires IsRun(env, config, states, evs) && Unstarted(evs, j, k)
    ensures states[k].jobSchedule == map[]
  {
    if k > 0 {
      assert Next(env, states[k - 1], evs[k - 1], states[k]);
      if j < k {
        NoScheduleYet(env, config, states, evs, j, k - 1);
      }
      StepKeepsSchedule(env, states[k - 1], evs[k - 1]);
    }
  }

  /** The last start as leader before state `i`, the first since initialisation, was event `k`, with `queue`. */
  ghost predicate StartedWith(states: seq<Node>, evs: seq<Event>, k: nat, i: nat, queue: seq<JobInfo>)
    requires k < i <= |evs| && |states| > |evs|
  {
    && evs[k].Start? && evs[k].queue == queue && states[k].config.isLeader && (exists j: nat :: Unstarted(evs, j, k))
    && forall l :: k < l < i ==> !evs[l].Start? && !evs[l].Init?
  }

  /** Then the schedule is what the queue was dealt to. */
  lemma {:induction false} ScheduleOfStart(env: Env, config: Config, states: seq<Node>, evs: seq<Event>,
                                           k: nat, i: nat, queue: seq<JobInfo>)
    requires IsRun(env, config, states, evs) && k < i <= |evs| && StartedWith(states, evs, k, i, queue)
    ensures states[i].jobSchedule == Schedule.Scheduled(map[], queue)
  {
    assert Next(env, states[i - 1], evs[i - 1], states[i]);
    if k == i - 1 {
      var j: nat :| Unstarted(evs, j, k);
      NoScheduleYet(env, config, states, evs, j, k);
    } else {
      ScheduleOfStart(env, config, states, evs, k, i - 1, queue);
      StepKeepsSchedule(env, states[i - 1], evs[i - 1]);
    }
  }

  /** What handling a waiting observe phase announces in a round of a leader that started with `queue`: the round's
      stretch of the queue, never the first one, and nothing from round 10 on. As no round change signals the phase
      (`ObserveSignals`), that is one stretch a start; without a wiring that lets the node advance it is the second. */
  lemma AnnouncedJobs(env: Env, config: Config, states: seq<Node>, evs: seq<Event>, k: nat, i: nat,
                      queue: seq<JobInfo>)
    requires IsRun(env, config, states, evs) && k < i <= |evs| && StartedWith(states, evs, k, i, queue)
    requires PhaseObserve in states[i].pending
    ensures var b, round := if |queue| >= 20 then |queue| / 10 - 1 else 0, states[i].curRound;
            var jobs := if round < 10 then Stretch(queue, b, round) else [];
            && OnHandle(states[i], PhaseObserve).1 == [ToAll(TagOf(states[i]), ObserveReq(jobs))]
            && round >= 1 && ObserveHandled(evs[..i]) < LeaderStarts(states, evs[..i])
            && (!LetsAdvance(env.wiring) ==> jobs == Stretch(queue, b, 1))
  {
    ObserveSignals(env, config, states, evs, i);
    RoundOf(env, config, states, evs, i);
    ScheduleOfStart(env, config, states, evs, k, i, queue);
    AnnouncedStretch(states[i], queue);
  }

  lemma RoundOf(env: Env, config: Config, states: seq<Node>, evs: seq<Event>, i: nat)
    requires IsRun(env, config, states, evs) && i < |states|
    ensures states[i].curRound >= INIT_ROUND && (!LetsAdvance(env.wiring) ==> states[i].curRound == INIT_ROUND)
  {
    RunsKeepInvariant(env, config, states, evs, i);
  }

  lemma AnnouncedStretch(s: Node, queue: seq<JobInfo>)
    requires PhaseObserve in s.pending && s.curRound >= 1 && s.jobSchedule == Schedule.Scheduled(map[], queue)
    ensures var b := if |queue| >= 20 then |queue| / 10 - 1 else 0;
            var jobs := if s.curRound < 10 then Stretch(queue, b, s.curRound) else [];
            OnHandle(s, PhaseObserve).1 == [ToAll(TagOf(s), ObserveReq(jobs))]
  {
    Schedule.FirstBucketIsSkipped(queue, s.curRound);
  }

  /** Items `round * b` up to the next `b` of the queue, where there are that many. */
  function Stretch(queue: seq<JobInfo>, b: nat, round: nat): seq<JobInfo> {
    if 0 <= round * b && round * b + b <= |queue| then queue[round * b..round * b + b] else []
  }
}
