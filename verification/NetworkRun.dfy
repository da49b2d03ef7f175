/** A run of two nodes in which the hypotheses of agreement in the network are met and something is reported. */
module NetworkRun {
  import opened Basics
  import opened Assembler
  import opened Observations
  import opened Quorum
  import opened Consensus
  import opened Rounds
  import opened Network
  import opened Steps
  import Agreement
  import Schedule

  const LEADER: Config := Config(true, 0, "L", "L", 2, 0)
  const FOLLOWER: Config := Config(false, 0, "L", "F", 2, 0)
  const ROUND: Tag := Tag(0, INIT_ROUND, "L")

  ghost predicate Reached(env: Env, net: Net) {
    exists nets, ids, evs :: IsNetRun(env, nets, ids, evs) && nets[|evs|] == net
  }

  lemma Then(env: Env, net: Net, id: string, e: Event)
    requires Reached(env, net) && Possible(env, net, id, e)
    ensures Reached(env, Moved(env, net, id, e))
  {
    var nets: seq<Net>, ids: seq<string>, evs :| IsNetRun(env, nets, ids, evs) && nets[|evs|] == net;
    var nets', ids', evs' := nets + [Moved(env, net, id, e)], ids + [id], evs + [e];
    forall k | 0 <= k < |evs'| ensures NetNext(env, nets'[k], ids'[k], evs'[k], nets'[k + 1]) {
      if k < |evs| {
        assert NetNext(env, nets[k], ids[k], evs[k], nets[k + 1]);
      }
    }
    assert IsNetRun(env, nets', ids', evs');
  }

  /** The node is at work in the first round. */
  predicate AtWork(s: Node, config: Config) {
    s.config == config && s.ready && !s.stopped && s.curRound == INIT_ROUND
  }

  /** Both are at work, the leader holds the observations `om` and no report, and nobody has been asked for any. */
  ghost predicate Observing(net: Net, om: ObsMap, responses: nat) {
    && net.nodes.Keys == {"L", "F"} && AtWork(net.nodes["L"], LEADER) && AtWork(net.nodes["F"], FOLLOWER)
    && net.nodes["L"].ls.reports == [PLACEHOLDER] && net.nodes["L"].ls.observations == om
    && net.nodes["L"].cache.observeN == responses
    && (forall m :: m in net.delivered && m.Tagged? ==> !m.body.ReportReq?)
    && (forall x :: x in net.pool && !x.out.NewEpoch? ==> !x.out.body.ReportReq?)
  }

  /** The jobs of the first round when the leader starts with `queue`. */
  function FirstJobs(queue: seq<JobInfo>): seq<JobInfo> {
    Schedule.Bucket(Schedule.Scheduled(map[], queue), 1)
  }

  lemma Started(env: Env, queue: seq<JobInfo>) returns (net: Net)
    ensures Reached(env, net) && Observing(net, map[], 0)
    ensures PhaseObserve in net.nodes["L"].pending
    ensures net.nodes["L"].jobSchedule == Schedule.Scheduled(map[], queue)
  {
    var initial := Net(map["L" := FirstNode(LEADER), "F" := FirstNode(FOLLOWER)], {}, {});
    assert IsNetRun(env, [initial], [], []);
    var one := Moved(env, initial, "L", Event.Start({}, queue));
    Then(env, initial, "L", Event.Start({}, queue));
    Then(env, one, "F", Event.Start({}, []));
    net := Moved(env, one, "F", Event.Start({}, []));
  }

  /** The leader announces the jobs of the round, and the follower sends it what it observed. */
  lemma Observed(env: Env, net: Net, queue: seq<JobInfo>, rs: seq<Response>, sig: Signature) returns (net': Net)
    requires Reached(env, net) && Observing(net, map[], 0) && PhaseObserve in net.nodes["L"].pending
    requires net.nodes["L"].jobSchedule == Schedule.Scheduled(map[], queue) && AllDirect(FirstJobs(queue))
    ensures Reached(env, net') && Observing(net', map[], 0)
    ensures Sent("F", ToLeader("L", ROUND, ObserveResp(rs))) in net'.pool
  {
    var mid := Moved(env, net, "L", Handle(PhaseObserve));
    Then(env, net, "L", Handle(PhaseObserve));
    var announced := ToAll(ROUND, ObserveReq(FirstJobs(queue)));
    assert Step(env, net.nodes["L"], Handle(PhaseObserve)).1 == [announced];
    assert announced in [announced];
    assert Carries(announced, ROUND, ObserveReq(FirstJobs(queue)));
    net' := FollowerObserves(env, mid, queue, rs, sig);
  }

  lemma FollowerObserves(env: Env, net: Net, queue: seq<JobInfo>, rs: seq<Response>, sig: Signature)
    returns (net': Net)
    requires Reached(env, net) && Observing(net, map[], 0) && AllDirect(FirstJobs(queue))
    requires WasSent(net.pool, "L", ROUND, ObserveReq(FirstJobs(queue)))
    ensures Reached(env, net') && Observing(net', map[], 0)
    ensures Sent("F", ToLeader("L", ROUND, ObserveResp(rs))) in net'.pool
  {
    var m := Tagged("L", ROUND, ObserveReq(FirstJobs(queue)), sig);
    var e := Receive(m, {}, Some(rs), None);
    Then(env, net, "F", e);
    net' := Moved(env, net, "F", e);
    ObserveReqAnswered(env, net.nodes["F"], m, {}, Some(rs), None);
    StaysAtWork(env, net.nodes["F"], m, rs);
    var answer := ToLeader("L", ROUND, ObserveResp(rs));
    assert Step(env, net.nodes["F"], e).1 == [answer];
    assert answer in [answer];
  }

  lemma StaysAtWork(env: Env, s: Node, m: Message, rs: seq<Response>)
    requires AtWork(s, FOLLOWER) && m.Tagged? && m.body.ObserveReq? && m.tag == ROUND
    ensures AtWork(OnReceive(env, s, m, {}, Some(rs), None).0, FOLLOWER)
  {
  }

  /** The follower's response as it arrives at the leader. */
  function Responding(sig: Signature, rs: seq<Response>): Message {
    Tagged("F", ROUND, ObserveResp(rs), sig)
  }

  lemma Responded(env: Env, net: Net, om: ObsMap, k: nat, rs: seq<Response>, sig: Signature) returns (net': Net)
    requires Reached(env, net) && Observing(net, om, k) && Verified(env, Responding(sig, rs))
    requires Sent("F", ToLeader("L", ROUND, ObserveResp(rs))) in net.pool
    ensures Reached(env, net') && Observing(net', om["F" := Grouped(rs)], k + 1)
    ensures k >= 1 ==> PhaseGrace in net'.nodes["L"].pending
    ensures Sent("F", ToLeader("L", ROUND, ObserveResp(rs))) in net'.pool
  {
    var m := Responding(sig, rs);
    assert Carries(ToLeader("L", ROUND, ObserveResp(rs)), ROUND, m.body);
    var e := Receive(m, {}, None, None);
    Then(env, net, "L", e);
    net' := Moved(env, net, "L", e);
    ResponseJoins(env, net.nodes["L"], om, k, rs, sig);
    assert net'.nodes["L"] == OnReceive(env, net.nodes["L"], m, {}, None, None).0;
  }

  lemma ResponseJoins(env: Env, s: Node, om: ObsMap, k: nat, rs: seq<Response>, sig: Signature)
    requires AtWork(s, LEADER) && s.ls.observations == om && s.cache.observeN == k
    requires Verified(env, Responding(sig, rs))
    ensures var step := OnReceive(env, s, Responding(sig, rs), {}, None, None);
            && AtWork(step.0, LEADER) && step.1 == [] && step.0.ls.reports == s.ls.reports
            && step.0.ls.observations == om["F" := Grouped(rs)] && step.0.cache.observeN == k + 1
            && (k >= 1 ==> PhaseGrace in step.0.pending)
  {
  }

  /** The leader has broadcast `om` and its request once. */
  ghost predicate Requested(net: Net, om: ObsMap) {
    && net.nodes.Keys == {"L", "F"} && AtWork(net.nodes["L"], LEADER) && AtWork(net.nodes["F"], FOLLOWER)
    && net.nodes["L"].ls.reports == [PLACEHOLDER]
    && (forall m :: m in net.delivered && m.Tagged? && m.body.ReportReq? ==> m.from == "L")
    && (forall x :: x in net.pool && !x.out.NewEpoch? && x.out.body.ReportReq? ==> x.out.body.doc == Encode(om))
    && Sent("L", ToAll(ROUND, ObservationMap(Encode(om)))) in net.pool
    && Sent("L", ToAll(ROUND, ReportReq(Encode(om)))) in net.pool
  }

  lemma GraceThenReport(env: Env, net: Net, om: ObsMap, k: nat) returns (net': Net)
    requires Reached(env, net) && Observing(net, om, k) && PhaseGrace in net.nodes["L"].pending
    ensures Reached(env, net') && Requested(net', om)
  {
    var mid := Moved(env, net, "L", Handle(PhaseGrace));
    Then(env, net, "L", Handle(PhaseGrace));
    assert PhaseReport in mid.nodes["L"].pending;
    Then(env, mid, "L", Handle(PhaseReport));
    net' := Moved(env, mid, "L", Handle(PhaseReport));
    var doc := Encode(om);
    var sent := [ToAll(ROUND, ObservationMap(doc)), ToAll(ROUND, ReportReq(doc))];
    assert Step(env, mid.nodes["L"], Handle(PhaseReport)).1 == sent;
    assert sent[0] in sent && sent[1] in sent;
  }

  lemma FollowerAnswers(env: Env, net: Net, om: ObsMap, sig: Signature) returns (net': Net)
    requires Reached(env, net) && Requested(net, om)
    ensures Reached(env, net') && Requested(net', om)
    ensures Sent("F", ToLeader("L", ROUND, ReportRes(JobReportsOf(env, om)))) in net'.pool
  {
    var doc := Encode(om);
    var shown := Receive(Tagged("L", ROUND, ObservationMap(doc), sig), {}, None, None);
    var asked := Receive(Tagged("L", ROUND, ReportReq(doc), sig), {}, None, None);
    assert Carries(ToAll(ROUND, ObservationMap(doc)), ROUND, ObservationMap(doc));
    assert Carries(ToAll(ROUND, ReportReq(doc)), ROUND, ReportReq(doc));
    var mid := Moved(env, net, "F", shown);
    Then(env, net, "F", shown);
    MapThenRequest(env, net.nodes["F"], om, sig);
    assert mid.nodes["F"] == OnReceive(env, net.nodes["F"], shown.msg, {}, None, None).0;
    assert CanArrive(mid, asked.msg);
    Then(env, mid, "F", asked);
    net' := Moved(env, mid, "F", asked);
    var answer := ToLeader("L", ROUND, ReportRes(JobReportsOf(env, om)));
    assert Step(env, mid.nodes["F"], asked).1 == [answer];
    assert answer in [answer];
  }

  lemma MapThenRequest(env: Env, s: Node, om: ObsMap, sig: Signature)
    requires AtWork(s, FOLLOWER)
    ensures var doc := Encode(om);
            var shown := OnReceive(env, s, Tagged("L", ROUND, ObservationMap(doc), sig), {}, None, None);
            var asked := OnReceive(env, shown.0, Tagged("L", ROUND, ReportReq(doc), sig), {}, None, None);
            && AtWork(shown.0, FOLLOWER) && shown.1 == [] && AtWork(asked.0, FOLLOWER)
            && asked.1 == [ToLeader("L", ROUND, ReportRes(JobReportsOf(env, om)))]
  {
    RoundTrip(om);
  }

  /** For any jobs of the first round that can be instantiated, and anything the follower observes of them, there is a
      run of the network that meets all hypotheses of `NetworkAgreement`: the leader announces the jobs, the follower
      responds, gets the leader's map back and reports, and the run ends with the reported values as final report. */
  lemma AgreementHappens(env: Env, queue: seq<JobInfo>, rs: seq<Response>, sig: Signature) returns (net: Net)
    requires AllDirect(FirstJobs(queue))
    requires Verified(env, Responding(sig, rs))
    requires var om := map["F" := Grouped(rs)];
             Verified(env, Tagged("F", ROUND, ReportRes(JobReportsOf(env, om)), sig))
    ensures var om := map["F" := Grouped(rs)];
            && Reached(env, net) && net.nodes.Keys == {"L", "F"} && AtWork(net.nodes["L"], LEADER)
            && LeaderAsks(net, "L", ROUND) && OneMapAsked(net, "L", ROUND) && AskedAbout(net, "L", ROUND, om)
            && net.nodes["L"].ls.reports == [PLACEHOLDER, Report("F", JobReportsOf(env, om), sig)]
            && Agreement.ReportedBy(net.nodes["L"]) == Encodable(JobReportsOf(env, om), env.digest)
  {
    var om := map["F" := Grouped(rs)];
    net := RespondedTwice(env, queue, rs, sig);
    net := GraceThenReport(env, net, om, 2);
    net := FollowerAnswers(env, net, om, sig);
    net := ReportCollected(env, net, om, sig);
    forall other | AskedAbout(net, "L", ROUND, other) ensures other == om {
      RoundTrip(other);
      RoundTrip(om);
    }
    Concluded(env, net, om, sig);
  }

  lemma RespondedTwice(env: Env, queue: seq<JobInfo>, rs: seq<Response>, sig: Signature) returns (net: Net)
    requires AllDirect(FirstJobs(queue)) && Verified(env, Responding(sig, rs))
    ensures Reached(env, net) && Observing(net, map["F" := Grouped(rs)], 2)
    ensures PhaseGrace in net.nodes["L"].pending
  {
    var om := map["F" := Grouped(rs)];
    net := Started(env, queue);
    net := Observed(env, net, queue, rs, sig);
    net := Responded(env, net, map[], 0, rs, sig);
    assert map[]["F" := Grouped(rs)] == om;
    net := Responded(env, net, om, 1, rs, sig);
    assert om["F" := Grouped(rs)] == om;
  }

  lemma Concluded(env: Env, net: Net, om: ObsMap, sig: Signature)
    requires Reached(env, net) && net.nodes.Keys == {"L", "F"} && AtWork(net.nodes["L"], LEADER)
    requires LeaderAsks(net, "L", ROUND) && OneMapAsked(net, "L", ROUND) && AskedAbout(net, "L", ROUND, om)
    requires net.nodes["L"].ls.reports == [PLACEHOLDER, Report("F", JobReportsOf(env, om), sig)]
    ensures Agreement.ReportedBy(net.nodes["L"]) == Encodable(JobReportsOf(env, om), env.digest)
  {
    var nets: seq<Net>, ids, evs :| IsNetRun(env, nets, ids, evs) && nets[|evs|] == net;
    var s, r := net.nodes["L"], Report("F", JobReportsOf(env, om), sig);
    assert s.ls.reports[1..] == [r];
    assert [r][..0] == [];
    assert FaultyReports([r], {}) == 0;
    NetworkAgreement(env, nets, ids, evs, |evs|, "L", om, {});
  }

  lemma ReportTaken(env: Env, s: Node, m: Message, pick: Option<FinalReport>)
    requires AtWork(s, LEADER) && m.Tagged? && m.tag == ROUND && m.body.ReportRes? && Verified(env, m)
    ensures var step := OnReceive(env, s, m, {}, None, pick);
            AtWork(step.0, LEADER) && step.0.ls.reports == s.ls.reports + [ReportOf(m)] && step.1 == []
  {
  }

  lemma ReportCollected(env: Env, net: Net, om: ObsMap, sig: Signature) returns (net': Net)
    requires Reached(env, net) && Requested(net, om)
    requires Sent("F", ToLeader("L", ROUND, ReportRes(JobReportsOf(env, om)))) in net.pool
    requires Verified(env, Tagged("F", ROUND, ReportRes(JobReportsOf(env, om)), sig))
    ensures Reached(env, net') && net'.nodes.Keys == {"L", "F"} && AtWork(net'.nodes["L"], LEADER)
    ensures net'.nodes["L"].ls.reports == [PLACEHOLDER, Report("F", JobReportsOf(env, om), sig)]
    ensures forall m :: m in net'.delivered && m.Tagged? && m.body.ReportReq? ==> m.from == "L"
    ensures forall x :: x in net'.pool && !x.out.NewEpoch? && x.out.body.ReportReq? ==> x.out.body.doc == Encode(om)
    ensures AskedAbout(net', "L", ROUND, om)
  {
    var m := Tagged("F", ROUND, ReportRes(JobReportsOf(env, om)), sig);
    var s := net.nodes["L"];
    assert Carries(ToLeader("L", ROUND, m.body), m.tag, m.body);
    var pick := AssemblyExists(s.ls.reports + [ReportOf(m)], 1, env.digest);
    var e := Receive(m, {}, None, pick);
    Agreement.ReceivesReport(env, s, m, pick);
    Then(env, net, "L", e);
    net' := Moved(env, net, "L", e);
    ReportTaken(env, s, m, pick);
    assert net'.pool == net.pool && net'.delivered == net.delivered + {m};
    var request := ToAll(ROUND, ReportReq(Encode(om)));
    assert Carries(request, ROUND, request.body);
  }
}
