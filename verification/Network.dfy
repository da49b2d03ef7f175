/** The engines of all nodes that run the program, joined by a network: where the reports that a leader collects come
    from, in every interleaving of all their steps with messages that other senders make up. */
module Network {
  import opened Basics
  import opened Assembler
  import opened Observations
  import opened Quorum
  import opened Consensus
  import opened Rounds
  import opened RoundSafety
  import opened Steps
  import Agreement

  // ---- Joint steps ----

  datatype Sent = Sent(from: string, out: Outgoing)

  /** nodes: the engines that run the program, by server ID; pool: what they ever sent; delivered: what they ever
      received, from one another or from elsewhere. */
  datatype Net = Net(nodes: map<string, Node>, pool: set<Sent>, delivered: set<Message>)

  predicate Carries(out: Outgoing, tag: Tag, body: Body) {
    !out.NewEpoch? && out.tag == tag && out.body == body
  }

  ghost predicate WasSent(pool: set<Sent>, from: string, tag: Tag, body: Body) {
    exists out :: Sent(from, out) in pool && Carries(out, tag, body)
  }

  /** The network hands over what a node sent as often and as late as it likes, and under the IDs of others anything; it
      does not put words into a node's mouth. */
  ghost predicate CanArrive(net: Net, m: Message) {
    m.Tagged? && m.from in net.nodes ==> WasSent(net.pool, m.from, m.tag, m.body)
  }

  function Posted(id: string, sent: seq<Outgoing>): set<Sent> {
    set o | o in sent :: Sent(id, o)
  }

  function Arrived(e: Event): set<Message> {
    if e.Receive? then {e.msg} else {}
  }

  ghost predicate Possible(env: Env, net: Net, id: string, e: Event) {
    && id in net.nodes && Enabled(env, net.nodes[id], e)
    && (e.Receive? ==> CanArrive(net, e.msg))
    && (e.Init? ==> e.config.id == id)
  }

  ghost function Moved(env: Env, net: Net, id: string, e: Event): Net
    requires Possible(env, net, id, e)
  {
    var step := Step(env, net.nodes[id], e);
    Net(net.nodes[id := step.0], net.pool + Posted(id, step.1), net.delivered + Arrived(e))
  }

  ghost predicate NetNext(env: Env, net: Net, id: string, e: Event, net': Net) {
    Possible(env, net, id, e) && net' == Moved(env, net, id, e)
  }

  ghost predicate FreshNet(net: Net) {
    && net.pool == {} && net.delivered == {}
    && forall id :: id in net.nodes ==>
         net.nodes[id].config.id == id && net.nodes[id] == FirstNode(net.nodes[id].config)
  }

  /** The joint states of a network when node `ids[k]` takes step `evs[k]`, in this order. */
  ghost predicate IsNetRun(env: Env, nets: seq<Net>, ids: seq<string>, evs: seq<Event>) {
    && |nets| == |evs| + 1 && |ids| == |evs|
    && FreshNet(nets[0])
    && forall k :: 0 <= k < |evs| ==> NetNext(env, nets[k], ids[k], evs[k], nets[k + 1])
  }

  // ---- What every joint state satisfies ----

  /** `m` asks in the round of `tag` for observations of jobs that can all be instantiated. */
  predicate CallsToObserve(m: Message, tag: Tag) {
    m.Tagged? && m.tag == tag && m.body.ObserveReq? &&
    forall k :: 0 <= k < |m.body.jobs| ==> m.body.jobs[k].jobType == "directrequest" && m.body.jobs[k].templateParses
  }

  /** `m` asks for the reports `reports` in the round of `tag`. */
  ghost predicate Asks(env: Env, m: Message, tag: Tag, reports: JobReports) {
    m.Tagged? && m.tag == tag && m.body.ReportReq? && m.body.doc.Object?
    && reports == JobReportsOf(env, Decode(m.body.doc))
  }

  /** `doc` encodes the observations in some delivered messages with this tag. */
  ghost predicate FromObservations(env: Env, delivered: set<Message>, tag: Tag, doc: Doc) {
    exists h :: OfRound(h, delivered, tag) && doc == Encode(ObservationsIn(env, h))
  }

  ghost predicate OfRound(h: seq<Admitted>, delivered: set<Message>, tag: Tag) {
    forall a :: a in h ==> a.msg in delivered && a.msg.Tagged? && a.msg.tag == tag
  }

  ghost predicate Founded(env: Env, delivered: set<Message>, id: string, out: Outgoing) {
    !out.NewEpoch? ==>
      && (out.body.ObserveResp? ==> exists m :: m in delivered && CallsToObserve(m, out.tag))
      && (out.body.ReportRes? ==> exists m :: m in delivered && Asks(env, m, out.tag, out.body.reports))
      && (out.body.ReportReq? && out.tag.leader == id ==> FromObservations(env, delivered, out.tag, out.body.doc))
  }

  ghost predicate NodeInvariant(env: Env, delivered: set<Message>, id: string, s: Node) {
    Invariant(env, s) && s.config.id == id && forall a :: a in s.history ==> a.msg in delivered
  }

  ghost predicate NetInvariant(env: Env, net: Net) {
    && (forall id :: id in net.nodes ==> NodeInvariant(env, net.delivered, id, net.nodes[id]))
    && (forall m :: m in net.delivered ==> CanArrive(net, m))
    && (forall x :: x in net.pool ==> Founded(env, net.delivered, x.from, x.out))
  }

  lemma FoundedGrows(env: Env, delivered: set<Message>, more: set<Message>, id: string, out: Outgoing)
    requires Founded(env, delivered, id, out)
    ensures Founded(env, delivered + more, id, out)
  {
    if !out.NewEpoch? && out.body.ReportReq? && out.tag.leader == id {
      var h :| OfRound(h, delivered, out.tag) && out.body.doc == Encode(ObservationsIn(env, h));
      assert OfRound(h, delivered + more, out.tag);
    }
  }

  // ---- What one node's step adds ----

  /** Only answering an OBSERVE-REQ sends observations. */
  lemma ResponsesAnswer(env: Env, s: Node, e: Event, out: Outgoing)
    requires Enabled(env, s, e) && out in Step(env, s, e).1 && !out.NewEpoch? && out.body.ObserveResp?
    ensures e.Receive? && CallsToObserve(e.msg, out.tag)
  {
    match e
    case Receive(m, known, observed, pick) =>
      ReplyAsked(env, Recorded(s, m, known), m, known, observed, pick, out);
    case Handle(phase) =>
    case _ =>
  }

  /** Only answering a request for them sends reports. */
  lemma ReportsAnswer(env: Env, s: Node, e: Event, out: Outgoing)
    requires Enabled(env, s, e) && out in Step(env, s, e).1 && !out.NewEpoch? && out.body.ReportRes?
    ensures e.Receive? && Asks(env, e.msg, out.tag, out.body.reports)
  {
    match e
    case Receive(m, known, observed, pick) =>
      ReplyAsked(env, Recorded(s, m, known), m, known, observed, pick, out);
    case Handle(phase) =>
    case _ =>
  }

  lemma ReplyAsked(env: Env, s: Node, m: Message, known: set<string>, observed: Option<seq<Response>>,
                   pick: Option<FinalReport>, out: Outgoing)
    requires m.Tagged? && m.tag == TagOf(s) && out in OnMessage(env, s, m, known, observed, pick).1
    requires !out.NewEpoch?
    ensures !out.body.ReportReq?
    ensures out.body.ReportRes? ==> Asks(env, m, out.tag, out.body.reports)
    ensures out.body.ObserveResp? ==> CallsToObserve(m, out.tag)
  {
    if m.body.ObserveReq? {
      AllCastable(m.body.jobs);
    }
  }

  /** Only handling the report phase sends requests, with the observations held. */
  lemma RequestsHeld(env: Env, s: Node, e: Event, out: Outgoing)
    requires Enabled(env, s, e) && out in Step(env, s, e).1 && !out.NewEpoch? && out.body.ReportReq?
    ensures out.tag == TagOf(s) && out.body.doc == Encode(s.ls.observations)
  {
    match e
    case Receive(m, known, observed, pick) =>
      ReplyAsked(env, Recorded(s, m, known), m, known, observed, pick, out);
    case Handle(phase) =>
    case _ =>
  }

  lemma HistoryStep(env: Env, s: Node, e: Event, a: Admitted)
    requires Enabled(env, s, e) && a in Step(env, s, e).0.history
    ensures a in s.history || (e.Receive? && a.msg == e.msg)
  {
    match e
    case Receive(m, known, observed, pick) =>
      if s.ready && Admits(env, s, m) {
        MessageEffect(env, Recorded(s, m, known), Admitted(m, known), observed, pick);
      }
    case Handle(phase) => HandleFrame(s, phase);
    case _ =>
  }

  lemma SameId(env: Env, s: Node, e: Event)
    requires Enabled(env, s, e) && (e.Init? ==> e.config.id == s.config.id)
    ensures Step(env, s, e).0.config.id == s.config.id
  {
    match e
    case Receive(m, known, observed, pick) =>
      if s.ready && Admits(env, s, m) {
        MessageEffect(env, Recorded(s, m, known), Admitted(m, known), observed, pick);
      }
    case Handle(phase) => HandleFrame(s, phase);
    case _ =>
  }

  lemma NodeKeeps(env: Env, delivered: set<Message>, id: string, s: Node, e: Event)
    requires NodeInvariant(env, delivered, id, s) && Enabled(env, s, e) && (e.Init? ==> e.config.id == id)
    ensures NodeInvariant(env, delivered + Arrived(e), id, Step(env, s, e).0)
  {
    StepKeeps(env, s, e);
    SameId(env, s, e);
    forall a | a in Step(env, s, e).0.history ensures a.msg in delivered + Arrived(e) {
      HistoryStep(env, s, e, a);
    }
  }

  /** What a node holds as observations when it leads itself, it holds from messages of the round. */
  lemma HeldFromRound(env: Env, delivered: set<Message>, id: string, s: Node)
    requires NodeInvariant(env, delivered, id, s) && s.config.leader == id
    ensures FromObservations(env, delivered, TagOf(s), Encode(s.ls.observations))
  {
    forall a | a in Current(s) ensures a.msg in delivered && a.msg.Tagged? && a.msg.tag == TagOf(s) {
      Agreement.WithTagMember(s.history, TagOf(s), a);
    }
    assert OfRound(Current(s), delivered, TagOf(s));
  }

  lemma StepIsFounded(env: Env, delivered: set<Message>, id: string, s: Node, e: Event, out: Outgoing)
    requires NodeInvariant(env, delivered, id, s) && Enabled(env, s, e) && out in Step(env, s, e).1
    ensures Founded(env, delivered + Arrived(e), id, out)
  {
    if !out.NewEpoch? && out.body.ObserveResp? {
      ResponsesAnswer(env, s, e, out);
      assert e.msg in delivered + Arrived(e);
    }
    if !out.NewEpoch? && out.body.ReportRes? {
      ReportsAnswer(env, s, e, out);
      assert e.msg in delivered + Arrived(e);
    }
    if !out.NewEpoch? && out.body.ReportReq? && out.tag.leader == id {
      RequestsHeld(env, s, e, out);
      HeldFromRound(env, delivered, id, s);
      assert Founded(env, delivered, id, out);
      FoundedGrows(env, delivered, Arrived(e), id, out);
    }
  }

  // ---- Preservation ----

  lemma ArrivalsKept(env: Env, net: Net, id: string, e: Event, m: Message)
    requires Possible(env, net, id, e) && m in net.delivered + Arrived(e)
    requires forall x :: x in net.delivered ==> CanArrive(net, x)
    ensures CanArrive(Moved(env, net, id, e), m)
  {
    assert CanArrive(net, m);
    if m.Tagged? && m.from in net.nodes {
      var out :| Sent(m.from, out) in net.pool && Carries(out, m.tag, m.body);
      assert Sent(m.from, out) in Moved(env, net, id, e).pool;
    }
  }

  lemma NetNextKeeps(env: Env, net: Net, id: string, e: Event, net': Net)
    requires NetInvariant(env, net) && NetNext(env, net, id, e, net')
    ensures NetInvariant(env, net')
  {
    forall p | p in net'.nodes ensures NodeInvariant(env, net'.delivered, p, net'.nodes[p]) {
      if p == id {
        NodeKeeps(env, net.delivered, id, net.nodes[id], e);
      }
    }
    forall m | m in net'.delivered ensures CanArrive(net', m) {
      ArrivalsKept(env, net, id, e, m);
    }
    forall x | x in net'.pool ensures Founded(env, net'.delivered, x.from, x.out) {
      if x in net.pool {
        FoundedGrows(env, net.delivered, Arrived(e), x.from, x.out);
      } else {
        StepIsFounded(env, net.delivered, id, net.nodes[id], e, x.out);
      }
    }
  }

  lemma FreshHolds(env: Env, net: Net)
    requires FreshNet(net)
    ensures NetInvariant(env, net)
  {
    forall id | id in net.nodes ensures NodeInvariant(env, net.delivered, id, net.nodes[id]) {
      FirstHolds(env, net.nodes[id].config);
    }
  }

  /** Every joint state of every run of the network satisfies the invariant. */
  lemma {:induction false} NetRunsKeepInvariant(env: Env, nets: seq<Net>, ids: seq<string>, evs: seq<Event>, i: nat)
    requires IsNetRun(env, nets, ids, evs) && i < |nets|
    ensures NetInvariant(env, nets[i])
  {
    if i == 0 {
      FreshHolds(env, nets[0]);
    } else {
      NetRunsKeepInvariant(env, nets, ids, evs, i - 1);
      assert NetNext(env, nets[i - 1], ids[i - 1], evs[i - 1], nets[i]);
      NetNextKeeps(env, nets[i - 1], ids[i - 1], evs[i - 1], nets[i]);
    }
  }

  // ---- Agreement in the network ----

  /** The requests for reports that arrived with this tag come from the leader `l`. */
  ghost predicate LeaderAsks(net: Net, l: string, tag: Tag) {
    forall m :: m in net.delivered && m.Tagged? && m.tag == tag && m.body.ReportReq? ==> m.from == l
  }

  /** `l` has asked for reports about the map `om` with this tag. */
  ghost predicate AskedAbout(net: Net, l: string, tag: Tag, om: ObsMap) {
    WasSent(net.pool, l, tag, ReportReq(Encode(om)))
  }

  lemma RequestSent(env: Env, net: Net, l: string, tag: Tag, m: Message) returns (om: ObsMap)
    requires NetInvariant(env, net) && l in net.nodes && tag.leader == l && m in net.delivered
    requires m.Tagged? && m.tag == tag && m.from == l && m.body.ReportReq?
    ensures m.body.doc == Encode(om) && AskedAbout(net, l, tag, om)
    ensures exists h :: OfRound(h, net.delivered, tag) && om == ObservationsIn(env, h)
  {
    assert CanArrive(net, m);
    var out :| Sent(l, out) in net.pool && Carries(out, tag, m.body);
    assert Founded(env, net.delivered, l, out);
    var h :| OfRound(h, net.delivered, tag) && m.body.doc == Encode(ObservationsIn(env, h));
    om := ObservationsIn(env, h);
  }

  lemma ReportArrived(env: Env, net: Net, l: string, r: Report)
    requires NetInvariant(env, net) && l in net.nodes && LeadsItself(net.nodes[l])
    requires r in net.nodes[l].ls.reports[1..] && r.from in net.nodes
    ensures WasSent(net.pool, r.from, TagOf(net.nodes[l]), ReportRes(r.reports))
  {
    var s := net.nodes[l];
    assert NodeInvariant(env, net.delivered, l, s);
    assert s.ls.reports[1..] == ReportsIn(env, Current(s));
    Agreement.ReportSource(env, Current(s), r);
    var a :| a in Current(s) && a.msg.Tagged? && a.msg.body.ReportRes? && Verified(env, a.msg) && ReportOf(a.msg) == r;
    Agreement.WithTagMember(s.history, TagOf(s), a);
    assert CanArrive(net, a.msg);
  }

  lemma ReportAsked(env: Env, net: Net, id: string, tag: Tag, reports: JobReports) returns (m: Message)
    requires NetInvariant(env, net) && WasSent(net.pool, id, tag, ReportRes(reports))
    ensures m in net.delivered && Asks(env, m, tag, reports)
  {
    var out :| Sent(id, out) in net.pool && Carries(out, tag, ReportRes(reports));
    assert Founded(env, net.delivered, id, out);
    m :| m in net.delivered && Asks(env, m, tag, reports);
  }

  /** In any run of the network, every report that a leader holds from a node running the program is what the leader's
      own broadcast of the round yields: a map of the observations in verified messages delivered in this round. */
  lemma ReportFromBroadcast(env: Env, nets: seq<Net>, ids: seq<string>, evs: seq<Event>, i: nat, l: string, r: Report)
    returns (om: ObsMap)
    requires IsNetRun(env, nets, ids, evs) && i < |nets| && l in nets[i].nodes && LeadsItself(nets[i].nodes[l])
    requires LeaderAsks(nets[i], l, TagOf(nets[i].nodes[l])) && |nets[i].nodes[l].ls.reports| >= 1
    requires r in nets[i].nodes[l].ls.reports[1..] && r.from in nets[i].nodes
    ensures r.reports == JobReportsOf(env, om) && AskedAbout(nets[i], l, TagOf(nets[i].nodes[l]), om)
    ensures exists h :: OfRound(h, nets[i].delivered, TagOf(nets[i].nodes[l])) && om == ObservationsIn(env, h)
  {
    NetRunsKeepInvariant(env, nets, ids, evs, i);
    var net, tag := nets[i], TagOf(nets[i].nodes[l]);
    assert NodeInvariant(env, net.delivered, l, net.nodes[l]);
    ReportArrived(env, net, l, r);
    var m := ReportAsked(env, net, r.from, tag, r.reports);
    om := RequestSent(env, net, l, tag, m);
    RoundTrip(om);
  }

  /** Round agreement in the network: if the round's requests come from the leader and are all about the map `om`, and
      of a full round of reports at most f are from outside the nodes that run the program, then the leader's final
      report is exactly what `om` yields, in every interleaving of the nodes' steps and whatever else is delivered. */
  lemma NetworkAgreement(env: Env, nets: seq<Net>, ids: seq<string>, evs: seq<Event>, i: nat, l: string,
                         om: ObsMap, faulty: set<string>)
    requires IsNetRun(env, nets, ids, evs) && i < |nets| && l in nets[i].nodes && LeadsItself(nets[i].nodes[l])
    requires LeaderAsks(nets[i], l, TagOf(nets[i].nodes[l]))
    requires OneMapAsked(nets[i], l, TagOf(nets[i].nodes[l])) && AskedAbout(nets[i], l, TagOf(nets[i].nodes[l]), om)
    requires Agreement.FullRound(nets[i].nodes[l], JobReportsOf(env, om), faulty, env.digest)
    requires forall r :: r in nets[i].nodes[l].ls.reports[1..] ==> r.from in nets[i].nodes || r.from in faulty
    ensures Agreement.ReportedBy(nets[i].nodes[l]) == Encodable(JobReportsOf(env, om), env.digest)
  {
    NetRunsKeepInvariant(env, nets, ids, evs, i);
    var s := nets[i].nodes[l];
    assert NodeInvariant(env, nets[i].delivered, l, s);
    forall r | r in s.ls.reports[1..] && r.from !in faulty ensures r.reports == JobReportsOf(env, om) {
      var other := ReportFromBroadcast(env, nets, ids, evs, i, l, r);
    }
    Agreement.FinalFollowsAgreement(env, s, JobReportsOf(env, om), faulty);
  }

  /** In any run of the network, what a leader holds as the observations of a node running the program are responses
      that this node sent in the present round to answer an OBSERVE-REQ that was delivered. */
  lemma ObservationsAnswered(env: Env, nets: seq<Net>, ids: seq<string>, evs: seq<Event>, i: nat, l: string, p: string)
    returns (responses: seq<Response>, request: Message)
    requires IsNetRun(env, nets, ids, evs) && i < |nets| && l in nets[i].nodes && LeadsItself(nets[i].nodes[l])
    requires p in nets[i].nodes[l].ls.observations && p in nets[i].nodes
    ensures nets[i].nodes[l].ls.observations[p] == Grouped(responses)
    ensures WasSent(nets[i].pool, p, TagOf(nets[i].nodes[l]), ObserveResp(responses))
    ensures request in nets[i].delivered && CallsToObserve(request, TagOf(nets[i].nodes[l]))
  {
    NetRunsKeepInvariant(env, nets, ids, evs, i);
    responses := HeldResponses(env, nets[i], l, p);
    request := ResponseAsked(env, nets[i], p, TagOf(nets[i].nodes[l]), responses);
  }

  lemma HeldResponses(env: Env, net: Net, l: string, p: string) returns (responses: seq<Response>)
    requires NetInvariant(env, net) && l in net.nodes && LeadsItself(net.nodes[l])
    requires p in net.nodes[l].ls.observations && p in net.nodes
    ensures net.nodes[l].ls.observations[p] == Grouped(responses)
    ensures WasSent(net.pool, p, TagOf(net.nodes[l]), ObserveResp(responses))
  {
    var s := net.nodes[l];
    assert NodeInvariant(env, net.delivered, l, s);
    assert s.ls.observations == ObservationsIn(env, Current(s));
    responses := LastSent(env, Current(s))[p];
    Agreement.SentSource(env, Current(s), p);
    var a :| a in Current(s) && a.msg.Tagged? && a.msg.body.ObserveResp? && Verified(env, a.msg)
             && a.msg.from == p && a.msg.body.responses == responses;
    Agreement.WithTagMember(s.history, TagOf(s), a);
    assert CanArrive(net, a.msg);
  }

  lemma ResponseAsked(env: Env, net: Net, id: string, tag: Tag, responses: seq<Response>) returns (m: Message)
    requires NetInvariant(env, net) && WasSent(net.pool, id, tag, ObserveResp(responses))
    ensures m in net.delivered && CallsToObserve(m, tag)
  {
    var out :| Sent(id, out) in net.pool && Carries(out, tag, ObserveResp(responses));
    assert Founded(env, net.delivered, id, out);
    m :| m in net.delivered && CallsToObserve(m, tag);
  }

  // ---- When all requests are about one map ----

  /** Step `k` is node `l` handling the report phase with this tag. */
  predicate AsksAt(nets: seq<Net>, ids: seq<string>, evs: seq<Event>, k: nat, l: string, tag: Tag)
    requires k < |nets| && k < |ids| && k < |evs|
  {
    ids[k] == l && evs[k] == Handle(PhaseReport) && l in nets[k].nodes && TagOf(nets[k].nodes[l]) == tag
  }

  ghost predicate AskedBefore(nets: seq<Net>, ids: seq<string>, evs: seq<Event>, i: nat, l: string, tag: Tag,
                              om: ObsMap)
    requires i <= |nets| && i <= |ids| && i <= |evs|
  {
    exists k :: 0 <= k < i && AsksAt(nets, ids, evs, k, l, tag) && nets[k].nodes[l].ls.observations == om
  }

  lemma AsksNow(env: Env, net: Net, id: string, e: Event, l: string, tag: Tag, om: ObsMap)
    requires Possible(env, net, id, e)
    ensures AskedAbout(Moved(env, net, id, e), l, tag, om)
            <==> AskedAbout(net, l, tag, om)
                 || (id == l && e == Handle(PhaseReport) && TagOf(net.nodes[l]) == tag
                     && net.nodes[l].ls.observations == om)
  {
    var net' := Moved(env, net, id, e);
    if AskedAbout(net, l, tag, om) {
      var out :| Sent(l, out) in net.pool && Carries(out, tag, ReportReq(Encode(om)));
      assert Sent(l, out) in net'.pool;
    }
    if AskedAbout(net', l, tag, om) && !AskedAbout(net, l, tag, om) {
      var out :| Sent(l, out) in net'.pool && Carries(out, tag, ReportReq(Encode(om)));
      RequestsHeld(env, net.nodes[l], e, out);
      SendsRequest(env, net.nodes[l], e, out);
      RoundTrip(om);
      RoundTrip(net.nodes[l].ls.observations);
    }
    if id == l && e == Handle(PhaseReport) && TagOf(net.nodes[l]) == tag && net.nodes[l].ls.observations == om {
      var out := ToAll(tag, ReportReq(Encode(om)));
      assert out == Step(env, net.nodes[l], e).1[1];
      assert Sent(l, out) in net'.pool && Carries(out, tag, ReportReq(Encode(om)));
    }
  }

  lemma SendsRequest(env: Env, s: Node, e: Event, out: Outgoing)
    requires Enabled(env, s, e) && out in Step(env, s, e).1 && !out.NewEpoch? && out.body.ReportReq?
    ensures e == Handle(PhaseReport)
  {
    match e
    case Receive(m, known, observed, pick) =>
      ReplyAsked(env, Recorded(s, m, known), m, known, observed, pick, out);
    case Handle(phase) =>
    case _ =>
  }

  /** A node has asked about a map iff it held that map when it handled the report phase. */
  lemma {:induction false} AskedIffHeld(env: Env, nets: seq<Net>, ids: seq<string>, evs: seq<Event>, i: nat,
                                        l: string, tag: Tag, om: ObsMap)
    requires IsNetRun(env, nets, ids, evs) && i <= |evs|
    ensures AskedAbout(nets[i], l, tag, om) <==> AskedBefore(nets, ids, evs, i, l, tag, om)
  {
    if i > 0 {
      AskedIffHeld(env, nets, ids, evs, i - 1, l, tag, om);
      assert NetNext(env, nets[i - 1], ids[i - 1], evs[i - 1], nets[i]);
      AsksNow(env, nets[i - 1], ids[i - 1], evs[i - 1], l, tag, om);
      AskedBeforeStep(nets, ids, evs, i - 1, l, tag, om);
    }
  }

  lemma AskedBeforeStep(nets: seq<Net>, ids: seq<string>, evs: seq<Event>, k: nat, l: string, tag: Tag, om: ObsMap)
    requires k < |nets| && k < |ids| && k < |evs|
    ensures AskedBefore(nets, ids, evs, k + 1, l, tag, om)
            <==> AskedBefore(nets, ids, evs, k, l, tag, om)
                 || (AsksAt(nets, ids, evs, k, l, tag) && nets[k].nodes[l].ls.observations == om)
  {
    if AskedBefore(nets, ids, evs, k + 1, l, tag, om) {
      var j :| 0 <= j < k + 1 && AsksAt(nets, ids, evs, j, l, tag) && nets[j].nodes[l].ls.observations == om;
    }
  }

  /** All requests with this tag have been about one map. */
  ghost predicate OneMapAsked(net: Net, l: string, tag: Tag) {
    forall a, b :: AskedAbout(net, l, tag, a) && AskedAbout(net, l, tag, b) ==> a == b
  }

  /** The observations were the same whenever the report phase was handled with this tag. */
  ghost predicate OneMapHeld(nets: seq<Net>, ids: seq<string>, evs: seq<Event>, i: nat, l: string, tag: Tag)
    requires i <= |nets| && i <= |ids| && i <= |evs|
  {
    forall j, k :: 0 <= j < k < i && AsksAt(nets, ids, evs, j, l, tag) && AsksAt(nets, ids, evs, k, l, tag) ==>
      nets[j].nodes[l].ls.observations == nets[k].nodes[l].ls.observations
  }

  lemma HeldTwice(nets: seq<Net>, ids: seq<string>, evs: seq<Event>, i: nat, l: string, tag: Tag, a: ObsMap, b: ObsMap)
    requires i <= |nets| && i <= |ids| && i <= |evs| && OneMapHeld(nets, ids, evs, i, l, tag)
    requires AskedBefore(nets, ids, evs, i, l, tag, a) && AskedBefore(nets, ids, evs, i, l, tag, b)
    ensures a == b
  {
    var j :| 0 <= j < i && AsksAt(nets, ids, evs, j, l, tag) && nets[j].nodes[l].ls.observations == a;
    var k :| 0 <= k < i && AsksAt(nets, ids, evs, k, l, tag) && nets[k].nodes[l].ls.observations == b;
    if j < k || k < j {
      assert AsksAt(nets, ids, evs, j, l, tag) && AsksAt(nets, ids, evs, k, l, tag);
    }
  }

  /** Exactly when all requests of a round are about one map: iff the observations were the same whenever the report
      phase was handled. As every further response signals another grace phase, they need not be. */
  lemma OneMapIff(env: Env, nets: seq<Net>, ids: seq<string>, evs: seq<Event>, i: nat, l: string, tag: Tag)
    requires IsNetRun(env, nets, ids, evs) && i <= |evs|
    ensures OneMapAsked(nets[i], l, tag) <==> OneMapHeld(nets, ids, evs, i, l, tag)
  {
    if OneMapAsked(nets[i], l, tag) {
      forall j, k | 0 <= j < k < i && AsksAt(nets, ids, evs, j, l, tag) && AsksAt(nets, ids, evs, k, l, tag)
        ensures nets[j].nodes[l].ls.observations == nets[k].nodes[l].ls.observations
      {
        HeldIsAsked(env, nets, ids, evs, i, l, tag, j);
        HeldIsAsked(env, nets, ids, evs, i, l, tag, k);
      }
    }
    if OneMapHeld(nets, ids, evs, i, l, tag) {
      forall a, b | AskedAbout(nets[i], l, tag, a) && AskedAbout(nets[i], l, tag, b) ensures a == b {
        AskedIffHeld(env, nets, ids, evs, i, l, tag, a);
        AskedIffHeld(env, nets, ids, evs, i, l, tag, b);
        HeldTwice(nets, ids, evs, i, l, tag, a, b);
      }
    }
  }

  lemma HeldIsAsked(env: Env, nets: seq<Net>, ids: seq<string>, evs: seq<Event>, i: nat, l: string, tag: Tag, k: nat)
    requires IsNetRun(env, nets, ids, evs) && k < i <= |evs| && AsksAt(nets, ids, evs, k, l, tag)
    ensures AskedAbout(nets[i], l, tag, nets[k].nodes[l].ls.observations)
  {
    AskedIffHeld(env, nets, ids, evs, i, l, tag, nets[k].nodes[l].ls.observations);
  }
}
