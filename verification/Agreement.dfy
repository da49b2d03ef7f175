/** Round agreement at one node: results over all runs of its engine, given what followers answer. */
module Agreement {
  import opened Basics
  import opened FiniteSets
  import opened Assembler
  import opened Observations
  import opened Quorum
  import opened Consensus
  import opened Rounds
  import opened RoundSafety

  // ---- No stale state ----

  lemma {:induction false} ReportSource(env: Env, h: seq<Admitted>, r: Report)
    requires r in ReportsIn(env, h)
    ensures exists a :: a in h && a.msg.Tagged? && a.msg.body.ReportRes? && Verified(env, a.msg) && ReportOf(a.msg) == r
  {
    var pre, a := h[..|h| - 1], h[|h| - 1];
    assert h == pre + [a];
    if r in ReportsIn(env, pre) {
      ReportSource(env, pre, r);
    } else {
      assert a in h;
    }
  }

  lemma {:induction false} SentSource(env: Env, h: seq<Admitted>, p: string)
    requires p in LastSent(env, h)
    ensures exists a :: a in h && a.msg.Tagged? && a.msg.body.ObserveResp? && Verified(env, a.msg)
                        && a.msg.from == p && a.msg.body.responses == LastSent(env, h)[p]
  {
    var pre, a := h[..|h| - 1], h[|h| - 1];
    assert h == pre + [a];
    if a.msg.Tagged? && a.msg.body.ObserveResp? && Verified(env, a.msg) && a.msg.from == p {
      assert a in h;
    } else {
      SentSource(env, pre, p);
    }
  }

  lemma {:induction false} EchoBound(env: Env, h: seq<Admitted>)
    ensures EchoesIn(env, h) <= |h|
  {
    if h != [] {
      EchoBound(env, h[..|h| - 1]);
    }
  }

  lemma {:induction false} WithTagMember(h: seq<Admitted>, tag: Tag, a: Admitted)
    ensures a in WithTag(h, tag) <==> a in h && a.msg.Tagged? && a.msg.tag == tag
  {
    if h != [] {
      var pre := h[..|h| - 1];
      assert h == pre + [h[|h| - 1]];
      WithTagMember(pre, tag, a);
    }
  }

  /** In any run, everything the leader holds comes from a verified message of its present epoch, round and leader;
      in particular nothing survives a round change or a re-initialisation. */
  lemma LeaderHoldsCurrentRoundOnly(env: Env, config: Config, states: seq<Node>, evs: seq<Event>, i: nat)
    requires IsRun(env, config, states, evs) && i < |states| && LeadsItself(states[i])
    ensures var s := states[i];
            && |s.ls.reports| >= 1
            && (forall r :: r in s.ls.reports[1..] ==>
                  exists a :: a in s.history && a.msg.Tagged? && a.msg.tag == TagOf(s)
                              && a.msg.body.ReportRes? && Verified(env, a.msg) && ReportOf(a.msg) == r)
            && (forall p :: p in s.ls.observations ==>
                  exists a :: a in s.history && a.msg.Tagged? && a.msg.tag == TagOf(s)
                              && a.msg.body.ObserveResp? && Verified(env, a.msg) && a.msg.from == p
                              && s.ls.observations[p] == Grouped(a.msg.body.responses))
            && s.ls.attestations <= |Current(s)|
  {
    RunsKeepInvariant(env, config, states, evs, i);
    var s := states[i];
    forall r | r in s.ls.reports[1..]
      ensures exists a :: a in s.history && a.msg.Tagged? && a.msg.tag == TagOf(s)
                          && a.msg.body.ReportRes? && Verified(env, a.msg) && ReportOf(a.msg) == r
    {
      ReportSource(env, Current(s), r);
      var a :| a in Current(s) && a.msg.Tagged? && a.msg.body.ReportRes? && Verified(env, a.msg)
               && ReportOf(a.msg) == r;
      WithTagMember(s.history, TagOf(s), a);
    }
    forall p | p in s.ls.observations
      ensures exists a :: a in s.history && a.msg.Tagged? && a.msg.tag == TagOf(s)
                          && a.msg.body.ObserveResp? && Verified(env, a.msg) && a.msg.from == p
                          && s.ls.observations[p] == Grouped(a.msg.body.responses)
    {
      SentSource(env, Current(s), p);
      var a :| a in Current(s) && a.msg.Tagged? && a.msg.body.ObserveResp? && Verified(env, a.msg)
               && a.msg.from == p && a.msg.body.responses == LastSent(env, Current(s))[p];
      WithTagMember(s.history, TagOf(s), a);
    }
    EchoBound(env, Current(s));
  }

  /** The role condition is needed: a node that is not its own leader keeps a report across a round change. */
  lemma FollowerKeepsOldReports(env: Env, s: Node, m: Message)
    requires !LeadsItself(s) && s.ready && s.owed > 0 && s.config.n > |s.ls.reports| + 1
    requires m.Tagged? && m.body.ReportRes? && Admits(env, s, m) && Verified(env, m)
    ensures var received := OnReceive(env, s, m, {}, None, None).0;
            && received.owed > 0
            && ReportOf(m) in OnProgress(received).ls.reports
            && m.tag != TagOf(OnProgress(received))
  {
    var received := OnReceive(env, s, m, {}, None, None).0;
    assert received.ls.reports[|s.ls.reports|] == ReportOf(m);
  }

  /** The leader's response count is not reset with the round: a verified response signals the grace phase iff
      together with those of all rounds since initialisation there are more than 2f + 1. */
  lemma GraceCountsAllRounds(env: Env, config: Config, states: seq<Node>, evs: seq<Event>, i: nat, m: Message)
    requires IsRun(env, config, states, evs) && i < |states| && LeadsItself(states[i]) && states[i].ready
    requires Admits(env, states[i], m) && m.body.ObserveResp? && Verified(env, m)
    ensures var s, s' := states[i], OnReceive(env, states[i], m, {}, None, None).0;
            if ResponsesIn(env, s.history) + 1 > 2 * s.config.f + 1
            then s'.pending == s.pending + multiset{PhaseGrace} else s'.pending == s.pending
  {
    RunsKeepInvariant(env, config, states, evs, i);
  }

  /** A response beyond the threshold leads to a further broadcast in the same round, of the map with that response. */
  lemma LateResponseIsBroadcast(env: Env, s: Node, m: Message)
    requires s.ready && Admits(env, s, m) && m.body.ObserveResp? && Verified(env, m)
    requires s.cache.observeN + 1 > 2 * s.config.f + 1
    ensures var got := OnReceive(env, s, m, {}, None, None).0;
            PhaseGrace in got.pending && PhaseReport in OnHandle(got, PhaseGrace).0.pending
    ensures var asked := OnHandle(OnHandle(OnReceive(env, s, m, {}, None, None).0, PhaseGrace).0, PhaseReport).1;
            var doc := Encode(s.ls.observations[m.from := Grouped(m.body.responses)]);
            asked == [ToAll(TagOf(s), ObservationMap(doc)), ToAll(TagOf(s), ReportReq(doc))]
  {
  }

  // ---- The followers' reports ----

  /** `reports` is what some follower, in whatever state, answers to a REPORT-REQ carrying the encoding of `om`. */
  ghost predicate ComputedFrom(env: Env, om: ObsMap, reports: JobReports) {
    exists s: Node, tag :: OnReportReq(env, s, Encode(om)).1 == [ToLeader(s.config.leader, tag, ReportRes(reports))]
  }

  /** Every follower that answers computes the same reports. */
  lemma FollowersAgree(env: Env, om: ObsMap, reports: JobReports)
    requires ComputedFrom(env, om, reports)
    ensures reports == JobReportsOf(env, om)
  {
    var s: Node, tag :| OnReportReq(env, s, Encode(om)).1 == [ToLeader(s.config.leader, tag, ReportRes(reports))];
    RoundTrip(om);
    if Matches(env, Encode(om), s.cache.followerObs) {
      assert OnReportReq(env, s, Encode(om)).1[0]
             == ToLeader(s.config.leader, TagOf(s), ReportRes(JobReportsOf(env, om)));
    }
  }

  /** In any run, a follower answers a REPORT-REQ iff its data hashes like the encoding of the map it cached from the
      current round's broadcasts; if the hash separates the two documents, the data is the canonical encoding of
      exactly that map. */
  lemma AnswersFromCachedMap(env: Env, config: Config, states: seq<Node>, evs: seq<Event>, i: nat, doc: Doc)
    requires IsRun(env, config, states, evs) && i < |states| && !LeadsItself(states[i])
    requires env.docDigest(doc) == env.docDigest(Encode(states[i].cache.followerObs)) ==>
               doc == Encode(states[i].cache.followerObs)
    ensures var s := states[i];
            && s.cache.followerObs == CachedIn(Current(s))
            && (OnReportReq(env, s, doc).1 != [] <==> Canonical(doc) && Decode(doc) == CachedIn(Current(s)))
            && (OnReportReq(env, s, doc).1 != [] ==>
                  OnReportReq(env, s, doc).1
                  == [ToLeader(s.config.leader, TagOf(s), ReportRes(JobReportsOf(env, CachedIn(Current(s)))))])
  {
    RunsKeepInvariant(env, config, states, evs, i);
    EncodedIff(states[i].cache.followerObs, doc);
  }

  /** A follower that gets the leader's map and then its request, in the same round, answers it. */
  lemma BroadcastThenRequest(env: Env, s: Node, om: ObsMap)
    ensures var cached := OnObservationMap(s, Encode(om));
            OnReportReq(env, cached, Encode(om)).1
            == [ToLeader(s.config.leader, TagOf(s), ReportRes(JobReportsOf(env, om)))]
  {
    RoundTrip(om);
  }

  /** What the leader's broadcast map contains for a job: each response for it, as often as the senders' last
      verified messages of this round contain it, and no other. */
  lemma BroadcastConserves(env: Env, config: Config, states: seq<Node>, evs: seq<Event>, i: nat, job: string,
                           x: Response)
    requires IsRun(env, config, states, evs) && i < |states| && LeadsItself(states[i])
    ensures var s := states[i];
            var sent := LastSent(env, Current(s));
            && s.ls.observations.Keys == sent.Keys
            && Collected(s.ls.observations, s.ls.observations.Keys, job)[x]
               == if x.jobId == job then Occurrences(sent, sent.Keys, x) else 0
  {
    RunsKeepInvariant(env, config, states, evs, i);
    var s := states[i];
    var sent := LastSent(env, Current(s));
    assert s.ls.observations == GroupAll(sent);
    assert s.ls.observations.Keys == sent.Keys;
    RegroupingConserves(sent, s.ls.observations, sent.Keys, job, x);
  }

  /** Message `k` is the last verified response of its sender. */
  predicate LastResponse(env: Env, h: seq<Admitted>, k: nat) {
    && k < |h| && VerifiedResponse(env, h[k].msg)
    && forall l :: k < l < |h| && VerifiedResponse(env, h[l].msg) ==> h[l].msg.from != h[k].msg.from
  }

  predicate VerifiedResponse(env: Env, m: Message) {
    m.Tagged? && m.body.ObserveResp? && env.isKey(m.from) && env.verify(m.from, m.tag, m.body, m.sig)
  }

  lemma {:induction false} LastResponseSent(env: Env, h: seq<Admitted>, k: nat)
    requires LastResponse(env, h, k)
    ensures var m := h[k].msg;
            m.from in LastSent(env, h) && LastSent(env, h)[m.from] == m.body.responses
  {
    var pre := h[..|h| - 1];
    if k < |pre| {
      assert forall l :: 0 <= l < |pre| ==> pre[l] == h[l];
      LastResponseSent(env, pre, k);
      assert VerifiedResponse(env, h[|pre|].msg) ==> h[|pre|].msg.from != h[k].msg.from;
    }
  }

  lemma GroupedHolds(rs: seq<Response>, r: Response)
    requires r in rs
    ensures r.jobId in Grouped(rs) && r in Grouped(rs)[r.jobId]
  {
    SelectCount(rs, r.jobId, r);
    assert multiset(Select(rs, r.jobId))[r] == multiset(rs)[r];
    assert r in multiset(rs) && r in multiset(Select(rs, r.jobId));
  }

  /** In any run, every response in a sender's last verified message of this round is in the leader's map, under its
      sender and job; in particular every job that some sender answers is one that followers regroup. */
  lemma AnswersAreKept(env: Env, config: Config, states: seq<Node>, evs: seq<Event>, i: nat, k: nat, r: Response)
    requires IsRun(env, config, states, evs) && i < |states| && LeadsItself(states[i])
    requires LastResponse(env, Current(states[i]), k) && r in Current(states[i])[k].msg.body.responses
    ensures var p, om := Current(states[i])[k].msg.from, states[i].ls.observations;
            p in om && r.jobId in om[p] && r in om[p][r.jobId]
  {
    RunsKeepInvariant(env, config, states, evs, i);
    LastResponseSent(env, Current(states[i]), k);
    GroupedHolds(Current(states[i])[k].msg.body.responses, r);
  }

  /** A follower reports a job iff it is a numeric direct request, someone observed it, and all observations of it are
      numbers. */
  lemma JobReportedIff(env: Env, om: ObsMap, j: string)
    ensures j in JobReportsOf(env, om)
            <==> && env.job(j).jobType == "directrequest" && env.job(j).resultType == "numeric"
                 && (exists p :: p in om && j in om[p] && om[p][j] != [])
                 && (forall p, x :: p in om && j in om[p] && x in om[p][j] ==> env.parse(x.response).Some?)
  {
    var all := Collected(om, om.Keys, j);
    forall x ensures x in all <==> exists p :: p in om && j in om[p] && x in om[p][j] {
      CollectedMember(om, om.Keys, j, x);
    }
    assert all != multiset{} <==> exists p :: p in om && j in om[p] && om[p][j] != [] by {
      if all != multiset{} {
        var x :| x in all;
        var p :| p in om && j in om[p] && x in om[p][j];
      }
      if exists p :: p in om && j in om[p] && om[p][j] != [] {
        var p :| p in om && j in om[p] && om[p][j] != [];
        assert om[p][j][0] in all;
      }
    }
    assert j in JobsOf(om) <==> exists p :: p in om && j in om[p];
  }

  /** The value it reports, times the number of observations of the job by all senders, is their sum. */
  lemma JobReportValue(env: Env, om: ObsMap, order: seq<string>, j: string, q: real, k: real)
    requires (forall p :: p in order <==> p in om) && forall a, b :: 0 <= a < b < |order| ==> order[a] != order[b]
    requires j in JobReportsOf(env, om) && JobReportsOf(env, om)[j] == Number(q)
    requires k == |SenderBySender(om, order, j)| as real
    ensures forall x :: x in SenderBySender(om, order, j) ==> env.parse(x.response).Some?
    ensures q * k == ListSum(SenderBySender(om, order, j), env.parse)
  {
    CollectedInOrder(om, order, j);
    assert Elements(order) == om.Keys;
    ValueTimesCount(env.job(j), SenderBySender(om, order, j), env.parse, q, k);
  }

  // ---- Round agreement over runs ----

  /** Every report from outside `faulty` is some follower's answer about the map `om`. */
  ghost predicate HonestFollowers(env: Env, om: ObsMap, faulty: set<string>, got: seq<Report>) {
    forall r :: r in got && r.from !in faulty ==> ComputedFrom(env, om, r.reports)
  }

  /** The collected reports are a full round's worth, at most f of them from faulty senders. */
  ghost predicate FullRound(s: Node, honest: JobReports, faulty: set<string>, digest: Hasher) {
    && s.config.f == FaultBound(s.config.n)
    && |s.ls.reports| >= 2 && |s.ls.reports| >= s.config.n
    && FaultyReports(s.ls.reports[1..], faulty) <= s.config.f
    && NoForgery(s.ls.reports[1..], honest, digest)
  }

  /** The job map of the stored final report. */
  function ReportedBy(s: Node): JobReports {
    if s.ls.finalReport.None? then map[] else s.ls.finalReport.value.report
  }

  lemma FullRoundAssembly(s: Node, honest: JobReports, faulty: set<string>, digest: Hasher, out: Option<FinalReport>)
    requires FullRound(s, honest, faulty, digest) && s.ls.reports[0] == PLACEHOLDER
    requires HonestAgree(s.ls.reports[1..], faulty, honest)
    requires IsAssembly(s.ls.reports, s.config.f + 1, digest, out)
    ensures out.Some? <==> Encodable(honest, digest) != map[]
    ensures out.Some? ==> out.value.report == Encodable(honest, digest)
  {
    var got := s.ls.reports[1..];
    assert s.ls.reports == [PLACEHOLDER] + got;
    RoundAgreement(got, s.config.n, faulty, honest, digest, out);
  }

  lemma CurrentOutcome(env: Env, s: Node) returns (out: Option<FinalReport>)
    requires FinalCurrent(env, s) && |s.ls.reports| >= 2 && |s.ls.reports| >= s.config.n
    ensures IsAssembly(s.ls.reports, s.config.f + 1, env.digest, out)
    ensures out.Some? ==> s.ls.finalReport == out
  {
    out :| IsAssembly(s.ls.reports, s.config.f + 1, env.digest, out) && (out.Some? ==> s.ls.finalReport == out);
  }

  /** Round agreement: in any run, once n entries are collected (the placeholder counted), if at most f of the
      collected reports come from faulty senders and the others are followers' answers about one map `om`, the
      leader's final report is exactly what `om` yields, whatever later reports add and in whatever order all maps are
      visited; if `om` yields nothing there is none, or the empty one a round starts with. */
  lemma FinalReportIsHonest(env: Env, config: Config, states: seq<Node>, evs: seq<Event>, i: nat,
                            om: ObsMap, faulty: set<string>)
    requires IsRun(env, config, states, evs) && i < |states|
    requires FullRound(states[i], JobReportsOf(env, om), faulty, env.digest)
    requires HonestFollowers(env, om, faulty, states[i].ls.reports[1..])
    ensures ReportedBy(states[i]) == Encodable(JobReportsOf(env, om), env.digest)
    ensures ReportedBy(states[i]) == map[] <==> states[i].ls.finalReport in {None, Some(EMPTY_FINAL)}
  {
    RunsKeepInvariant(env, config, states, evs, i);
    HonestAgreeFrom(env, om, faulty, states[i].ls.reports[1..]);
    FinalFollowsAgreement(env, states[i], JobReportsOf(env, om), faulty);
  }

  /** If the final phase is then signalled, handling it broadcasts exactly what `om` yields. */
  lemma HonestBroadcast(env: Env, config: Config, states: seq<Node>, evs: seq<Event>, i: nat,
                        om: ObsMap, faulty: set<string>) returns (fin: FinalReport)
    requires IsRun(env, config, states, evs) && i < |states| && PhaseFinal in states[i].pending
    requires FullRound(states[i], JobReportsOf(env, om), faulty, env.digest)
    requires HonestFollowers(env, om, faulty, states[i].ls.reports[1..])
    requires Encodable(JobReportsOf(env, om), env.digest) != map[]
    ensures OnHandle(states[i], PhaseFinal).1 == [ToAll(TagOf(states[i]), BroadcastFinal(fin))]
    ensures fin.report == Encodable(JobReportsOf(env, om), env.digest)
  {
    FinalReportIsHonest(env, config, states, evs, i, om, faulty);
    fin := states[i].ls.finalReport.value;
    FinalPhaseSends(states[i]);
  }

  lemma FinalPhaseSends(s: Node)
    requires PhaseFinal in s.pending && s.ls.finalReport.Some?
    ensures OnHandle(s, PhaseFinal).1 == [ToAll(TagOf(s), BroadcastFinal(s.ls.finalReport.value))]
  {
  }

  lemma FinalFollowsAgreement(env: Env, s: Node, honest: JobReports, faulty: set<string>)
    requires FinalCurrent(env, s) && FinalFromReports(env, s)
    requires FullRound(s, honest, faulty, env.digest) && s.ls.reports[0] == PLACEHOLDER
    requires HonestAgree(s.ls.reports[1..], faulty, honest)
    ensures ReportedBy(s) == Encodable(honest, env.digest)
    ensures ReportedBy(s) == map[] <==> s.ls.finalReport in {None, Some(EMPTY_FINAL)}
  {
    if Encodable(honest, env.digest) != map[] {
      var out := CurrentOutcome(env, s);
      FullRoundAssembly(s, honest, faulty, env.digest, out);
    } else if s.ls.finalReport != None && s.ls.finalReport != Some(EMPTY_FINAL) {
      var k :| 2 <= k <= |s.ls.reports| && k >= s.config.n
               && IsAssembly(s.ls.reports[..k], s.config.f + 1, env.digest, s.ls.finalReport);
      EarlierRound(s, honest, faulty, env.digest, k, s.ls.finalReport);
      assert false;
    }
  }

  /** What an earlier assembly of the round can have yielded. */
  lemma EarlierRound(s: Node, honest: JobReports, faulty: set<string>, digest: Hasher, k: nat, out: Option<FinalReport>)
    requires FullRound(s, honest, faulty, digest) && s.ls.reports[0] == PLACEHOLDER
    requires HonestAgree(s.ls.reports[1..], faulty, honest)
    requires 2 <= k <= |s.ls.reports| && k >= s.config.n
    requires IsAssembly(s.ls.reports[..k], s.config.f + 1, digest, out)
    ensures out.Some? <==> Encodable(honest, digest) != map[]
  {
    var got := s.ls.reports[1..];
    var pre, more := got[..k - 1], got[k - 1..];
    assert s.ls.reports[..k] == [PLACEHOLDER] + pre;
    assert pre + more == got;
    EarlierReports(pre, more, faulty, honest, digest);
    RoundAgreement(pre, s.config.n, faulty, honest, digest, out);
  }

  lemma EarlierReports(pre: seq<Report>, more: seq<Report>, faulty: set<string>, honest: JobReports, digest: Hasher)
    requires HonestAgree(pre + more, faulty, honest) && NoForgery(pre + more, honest, digest)
    ensures HonestAgree(pre, faulty, honest) && NoForgery(pre, honest, digest)
    ensures FaultyReports(pre, faulty) <= FaultyReports(pre + more, faulty)
  {
    FaultyGrow(pre, more, faulty);
    assert forall r :: r in pre ==> r in pre + more;
  }

  lemma HonestAgreeFrom(env: Env, om: ObsMap, faulty: set<string>, got: seq<Report>)
    requires HonestFollowers(env, om, faulty, got)
    ensures HonestAgree(got, faulty, JobReportsOf(env, om))
  {
    forall r | r in got && r.from !in faulty ensures r.reports == JobReportsOf(env, om) {
      FollowersAgree(env, om, r.reports);
    }
  }

  // ---- Runs that collect given reports ----

  /** The REPORT-RES that brings report `r` to leader "L" in its first round. */
  function Bringing(r: Report): Message {
    Tagged(r.from, Tag(0, INIT_ROUND, "L"), ReportRes(r.reports), r.sig)
  }

  /** The leader "L" of a committee of `n`, in its first round, holding `reports`. */
  ghost predicate Collecting(s: Node, n: nat, registry: set<string>, reports: seq<Report>) {
    && s.ready && !s.stopped && s.curRound == INIT_ROUND && s.config == Config(true, 0, "L", "L", n, FaultBound(n))
    && s.registry == registry && s.ls.attestations == 0 && s.ls.reports == [PLACEHOLDER] + reports
  }

  lemma ExtendRun(env: Env, config: Config, states: seq<Node>, evs: seq<Event>, e: Event, s': Node)
    requires IsRun(env, config, states, evs) && Next(env, states[|evs|], e, s')
    ensures IsRun(env, config, states + [s'], evs + [e])
  {
    var all, events := states + [s'], evs + [e];
    forall i | 0 <= i < |events| ensures Next(env, all[i], events[i], all[i + 1]) {
      if i < |evs| {
        assert Next(env, states[i], evs[i], states[i + 1]);
      }
    }
  }

  lemma StartedRun(env: Env, n: nat, registry: set<string>) returns (config: Config, states: seq<Node>, evs: seq<Event>)
    ensures IsRun(env, config, states, evs) && Collecting(states[|evs|], n, registry, [])
  {
    config := Config(true, 0, "L", "L", n, FaultBound(n));
    var s0 := FirstNode(config);
    var s1 := OnStart(s0, registry, []);
    assert IsRun(env, config, [s0], []);
    assert Next(env, s0, Start(registry, []), s1);
    ExtendRun(env, config, [s0], [], Start(registry, []), s1);
    states, evs := [s0] + [s1], [] + [Start(registry, [])];
  }

  lemma CollectOne(env: Env, s: Node, n: nat, registry: set<string>, reports: seq<Report>, r: Report)
    returns (e: Event, s': Node)
    requires Collecting(s, n, registry, reports) && Verified(env, Bringing(r))
    ensures Next(env, s, e, s') && Collecting(s', n, registry, reports + [r])
  {
    var m := Bringing(r);
    var pick := AssemblyExists(s.ls.reports + [r], s.config.f + 1, env.digest);
    e := Receive(m, {}, None, pick);
    s' := OnReportRes(env, Recorded(s, m, {}), m, pick);
    ReceivesReport(env, s, m, pick);
    ReportJoins(env, Recorded(s, m, {}), n, registry, reports, r, pick);
  }

  lemma ReceivesReport(env: Env, s: Node, m: Message, pick: Option<FinalReport>)
    requires s.ready && !s.stopped && Admits(env, s, m) && m.body.ReportRes?
    requires IsAssembly(s.ls.reports + [ReportOf(m)], s.config.f + 1, env.digest, pick)
    ensures Next(env, s, Receive(m, {}, None, pick), OnReportRes(env, Recorded(s, m, {}), m, pick))
  {
    assert OnReceive(env, s, m, {}, None, pick).0 == OnReportRes(env, Recorded(s, m, {}), m, pick);
  }

  lemma ReportJoins(env: Env, s: Node, n: nat, registry: set<string>, reports: seq<Report>, r: Report,
                    pick: Option<FinalReport>)
    requires Collecting(s, n, registry, reports) && Verified(env, Bringing(r))
    ensures Collecting(OnReportRes(env, s, Bringing(r), pick), n, registry, reports + [r])
  {
    assert ReportOf(Bringing(r)) == r;
    assert s.ls.reports + [r] == [PLACEHOLDER] + (reports + [r]);
  }

  lemma {:induction false} RunWithReports(env: Env, n: nat, registry: set<string>, got: seq<Report>)
    returns (config: Config, states: seq<Node>, evs: seq<Event>)
    requires forall r :: r in got ==> Verified(env, Bringing(r))
    ensures IsRun(env, config, states, evs) && Collecting(states[|evs|], n, registry, got)
  {
    if got == [] {
      config, states, evs := StartedRun(env, n, registry);
    } else {
      var front, r := got[..|got| - 1], got[|got| - 1];
      assert got == front + [r];
      config, states, evs := RunWithReports(env, n, registry, front);
      var e, s' := CollectOne(env, states[|evs|], n, registry, front, r);
      ExtendRun(env, config, states, evs, e, s');
      states, evs := states + [s'], evs + [e];
    }
  }

  /** The hypotheses of round agreement are met for committees of every size: any verified reports, enough of them for n
      and at most f from faulty senders, that otherwise carry what `om` yields, are those of the leader in some run. */
  lemma AgreementApplies(env: Env, n: nat, om: ObsMap, faulty: set<string>, got: seq<Report>)
    returns (config: Config, states: seq<Node>, evs: seq<Event>)
    requires (forall r :: r in got ==> Verified(env, Bringing(r))) && |got| >= 1 && |got| + 1 >= n
    requires HonestAgree(got, faulty, JobReportsOf(env, om)) && FaultyReports(got, faulty) <= FaultBound(n)
    requires NoForgery(got, JobReportsOf(env, om), env.digest)
    ensures IsRun(env, config, states, evs) && states[|evs|].ls.reports == [PLACEHOLDER] + got
    ensures FullRound(states[|evs|], JobReportsOf(env, om), faulty, env.digest)
    ensures HonestFollowers(env, om, faulty, got)
  {
    config, states, evs := RunWithReports(env, n, {}, got);
    assert states[|evs|].ls.reports[1..] == got;
    AnswerExists(env, om);
  }

  lemma AnswerExists(env: Env, om: ObsMap)
    ensures ComputedFrom(env, om, JobReportsOf(env, om))
  {
    var s := OnObservationMap(FirstNode(Config(false, 0, "L", "F", 1, 0)), Encode(om));
    BroadcastThenRequest(env, FirstNode(Config(false, 0, "L", "F", 1, 0)), om);
    assert OnReportReq(env, s, Encode(om)).1
           == [ToLeader(s.config.leader, TagOf(s), ReportRes(JobReportsOf(env, om)))];
  }

  /** Then every reported value lies between any bounds on the observations of its job. */
  lemma FinalValueBounded(env: Env, config: Config, states: seq<Node>, evs: seq<Event>, i: nat,
                          om: ObsMap, faulty: set<string>, job: string, lo: real, hi: real)
    requires IsRun(env, config, states, evs) && i < |states|
    requires FullRound(states[i], JobReportsOf(env, om), faulty, env.digest)
    requires HonestFollowers(env, om, faulty, states[i].ls.reports[1..])
    requires forall x :: x in Collected(om, om.Keys, job) ==>
               env.parse(x.response).Some? ==> lo <= env.parse(x.response).value <= hi
    ensures var report := ReportedBy(states[i]);
            job in report ==> report[job].Number? && lo <= report[job].x <= hi
  {
    FinalReportIsHonest(env, config, states, evs, i, om, faulty);
    if job in ReportedBy(states[i]) {
      ReportedWithin(env, om, job, lo, hi);
    }
  }

  lemma ReportedWithin(env: Env, om: ObsMap, job: string, lo: real, hi: real)
    requires job in JobReportsOf(env, om)
    requires forall x :: x in Collected(om, om.Keys, job) ==>
               env.parse(x.response).Some? ==> lo <= env.parse(x.response).value <= hi
    ensures var v := JobReportsOf(env, om)[job];
            v.Number? && lo <= v.x <= hi
  {
    var all := Collected(om, om.Keys, job);
    assert Assembled(env.job(job), all, env.parse).Value?;
    assert Parses(all, env.parse);
    MeanBounds(env.job(job), all, env.parse, lo, hi);
  }
}
