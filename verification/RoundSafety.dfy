/** Safety over all runs: what a node stores is what the messages of its current round say. */
module RoundSafety {
  import opened Basics
  import opened Assembler
  import opened Observations
  import opened Quorum
  import opened Rounds
  import Schedule

  // ---- What a list of admitted messages says ----

  /** Each sender's last verified responses. */
  ghost function LastSent(env: Env, h: seq<Admitted>): map<string, seq<Response>> {
    if h == [] then map[] else
      var before, m := LastSent(env, h[..|h| - 1]), h[|h| - 1].msg;
      if m.Tagged? && m.body.ObserveResp? && Verified(env, m) then before[m.from := m.body.responses] else before
  }

  ghost function ObservationsIn(env: Env, h: seq<Admitted>): ObsMap {
    GroupAll(LastSent(env, h))
  }

  /** The verified reports, in order of arrival. */
  ghost function ReportsIn(env: Env, h: seq<Admitted>): seq<Report> {
    if h == [] then [] else
      var m := h[|h| - 1].msg;
      ReportsIn(env, h[..|h| - 1]) + if m.Tagged? && m.body.ReportRes? && Verified(env, m) then [ReportOf(m)] else []
  }

  ghost function EchoesIn(env: Env, h: seq<Admitted>): nat {
    if h == [] then 0 else
      var a := h[|h| - 1];
      EchoesIn(env, h[..|h| - 1])
      + if a.msg.Tagged? && a.msg.body.FinalEcho? && SignedPeer(env, a.msg, a.known) then 1 else 0
  }

  ghost function ResponsesIn(env: Env, h: seq<Admitted>): nat {
    if h == [] then 0 else
      var m := h[|h| - 1].msg;
      ResponsesIn(env, h[..|h| - 1]) + if m.Tagged? && m.body.ObserveResp? && Verified(env, m) then 1 else 0
  }

  ghost function JobsIn(h: seq<Admitted>): seq<string> {
    if h == [] then [] else
      var m := h[|h| - 1].msg;
      JobsIn(h[..|h| - 1])
      + if m.Tagged? && m.body.ObserveReq? && m.tag.round <= Schedule.MAX_ROUNDS then Castable(m.body.jobs) else []
  }

  /** The last observation map that could be decoded. */
  ghost function CachedIn(h: seq<Admitted>): ObsMap {
    if h == [] then map[] else
      var m := h[|h| - 1].msg;
      if m.Tagged? && m.body.ObservationMap? && m.body.doc.Object? then Decode(m.body.doc) else CachedIn(h[..|h| - 1])
  }

  /** The reports computed for the last request that matched the map cached before it. */
  ghost function JobReportsIn(env: Env, h: seq<Admitted>): JobReports {
    if h == [] then map[] else
      var before, m := h[..|h| - 1], h[|h| - 1].msg;
      if m.Tagged? && m.body.ReportReq? && Matches(env, m.body.doc, CachedIn(before))
      then JobReportsOf(env, Decode(m.body.doc)) else JobReportsIn(env, before)
  }

  ghost function FinalIn(env: Env, f: nat, h: seq<Admitted>): FinalReport {
    if h == [] then EMPTY_FINAL else
      var a := h[|h| - 1];
      if a.msg.Tagged? && a.msg.body.BroadcastFinal? && TakesFinal(env, f, a.msg, a.known)
      then a.msg.body.final else FinalIn(env, f, h[..|h| - 1])
  }

  ghost predicate LeaderHalf(env: Env, ls: LeaderState, h: seq<Admitted>) {
    && ls.observations == ObservationsIn(env, h)
    && ls.reports == [PLACEHOLDER] + ReportsIn(env, h)
    && ls.attestations == EchoesIn(env, h)
  }

  ghost predicate CacheHalf(env: Env, f: nat, c: Cache, h: seq<Admitted>) {
    && c.observeN == ResponsesIn(env, h)
    && c.jobs == JobsIn(h)
    && c.followerObs == CachedIn(h)
    && c.jobReports == JobReportsIn(env, h)
    && c.finalReport == FinalIn(env, f, h)
  }

  // ---- The invariant ----

  ghost function WithTag(h: seq<Admitted>, tag: Tag): seq<Admitted> {
    if h == [] then [] else
      var a := h[|h| - 1];
      WithTag(h[..|h| - 1], tag) + if a.msg.Tagged? && a.msg.tag == tag then [a] else []
  }

  /** The messages admitted in the node's current round. */
  ghost function Current(s: Node): seq<Admitted> {
    WithTag(s.history, TagOf(s))
  }

  ghost predicate TagsWithin(s: Node) {
    forall a :: a in s.history ==>
      a.msg.Tagged? && a.msg.tag.epoch == s.config.epoch && a.msg.tag.leader == s.config.leader
      && a.msg.tag.round <= s.curRound
  }

  predicate LeadsItself(s: Node) {
    s.config.id == s.config.leader
  }

  /** At the leader, observations, reports and echo count are those of the current round alone while the cache
      covers all rounds since initialisation; at any other node it is the other way round. */
  ghost predicate RoundState(env: Env, s: Node) {
    && LeaderHalf(env, s.ls, if LeadsItself(s) then Current(s) else s.history)
    && CacheHalf(env, s.config.f, s.cache, if LeadsItself(s) then s.history else Current(s))
  }

  /** What is known of the leader's final report: once the trigger has fired, the reports collected so far have
      been assembled, and a successful assembly is the stored final report. */
  ghost predicate FinalCurrent(env: Env, s: Node) {
    |s.ls.reports| >= 2 && |s.ls.reports| >= s.config.n ==>
      exists out :: IsAssembly(s.ls.reports, s.config.f + 1, env.digest, out) && (out.Some? ==> s.ls.finalReport == out)
  }

  /** A stored final report was assembled from the first reports of the list, at least n of them. */
  ghost predicate FinalFromReports(env: Env, s: Node) {
    s.ls.finalReport == None || s.ls.finalReport == Some(EMPTY_FINAL) ||
    exists k :: 2 <= k <= |s.ls.reports| && k >= s.config.n
                && IsAssembly(s.ls.reports[..k], s.config.f + 1, env.digest, s.ls.finalReport)
  }

  /** No echo has been counted, no transmission signalled, and the node is in its first round. */
  ghost predicate Stuck(s: Node) {
    s.ls.attestations == 0 && PhaseTransmit !in s.pending && s.owed == 0 && s.curRound == INIT_ROUND
  }

  ghost predicate Invariant(env: Env, s: Node) {
    && TagsWithin(s)
    && s.curRound >= INIT_ROUND
    && |s.ls.reports| >= 1 && s.ls.reports[0] == PLACEHOLDER
    && RoundState(env, s)
    && FinalCurrent(env, s)
    && FinalFromReports(env, s)
    && (!LetsAdvance(env.wiring) ==> Stuck(s))
  }

  // ---- Extending the history ----

  lemma WithTagSnoc(h: seq<Admitted>, a: Admitted, tag: Tag)
    requires a.msg.Tagged? && a.msg.tag == tag
    ensures WithTag(h + [a], tag) == WithTag(h, tag) + [a]
  {
    assert (h + [a])[..|h|] == h;
  }

  lemma {:induction false} NoneLater(h: seq<Admitted>, tag: Tag)
    requires forall a :: a in h ==> a.msg.Tagged? && a.msg.tag.round < tag.round
    ensures WithTag(h, tag) == []
  {
    if h != [] {
      assert h[|h| - 1] in h;
      NoneLater(h[..|h| - 1], tag);
    }
  }

  /** What one more message adds to the leader's half. */
  lemma LeaderReplay(env: Env, h: seq<Admitted>, a: Admitted)
    requires a.msg.Tagged?
    ensures ObservationsIn(env, h + [a])
            == (if a.msg.body.ObserveResp? && Verified(env, a.msg)
                then ObservationsIn(env, h)[a.msg.from := Grouped(a.msg.body.responses)] else ObservationsIn(env, h))
    ensures ReportsIn(env, h + [a]) == ReportsIn(env, h)
                                       + if a.msg.body.ReportRes? && Verified(env, a.msg) then [ReportOf(a.msg)] else []
    ensures EchoesIn(env, h + [a]) == EchoesIn(env, h)
                                      + if a.msg.body.FinalEcho? && SignedPeer(env, a.msg, a.known) then 1 else 0
  {
    assert (h + [a])[..|h|] == h;
    if a.msg.body.ObserveResp? && Verified(env, a.msg) {
      GroupAllUpdate(LastSent(env, h), a.msg.from, a.msg.body.responses);
    }
  }

  /** What one more message adds to the cache. */
  lemma CacheReplay(env: Env, f: nat, h: seq<Admitted>, a: Admitted)
    requires a.msg.Tagged?
    ensures ResponsesIn(env, h + [a]) == ResponsesIn(env, h)
                                         + if a.msg.body.ObserveResp? && Verified(env, a.msg) then 1 else 0
    ensures JobsIn(h + [a]) == JobsIn(h) + if a.msg.body.ObserveReq? && a.msg.tag.round <= Schedule.MAX_ROUNDS
                                           then Castable(a.msg.body.jobs) else []
    ensures CachedIn(h + [a]) == if a.msg.body.ObservationMap? && a.msg.body.doc.Object?
                                 then Decode(a.msg.body.doc) else CachedIn(h)
    ensures JobReportsIn(env, h + [a]) == if a.msg.body.ReportReq? && Matches(env, a.msg.body.doc, CachedIn(h))
                                          then JobReportsOf(env, Decode(a.msg.body.doc)) else JobReportsIn(env, h)
    ensures FinalIn(env, f, h + [a]) == if a.msg.body.BroadcastFinal? && TakesFinal(env, f, a.msg, a.known)
                                        then a.msg.body.final else FinalIn(env, f, h)
  {
    assert (h + [a])[..|h|] == h;
  }

  ghost predicate LeaderEffect(env: Env, ls: LeaderState, ls': LeaderState, a: Admitted)
    requires a.msg.Tagged?
  {
    && ls'.observations == (if a.msg.body.ObserveResp? && Verified(env, a.msg)
                            then ls.observations[a.msg.from := Grouped(a.msg.body.responses)] else ls.observations)
    && ls'.reports == ls.reports + (if a.msg.body.ReportRes? && Verified(env, a.msg) then [ReportOf(a.msg)] else [])
    && ls'.attestations == ls.attestations + if a.msg.body.FinalEcho? && SignedPeer(env, a.msg, a.known) then 1 else 0
  }

  ghost predicate CacheEffect(env: Env, f: nat, c: Cache, c': Cache, a: Admitted)
    requires a.msg.Tagged?
  {
    && c'.observeN == c.observeN + (if a.msg.body.ObserveResp? && Verified(env, a.msg) then 1 else 0)
    && c'.jobs == c.jobs + (if a.msg.body.ObserveReq? && a.msg.tag.round <= Schedule.MAX_ROUNDS
                            then Castable(a.msg.body.jobs) else [])
    && c'.followerObs == (if a.msg.body.ObservationMap? && a.msg.body.doc.Object?
                          then Decode(a.msg.body.doc) else c.followerObs)
    && c'.jobReports == (if a.msg.body.ReportReq? && Matches(env, a.msg.body.doc, c.followerObs)
                         then JobReportsOf(env, Decode(a.msg.body.doc)) else c.jobReports)
    && c'.finalReport == (if a.msg.body.BroadcastFinal? && TakesFinal(env, f, a.msg, a.known)
                          then a.msg.body.final else c.finalReport)
  }

  /** What handling an admitted message changes, and that it leaves role, round and history alone. */
  ghost predicate Effect(env: Env, s: Node, s': Node, a: Admitted)
    requires a.msg.Tagged?
  {
    && s'.config == s.config && s'.curRound == s.curRound && s'.history == s.history
    && LeaderEffect(env, s.ls, s'.ls, a)
    && CacheEffect(env, s.config.f, s.cache, s'.cache, a)
  }

  lemma ObserveReqEffect(env: Env, s: Node, a: Admitted, observed: Option<seq<Response>>)
    requires a.msg.Tagged? && a.msg.body.ObserveReq? && a.msg.tag == TagOf(s)
    ensures Effect(env, s, OnObserveReq(s, a.msg.body.jobs, observed).0, a)
  {
  }

  lemma ObserveRespEffect(env: Env, s: Node, a: Admitted)
    requires a.msg.Tagged? && a.msg.body.ObserveResp?
    ensures Effect(env, s, OnObserveResp(env, s, a.msg), a)
  {
  }

  lemma ObservationMapEffect(env: Env, s: Node, a: Admitted)
    requires a.msg.Tagged? && a.msg.body.ObservationMap?
    ensures Effect(env, s, OnObservationMap(s, a.msg.body.doc), a)
  {
  }

  lemma ReportReqEffect(env: Env, s: Node, a: Admitted)
    requires a.msg.Tagged? && a.msg.body.ReportReq?
    ensures Effect(env, s, OnReportReq(env, s, a.msg.body.doc).0, a)
  {
  }

  lemma ReportResEffect(env: Env, s: Node, a: Admitted, pick: Option<FinalReport>)
    requires a.msg.Tagged? && a.msg.body.ReportRes?
    ensures Effect(env, s, OnReportRes(env, s, a.msg, pick), a)
  {
  }

  lemma BroadcastFinalEffect(env: Env, s: Node, a: Admitted)
    requires a.msg.Tagged? && a.msg.body.BroadcastFinal?
    ensures Effect(env, s, OnBroadcastFinal(env, s, a.msg, a.known).0, a)
  {
  }

  lemma FinalEchoEffect(env: Env, s: Node, a: Admitted)
    requires a.msg.Tagged? && a.msg.body.FinalEcho?
    ensures Effect(env, s, OnFinalEcho(env, s, a.msg, a.known), a)
  {
  }

  lemma ProgressRoundEffect(env: Env, s: Node, a: Admitted)
    requires a.msg.Tagged? && a.msg.body.ProgressRound?
    ensures Effect(env, s, OnProgressRound(env, s, a.msg), a)
  {
  }

  lemma MessageEffect(env: Env, s: Node, a: Admitted, observed: Option<seq<Response>>, pick: Option<FinalReport>)
    requires a.msg.Tagged? && a.msg.tag == TagOf(s)
    ensures Effect(env, s, OnMessage(env, s, a.msg, a.known, observed, pick).0, a)
  {
    match a.msg.body
    case ObserveReq(_) => ObserveReqEffect(env, s, a, observed);
    case ObserveResp(_) => ObserveRespEffect(env, s, a);
    case ObservationMap(_) => ObservationMapEffect(env, s, a);
    case ReportReq(_) => ReportReqEffect(env, s, a);
    case ReportRes(_) => ReportResEffect(env, s, a, pick);
    case BroadcastFinal(_) => BroadcastFinalEffect(env, s, a);
    case FinalEcho => FinalEchoEffect(env, s, a);
    case ProgressRound => ProgressRoundEffect(env, s, a);
  }

  lemma LeaderHalfSnoc(env: Env, ls: LeaderState, ls': LeaderState, h: seq<Admitted>, a: Admitted)
    requires a.msg.Tagged? && LeaderHalf(env, ls, h) && LeaderEffect(env, ls, ls', a)
    ensures LeaderHalf(env, ls', h + [a])
  {
    LeaderReplay(env, h, a);
    var now := h + [a];
    var more := if a.msg.body.ReportRes? && Verified(env, a.msg) then [ReportOf(a.msg)] else [];
    assert ls'.reports == [PLACEHOLDER] + (ReportsIn(env, h) + more);
    assert ls'.reports == [PLACEHOLDER] + ReportsIn(env, now);
    assert ls'.observations == ObservationsIn(env, now);
    assert ls'.attestations == EchoesIn(env, now);
  }

  lemma CacheHalfSnoc(env: Env, f: nat, c: Cache, c': Cache, h: seq<Admitted>, a: Admitted)
    requires a.msg.Tagged? && CacheHalf(env, f, c, h) && CacheEffect(env, f, c, c', a)
    ensures CacheHalf(env, f, c', h + [a])
  {
    CacheReplay(env, f, h, a);
  }

  // ---- Preservation, step by step ----

  lemma ReceiveKeeps(env: Env, s: Node, m: Message, known: set<string>, observed: Option<seq<Response>>,
                     pick: Option<FinalReport>)
    requires Invariant(env, s) && Enabled(env, s, Receive(m, known, observed, pick))
    ensures Invariant(env, OnReceive(env, s, m, known, observed, pick).0)
  {
    if s.ready && Admits(env, s, m) {
      var r, a := Recorded(s, m, known), Admitted(m, known);
      WithTagSnoc(s.history, a, TagOf(s));
      MessageEffect(env, r, a, observed, pick);
      var s' := OnMessage(env, r, m, known, observed, pick).0;
      LeaderHalfSnoc(env, s.ls, s'.ls, if LeadsItself(s) then Current(s) else s.history, a);
      CacheHalfSnoc(env, s.config.f, s.cache, s'.cache, if LeadsItself(s) then s.history else Current(s), a);
      ReportsKept(env, r, m, known, observed, pick);
      FinalKept(env, s, m, known, observed, pick);
      if !LetsAdvance(env.wiring) {
        StuckKept(env, r, m, known, observed, pick);
      }
    }
  }

  lemma ReportsKept(env: Env, s: Node, m: Message, known: set<string>, observed: Option<seq<Response>>,
                    pick: Option<FinalReport>)
    requires m.Tagged?
    ensures var s' := OnMessage(env, s, m, known, observed, pick).0;
            if m.body.ReportRes? then s' == OnReportRes(env, s, m, pick)
            else s'.ls.reports == s.ls.reports && s'.ls.finalReport == s.ls.finalReport && s'.config == s.config
  {
  }

  lemma StuckKept(env: Env, s: Node, m: Message, known: set<string>, observed: Option<seq<Response>>,
                  pick: Option<FinalReport>)
    requires m.Tagged? && Decoded(env.wiring, m.body) && InPhaseTable(env.wiring, m.body)
    requires !LetsAdvance(env.wiring) && Stuck(s)
    ensures Stuck(OnMessage(env, s, m, known, observed, pick).0)
  {
  }

  lemma FinalKept(env: Env, s: Node, m: Message, known: set<string>, observed: Option<seq<Response>>,
                  pick: Option<FinalReport>)
    requires s.ready && Admits(env, s, m) && Enabled(env, s, Receive(m, known, observed, pick))
    requires |s.ls.reports| >= 1 && s.ls.reports[0] == PLACEHOLDER && FinalCurrent(env, s) && FinalFromReports(env, s)
    ensures var s' := OnMessage(env, Recorded(s, m, known), m, known, observed, pick).0;
            && FinalCurrent(env, s') && FinalFromReports(env, s')
            && |s'.ls.reports| >= 1 && s'.ls.reports[0] == PLACEHOLDER
  {
    var r := Recorded(s, m, known);
    ReportsKept(env, r, m, known, observed, pick);
    FinalUnmoved(env, s, r);
    if m.body.ReportRes? {
      if Assembles(env, s, m) {
        assert IsAssembly(r.ls.reports + [ReportOf(m)], r.config.f + 1, env.digest, pick);
      }
      ReportAdded(env, r, m, pick);
    } else {
      FinalUnmoved(env, r, OnMessage(env, r, m, known, observed, pick).0);
    }
  }

  lemma ReportAdded(env: Env, s: Node, m: Message, pick: Option<FinalReport>)
    requires m.Tagged? && m.body.ReportRes?
    requires Verified(env, m) && |s.ls.reports| + 1 >= s.config.n ==>
               IsAssembly(s.ls.reports + [ReportOf(m)], s.config.f + 1, env.digest, pick)
    requires |s.ls.reports| >= 1 && s.ls.reports[0] == PLACEHOLDER && FinalCurrent(env, s) && FinalFromReports(env, s)
    ensures var s' := OnReportRes(env, s, m, pick);
            && FinalCurrent(env, s') && FinalFromReports(env, s')
            && |s'.ls.reports| >= 1 && s'.ls.reports[0] == PLACEHOLDER
  {
    if Verified(env, m) {
      ReportCounted(env, s, OnReportRes(env, s, m, pick), ReportOf(m), pick);
    }
  }

  lemma ReportCounted(env: Env, s: Node, s': Node, r: Report, pick: Option<FinalReport>)
    requires s'.config == s.config && s'.ls.reports == s.ls.reports + [r]
    requires s'.ls.finalReport == if |s.ls.reports| + 1 >= s.config.n && pick.Some? then pick else s.ls.finalReport
    requires |s.ls.reports| + 1 >= s.config.n ==> IsAssembly(s'.ls.reports, s.config.f + 1, env.digest, pick)
    requires |s.ls.reports| >= 1 && FinalFromReports(env, s)
    ensures FinalCurrent(env, s') && FinalFromReports(env, s')
  {
    if |s.ls.reports| + 1 >= s.config.n && pick.Some? {
      assert s'.ls.reports[..|s.ls.reports| + 1] == s'.ls.reports;
    } else if s.ls.finalReport != None && s.ls.finalReport != Some(EMPTY_FINAL) {
      OlderAssembly(env, s, r);
    }
  }

  lemma OlderAssembly(env: Env, s: Node, r: Report)
    requires FinalFromReports(env, s)
    requires s.ls.finalReport != None && s.ls.finalReport != Some(EMPTY_FINAL)
    ensures exists k :: 2 <= k <= |s.ls.reports| + 1 && k >= s.config.n
                        && IsAssembly((s.ls.reports + [r])[..k], s.config.f + 1, env.digest, s.ls.finalReport)
  {
    var k :| 2 <= k <= |s.ls.reports| && k >= s.config.n
             && IsAssembly(s.ls.reports[..k], s.config.f + 1, env.digest, s.ls.finalReport);
    assert (s.ls.reports + [r])[..k] == s.ls.reports[..k];
  }

  /** The invariant does not depend on phase, signals, schedule or readiness. */
  lemma Unmoved(env: Env, s: Node, s': Node)
    requires Invariant(env, s)
    requires s'.config == s.config && s'.curRound == s.curRound && s'.history == s.history && s'.cache == s.cache
    requires s'.ls == s.ls.(phase := s'.ls.phase)
    requires !LetsAdvance(env.wiring) ==> Stuck(s')
    ensures Invariant(env, s')
  {
    assert TagOf(s') == TagOf(s) && Current(s') == Current(s);
    FinalUnmoved(env, s, s');
    assert LeaderHalf(env, s'.ls, if LeadsItself(s) then Current(s) else s.history);
  }

  lemma FinalUnmoved(env: Env, s: Node, s': Node)
    requires FinalCurrent(env, s) && FinalFromReports(env, s)
    requires s'.config == s.config && s'.ls.reports == s.ls.reports && s'.ls.finalReport == s.ls.finalReport
    ensures FinalCurrent(env, s') && FinalFromReports(env, s')
  {
  }

  lemma HandleKeeps(env: Env, s: Node, phase: Phase)
    requires Invariant(env, s) && phase in s.pending
    ensures Invariant(env, OnHandle(s, phase).0)
  {
    HandleFrame(s, phase);
    if Stuck(s) {
      StuckHandled(s, phase);
    }
    Unmoved(env, s, OnHandle(s, phase).0);
  }

  lemma HandleFrame(s: Node, phase: Phase)
    requires phase in s.pending
    ensures var s' := OnHandle(s, phase).0;
            && s'.config == s.config && s'.curRound == s.curRound && s'.history == s.history && s'.cache == s.cache
            && s'.ls == s.ls.(phase := s'.ls.phase)
  {
  }

  lemma StuckHandled(s: Node, phase: Phase)
    requires phase in s.pending && Stuck(s)
    ensures Stuck(OnHandle(s, phase).0)
  {
  }

  lemma NothingSaid(env: Env, f: nat, phase: Phase, fin: Option<FinalReport>)
    ensures LeaderHalf(env, InitialLeaderState(phase).(finalReport := fin), [])
    ensures CacheHalf(env, f, EMPTY_CACHE, [])
  {
    assert GroupAll(map[]) == map[];
  }

  lemma ProgressKeeps(env: Env, s: Node)
    requires Invariant(env, s) && s.owed > 0
    ensures Invariant(env, OnProgress(s)) && Current(OnProgress(s)) == []
  {
    var s' := OnProgress(s);
    NoneLater(s.history, TagOf(s'));
    NothingSaid(env, s.config.f, PhaseObserve, Some(EMPTY_FINAL));
    assert Current(s') == [];
    assert RoundState(env, s');
    ProgressFinal(env, s);
  }

  lemma ProgressFinal(env: Env, s: Node)
    requires s.owed > 0 && FinalCurrent(env, s) && FinalFromReports(env, s)
    ensures FinalCurrent(env, OnProgress(s)) && FinalFromReports(env, OnProgress(s))
  {
    if !LeadsItself(s) {
      FinalUnmoved(env, s, OnProgress(s));
    }
  }

  lemma StartKeeps(env: Env, s: Node, registry: set<string>, queue: seq<JobInfo>)
    requires Invariant(env, s)
    ensures Invariant(env, OnStart(s, registry, queue))
  {
    Unmoved(env, s, OnStart(s, registry, queue));
  }

  lemma InitHolds(env: Env, s: Node, config: Config)
    requires !LetsAdvance(env.wiring) ==> PhaseTransmit !in s.pending && s.owed == 0
    ensures Invariant(env, OnInit(s, config))
  {
    var s' := OnInit(s, config);
    NothingSaid(env, config.f, s'.ls.phase, None);
    assert Current(s') == [];
  }

  lemma StepKeeps(env: Env, s: Node, e: Event)
    requires Invariant(env, s) && Enabled(env, s, e)
    ensures Invariant(env, Step(env, s, e).0)
  {
    match e
    case Init(config) => InitHolds(env, s, config);
    case Start(registry, queue) => StartKeeps(env, s, registry, queue);
    case Receive(m, known, observed, pick) => ReceiveKeeps(env, s, m, known, observed, pick);
    case Handle(phase) => HandleKeeps(env, s, phase);
    case Progress => ProgressKeeps(env, s);
  }

  lemma FirstHolds(env: Env, config: Config)
    ensures Invariant(env, FirstNode(config))
  {
    var leaderState := InitialLeaderState(PhaseNil);
    var created := Node(config, 0, false, false, leaderState, EMPTY_CACHE, map[], {}, multiset{}, 0, []);
    InitHolds(env, created, config);
  }

  lemma NextKeeps(env: Env, s: Node, e: Event, s': Node)
    requires Invariant(env, s) && Next(env, s, e, s')
    ensures Invariant(env, s')
  {
    StepKeeps(env, s, e);
  }

  lemma RunStep(env: Env, config: Config, states: seq<Node>, evs: seq<Event>, k: nat)
    requires IsRun(env, config, states, evs) && k < |evs| && Invariant(env, states[k])
    ensures Invariant(env, states[k + 1])
  {
    assert Next(env, states[k], evs[k], states[k + 1]);
    NextKeeps(env, states[k], evs[k], states[k + 1]);
  }

  /** Every state of every run satisfies the invariant. */
  lemma {:induction false} RunsKeepInvariant(env: Env, config: Config, states: seq<Node>, evs: seq<Event>, i: nat)
    requires IsRun(env, config, states, evs) && i < |states|
    ensures Invariant(env, states[i])
  {
    if i == 0 {
      FirstHolds(env, config);
    } else {
      RunsKeepInvariant(env, config, states, evs, i - 1);
      RunStep(env, config, states, evs, i - 1);
    }
  }
}
