/** What single steps of an engine do, said in terms of the messages received and sent. */
module Steps {
  import opened Basics
  import opened Assembler
  import opened Observations
  import opened Quorum
  import opened Acceptance
  import opened Rounds

  // ---- What reaches a handler ----

  /** Exactly which messages a ready node handles: those with its epoch, round and leader, if the decoder knows their
      kind and, for PROGRESS-ROUND, the phase table does. */
  lemma AdmittedIff(env: Env, s: Node, m: Message)
    ensures Admits(env, s, m)
            <==> && m.Tagged?
                 && m.tag.epoch == s.config.epoch && m.tag.round == s.curRound && m.tag.leader == s.config.leader
                 && (m.body.BroadcastFinal? ==> env.wiring.decodesFinal)
                 && (m.body.FinalEcho? ==> env.wiring.decodesEcho)
                 && (m.body.ProgressRound? ==> env.wiring.decodesProgress && env.wiring.progressInTable)
  {
  }

  /** As written, five of the eight kinds are handled. */
  lemma AsWrittenHandles(env: Env, s: Node, m: Message)
    requires env.wiring == AS_WRITTEN && m.Tagged?
    requires m.tag.epoch == s.config.epoch && m.tag.round == s.curRound && m.tag.leader == s.config.leader
    ensures Admits(env, s, m) <==> || m.body.ObserveReq? || m.body.ObserveResp? || m.body.ObservationMap?
                                   || m.body.ReportReq? || m.body.ReportRes?
  {
  }

  lemma OtherwiseIgnored(env: Env, s: Node, m: Message, known: set<string>, observed: Option<seq<Response>>,
                         pick: Option<FinalReport>)
    requires !(s.ready && Admits(env, s, m))
    ensures OnReceive(env, s, m, known, observed, pick) == (s, [])
  {
  }

  /** A response, report, final report or echo whose signature does not verify for its sender, and a PROGRESS-ROUND
      whose signature does not verify for the leader, leave everything but the history as it was. */
  lemma UnsignedIgnored(env: Env, s: Node, m: Message, known: set<string>, observed: Option<seq<Response>>,
                        pick: Option<FinalReport>)
    requires s.ready && Admits(env, s, m)
    requires m.body.ObserveResp? || m.body.ReportRes? || m.body.BroadcastFinal? || m.body.FinalEcho?
             || m.body.ProgressRound?
    requires var signer := if m.body.ProgressRound? then s.config.leader else m.from;
             !(env.isKey(signer) && env.verify(signer, m.tag, m.body, m.sig))
    ensures OnReceive(env, s, m, known, observed, pick) == (s.(history := s.history + [Admitted(m, known)]), [])
  {
  }

  // ---- OBSERVE-REQ ----

  /** What is cached are the IDs of the jobs before the first that is no direct request or has a bad template. */
  lemma {:induction false} CastableMeaning(jobs: seq<JobInfo>)
    ensures forall k :: 0 <= k < |Castable(jobs)| ==>
              Castable(jobs)[k] == jobs[k].jobId && jobs[k].jobType == "directrequest" && jobs[k].templateParses
    ensures |Castable(jobs)| < |jobs| ==>
              var first := jobs[|Castable(jobs)|];
              !(first.jobType == "directrequest" && first.templateParses)
  {
    if jobs != [] && Instantiates(jobs[0]) {
      CastableMeaning(jobs[1..]);
    }
  }

  /** All jobs can be instantiated. */
  predicate AllDirect(jobs: seq<JobInfo>) {
    forall k :: 0 <= k < |jobs| ==> jobs[k].jobType == "directrequest" && jobs[k].templateParses
  }

  lemma AllCastable(jobs: seq<JobInfo>)
    ensures AllDirect(jobs) <==> |Castable(jobs)| == |jobs|
  {
    CastableMeaning(jobs);
  }

  /** A node that handles an OBSERVE-REQ up to round 10 sends its observations to the leader, with the present tag, iff
      all jobs are direct requests with good templates and all were observed, and otherwise sends nothing. */
  lemma ObserveReqAnswered(env: Env, s: Node, m: Message, known: set<string>, observed: Option<seq<Response>>,
                           pick: Option<FinalReport>)
    requires s.ready && Admits(env, s, m) && m.body.ObserveReq? && s.curRound <= 10
    ensures OnReceive(env, s, m, known, observed, pick).1
            == if observed.Some? && forall k :: 0 <= k < |m.body.jobs| ==>
                    m.body.jobs[k].jobType == "directrequest" && m.body.jobs[k].templateParses
               then [ToLeader(s.config.leader, Tag(s.config.epoch, s.curRound, s.config.leader),
                              ObserveResp(observed.value))]
               else []
  {
    AllCastable(m.body.jobs);
  }

  /** Beyond round 10 it calls for a new epoch and stops. */
  lemma LastRoundStops(env: Env, s: Node, m: Message, known: set<string>, observed: Option<seq<Response>>,
                       pick: Option<FinalReport>)
    requires s.ready && Admits(env, s, m) && m.body.ObserveReq? && s.curRound > 10
    ensures OnReceive(env, s, m, known, observed, pick).1 == [NewEpoch]
    ensures OnReceive(env, s, m, known, observed, pick).0.stopped
  {
  }

  // ---- The final report ----

  /** When a verified report makes n entries and they assemble, the final phase is signalled, and handling it broadcasts
      the assembled report with the present tag. */
  lemma AssemblyIsBroadcast(env: Env, s: Node, m: Message, known: set<string>, observed: Option<seq<Response>>,
                            fin: FinalReport)
    requires s.ready && Admits(env, s, m) && m.body.ReportRes?
    requires env.isKey(m.from) && env.verify(m.from, m.tag, m.body, m.sig) && |s.ls.reports| + 1 >= s.config.n
    ensures var s' := OnReceive(env, s, m, known, observed, Some(fin)).0;
            && s'.ls.reports == s.ls.reports + [Report(m.from, m.body.reports, m.sig)]
            && s'.ls.finalReport == Some(fin) && PhaseFinal in s'.pending
            && OnHandle(s', PhaseFinal).1
               == [ToAll(Tag(s.config.epoch, s.curRound, s.config.leader), BroadcastFinal(fin))]
  {
  }

  /** The distinct signatories whose signature verifies for the broadcast `m` itself. */
  function SignersOf(env: Env, m: Message, sigs: seq<Signatory>): set<string>
    requires m.Tagged?
  {
    set x | x in sigs && env.verify(x.id, m.tag, m.body, x.sign) :: x.id
  }

  /** The first `k` signatories have parseable, known IDs only, and f + 1 distinct ones sign the broadcast. */
  ghost predicate SignedUpTo(env: Env, f: nat, m: Message, known: set<string>, k: nat)
    requires m.Tagged? && m.body.BroadcastFinal? && k <= |m.body.final.signatories|
  {
    var sigs := m.body.final.signatories;
    |SignersOf(env, m, sigs[..k])| >= f + 1 && forall x :: x in sigs[..k] ==> env.isKey(x.id) && x.id in known
  }

  lemma VettedIsSigned(env: Env, f: nat, m: Message, known: set<string>, k: nat)
    requires m.Tagged? && m.body.BroadcastFinal? && k <= |m.body.final.signatories|
    ensures var sigs, valid := m.body.final.signatories, SignsPayload(env, m.tag, m.body);
            SignedUpTo(env, f, m, known, k)
            <==> Vetted(sigs[..k], known, env.isKey) && |ValidIds(sigs[..k], valid)| >= f + 1
  {
    var sigs, valid := m.body.final.signatories, SignsPayload(env, m.tag, m.body);
    assert ValidIds(sigs[..k], valid) == SignersOf(env, m, sigs[..k]);
  }

  /** A final report is taken iff its broadcast verifies for the sender and some stretch of signatories from the front
      is known throughout and has f + 1 distinct ones whose signature verifies for the broadcast. */
  lemma TakenIffSigned(env: Env, f: nat, m: Message, known: set<string>)
    requires m.Tagged? && m.body.BroadcastFinal?
    ensures TakesFinal(env, f, m, known)
            <==> && env.isKey(m.from) && env.verify(m.from, m.tag, m.body, m.sig)
                 && exists k :: 0 <= k <= |m.body.final.signatories| && SignedUpTo(env, f, m, known, k)
  {
    forall k | 0 <= k <= |m.body.final.signatories|
      ensures SignedUpTo(env, f, m, known, k)
              <==> Vetted(m.body.final.signatories[..k], known, env.isKey)
                   && |ValidIds(m.body.final.signatories[..k], SignsPayload(env, m.tag, m.body))| >= f + 1
    {
      VettedIsSigned(env, f, m, known, k);
    }
  }

  /** A follower that takes a final report caches it and echoes to the leader; any other keeps what it had and is
      silent. */
  lemma TakenIsEchoed(env: Env, s: Node, m: Message, known: set<string>, observed: Option<seq<Response>>,
                      pick: Option<FinalReport>)
    requires s.ready && Admits(env, s, m) && m.body.BroadcastFinal?
    ensures var step := OnReceive(env, s, m, known, observed, pick);
            if TakesFinal(env, s.config.f, m, known)
            then step.0.cache.finalReport == m.body.final
                 && step.1 == [ToLeader(s.config.leader, Tag(s.config.epoch, s.curRound, s.config.leader), FinalEcho)]
            else step.0.cache == s.cache && step.1 == []
  {
  }

  // ---- The end of a round ----

  /** A handled echo is counted iff the peer flag is set, its signature verifies and its sender is known; a counted one
      signals transmission iff it makes f + 1. */
  lemma EchoSignals(env: Env, s: Node, m: Message, known: set<string>, observed: Option<seq<Response>>,
                    pick: Option<FinalReport>)
    requires s.ready && Admits(env, s, m) && m.body.FinalEcho?
    ensures var s' := OnReceive(env, s, m, known, observed, pick).0;
            var counts := env.wiring.peerFlagSet && env.isKey(m.from) && env.verify(m.from, m.tag, m.body, m.sig)
                          && m.from in known;
            && s'.ls.attestations == s.ls.attestations + (if counts then 1 else 0)
            && s'.pending == if counts && s.ls.attestations + 1 >= s.config.f + 1
                             then s.pending + multiset{PhaseTransmit} else s.pending
  {
  }

  /** Handling the transmit phase broadcasts PROGRESS-ROUND and starts a round change iff all reported jobs are
      registered; without a final report it ends the node. */
  lemma TransmitStarts(s: Node)
    requires PhaseTransmit in s.pending
    ensures var step := OnHandle(s, PhaseTransmit);
            match s.ls.finalReport
            case None => step.0.stopped && step.0.owed == s.owed && step.1 == []
            case Some(fin) =>
              && step.0.stopped == s.stopped
              && if forall j :: j in fin.report ==> j in s.registry
                 then step.0.owed == s.owed + 1
                      && step.1 == [ToAll(Tag(s.config.epoch, s.curRound, s.config.leader), ProgressRound)]
                 else step.0.owed == s.owed && step.1 == []
  {
  }

  /** A handled PROGRESS-ROUND starts a round change iff its signature verifies for the leader, whoever sent it. */
  lemma ProgressRoundObeyed(env: Env, s: Node, m: Message, known: set<string>, observed: Option<seq<Response>>,
                            pick: Option<FinalReport>)
    requires s.ready && Admits(env, s, m) && m.body.ProgressRound?
    ensures var step := OnReceive(env, s, m, known, observed, pick);
            step.1 == [] &&
            step.0.owed == s.owed + if env.isKey(s.config.leader) && env.verify(s.config.leader, m.tag, m.body, m.sig)
                                    then 1 else 0
  {
  }
}
