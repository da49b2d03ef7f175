# Eavesdrop: a verified model of the reporting round

Eavesdrop is a Go prototype of an off-chain reporting committee. In every round of an epoch a leader collects
signed observations, sends the collected map back to the followers, each follower computes one report per job from
it, and the leader looks for values that f + 1 reports agree on, broadcasts them with signatories, and counts echoes.
This project models that round, the choice of the leader, the schedule, the job pipeline and the peer index, and
proves what they guarantee.

## How the project is organised

| file | contents |
|---|---|
| `Basics.dfy`, `FiniteSets.dfy`, `Lexicographic.dfy` | value types; cardinality facts; string order and key-sorted objects |
| `Assembler.dfy` | the mean of a job's observations |
| `Observations.dfy` | the observation map: canonical encoding, grouping by job, regrouping across senders |
| `Quorum.dfy`, `Consensus.dfy` | `assembleFinalReport` and what it guarantees |
| `Acceptance.dfy` | a follower's check of the signatories |
| `Schedule.dfy` | dealing the job queue over the rounds |
| `Rounds.dfy` | the reporting engine of one node as a state machine over atomic steps |
| `Steps.dfy` | what single steps do, in terms of the messages received and sent |
| `RoundSafety.dfy` | an invariant of every state of every run |
| `Engine.dfy` | the engine as a class whose methods carry out those steps |
| `Agreement.dfy` | round agreement and other results over runs of one node's engine |
| `Network.dfy`, `NetworkRun.dfy` | the engines of all nodes joined by a network; round agreement over their joint runs, and an example run |
| `Signing.dfy` | what a signature covers, and when followers accept an assembled report |
| `Progress.dfy` | which wirings let a run leave its first round, and how often jobs are announced |
| `Election.dfy` | leader selection, its agreement across nodes, the retry loop |
| `Pipeline.dfy` | direct-request jobs as a task interpreter, and slicing |
| `PeerIndex.dfy` | the two-way peer index over all interleavings |

## Reading the model

- Go visits maps in no fixed order. Every loop over a map picks its next key arbitrarily and is proved against a
  specification without an order (multisets, sets, or "for some order"), so the results hold for every order.
- A handler, a timer firing, and the work of `progressToNextRound` are one atomic step each. Signalled phases and
  started round changes wait in `pending` and `owed`, so they interleave with messages in every possible way.
- SHA-256 over JSON, document hashes, signatures and key parsing are functions of the environment `Env`. Where a result
  needs that hashes separate values, it says so for the values that occur (`NoCollision`, `NoForgery`).
- Numbers are exact reals: float addition in arbitrary order is not associative.
- Every round's report list starts with an empty placeholder, as in the code, so the trigger on n entries fires after
  n - 1 reports. `HonestQuorum` shows that the honest reports still reach f + 1.
- `Wiring` holds the spots where the code as written drops what it receives: the peer flag of `VerifySigAndPeer` is
  never set, `ProgressRound` is missing from the phase table, and the decoder has no case for FINAL-REPORT, FINAL-ECHO
  and PROGRESS-ROUND. All run results hold for every wiring; `AdvancesIff` says which wirings let a run leave its first
  round. Results on a follower's check of a final report speak of the handler that stands behind the decoder.
- In a joint run the network delays, repeats and reorders what nodes send, and delivers anything at all under other IDs.
  That it puts no words into a node's mouth is an assumption (`CanArrive`), as signatures do not cover a message's content.

## Where the code differs from its comments

- The comment at ocr/reporter.go:587 speaks of the leader's signature; the code verifies the sender's. The model
  follows the code (`TakesFinal`).
- Signatories signed their REPORT-RES (ocr/reporter.go:492-498), but followers verify them on the broadcast
  (ocr/reporter.go:612). The text is signed unhashed (crypto/keypairs.go:98-105), and its leading 32 bytes, all that
  ECDSA over P-256 uses, lie within epoch, round and leader (`TagDecides`). So these signatures do verify
  (`TakenIffKnownQuorum`), but they vouch for the round and not for the report's content: `VerdictIgnoresContent`, and
  `AcceptedHasHonestSigner` is about who signed and no more.
- A follower checks every signatory against its peer index, which does not hold its own ID. One that is among the first
  f + 1 signatories refuses the report it helped to assemble: `AssembledIsTakenIff` gives the exact condition and
  `ReportersDoNotEcho` counts the echoes that are missing.
- A leader can broadcast different maps in one round, as each response beyond the threshold signals another grace phase:
  `LateResponseIsBroadcast`, `OneMapIff`.
- Reports are not counted once per sender: `RepeatedReportsWin`. The agreement results therefore bound the number of
  reports from faulty senders.
- A signatory list is kept per hash and not per job and hash: `BlockDistinctIff` says exactly when the signatories
  taken for a job are distinct, and `SharedHashRepeatsSender` gives a case where they are not.
- The leader's response count survives round changes: `GraceCountsAllRounds`.
- Buckets are numbered from 0 and rounds from 1, so the first bucket is never announced, and a round change does not
  signal the observe phase, so a start as leader announces one bucket at most: `AnnouncedJobs`, `ObserveSignals`.
- A handshake for an undiscovered network ID leaves the peer lock held for good: `LockedIff`, `LockedForever`.

## Model

| member | source | states |
|---|---|---|
| Network.NetworkAgreement | ocr/reporter.go:549-566 | In every interleaving of the engines of all nodes and of messages made up by others: if the round's requests come from the leader and are about one map, and at most f reports of a full round come from outside these nodes, the leader's final report is exactly what that map yields |
| Network.ReportFromBroadcast | ocr/reporter.go:444-498 | If the round's requests come from the leader, every report that it holds from a node running the program is what a map that the leader itself broadcast in this round yields, and that map holds the observations of verified messages delivered in this round |
| Agreement.LateResponseIsBroadcast | ocr/reporter.go:401-407 | A verified response beyond the threshold leads, through grace and report phase, to a further broadcast with the same tag, of the map with that response |
| Network.OneMapIff | ocr/leader.go:99-143 | All requests of a round are about one map iff the leader held the same observations whenever it handled the report phase |
| Network.NetRunsKeepInvariant | ocr/reporter.go:212-705 | In every joint state each engine satisfies its invariant, whatever arrived from a node was sent by it, every report sent answers a delivered request, and every request of a leader encodes observations delivered in the round |
| NetworkRun.AgreementHappens | ocr/reporter.go:549-566 | For any first-round jobs that can be instantiated and anything a follower observes of them there is a joint run that meets these hypotheses, from the announcement over the follower's own response to its report, and ends with what the response yields as final report |
| Network.ObservationsAnswered | ocr/reporter.go:325-361 | In every joint run, what a leader holds as the observations of a node running the program are responses that this node sent in the present round to answer a delivered OBSERVE-REQ |
| Agreement.FinalReportIsHonest | ocr/reporter.go:549-566 | In any run of the engine, once n list entries are collected, with at most f collected reports from faulty senders and the rest followers' answers about one observation map, the stored final report equals exactly what that map yields, and there is none beyond the empty initial one iff it yields nothing; later reports do not undo it |
| Agreement.AgreementApplies | ocr/reporter.go:549-566 | The hypotheses can be met for every committee size: any list of verified first-round reports, enough for n, at most f from faulty senders and the others carrying what the map yields, is collected in some run |
| Agreement.FinalValueBounded | ocr/reporter.go:467-478 | Under the same conditions each reported value lies between any bounds on the observations of its job |
| Agreement.HonestBroadcast | ocr/leader.go:145-192 | Under the same conditions, handling the final phase broadcasts exactly what the map yields |
| Agreement.JobReportedIff | ocr/reporter.go:457-478 | A follower reports a job iff it is a numeric direct request, some sender observed it and all observations of it are numbers |
| Agreement.JobReportValue | ocr/reporter.go:457-478 | The reported value times the number of observations of the job by all senders is their sum |
| Agreement.AnswersAreKept | ocr/reporter.go:388-394 | In any run every response in a sender's last verified message of the round is in the leader's map under its sender and job |
| Agreement.FollowersAgree | ocr/reporter.go:457-478 | All followers that answer a request about one map send equal reports, whatever order they visit the map in |
| Agreement.AnswersFromCachedMap | ocr/reporter.go:441-455 | In any run a follower answers iff the request's data is the canonical encoding of the map it cached from this round's broadcasts, and its reports are computed from that map |
| Agreement.BroadcastThenRequest | ocr/leader.go:99-143 | A follower that receives the leader's map and then its request answers with the reports of that map |
| Agreement.BroadcastConserves | ocr/reporter.go:388-394 | In any run the leader's map holds for each job each response sent for it exactly as often as the senders' last verified messages of this round contain it, and no other |
| Agreement.LeaderHoldsCurrentRoundOnly | ocr/reporter.go:844-872 | In any run every report and observation the leader holds comes from a verified message with its present epoch, round and leader |
| Agreement.FollowerKeepsOldReports | ocr/reporter.go:851-869 | A node that is not its own leader keeps a received report over a round change |
| Progress.NeverAdvances | ocr/reporter.go:824-842 | Unless an echo is decoded and the peer flag set, or a PROGRESS-ROUND decoded and in the phase table, no run counts an echo, signals transmission or leaves round 1; as written neither is the case |
| Progress.AdvancesIff | ocr/server_rpc_processor.go:72-171 | Some run leaves round 1 iff PROGRESS-ROUND is decoded and in the phase table, or FINAL-ECHO is decoded and the peer flag set |
| Progress.ProgressMessageAdvances | ocr/reporter.go:678-700 | Where PROGRESS-ROUND is decoded and admitted, one that verifies for the leader takes a run to round 2 |
| Progress.EchoesAdvance | ocr/reporter.go:645-676 | Where FINAL-ECHO is decoded and the peer flag set, any full round of verified reports with something to report and any f + 1 verified echoes take the leader of a committee of any size to round 2 |
| Agreement.GraceCountsAllRounds | ocr/reporter.go:401-407 | At the leader a verified response signals grace iff the verified responses of all rounds since initialisation exceed 2f + 1 |
| Progress.AnnouncedJobs | ocr/leader.go:194-210 | Handling a waiting observe phase announces the present round's stretch of the queue, never the first one and nothing from round 10 on, and only while there have been more starts as leader than observe phases handled; as written it is the second stretch |
| Progress.ScheduleOfStart | ocr/reporter.go:129-139 | In any run, after a node's first start as leader since initialisation its schedule is what the queue was dealt to, up to the next start or initialisation |
| Progress.ObserveSignals | ocr/reporter.go:143 | In any run the observe phases waiting and handled are together as many as the starts as leader: a round change signals none |
| Progress.AnnouncedByHandling | ocr/leader.go:41-70 | A step announces jobs iff it handles an observe phase, so there is at most one announcement a start |
| Signing.TagDecides | crypto/keypairs.go:98-105 | Signing the unhashed JSON text covers its leading 32 bytes, which epoch, round and leader fill: whether a signature verifies does not depend on the rest of the message |
| Signing.AcceptedIffEnoughVerify | ocr/reporter.go:594-630 | In any run, a follower accepts the signatories of the stored final report iff among those before the first one unknown to it f + 1 distinct ones have a signature that verifies for the broadcast |
| Signing.TakenIffKnownQuorum | ocr/reporter.go:587-643 | Where the tag decides what verifies, a follower takes the leader's broadcast final report iff the broadcast verifies and f + 1 distinct signatories come before the first one unknown to it |
| Signing.AssembledIsTakenIff | ocr/reporter.go:587-643 | With one report per sender and no report sharing a hash between jobs, the first f + 1 signatories are distinct, and a follower takes the report iff the broadcast verifies and it knows all of these |
| Signing.OwnSignatureRefused | ocr/reporter.go:606-609 | Then a follower among the first f + 1 signatories that is missing from its own index refuses the report |
| Signing.ReportersDoNotEcho | ocr/reporter.go:606-609 | Then, if all reporters are among followers missing from their own index, at least f + 1 of these followers do not take the report, so of 2f + 1 at most f echo |
| Signing.FourNodesStall | ocr/reporter.go:606-609 | An instance: four nodes with three reporters, at most one echo where two are needed |
| Signing.TakenIffDistinct | ocr/reporter.go:587-643 | A follower that knows every sender of a collected report takes the broadcast iff it verifies and f + 1 signatories are distinct |
| Signing.VerdictIgnoresContent | crypto/keypairs.go:143-150 | Where the tag decides what verifies, the verdict on a list of signatories is the same for every content of the message |
| RoundSafety.RunsKeepInvariant | ocr/reporter.go:212-705 | Every state of every run satisfies the invariant: reports, observations and echo count are a function of the messages of the current round (leader) or of all rounds (others), the cache the other way round, and the final report was assembled from the reports held |
| RoundSafety.ReceiveKeeps | ocr/reporter.go:365-705 | Receiving any message keeps the invariant |
| RoundSafety.ProgressKeeps | ocr/reporter.go:844-872 | A round change keeps the invariant: no stored item of the reset half survives |
| RoundSafety.InitHolds | ocr/reporter.go:904-937 | Re-initialisation at any moment re-establishes the invariant |
| Engine.ReportingEngine.ProcessMessage | ocr/reporter.go:212-705 | Keeps the invariant that the node holds exactly what the messages of its rounds say, and carries out one receive step: unchanged state and nothing sent unless ready and admitted by the gate; otherwise the handler's step, with an assembly of the collected reports where it assembles |
| Engine.ReportingEngine.HandleReportReq | ocr/reporter.go:430-521 | Answers iff the data hashes like the marshalled cached map, with the reports of the decoded map, visiting all maps in any order |
| Engine.ReportingEngine.HandleObserveResp | ocr/reporter.go:365-410 | Stores the sender's responses grouped by job, counts the response, signals grace above 2f + 1 |
| Engine.ReportingEngine.HandleReportRes | ocr/reporter.go:523-572 | Appends a verified report and, on n entries, stores an assembly of all reports held |
| Engine.ReportingEngine.HandleBroadcastFinal | ocr/reporter.go:574-643 | Caches and echoes a final report iff its sender's signature and its signatories pass |
| Engine.ReportingEngine.HandleObserveReq | ocr/reporter.go:225-363 | Caches the jobs up to the first that cannot be instantiated and answers with the observations if all ran; stops beyond the last round |
| Steps.ObserveReqAnswered | ocr/reporter.go:268-361 | A node that handles an OBSERVE-REQ up to round 10 sends its observations to the leader with the present tag iff all jobs are direct requests with good templates and all were observed, otherwise nothing |
| Steps.CastableMeaning | ocr/reporter.go:268-277 | The jobs cached are those before the first that is no direct request or has a bad template |
| Steps.LastRoundStops | ocr/reporter.go:236-260 | Beyond round 10 it calls for a new epoch and stops |
| Steps.AdmittedIff | ocr/reporter.go:874-902 | A message is handled iff it has the node's epoch, round and leader, and its kind is decoded and in the phase table |
| Steps.AsWrittenHandles | ocr/server_rpc_processor.go:72-171 | As written, five of the eight kinds with the node's tag are handled |
| Steps.UnsignedIgnored | ocr/reporter.go:371-399 | A message whose signature does not verify changes and sends nothing |
| Steps.AssemblyIsBroadcast | ocr/reporter.go:549-566 | A verified report that makes n entries which assemble signals the final phase, and handling it broadcasts the assembled report |
| Steps.TakenIffSigned | ocr/reporter.go:587-630 | A final report is taken iff its broadcast verifies and some stretch of signatories from the front is parseable and known throughout with f + 1 distinct valid signers |
| Steps.TakenIsEchoed | ocr/reporter.go:632-643 | A follower that takes a final report caches it and echoes to the leader, any other is silent |
| Steps.EchoSignals | ocr/reporter.go:645-676 | An echo counts iff flag, signature and peer check pass, and signals transmission iff it makes f + 1 |
| Steps.TransmitStarts | ocr/leader.go:241-329 | Handling the transmit phase broadcasts PROGRESS-ROUND and starts a round change iff all reported jobs are registered |
| Steps.ProgressRoundObeyed | ocr/reporter.go:678-700 | A handled PROGRESS-ROUND starts a round change iff it verifies for the leader |
| Engine.ReportingEngine.CacheJobs | ocr/reporter.go:268-277 | Caches exactly the job IDs before the first job of another type or with a template that does not parse |
| Engine.ReportingEngine.ProgressToNextRound | ocr/reporter.go:844-872 | Keeps the invariant; afterwards the leader holds no report, observation or echo and keeps its cache, any other node the other way round, and no admitted message belongs to the new round |
| Engine.ReportingEngine.InitReporter | ocr/reporter.go:904-937 | Re-establishes the invariant with nothing held; signalled phases and round changes under way stay |
| Engine.ReportingEngine.Start | ocr/reporter.go:115-151 | Deals the queue over the rounds and signals the observe phase at the leader only |
| Engine.ReportingEngine.HandleReport | ocr/leader.go:99-143 | Broadcasts the canonical encoding of the observations twice, as map and as request |
| Engine.AssembleJobs | ocr/reporter.go:467-478 | In any order, reports exactly the jobs that can be assembled, with their values |
| Quorum.AssembleFinalReport | ocr/leader.go:331-409 | The tables and selection loops, visited in any order, yield an assembly for threshold f + 1: the jobs with enough support, the last report's value for a sufficiently supported hash, and blocks of f + 1 signatories |
| Quorum.CountReport | ocr/leader.go:343-374 | Whatever order a report's jobs are visited in, the three tables then count, keep and list the reports up to and including it |
| Quorum.SelectJobs | ocr/leader.go:383-397 | In any order, selects exactly the counted jobs with enough support |
| Quorum.ResultSize | ocr/leader.go:389-393 | Each job with consensus adds exactly f + 1 signatories; the inner guard never fails |
| Consensus.ReportMeaning | ocr/leader.go:376-408 | In every order a job is reported iff some value has f + 1 support, the value is carried by a report, and there are (f + 1) signatories per job |
| Consensus.SupportCountsVoters | ocr/leader.go:343-366 | Counting report by report counts each report with that value of the job once |
| Consensus.YieldsIffExactSupport | ocr/leader.go:376-408 | All iteration orders yield the job map `expected` iff the (job, hash) pairs counted at least f + 1 times are exactly those of its values |
| Consensus.SupportedIsPossible | ocr/leader.go:383-397 | Every value of a job with f + 1 support is reported in some iteration order |
| Consensus.AssemblyExists | ocr/leader.go:376-408 | Whatever reports are collected, some outcome satisfies the assembly specification |
| Consensus.ChoiceIsUnique | ocr/leader.go:383-396 | With fewer than 2(f + 1) reports of a job all orders choose the same value |
| Consensus.SignatoriesConserved | ocr/leader.go:361-372 | A hash's signatory list is as long as its counts over all jobs |
| Consensus.BlockDistinctIff | ocr/leader.go:389-393 | With one report per sender, a block's signatories are distinct iff no report met before the block is full carries the hash for two jobs |
| Consensus.JobIsAttested | ocr/leader.go:367-394 | With one report per sender and no report using the final value's hash for another job, an assembled report holds for each job f + 1 signatories that are distinct senders of its final value, one of them honest if at most f are faulty |
| Consensus.BlockAt | ocr/leader.go:389-393 | The signatories are consecutive blocks, each the front of the list of the hash chosen for its job |
| Consensus.SharedHashRepeatsSender | ocr/leader.go:340-372 | Two jobs with one value put the same sender twice into a block |
| Consensus.RoundAgreement | ocr/leader.go:331-409 | With at most f reports from faulty senders assembly succeeds iff the honest job map has something to report, and yields exactly that map |
| Consensus.HonestQuorum | ocr/ocr.go:64-67 | With f = (n - 1) / 3, n entries of which one is the placeholder hold f + 1 honest reports |
| Consensus.FaultBoundMeaning | ocr/ocr.go:64-67 | For n >= 1 the fault bound is the largest f with 3f < n |
| Consensus.ReportGrows | ocr/reporter.go:549-563 | Later reports only add jobs to the report |
| Consensus.ReportIsStable | ocr/reporter.go:549-563 | With at most f faulty reports later reports leave the report as it is |
| Consensus.RepeatedReportsWin | ocr/reporter.go:549 | One faulty sender's two equal reports put a job with its value into the report for n = 4 |
| Acceptance.VerifySignatories | ocr/reporter.go:594-630 | The early-exit loop accepts iff some vetted prefix holds f + 1 distinct valid signers |
| Acceptance.VerdictIgnoresOrder | ocr/reporter.go:599-625 | When all signatories are known peers the verdict does not depend on their order |
| Acceptance.OrderIrrelevantIff | ocr/reporter.go:599-625 | The verdict is the same for every order of the signatories iff all are known peers or the known ones hold at most f distinct valid signers |
| Acceptance.OrderDecides | ocr/reporter.go:606-624 | An instance with one valid and one unknown signatory, where it is not |
| Acceptance.AcceptedHasHonestSigner | ocr/reporter.go:594-630 | Acceptance with at most f faulty IDs implies an honest known signer |
| Assembler.Assemble | ocr/jobs/report_assembler.go:31-71 | The mean over the whole list, iff the job is a numeric direct request and its observations are numbers and not none; otherwise which error |
| Assembler.MeanBounds | ocr/jobs/report_assembler.go:56-66 | The mean lies between any bounds on the observations |
| Assembler.ValueTimesCount | ocr/jobs/report_assembler.go:43-56 | The value times the number of observations is the sum over the whole list, repeated ones included |
| Assembler.AssemblesIff | ocr/jobs/report_assembler.go:31-54 | Assembly succeeds iff the job is a direct request with numeric result and has observations, all of them numbers |
| Observations.GroupByJob | ocr/reporter.go:388-392 | Groups one sender's responses by job, keeping their order |
| Observations.SelectOrder | ocr/reporter.go:390-392 | Within each job the responses keep the order in which they were sent |
| Observations.Transpose | ocr/reporter.go:457-465 | Visiting senders and jobs in any order collects exactly the jobs that some sender observed, each with the multiset of all its observations |
| Observations.RegroupingConserves | ocr/reporter.go:388-394 | Both regroupings together lose, repeat and move no response |
| Observations.ObservationSafeMap.MarshalJSON | ocr/observation_map.go:45-62 | The document is the canonical encoding of the store for every visiting order |
| Observations.ObservationSafeMap.UnmarshalJSON | ocr/observation_map.go:65-80 | Fails iff the data does not decode, and then changes nothing; otherwise lays the decoded entries over the store |
| Observations.RoundTrip | ocr/observation_map.go:45-80 | Decoding the encoding into a fresh map restores the map |
| Lexicographic.LastMemberCounts | ocr/observation_map.go:65-80 | Of several members with one name the last one is decoded |
| Lexicographic.BelowIff | ocr/observation_map.go:45-62 | Keys are ordered by their first differing character, a proper prefix first |
| Observations.EncodedIff | ocr/reporter.go:450-455 | A document is the encoding of a map iff it is canonical and decodes to it |
| Schedule.DealRounds | ocr/reporter.go:132-139 | The loops deal the same number of items from the front of the queue to each round, leave the rest, and never read an empty queue |
| Schedule.RoundSizes | ocr/reporter.go:132-139 | For n jobs each of the rounds 0 to 9 gets the next n / 10 - 1 of them if n >= 20 and none otherwise, later rounds none |
| Schedule.FifoPartition | ocr/reporter.go:132-139 | The buckets in order followed by the rest are the queue; all buckets have n / 10 - 1 items if n >= 20 and none otherwise |
| Schedule.FirstBucketIsSkipped | ocr/leader.go:194-197 | A round from 1 on announces a stretch behind the first bucket, or nothing from round 10 |
| Election.FindLeader | ocr/leader_selection.go:14-45 | Fails iff there is no peer; otherwise selects an ID with the smallest digest, with the code's tie-breaking |
| Election.LeadersAgreeIff | ocr/leader_selection.go:14-45 | Two nodes with any two views select the same leader iff some ID seen by both has the smallest digest of all that either sees |
| Election.LeadersAgree | ocr/leader_selection_test.go:11-46 | Nodes whose views make up one committee select the same leader in any visiting order, the one with the strictly smallest digest |
| Election.ExactlyOneLeader | ocr/pacemaker.go:160-170 | In a committee with one node per ID exactly one node sets isLeader |
| Election.OutstandingHandshakeDisagrees | ocr/leader_selection.go:28-36 | An instance of disagreement: a peer without a server ID yet |
| Election.HexRefinesBytes | ocr/leader_selection.go:32-55 | Comparing hex strings is comparing digests byte by byte (Base 16, section 8 of RFC 4648) |
| Election.HexInjective | ocr/leader_selection.go:53-54 | Different digests have different hex strings |
| Election.HexDigits | ocr/leader_selection.go:53-54 | Each byte gives two lower-case hex digits, the high half first |
| Election.DecimalMeaning | ocr/leader_selection.go:49-51 | The epoch is written in decimal digits without leading zero |
| Election.MacInputInjective | ocr/leader_selection.go:49-51 | The HMAC input determines the peer within an epoch, and peer and epoch among IDs of one length |
| Election.MacInputsEqualIff | ocr/leader_selection.go:49-51 | Two inputs coincide iff the longer ID is the shorter one with the first digits of its epoch and the rest of those digits is the other epoch |
| Election.MacInputAmbiguous | ocr/leader_selection.go:49-51 | An instance with different peers and epochs |
| Election.ExponentialBackoff | ocr/pacemaker.go:390-419 | Ends at the first attempt that sees a peer; the k-th wait is the initial one doubled k times and capped |
| Election.NextWait | ocr/pacemaker.go:413-417 | Doubling and capping step by step gives the capped power, and no intermediate value exceeds twice the cap |
| Pipeline.DirectRequest.Execute | ocr/jobs/direct_req.go:137-205 | Kind by kind, exactly when a task succeeds and what it stores; a failing task changes nothing |
| Pipeline.ProductStored | ocr/jobs/direct_req.go:176-195 | A math task stores its input number, or the number its input text stands for, times its factor |
| Pipeline.MemberStored | ocr/jobs/direct_req.go:157-174 | A json task stores the member of the object in its input text that its path names |
| Pipeline.FetchStores | ocr/jobs/direct_req.go:142-155 | An http task stores the text it fetched |
| Pipeline.FetchedProduct | ocr/jobs/direct_req.go:93-130 | An http, a json and a math task in order give as result the fetched number times the factor |
| Pipeline.DirectRequest.Run | ocr/jobs/direct_req.go:93-116 | Runs the tasks in order up to the first failure or cancellation; succeeds iff all ran and the strategy is supported |
| Pipeline.ResultIsLastOutput | ocr/jobs/direct_req.go:118-130 | After a successful run of a new job the result prints the output of the last task that stores under the last task's name, computed from what the tasks before it stored; there is none iff no task stores under it |
| Pipeline.StoredIsLastOutput | ocr/jobs/direct_req.go:137-205 | After a successful run each name holds the output of the last task that stores under it, or what it held before |
| Pipeline.SlicedRunSameResult | ocr/jobs/direct_req.go:93-130 | If a run succeeds, running only what the last task depends on succeeds with the same result |
| Pipeline.SlicePreserves | ocr/jobs/direct_req.go:158-195 | The slice for any set of names preserves their values |
| Pipeline.SliceIsNeeded | ocr/jobs/direct_req.go:158-195 | The slice holds exactly the tasks whose stored value is still asked for at the end or read by another such task before it is overwritten |
| Pipeline.SucceedsIffSlicesDo | ocr/jobs/direct_req.go:93-116 | A run succeeds iff the context outlasts the tasks and every task succeeds when run with only the tasks it depends on |
| Pipeline.UnusedTaskCanFail | ocr/jobs/direct_req.go:100-102 | An instance: the last task's slice succeeds while an unused task fails the run |
| PeerIndex.Server.HandleNewPeer | ocr/server.go:266-280 | A discovered peer has no server ID, also when it was known before |
| PeerIndex.Server.HandleHandshake | ocr/server.go:107-126 | Links both IDs, or leaves the lock held for an undiscovered network ID |
| PeerIndex.Server.IsPeer | ocr/server.go:258-264 | Holds exactly for the server IDs of accepted handshakes |
| PeerIndex.Server.Route | ocr/server.go:197-205 | A message goes to the last accepted claimant of its ID |
| PeerIndex.IndexIsLastClaim | ocr/server.go:121-123 | In every interleaving the index maps each claimed server ID to its last claimant |
| PeerIndex.IndexSound | ocr/server.go:106-127 | In every interleaving index values are peers and identified peers are indexed |
| PeerIndex.LeadsBackIff | ocr/server.go:106-127 | In every interleaving, every identified peer is indexed under its own network ID iff no server ID that a standing handshake gave has been claimed since |
| PeerIndex.LeadsForthIff | ocr/server.go:106-127 | In every interleaving, every indexed server ID leads to a peer that carries it or was discovered anew iff no network ID for which a handshake holds a server ID stands under another one |
| PeerIndex.StandingIff | ocr/server.go:121-123 | A peer carries a server ID iff some accepted handshake gave it that ID and the peer has not been named again since |
| PeerIndex.MutualInverse | ocr/server.go:106-127 | Both hold without conflicting claims |
| PeerIndex.ConflictingClaims | ocr/server.go:121-123 | An instance with conflicting claims where a peer does not lead back to itself |
| PeerIndex.LockedIff | ocr/server.go:115-119 | A history leaves the lock held iff it contains a handshake for a network ID not discovered before |
| PeerIndex.LockedForever | ocr/server.go:115-119 | From the first such handshake on no event changes the index |

## Left out

- ObservationSafeMap inside the engine: the engine's maps are values copied into and out of the class, so aliasing between map objects is not modelled.
- Running the jobs of an OBSERVE-REQ inside the engine: whether all succeed and in which order their results arrive is an input of the step; `Pipeline` models one job.
- Returned and logged error texts of the handlers; a failed step is told from a successful one by state and messages sent.
- A job missing from a follower's registry, and jobs without an attached assembler: every job ID is taken to resolve to a job.
- What follows `Stop`, and the nil dereference in the transmit handler: a stopped engine takes no further step.
- The mutex left locked when a message arrives before the engine is ready, the phase channel replaced at a round change, and all goroutine scheduling below the level of atomic steps.
- Decoding of messages below the question which kinds are known; the model starts at decoded messages.
- Observations.EncodedIff: does not model a null in place of a sender's or a job's entry, which Go decodes to a nil map or slice and encodes as null again; `Doc` has no such documents, so `Agreement.AnswersFromCachedMap` does not speak of them either.
- The conversion of queued events to jobs in `Start`: the queue is taken to hold jobs.
- ECDSA, SHA-256 and HMAC internals, key encoding, libp2p, discovery, files, logging and the transmitter.
- Pacemaker epoch changes: the branch for more than 2f messages cannot be reached and the epoch formulas are placeholders.
- Liveness: the triggers wait for nearly all nodes.
- Delivery of a node's message to the addressee only: in a joint run any node may receive it.
- Election.ExponentialBackoff: does not model waiting for ever; attempts are a finite list and the result says whether one succeeded.
- Assembler.Assemble: does not model float rounding, because order independence only holds for exact arithmetic.
