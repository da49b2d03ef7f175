/** Whether followers accept the final report a leader assembled: its signatories signed their own reports, and are
    checked on the broadcast. */
module Signing {
  import opened Basics
  import opened FiniteSets
  import opened Quorum
  import opened Consensus
  import opened Acceptance
  import opened Rounds
  import opened RoundSafety
  import Agreement
  import Election

  // ---- What a signature covers ----

  /** ECDSA over a 256-bit curve uses the leading 32 bytes of what it is given. */
  const COVERED: nat := 32

  function Leading(data: seq<Byte>): seq<Byte> {
    if |data| <= COVERED then data else data[..COVERED]
  }

  function Ascii(s: string): seq<Byte> {
    seq(|s|, i requires 0 <= i < |s| => (s[i] as int % 256) as Byte)
  }

  /** The common fields with which the JSON form of every tagged message starts; `quoted` writes a JSON string. */
  function Header(tag: Tag, quoted: string -> seq<Byte>): seq<Byte> {
    Ascii("{\"epoch\":") + Ascii(Election.Decimal(tag.epoch))
    + Ascii(",\"round\":") + Ascii(Election.Decimal(tag.round))
    + Ascii(",\"leader\":") + quoted(tag.leader)
  }

  /** The signed bytes of a message: the header, then what its kind adds. */
  type Rest = Body -> seq<Byte>

  type Check = (string, seq<Byte>, Signature) -> bool

  /** Signatures are checked over the JSON form of the message, unhashed. */
  ghost predicate ChecksLeadingBytes(env: Env, quoted: string -> seq<Byte>, rest: Rest, check: Check) {
    forall id, tag, body, sig ::
      env.verify(id, tag, body, sig) <==> check(id, Leading(Header(tag, quoted) + rest(body)), sig)
  }

  /** Whether a signature verifies does not depend on the fields behind the tag. */
  ghost predicate BodyFree(env: Env) {
    forall id, tag, b1, b2, sig :: env.verify(id, tag, b1, sig) ==> env.verify(id, tag, b2, sig)
  }

  lemma HeaderLength(tag: Tag, quoted: string -> seq<Byte>)
    requires |quoted(tag.leader)| >= 2
    ensures |Header(tag, quoted)| >= COVERED
  {
    Election.DecimalLength(tag.epoch);
    Election.DecimalLength(tag.round);
  }

  lemma HeaderCovers(tag: Tag, quoted: string -> seq<Byte>, a: seq<Byte>, b: seq<Byte>)
    requires |quoted(tag.leader)| >= 2
    ensures Leading(Header(tag, quoted) + a) == Leading(Header(tag, quoted) + b)
  {
    var h := Header(tag, quoted);
    HeaderLength(tag, quoted);
    assert (h + a)[..COVERED] == h[..COVERED] == (h + b)[..COVERED];
    if |h| == COVERED {
      assert h == h[..COVERED];
    }
  }

  /** The header alone has 32 bytes, as a JSON string has at least its two quotes: a signature that verifies for one
      message verifies for every other one with the same epoch, round and leader. */
  lemma TagDecides(env: Env, quoted: string -> seq<Byte>, rest: Rest, check: Check)
    requires ChecksLeadingBytes(env, quoted, rest, check) && forall s :: |quoted(s)| >= 2
    ensures BodyFree(env)
  {
    forall id, tag, b1, b2, sig | env.verify(id, tag, b1, sig) ensures env.verify(id, tag, b2, sig) {
      assert |quoted(tag.leader)| >= 2;
      HeaderCovers(tag, quoted, rest(b1), rest(b2));
    }
  }

  // ---- Who the signatories of an assembled report are ----

  lemma {:induction false} BlocksFromSigners(rs: seq<Report>, t: nat, digest: Hasher, order: seq<string>,
                                             choice: map<string, Digest>, x: Signatory)
    requires forall j :: j in order ==> j in choice
    requires x in Blocks(rs, t, digest, order, choice)
    ensures exists i :: 0 <= i < |rs| && x == Signer(rs[i]) && rs[i].reports != map[]
  {
    var front, last := order[..|order| - 1], order[|order| - 1];
    if x in Blocks(rs, t, digest, front, choice) {
      BlocksFromSigners(rs, t, digest, front, choice, x);
    } else {
      var signers := Signers(rs, choice[last], digest);
      var k :| 0 <= k < |signers| && signers[k] == x;
      var i := Located(rs, choice[last], digest, k);
      var j :| j in Sharing(rs[i], choice[last], digest);
    }
  }

  lemma AssembledSignatory(rs: seq<Report>, t: nat, digest: Hasher, fin: FinalReport, x: Signatory)
    requires IsAssembly(rs, t, digest, Some(fin)) && x in fin.signatories
    ensures exists i :: 0 <= i < |rs| && x == Signer(rs[i]) && rs[i].reports != map[]
  {
    var order, choice :| AssembledBy(rs, t, digest, Some(fin), order, choice);
    BlocksFromSigners(rs, t, digest, order, choice, x);
  }

  lemma SignatorySource(rs: seq<Report>, k: nat, t: nat, digest: Hasher, fin: FinalReport, x: Signatory)
    returns (i: nat)
    requires k <= |rs| && |rs| >= 1 && rs[0] == PLACEHOLDER
    requires IsAssembly(rs[..k], t, digest, Some(fin)) && x in fin.signatories
    ensures 0 < i < |rs| && x == Signer(rs[i])
  {
    AssembledSignatory(rs[..k], t, digest, fin, x);
    i :| 0 <= i < k && x == Signer(rs[..k][i]) && rs[..k][i].reports != map[];
  }

  lemma AssembledFrom(env: Env, s: Node) returns (k: nat)
    requires FinalFromReports(env, s) && s.ls.finalReport.Some? && s.ls.finalReport.value.signatories != []
    ensures k <= |s.ls.reports| && IsAssembly(s.ls.reports[..k], s.config.f + 1, env.digest, s.ls.finalReport)
  {
    k :| 2 <= k <= |s.ls.reports| && k >= s.config.n
         && IsAssembly(s.ls.reports[..k], s.config.f + 1, env.digest, s.ls.finalReport);
  }

  /** Every signatory of the stored final report sent one of the collected reports. */
  lemma SignatoryReported(env: Env, s: Node, x: Signatory) returns (i: nat)
    requires FinalFromReports(env, s) && |s.ls.reports| >= 1 && s.ls.reports[0] == PLACEHOLDER
    requires s.ls.finalReport.Some? && x in s.ls.finalReport.value.signatories
    ensures 0 < i < |s.ls.reports| && x == Signer(s.ls.reports[i])
  {
    var k := AssembledFrom(env, s);
    i := SignatorySource(s.ls.reports, k, s.config.f + 1, env.digest, s.ls.finalReport.value, x);
  }

  lemma ReportVerified(env: Env, ls: LeaderState, h: seq<Admitted>, i: nat) returns (a: Admitted)
    requires LeaderHalf(env, ls, h) && 0 < i < |ls.reports|
    ensures a in h && a.msg.Tagged? && Verified(env, a.msg)
    ensures a.msg.from == ls.reports[i].from && a.msg.sig == ls.reports[i].sig
  {
    assert ls.reports[i] == ReportsIn(env, h)[i - 1];
    Agreement.ReportSource(env, h, ls.reports[i]);
    a :| a in h && a.msg.Tagged? && a.msg.body.ReportRes? && Verified(env, a.msg) && ReportOf(a.msg) == ls.reports[i];
  }

  /** Every signatory's key parses, and at the leader its signature verifies for a message of the present round. */
  lemma SignatoryVerified(env: Env, s: Node, x: Signatory)
    requires Invariant(env, s) && s.ls.finalReport.Some? && x in s.ls.finalReport.value.signatories
    ensures env.isKey(x.id)
    ensures LeadsItself(s) ==> exists body :: env.verify(x.id, TagOf(s), body, x.sign)
  {
    var i := SignatoryReported(env, s, x);
    var a := ReportVerified(env, s.ls, if LeadsItself(s) then Current(s) else s.history, i);
    if LeadsItself(s) {
      Agreement.WithTagMember(s.history, TagOf(s), a);
      assert env.verify(x.id, TagOf(s), a.msg.body, x.sign);
    }
  }

  // ---- Acceptance at the followers ----

  function Ids(sigs: seq<Signatory>): set<string> {
    set x | x in sigs :: x.id
  }

  /** The follower knows the first `k` signatories. */
  ghost predicate KnownUpTo(sigs: seq<Signatory>, k: nat, known: set<string>)
    requires k <= |sigs|
  {
    forall x :: x in sigs[..k] ==> x.id in known
  }

  /** In any run, a follower accepts the signatories of the stored final report iff f + 1 distinct ones have a signature
      that verifies for the broadcast and none before the last of these is unknown to it. */
  lemma AcceptedIffEnoughVerify(env: Env, config: Config, states: seq<Node>, evs: seq<Event>, i: nat,
                                f: nat, tag: Tag, known: set<string>)
    requires IsRun(env, config, states, evs) && i < |states| && states[i].ls.finalReport.Some?
    ensures var final := states[i].ls.finalReport.value;
            var sigs, valid := final.signatories, SignsPayload(env, tag, BroadcastFinal(final));
            Accepts(sigs, f, known, env.isKey, valid)
            <==> exists k :: 0 <= k <= |sigs| && KnownUpTo(sigs, k, known) && |ValidIds(sigs[..k], valid)| >= f + 1
  {
    RunsKeepInvariant(env, config, states, evs, i);
    var final := states[i].ls.finalReport.value;
    forall x | x in final.signatories ensures env.isKey(x.id) {
      SignatoryVerified(env, states[i], x);
    }
    KeysParse(final.signatories, f, known, env.isKey, SignsPayload(env, tag, BroadcastFinal(final)));
  }

  lemma KeysParse(sigs: seq<Signatory>, f: nat, known: set<string>, isKey: string -> bool, valid: Signatory -> bool)
    requires forall x :: x in sigs ==> isKey(x.id)
    ensures Accepts(sigs, f, known, isKey, valid)
            <==> exists k :: 0 <= k <= |sigs| && KnownUpTo(sigs, k, known) && |ValidIds(sigs[..k], valid)| >= f + 1
  {
    forall k | 0 <= k <= |sigs| ensures Vetted(sigs[..k], known, isKey) <==> KnownUpTo(sigs, k, known) {
      forall x | x in sigs[..k] ensures x in sigs {
      }
    }
    if Accepts(sigs, f, known, isKey, valid) {
      var k :| 0 <= k <= |sigs| && Vetted(sigs[..k], known, isKey) && |ValidIds(sigs[..k], valid)| >= f + 1;
      assert KnownUpTo(sigs, k, known);
    }
  }

  /** `m` broadcasts the final report that the leader holds in its present round. */
  predicate Broadcasts(m: Message, s: Node) {
    s.ls.finalReport.Some? && m.Tagged? && m.tag == TagOf(s) && m.body == BroadcastFinal(s.ls.finalReport.value)
  }

  lemma AllVerify(env: Env, s: Node, m: Message)
    requires Invariant(env, s) && LeadsItself(s) && BodyFree(env) && Broadcasts(m, s)
    ensures forall x :: x in s.ls.finalReport.value.signatories ==> SignsPayload(env, m.tag, m.body)(x)
  {
    forall x | x in s.ls.finalReport.value.signatories ensures SignsPayload(env, m.tag, m.body)(x) {
      SignatoryVerified(env, s, x);
    }
  }

  /** Some stretch of signatories from the front is known throughout and has f + 1 distinct ones. */
  ghost predicate KnownQuorum(sigs: seq<Signatory>, f: nat, known: set<string>) {
    exists k :: 0 <= k <= |sigs| && KnownUpTo(sigs, k, known) && |Ids(sigs[..k])| >= f + 1
  }

  /** Where the tag decides what verifies, all signatories count: a follower takes the final report that the leader
      broadcasts in any run iff the broadcast itself verifies and f + 1 distinct signatories come before the first that
      is unknown to it. */
  lemma TakenIffKnownQuorum(env: Env, config: Config, states: seq<Node>, evs: seq<Event>, i: nat,
                            f: nat, m: Message, known: set<string>)
    requires IsRun(env, config, states, evs) && i < |states| && LeadsItself(states[i]) && BodyFree(env)
    requires Broadcasts(m, states[i])
    ensures TakesFinal(env, f, m, known)
            <==> Verified(env, m) && KnownQuorum(states[i].ls.finalReport.value.signatories, f, known)
  {
    RunsKeepInvariant(env, config, states, evs, i);
    AllVerify(env, states[i], m);
    AcceptedIffEnoughVerify(env, config, states, evs, i, f, m.tag, known);
    ValidAreAll(states[i].ls.finalReport.value.signatories, f, known, SignsPayload(env, m.tag, m.body));
  }

  lemma ValidAreAll(sigs: seq<Signatory>, f: nat, known: set<string>, valid: Signatory -> bool)
    requires forall x :: x in sigs ==> valid(x)
    ensures KnownQuorum(sigs, f, known)
            <==> exists k :: 0 <= k <= |sigs| && KnownUpTo(sigs, k, known) && |ValidIds(sigs[..k], valid)| >= f + 1
  {
    forall k | 0 <= k <= |sigs| ensures ValidIds(sigs[..k], valid) == Ids(sigs[..k]) {
      forall x | x in sigs[..k] ensures x in sigs {
      }
    }
    if KnownQuorum(sigs, f, known) {
      var k :| 0 <= k <= |sigs| && KnownUpTo(sigs, k, known) && |Ids(sigs[..k])| >= f + 1;
      assert ValidIds(sigs[..k], valid) == Ids(sigs[..k]);
    }
  }

  /** The leader's round has one report per sender, none of them carries one hash for two jobs, and its final report was
      assembled from them. */
  ghost predicate CleanRound(env: Env, s: Node) {
    && s.ls.finalReport.Some? && s.ls.finalReport != Some(EMPTY_FINAL)
    && DistinctSenders(s.ls.reports)
    && forall r, h :: r in s.ls.reports ==> |Sharing(r, h, env.digest)| <= 1
  }

  /** In a clean round, a follower takes the broadcast final report iff it verifies and the follower knows each of the
      first f + 1 signatories, who are distinct. */
  lemma AssembledIsTakenIff(env: Env, config: Config, states: seq<Node>, evs: seq<Event>, i: nat,
                            m: Message, known: set<string>)
    requires IsRun(env, config, states, evs) && i < |states| && LeadsItself(states[i]) && BodyFree(env)
    requires CleanRound(env, states[i]) && Broadcasts(m, states[i])
    ensures var f, sigs := states[i].config.f, states[i].ls.finalReport.value.signatories;
            && f + 1 <= |sigs| && |Ids(sigs[..f + 1])| == f + 1
            && (TakesFinal(env, f, m, known) <==> Verified(env, m) && KnownUpTo(sigs, f + 1, known))
  {
    FirstDistinctInRun(env, config, states, evs, i);
    TakenIffKnownQuorum(env, config, states, evs, i, states[i].config.f, m, known);
    QuorumIsFront(states[i].ls.finalReport.value.signatories, states[i].config.f, known);
  }

  lemma FirstDistinctInRun(env: Env, config: Config, states: seq<Node>, evs: seq<Event>, i: nat)
    requires IsRun(env, config, states, evs) && i < |states| && CleanRound(env, states[i])
    ensures var f, sigs := states[i].config.f, states[i].ls.finalReport.value.signatories;
            f + 1 <= |sigs| && |Ids(sigs[..f + 1])| == f + 1
  {
    RunsKeepInvariant(env, config, states, evs, i);
    FirstDistinct(env, states[i]);
  }

  lemma {:induction false} IdsSize(sigs: seq<Signatory>)
    ensures |Ids(sigs)| <= |sigs|
  {
    if sigs != [] {
      var front, x := sigs[..|sigs| - 1], sigs[|sigs| - 1];
      IdsSize(front);
      assert sigs == front + [x];
      assert Ids(sigs) == Ids(front) + {x.id};
    }
  }

  lemma QuorumIsFront(sigs: seq<Signatory>, f: nat, known: set<string>)
    requires f + 1 <= |sigs| && |Ids(sigs[..f + 1])| == f + 1
    ensures KnownQuorum(sigs, f, known) <==> KnownUpTo(sigs, f + 1, known)
  {
    if KnownQuorum(sigs, f, known) {
      var k :| 0 <= k <= |sigs| && KnownUpTo(sigs, k, known) && |Ids(sigs[..k])| >= f + 1;
      IdsSize(sigs[..k]);
      forall x | x in sigs[..f + 1] ensures x.id in known {
        assert sigs[..f + 1] == sigs[..k][..f + 1];
        assert x in sigs[..k];
      }
    }
  }

  // ---- Followers that signed themselves ----

  /** A server does not list its own ID unless someone shook hands under it: a follower among the first f + 1
      signatories that is missing from its own index refuses the report it helped to assemble. */
  lemma OwnSignatureRefused(env: Env, config: Config, states: seq<Node>, evs: seq<Event>, i: nat,
                            m: Message, self: string, known: set<string>)
    requires IsRun(env, config, states, evs) && i < |states| && LeadsItself(states[i]) && BodyFree(env)
    requires CleanRound(env, states[i]) && Broadcasts(m, states[i]) && self !in known
    ensures states[i].config.f + 1 <= |states[i].ls.finalReport.value.signatories|
    ensures self in Ids(states[i].ls.finalReport.value.signatories[..states[i].config.f + 1]) ==>
              !TakesFinal(env, states[i].config.f, m, known)
  {
    AssembledIsTakenIff(env, config, states, evs, i, m, known);
  }

  /** The followers that take `m`, where `known[q]` are the peers that follower `q` knows. */
  ghost function Takers(env: Env, f: nat, m: Message, known: map<string, set<string>>): set<string>
    requires m.Tagged? && m.body.BroadcastFinal?
  {
    set q | q in known && TakesFinal(env, f, m, known[q])
  }

  /** If all reporters are among followers that are missing from their own index, f + 1 of these followers do not take
      the final report; among 2f + 1 or fewer, too few are left for the f + 1 echoes that transmission needs. */
  lemma ReportersDoNotEcho(env: Env, config: Config, states: seq<Node>, evs: seq<Event>, i: nat,
                           m: Message, known: map<string, set<string>>)
    requires IsRun(env, config, states, evs) && i < |states| && LeadsItself(states[i]) && BodyFree(env)
    requires CleanRound(env, states[i]) && Broadcasts(m, states[i])
    requires forall k :: 0 < k < |states[i].ls.reports| ==> states[i].ls.reports[k].from in known
    requires forall q :: q in known ==> q !in known[q]
    ensures |Takers(env, states[i].config.f, m, known)| + states[i].config.f + 1 <= |known|
    ensures |known| <= 2 * states[i].config.f + 1 ==> |Takers(env, states[i].config.f, m, known)| <= states[i].config.f
  {
    var f, sigs := states[i].config.f, states[i].ls.finalReport.value.signatories;
    AssembledIsTakenIff(env, config, states, evs, i, m, {});
    var first := Ids(sigs[..f + 1]);
    SignatoriesAmong(env, config, states, evs, i, known.Keys);
    forall q | q in first ensures q in known && q !in Takers(env, f, m, known) {
      OwnSignatureRefused(env, config, states, evs, i, m, q, known[q]);
    }
    Apart(Takers(env, f, m, known), first, known.Keys);
  }

  lemma SignatoriesAmong(env: Env, config: Config, states: seq<Node>, evs: seq<Event>, i: nat, ids: set<string>)
    requires IsRun(env, config, states, evs) && i < |states| && states[i].ls.finalReport.Some?
    requires forall k :: 0 < k < |states[i].ls.reports| ==> states[i].ls.reports[k].from in ids
    ensures var sigs := states[i].ls.finalReport.value.signatories;
            forall k :: 0 <= k <= |sigs| ==> Ids(sigs[..k]) <= ids
  {
    RunsKeepInvariant(env, config, states, evs, i);
    SendersSuffice(env, states[i], ids);
    var sigs := states[i].ls.finalReport.value.signatories;
    forall k, q | 0 <= k <= |sigs| && q in Ids(sigs[..k]) ensures q in ids {
      var x :| x in sigs[..k] && x.id == q;
      assert x in sigs;
    }
  }

  lemma Apart<T>(a: set<T>, b: set<T>, all: set<T>)
    requires a <= all && b <= all && a * b == {}
    ensures |a| + |b| <= |all|
  {
    assert |a + b| == |a| + |b|;
    SubsetSize(a + b, all);
  }

  /** Four nodes, three of them reporting followers that do not list themselves: one echo at most, two are needed. */
  lemma FourNodesStall(env: Env, config: Config, states: seq<Node>, evs: seq<Event>, i: nat,
                       m: Message, known: map<string, set<string>>)
    requires IsRun(env, config, states, evs) && i < |states| && LeadsItself(states[i]) && BodyFree(env)
    requires CleanRound(env, states[i]) && Broadcasts(m, states[i])
    requires states[i].config.f == FaultBound(4) && |known| == 3
    requires forall k :: 0 < k < |states[i].ls.reports| ==> states[i].ls.reports[k].from in known
    requires forall q :: q in known ==> q !in known[q]
    ensures |Takers(env, states[i].config.f, m, known)| <= 1 < states[i].config.f + 1
  {
    ReportersDoNotEcho(env, config, states, evs, i, m, known);
  }

  // ---- Followers that know all senders ----

  /** The senders of the collected reports are known at the follower, which is thus not one of them, or lists itself. */
  ghost predicate SendersKnown(s: Node, known: set<string>) {
    forall i :: 0 < i < |s.ls.reports| ==> s.ls.reports[i].from in known
  }

  lemma SendersSuffice(env: Env, s: Node, known: set<string>)
    requires Invariant(env, s) && s.ls.finalReport.Some? && SendersKnown(s, known)
    ensures forall x :: x in s.ls.finalReport.value.signatories ==> x.id in known
  {
    forall x | x in s.ls.finalReport.value.signatories ensures x.id in known {
      var k := SignatoryReported(env, s, x);
    }
  }

  /** A follower that knows all senders takes the broadcast final report iff it verifies and f + 1 signatories are
      distinct. */
  lemma TakenIffDistinct(env: Env, config: Config, states: seq<Node>, evs: seq<Event>, i: nat,
                         f: nat, m: Message, known: set<string>)
    requires IsRun(env, config, states, evs) && i < |states| && LeadsItself(states[i]) && BodyFree(env)
    requires Broadcasts(m, states[i]) && SendersKnown(states[i], known)
    ensures TakesFinal(env, f, m, known)
            <==> Verified(env, m) && |Ids(states[i].ls.finalReport.value.signatories)| >= f + 1
  {
    RunsKeepInvariant(env, config, states, evs, i);
    SendersSuffice(env, states[i], known);
    TakenIffKnownQuorum(env, config, states, evs, i, f, m, known);
    AllKnown(states[i].ls.finalReport.value.signatories, f, known);
  }

  lemma AllKnown(sigs: seq<Signatory>, f: nat, known: set<string>)
    requires forall x :: x in sigs ==> x.id in known
    ensures KnownQuorum(sigs, f, known) <==> |Ids(sigs)| >= f + 1
  {
    assert sigs[..|sigs|] == sigs;
    if |Ids(sigs)| >= f + 1 {
      assert KnownUpTo(sigs, |sigs|, known);
    }
    forall k | 0 <= k <= |sigs| ensures |Ids(sigs[..k])| <= |Ids(sigs)| {
      SubsetSize(Ids(sigs[..k]), Ids(sigs));
    }
  }

  /** In a clean round it takes the report as soon as the broadcast verifies. */
  lemma AssembledIsTaken(env: Env, config: Config, states: seq<Node>, evs: seq<Event>, i: nat,
                         m: Message, known: set<string>)
    requires IsRun(env, config, states, evs) && i < |states| && LeadsItself(states[i]) && BodyFree(env)
    requires CleanRound(env, states[i]) && Broadcasts(m, states[i]) && SendersKnown(states[i], known)
    ensures TakesFinal(env, states[i].config.f, m, known) <==> Verified(env, m)
  {
    RunsKeepInvariant(env, config, states, evs, i);
    SendersSuffice(env, states[i], known);
    AssembledIsTakenIff(env, config, states, evs, i, m, known);
  }

  // ---- What acceptance says about the content ----

  /** Where the tag decides what verifies, the verdict on a list of signatories is the same for every content: it
      vouches for signers in this epoch, round and leadership, not for the job values. */
  lemma VerdictIgnoresContent(env: Env, tag: Tag, b1: Body, b2: Body, sigs: seq<Signatory>, f: nat, known: set<string>)
    requires BodyFree(env)
    ensures Accepts(sigs, f, known, env.isKey, SignsPayload(env, tag, b1))
            <==> Accepts(sigs, f, known, env.isKey, SignsPayload(env, tag, b2))
  {
    var v1, v2 := SignsPayload(env, tag, b1), SignsPayload(env, tag, b2);
    forall k | 0 <= k <= |sigs| ensures ValidIds(sigs[..k], v1) == ValidIds(sigs[..k], v2) {
    }
  }

  // ---- The first signatories of an assembled report ----

  lemma FirstDistinct(env: Env, s: Node)
    requires FinalFromReports(env, s) && CleanRound(env, s)
    ensures var f, sigs := s.config.f, s.ls.finalReport.value.signatories;
            f + 1 <= |sigs| && |Ids(sigs[..f + 1])| == f + 1
  {
    var k :| 2 <= k <= |s.ls.reports| && k >= s.config.n
             && IsAssembly(s.ls.reports[..k], s.config.f + 1, env.digest, s.ls.finalReport);
    EarlierFront(s.ls.reports, k, s.config.f + 1, env.digest, s.ls.finalReport.value);
  }

  lemma EarlierFront(rs: seq<Report>, k: nat, t: nat, digest: Hasher, fin: FinalReport)
    requires k <= |rs| && t > 0 && IsAssembly(rs[..k], t, digest, Some(fin)) && DistinctSenders(rs)
    requires forall r, h :: r in rs ==> |Sharing(r, h, digest)| <= 1
    ensures t <= |fin.signatories| && |Ids(fin.signatories[..t])| == t
  {
    var pre := rs[..k];
    forall r, h | r in pre ensures |Sharing(r, h, digest)| <= 1 {
      assert r in rs;
    }
    var h := FrontBlock(pre, t, digest, fin);
    SeparateSigners(pre, t, h, digest);
    DistinctIds(fin.signatories[..t]);
  }

  lemma FrontBlock(rs: seq<Report>, t: nat, digest: Hasher, fin: FinalReport) returns (h: Digest)
    requires IsAssembly(rs, t, digest, Some(fin))
    ensures t <= |Signers(rs, h, digest)| && t <= |fin.signatories|
    ensures fin.signatories[..t] == Signers(rs, h, digest)[..t]
  {
    var order, choice :| AssembledBy(rs, t, digest, Some(fin), order, choice);
    h := choice[order[0]];
    BlockAt(rs, t, digest, order, choice, 0);
  }

  lemma SeparateSigners(rs: seq<Report>, t: nat, h: Digest, digest: Hasher)
    requires DistinctSenders(rs) && t <= |Signers(rs, h, digest)|
    requires forall r, g :: r in rs ==> |Sharing(r, g, digest)| <= 1
    ensures var block := Signers(rs, h, digest)[..t];
            forall a, b :: 0 <= a < b < t ==> block[a].id != block[b].id
  {
    BlockDistinctIff(rs, t, h, digest);
  }

  lemma DistinctIds(block: seq<Signatory>)
    requires forall a, b :: 0 <= a < b < |block| ==> block[a].id != block[b].id
    ensures |Ids(block)| == |block|
  {
    var list := seq(|block|, k requires 0 <= k < |block| => block[k].id);
    DistinctSize(list);
    forall id ensures id in Elements(list) <==> id in Ids(block) {
      if id in Elements(list) {
        var k :| 0 <= k < |list| && list[k] == id;
        assert block[k] in block;
      }
      if id in Ids(block) {
        var k :| 0 <= k < |block| && block[k].id == id;
        assert list[k] == id;
      }
    }
    assert Elements(list) == Ids(block);
  }
}
