/** `assembleFinalReport`: counting equal responses per job and picking those with enough support. */
module Quorum {
  import opened Basics

  type JobReports = map<string, Json>

  /** A report the leader holds: the sender, its value per job, its signature. */
  datatype Report = Report(from: string, reports: JobReports, sig: Signature)

  datatype Signatory = Signatory(sign: Signature, id: string)

  datatype FinalReport = FinalReport(report: JobReports, signatories: seq<Signatory>)

  /** SHA-256 of the JSON form of a value; None when the value has no JSON form. */
  type Hasher = Json -> Option<Digest>

  /** The zero report every round's list starts with. */
  const PLACEHOLDER: Report := Report("", map[], Signature(0, 0))

  function FaultBound(n: nat): nat {
    if n == 0 then 0 else (n - 1) / 3
  }

  // ---- What the tables mean ----

  predicate Votes(r: Report, job: string, h: Digest, digest: Hasher) {
    job in r.reports && digest(r.reports[job]) == Some(h)
  }

  /** The number of reports whose value for `job` hashes to `h`. */
  function Support(rs: seq<Report>, job: string, h: Digest, digest: Hasher): nat {
    if rs == [] then 0 else
      Support(rs[..|rs| - 1], job, h, digest) + if Votes(rs[|rs| - 1], job, h, digest) then 1 else 0
  }

  /** The value of the last report whose value for `job` hashes to `h`. */
  function LastValue(rs: seq<Report>, job: string, h: Digest, digest: Hasher): Option<Json> {
    if rs == [] then None
    else if Votes(rs[|rs| - 1], job, h, digest) then Some(rs[|rs| - 1].reports[job])
    else LastValue(rs[..|rs| - 1], job, h, digest)
  }

  function Sharing(r: Report, h: Digest, digest: Hasher): set<string> {
    set job | job in r.reports && digest(r.reports[job]) == Some(h)
  }

  function Copies(x: Signatory, k: nat): (s: seq<Signatory>)
    ensures |s| == k && forall i :: 0 <= i < k ==> s[i] == x
  {
    seq(k, _ => x)
  }

  function Signer(r: Report): Signatory {
    Signatory(r.sig, r.from)
  }

  /** Everyone who signed a value hashing to `h`, once for each of its jobs with that hash. */
  function Signers(rs: seq<Report>, h: Digest, digest: Hasher): seq<Signatory> {
    if rs == [] then [] else
      Signers(rs[..|rs| - 1], h, digest)
      + Copies(Signer(rs[|rs| - 1]), |Sharing(rs[|rs| - 1], h, digest)|)
  }

  ghost predicate Supported(rs: seq<Report>, t: nat, job: string, digest: Hasher) {
    exists h :: Support(rs, job, h, digest) >= t
  }

  /** The signatories appended job by job: `t` of those who signed the chosen hash. */
  function Blocks(rs: seq<Report>, t: nat, digest: Hasher, order: seq<string>, choice: map<string, Digest>)
    : seq<Signatory>
    requires forall j :: j in order ==> j in choice
  {
    if order == [] then [] else
      var last := order[|order| - 1];
      var signers := Signers(rs, choice[last], digest);
      Blocks(rs, t, digest, order[..|order| - 1], choice)
      + if t <= |signers| then signers[..t] else []
  }

  /** `out` is what assembling yields when the jobs with consensus are met in `order` and the
      hash met first with enough support is `choice[job]`. */
  ghost predicate AssembledBy(rs: seq<Report>, t: nat, digest: Hasher, out: Option<FinalReport>,
                              order: seq<string>, choice: map<string, Digest>)
  {
    && (forall i, j :: 0 <= i < j < |order| ==> order[i] != order[j])
    && (forall j :: j in order <==> j in choice)
    && (forall j :: j in choice <==> Supported(rs, t, j, digest))
    && (forall j :: j in choice ==> Support(rs, j, choice[j], digest) >= t)
    && (if order == [] then out == None
        else && out.Some?
             && out.value.report.Keys == choice.Keys
             && (forall j :: j in choice ==> Some(out.value.report[j]) == LastValue(rs, j, choice[j], digest))
             && out.value.signatories == Blocks(rs, t, digest, order, choice))
  }

  /** `out` is a possible outcome of assembly, for some order of visiting the maps. */
  ghost predicate IsAssembly(rs: seq<Report>, t: nat, digest: Hasher, out: Option<FinalReport>) {
    exists order, choice :: AssembledBy(rs, t, digest, out, order, choice)
  }

  // ---- Supporting facts ----

  lemma {:induction false} SupportHasValue(rs: seq<Report>, job: string, h: Digest, digest: Hasher)
    ensures Support(rs, job, h, digest) > 0 <==> LastValue(rs, job, h, digest).Some?
    ensures LastValue(rs, job, h, digest).Some? ==>
              exists i :: 0 <= i < |rs| && Votes(rs[i], job, h, digest)
                          && LastValue(rs, job, h, digest) == Some(rs[i].reports[job])
  {
    if rs != [] {
      var pre := rs[..|rs| - 1];
      SupportHasValue(pre, job, h, digest);
      if Votes(rs[|rs| - 1], job, h, digest) {
        assert rs[|rs| - 1] in rs;
      } else if LastValue(pre, job, h, digest).Some? {
        var i :| 0 <= i < |pre| && Votes(pre[i], job, h, digest)
                 && LastValue(pre, job, h, digest) == Some(pre[i].reports[job]);
        assert rs[i] == pre[i];
      }
    }
  }

  lemma {:induction false} SupportWithinSigners(rs: seq<Report>, job: string, h: Digest, digest: Hasher)
    ensures Support(rs, job, h, digest) <= |Signers(rs, h, digest)|
  {
    if rs != [] {
      SupportWithinSigners(rs[..|rs| - 1], job, h, digest);
      if Votes(rs[|rs| - 1], job, h, digest) {
        assert job in Sharing(rs[|rs| - 1], h, digest);
      }
    }
  }

  // ---- The tables ----

  type Counts = map<string, map<Digest, nat>>
  type Stored = map<string, map<Digest, JobReports>>
  type SignerTable = map<Digest, seq<Signatory>>

  function Count(cnt: Counts, job: string, h: Digest): nat {
    if job in cnt && h in cnt[job] then cnt[job][h] else 0
  }

  function SignersAt(sigs: SignerTable, h: Digest): seq<Signatory> {
    if h in sigs then sigs[h] else []
  }

  function AddCount(cnt: Counts, job: string, h: Digest): Counts {
    var row := if job in cnt then cnt[job] else map[];
    cnt[job := row[h := Count(cnt, job, h) + 1]]
  }

  function AddStored(fin: Stored, job: string, h: Digest, reports: JobReports): Stored {
    var row := if job in fin then fin[job] else map[];
    fin[job := row[h := reports]]
  }

  function AddSigner(sigs: SignerTable, h: Digest, x: Signatory): SignerTable {
    sigs[h := SignersAt(sigs, h) + [x]]
  }

  ghost predicate Counted(cnt: Counts, rs: seq<Report>, digest: Hasher) {
    && (forall job, h :: Count(cnt, job, h) == Support(rs, job, h, digest))
    && (forall job, h :: job in cnt && h in cnt[job] ==> cnt[job][h] > 0)
  }

  ghost predicate Kept(fin: Stored, cnt: Counts, rs: seq<Report>, digest: Hasher) {
    && fin.Keys == cnt.Keys
    && (forall job :: job in cnt ==> fin[job].Keys == cnt[job].Keys)
    && (forall job, h :: job in fin && h in fin[job] ==>
          job in fin[job][h] && LastValue(rs, job, h, digest) == Some(fin[job][h][job]))
  }

  ghost predicate Listed(sigs: SignerTable, rs: seq<Report>, digest: Hasher) {
    forall h :: SignersAt(sigs, h) == Signers(rs, h, digest)
  }

  /** `r` with only the jobs in `done`. */
  function Partial(r: Report, done: set<string>): Report
    requires done <= r.reports.Keys
  {
    r.(reports := map j | j in done :: r.reports[j])
  }

  lemma PartialVotes(r: Report, done: set<string>, j: string, job: string, h: Digest, digest: Hasher)
    requires done <= r.reports.Keys && j in r.reports && j !in done
    ensures Votes(Partial(r, done + {j}), job, h, digest)
            <==> Votes(Partial(r, done), job, h, digest) || (job == j && digest(r.reports[j]) == Some(h))
    ensures !Votes(Partial(r, done), j, h, digest)
  {
  }

  lemma PartialSharing(r: Report, done: set<string>, j: string, h: Digest, digest: Hasher)
    requires done <= r.reports.Keys && j in r.reports && j !in done
    ensures Sharing(Partial(r, done + {j}), h, digest)
            == Sharing(Partial(r, done), h, digest) + if digest(r.reports[j]) == Some(h) then {j} else {}
    ensures j !in Sharing(Partial(r, done), h, digest)
  {
  }

  lemma CountedStep(cnt: Counts, pre: seq<Report>, r: Report, done: set<string>, j: string, h: Digest, digest: Hasher)
    requires done <= r.reports.Keys && j in r.reports && j !in done && digest(r.reports[j]) == Some(h)
    requires Counted(cnt, pre + [Partial(r, done)], digest)
    ensures Counted(AddCount(cnt, j, h), pre + [Partial(r, done + {j})], digest)
  {
    var was, now := pre + [Partial(r, done)], pre + [Partial(r, done + {j})];
    assert was[..|pre|] == pre && now[..|pre|] == pre;
    var cnt' := AddCount(cnt, j, h);
    forall job, g ensures Count(cnt', job, g) == Support(now, job, g, digest) {
      assert Count(cnt, job, g) == Support(was, job, g, digest);
      PartialVotes(r, done, j, job, g, digest);
    }
  }

  lemma KeptStep(fin: Stored, cnt: Counts, pre: seq<Report>, r: Report, done: set<string>, j: string, h: Digest,
                 digest: Hasher)
    requires done <= r.reports.Keys && j in r.reports && j !in done && digest(r.reports[j]) == Some(h)
    requires Kept(fin, cnt, pre + [Partial(r, done)], digest)
    ensures Kept(AddStored(fin, j, h, r.reports), AddCount(cnt, j, h), pre + [Partial(r, done + {j})], digest)
  {
    var was, now := pre + [Partial(r, done)], pre + [Partial(r, done + {j})];
    assert was[..|pre|] == pre && now[..|pre|] == pre;
    var fin' := AddStored(fin, j, h, r.reports);
    forall job, g | job in fin' && g in fin'[job]
      ensures job in fin'[job][g] && LastValue(now, job, g, digest) == Some(fin'[job][g][job])
    {
      PartialVotes(r, done, j, job, g, digest);
      if job != j || g != h {
        assert LastValue(was, job, g, digest) == Some(fin[job][g][job]);
      }
    }
  }

  lemma SignersSnoc(pre: seq<Report>, r: Report, h: Digest, digest: Hasher)
    ensures Signers(pre + [r], h, digest) == Signers(pre, h, digest) + Copies(Signer(r), |Sharing(r, h, digest)|)
  {
    assert (pre + [r])[..|pre|] == pre;
  }

  lemma CopiesSnoc(x: Signatory, k: nat)
    ensures Copies(x, k + 1) == Copies(x, k) + [x]
  {
  }

  lemma SharingSize(r: Report, done: set<string>, j: string, g: Digest, digest: Hasher)
    requires done <= r.reports.Keys && j in r.reports && j !in done
    ensures |Sharing(Partial(r, done + {j}), g, digest)|
            == |Sharing(Partial(r, done), g, digest)| + if digest(r.reports[j]) == Some(g) then 1 else 0
  {
    PartialSharing(r, done, j, g, digest);
    if digest(r.reports[j]) != Some(g) {
      assert Sharing(Partial(r, done + {j}), g, digest) == Sharing(Partial(r, done), g, digest);
    }
  }

  lemma SignersGrow(pre: seq<Report>, r: Report, done: set<string>, j: string, g: Digest, digest: Hasher)
    requires done <= r.reports.Keys && j in r.reports && j !in done
    ensures Signers(pre + [Partial(r, done + {j})], g, digest)
            == Signers(pre + [Partial(r, done)], g, digest)
               + if digest(r.reports[j]) == Some(g) then [Signer(r)] else []
  {
    SignersSnoc(pre, Partial(r, done), g, digest);
    SignersSnoc(pre, Partial(r, done + {j}), g, digest);
    SharingSize(r, done, j, g, digest);
    CopiesSnoc(Signer(r), |Sharing(Partial(r, done), g, digest)|);
  }

  lemma ListedStep(sigs: SignerTable, pre: seq<Report>, r: Report, done: set<string>, j: string, h: Digest,
                   digest: Hasher)
    requires done <= r.reports.Keys && j in r.reports && j !in done && digest(r.reports[j]) == Some(h)
    requires Listed(sigs, pre + [Partial(r, done)], digest)
    ensures Listed(AddSigner(sigs, h, Signer(r)), pre + [Partial(r, done + {j})], digest)
  {
    forall g ensures SignersAt(AddSigner(sigs, h, Signer(r)), g) == Signers(pre + [Partial(r, done + {j})], g, digest) {
      assert SignersAt(sigs, g) == Signers(pre + [Partial(r, done)], g, digest);
      SignersGrow(pre, r, done, j, g, digest);
    }
  }

  lemma SkipStep(cnt: Counts, fin: Stored, sigs: SignerTable, pre: seq<Report>, r: Report, done: set<string>, j: string,
                 digest: Hasher)
    requires done <= r.reports.Keys && j in r.reports && j !in done && digest(r.reports[j]) == None
    requires Counted(cnt, pre + [Partial(r, done)], digest)
    requires Kept(fin, cnt, pre + [Partial(r, done)], digest)
    requires Listed(sigs, pre + [Partial(r, done)], digest)
    ensures Counted(cnt, pre + [Partial(r, done + {j})], digest)
    ensures Kept(fin, cnt, pre + [Partial(r, done + {j})], digest)
    ensures Listed(sigs, pre + [Partial(r, done + {j})], digest)
  {
    var was, now := pre + [Partial(r, done)], pre + [Partial(r, done + {j})];
    assert was[..|pre|] == pre && now[..|pre|] == pre;
    forall job, g
      ensures Support(now, job, g, digest) == Support(was, job, g, digest)
      ensures LastValue(now, job, g, digest) == LastValue(was, job, g, digest)
    {
      PartialVotes(r, done, j, job, g, digest);
    }
    forall g ensures Signers(now, g, digest) == Signers(was, g, digest) {
      PartialSharing(r, done, j, g, digest);
      assert Sharing(Partial(r, done + {j}), g, digest) == Sharing(Partial(r, done), g, digest);
    }
  }

  lemma EmptyStep(pre: seq<Report>, r: Report, digest: Hasher)
    ensures var with := pre + [Partial(r, {})];
            forall job, h ::
              && Support(with, job, h, digest) == Support(pre, job, h, digest)
              && LastValue(with, job, h, digest) == LastValue(pre, job, h, digest)
    ensures forall h :: Signers(pre + [Partial(r, {})], h, digest) == Signers(pre, h, digest)
  {
    var with := pre + [Partial(r, {})];
    assert with[..|pre|] == pre;
    forall h ensures Signers(with, h, digest) == Signers(pre, h, digest) {
      assert Sharing(Partial(r, {}), h, digest) == {};
    }
  }

  ghost predicate Tables(cnt: Counts, fin: Stored, sigs: SignerTable, rs: seq<Report>, digest: Hasher) {
    Counted(cnt, rs, digest) && Kept(fin, cnt, rs, digest) && Listed(sigs, rs, digest)
  }

  lemma TablesStart(cnt: Counts, fin: Stored, sigs: SignerTable, pre: seq<Report>, r: Report, digest: Hasher)
    requires Tables(cnt, fin, sigs, pre, digest)
    ensures Tables(cnt, fin, sigs, pre + [Partial(r, {})], digest)
  {
    EmptyStep(pre, r, digest);
  }

  lemma TablesStep(cnt: Counts, fin: Stored, sigs: SignerTable, pre: seq<Report>, r: Report, done: set<string>,
                   j: string, digest: Hasher)
    requires done <= r.reports.Keys && j in r.reports && j !in done
    requires Tables(cnt, fin, sigs, pre + [Partial(r, done)], digest)
    ensures match digest(r.reports[j])
            case None => Tables(cnt, fin, sigs, pre + [Partial(r, done + {j})], digest)
            case Some(h) => Tables(AddCount(cnt, j, h), AddStored(fin, j, h, r.reports), AddSigner(sigs, h, Signer(r)),
                                   pre + [Partial(r, done + {j})], digest)
  {
    match digest(r.reports[j])
    case None =>
      SkipStep(cnt, fin, sigs, pre, r, done, j, digest);
    case Some(h) =>
      CountedStep(cnt, pre, r, done, j, h, digest);
      KeptStep(fin, cnt, pre, r, done, j, h, digest);
      ListedStep(sigs, pre, r, done, j, h, digest);
  }

  method CountJob(cnt0: Counts, fin0: Stored, sigs0: SignerTable, ghost pre: seq<Report>, r: Report,
                  ghost done: set<string>, j: string, digest: Hasher)
    returns (cnt: Counts, fin: Stored, sigs: SignerTable)
    requires done <= r.reports.Keys && j in r.reports && j !in done
    requires Tables(cnt0, fin0, sigs0, pre + [Partial(r, done)], digest)
    ensures Tables(cnt, fin, sigs, pre + [Partial(r, done + {j})], digest)
  {
    cnt, fin, sigs := cnt0, fin0, sigs0;
    TablesStep(cnt, fin, sigs, pre, r, done, j, digest);
    var hashed := digest(r.reports[j]);
    if hashed.Some? {
      var h := hashed.value;
      cnt, fin, sigs := AddCount(cnt, j, h), AddStored(fin, j, h, r.reports), AddSigner(sigs, h, Signer(r));
    }
  }

  /** Adds one report's jobs to the tables, in any order. */
  method CountReport(cnt0: Counts, fin0: Stored, sigs0: SignerTable, ghost pre: seq<Report>, r: Report, digest: Hasher)
    returns (cnt: Counts, fin: Stored, sigs: SignerTable)
    requires Tables(cnt0, fin0, sigs0, pre, digest)
    ensures Tables(cnt, fin, sigs, pre + [r], digest)
  {
    cnt, fin, sigs := cnt0, fin0, sigs0;
    var todo := r.reports.Keys;
    ghost var done: set<string> := {};
    TablesStart(cnt, fin, sigs, pre, r, digest);
    while todo != {}
      invariant todo !! done && todo + done == r.reports.Keys
      invariant Tables(cnt, fin, sigs, pre + [Partial(r, done)], digest)
      decreases |todo|
    {
      var j :| j in todo;
      cnt, fin, sigs := CountJob(cnt, fin, sigs, pre, r, done, j, digest);
      todo := todo - {j};
      done := done + {j};
    }
    assert Partial(r, done) == r;
  }

  /** The first hash met in one job's row whose count reaches the threshold. */
  method PickHash(row: map<Digest, nat>, t: nat) returns (found: bool, hash: Digest)
    ensures found ==> hash in row && row[hash] >= t
    ensures !found ==> forall h :: h in row ==> row[h] < t
  {
    var todo := row.Keys;
    hash := [];
    while todo != {}
      invariant todo <= row.Keys
      invariant forall h :: h in row.Keys - todo ==> row[h] < t
      decreases |todo|
    {
      var h :| h in todo;
      if row[h] >= t {
        return true, h;
      }
      todo := todo - {h};
    }
    return false, hash;
  }

  lemma BlocksFrame(rs: seq<Report>, t: nat, digest: Hasher, order: seq<string>, choice: map<string, Digest>,
                    j: string, h: Digest)
    requires forall i :: i in order ==> i in choice
    requires j !in order
    ensures Blocks(rs, t, digest, order, choice[j := h]) == Blocks(rs, t, digest, order, choice)
  {
    if order != [] {
      BlocksFrame(rs, t, digest, order[..|order| - 1], choice, j, h);
    }
  }

  ghost predicate Ordered(order: seq<string>, choice: map<string, Digest>) {
    && (forall i, j :: 0 <= i < j < |order| ==> order[i] != order[j])
    && (forall j :: j in order <==> j in choice)
  }

  ghost predicate Chosen(rs: seq<Report>, t: nat, digest: Hasher, done: set<string>, report: JobReports,
                         choice: map<string, Digest>)
  {
    && (forall j :: j in choice <==> j in done && Supported(rs, t, j, digest))
    && (forall j :: j in choice ==> Support(rs, j, choice[j], digest) >= t)
    && report.Keys == choice.Keys
    && (forall j :: j in choice ==> Some(report[j]) == LastValue(rs, j, choice[j], digest))
  }

  /** What the selection loop has built once the jobs in `done` were visited. */
  ghost predicate Selected(rs: seq<Report>, t: nat, digest: Hasher, done: set<string>, report: JobReports,
                           signatories: seq<Signatory>, order: seq<string>, choice: map<string, Digest>)
  {
    && Ordered(order, choice)
    && Chosen(rs, t, digest, done, report, choice)
    && signatories == Blocks(rs, t, digest, order, choice)
  }

  lemma OrderedStep(order: seq<string>, choice: map<string, Digest>, j: string, h: Digest)
    requires Ordered(order, choice) && j !in choice
    ensures Ordered(order + [j], choice[j := h])
  {
    forall i ensures i in order + [j] <==> i in choice[j := h] {
      assert i in order + [j] <==> i in order || i == j;
    }
  }

  lemma ChosenStep(rs: seq<Report>, t: nat, digest: Hasher, done: set<string>, report: JobReports,
                   choice: map<string, Digest>, j: string, h: Digest, v: Json)
    requires j !in done && Chosen(rs, t, digest, done, report, choice)
    requires Support(rs, j, h, digest) >= t && LastValue(rs, j, h, digest) == Some(v)
    ensures Chosen(rs, t, digest, done + {j}, report[j := v], choice[j := h])
  {
  }

  lemma SelectedStep(rs: seq<Report>, t: nat, digest: Hasher, done: set<string>, report: JobReports,
                     signatories: seq<Signatory>, order: seq<string>, choice: map<string, Digest>,
                     j: string, h: Digest, v: Json)
    requires t > 0 && j !in done && Selected(rs, t, digest, done, report, signatories, order, choice)
    requires Support(rs, j, h, digest) >= t && LastValue(rs, j, h, digest) == Some(v)
    ensures |Signers(rs, h, digest)| >= t
    ensures Selected(rs, t, digest, done + {j}, report[j := v], signatories + Signers(rs, h, digest)[..t],
                     order + [j], choice[j := h])
  {
    SupportWithinSigners(rs, j, h, digest);
    assert (order + [j])[..|order|] == order;
    OrderedStep(order, choice, j, h);
    ChosenStep(rs, t, digest, done, report, choice, j, h, v);
    BlocksFrame(rs, t, digest, order, choice, j, h);
  }

  lemma Lookup(cnt: Counts, fin: Stored, sigs: SignerTable, rs: seq<Report>, digest: Hasher, j: string, h: Digest)
    requires Tables(cnt, fin, sigs, rs, digest)
    ensures Support(rs, j, h, digest) == Count(cnt, j, h)
    ensures SignersAt(sigs, h) == Signers(rs, h, digest)
    ensures j in cnt && h in cnt[j] ==>
              && cnt[j][h] == Count(cnt, j, h) > 0
              && j in fin && h in fin[j] && j in fin[j][h] && LastValue(rs, j, h, digest) == Some(fin[j][h][j])
  {
    assert Count(cnt, j, h) == Support(rs, j, h, digest);
  }

  lemma NotSupported(cnt: Counts, fin: Stored, sigs: SignerTable, rs: seq<Report>, t: nat, digest: Hasher, j: string)
    requires t > 0 && Tables(cnt, fin, sigs, rs, digest)
    requires j in cnt ==> forall h :: h in cnt[j] ==> cnt[j][h] < t
    ensures !Supported(rs, t, j, digest)
  {
    forall g ensures Support(rs, j, g, digest) < t {
      Lookup(cnt, fin, sigs, rs, digest, j, g);
    }
  }

  /** One job's turn: the first hash met with enough support, if any. */
  method SelectJob(row: map<Digest, nat>, frow: map<Digest, JobReports>, sigs: SignerTable, j: string, t: nat,
                   report0: JobReports, signatories0: seq<Signatory>)
    returns (report: JobReports, signatories: seq<Signatory>, ghost hit: Option<Digest>)
    requires row.Keys == frow.Keys && forall h :: h in frow ==> j in frow[h]
    ensures match hit
            case None => (forall h :: h in row ==> row[h] < t) && report == report0 && signatories == signatories0
            case Some(h) =>
              && h in row && row[h] >= t
              && report == report0[j := frow[h][j]]
              && signatories == signatories0 + if |SignersAt(sigs, h)| >= t then SignersAt(sigs, h)[..t] else []
  {
    report, signatories, hit := report0, signatories0, None;
    var found, h := PickHash(row, t);
    if found {
      report := report[j := frow[h][j]];
      var signers := SignersAt(sigs, h);
      if |signers| >= t {
        signatories := signatories + signers[..t];
      }
      hit := Some(h);
    }
  }

  method SelectTurn(cnt: Counts, fin: Stored, sigs: SignerTable, ghost rs: seq<Report>, t: nat, ghost digest: Hasher,
                    ghost done: set<string>, j: string, report0: JobReports, signatories0: seq<Signatory>,
                    ghost order0: seq<string>, ghost choice0: map<string, Digest>)
    returns (report: JobReports, signatories: seq<Signatory>,
             ghost order: seq<string>, ghost choice: map<string, Digest>)
    requires t > 0 && Tables(cnt, fin, sigs, rs, digest)
    requires j in cnt && j !in done && Selected(rs, t, digest, done, report0, signatories0, order0, choice0)
    ensures Selected(rs, t, digest, done + {j}, report, signatories, order, choice)
  {
    RowsMatch(cnt, fin, sigs, rs, digest, j);
    ghost var hit;
    report, signatories, hit := SelectJob(cnt[j], fin[j], sigs, j, t, report0, signatories0);
    SelectedTurn(cnt, fin, sigs, rs, t, digest, done, report0, signatories0, order0, choice0, j, hit);
    order, choice := order0, choice0;
    if hit.Some? {
      order, choice := order + [j], choice[j := hit.value];
    }
  }

  /** Going through the jobs in any order. */
  method SelectJobs(cnt: Counts, fin: Stored, sigs: SignerTable, ghost rs: seq<Report>, t: nat, ghost digest: Hasher)
    returns (report: JobReports, signatories: seq<Signatory>)
    requires t > 0 && Tables(cnt, fin, sigs, rs, digest)
    ensures IsSelection(rs, t, digest, cnt.Keys, report, signatories)
  {
    report, signatories := map[], [];
    ghost var order: seq<string>, choice: map<string, Digest> := [], map[];
    var todo := cnt.Keys;
    SelectedStart(rs, t, digest);
    assert Selected(rs, t, digest, cnt.Keys - todo, report, signatories, order, choice);
    while todo != {}
      invariant todo <= cnt.Keys
      invariant Selected(rs, t, digest, cnt.Keys - todo, report, signatories, order, choice)
      decreases |todo|
    {
      var j :| j in todo;
      report, signatories, order, choice :=
        SelectTurn(cnt, fin, sigs, rs, t, digest, cnt.Keys - todo, j, report, signatories, order, choice);
      assert cnt.Keys - (todo - {j}) == (cnt.Keys - todo) + {j};
      todo := todo - {j};
    }
    assert cnt.Keys - {} == cnt.Keys;
  }

  ghost predicate IsSelection(rs: seq<Report>, t: nat, digest: Hasher, counted: set<string>, report: JobReports,
                              signatories: seq<Signatory>)
  {
    exists order, choice :: Selected(rs, t, digest, counted, report, signatories, order, choice)
  }

  lemma SelectedStart(rs: seq<Report>, t: nat, digest: Hasher)
    ensures forall ks: set<string> :: Selected(rs, t, digest, ks - ks, map[], [], [], map[])
  {
  }

  lemma RowsMatch(cnt: Counts, fin: Stored, sigs: SignerTable, rs: seq<Report>, digest: Hasher, j: string)
    requires Tables(cnt, fin, sigs, rs, digest) && j in cnt
    ensures j in fin && cnt[j].Keys == fin[j].Keys && forall h :: h in fin[j] ==> j in fin[j][h]
  {
  }

  lemma SelectedTurn(cnt: Counts, fin: Stored, sigs: SignerTable, rs: seq<Report>, t: nat, digest: Hasher,
                     done: set<string>, report: JobReports, signatories: seq<Signatory>, order: seq<string>,
                     choice: map<string, Digest>, j: string, hit: Option<Digest>)
    requires t > 0 && Tables(cnt, fin, sigs, rs, digest)
    requires j in cnt && j !in done && Selected(rs, t, digest, done, report, signatories, order, choice)
    requires hit.None? ==> forall h :: h in cnt[j] ==> cnt[j][h] < t
    requires hit.Some? ==> hit.value in cnt[j] && cnt[j][hit.value] >= t
    ensures match hit
            case None => Selected(rs, t, digest, done + {j}, report, signatories, order, choice)
            case Some(h) =>
              && j in fin && h in fin[j] && j in fin[j][h]
              && |SignersAt(sigs, h)| >= t
              && Selected(rs, t, digest, done + {j}, report[j := fin[j][h][j]], signatories + SignersAt(sigs, h)[..t],
                          order + [j], choice[j := h])
  {
    match hit
    case None =>
      NotSupported(cnt, fin, sigs, rs, t, digest, j);
      SelectedSkip(rs, t, digest, done, report, signatories, order, choice, j);
    case Some(h) =>
      Lookup(cnt, fin, sigs, rs, digest, j, h);
      SelectedStep(rs, t, digest, done, report, signatories, order, choice, j, h, fin[j][h][j]);
  }

  lemma SelectedSkip(rs: seq<Report>, t: nat, digest: Hasher, done: set<string>, report: JobReports,
                     signatories: seq<Signatory>, order: seq<string>, choice: map<string, Digest>, j: string)
    requires Selected(rs, t, digest, done, report, signatories, order, choice)
    requires !Supported(rs, t, j, digest)
    ensures Selected(rs, t, digest, done + {j}, report, signatories, order, choice)
  {
  }

  lemma AllCounted(cnt: Counts, fin: Stored, sigs: SignerTable, rs: seq<Report>, t: nat, digest: Hasher)
    requires t > 0 && Tables(cnt, fin, sigs, rs, digest)
    ensures forall j :: Supported(rs, t, j, digest) ==> j in cnt
  {
    forall j | Supported(rs, t, j, digest) ensures j in cnt {
      if j !in cnt {
        NotSupported(cnt, fin, sigs, rs, t, digest, j);
      }
    }
  }

  lemma SelectedSize(counted: set<string>, rs: seq<Report>, t: nat, digest: Hasher,
                     report: JobReports, signatories: seq<Signatory>, order: seq<string>, choice: map<string, Digest>)
    requires t > 0 && Selected(rs, t, digest, counted, report, signatories, order, choice)
    ensures order == [] <==> report == map[]
    ensures order == [] <==> |signatories| < t
  {
    ResultSize(rs, t, digest, order, choice);
    assert |signatories| == t * |order|;
    if order == [] {
      assert report.Keys == {};
    } else {
      assert order[0] in report;
      AtLeastOnce(t, |order|);
    }
  }

  lemma AtLeastOnce(t: nat, k: nat)
    requires k > 0
    ensures t * k >= t
  {
    assert t * k == t * (k - 1) + t;
  }

  /** Selecting over all counted jobs, and failing on an empty or short result, is assembly. */
  lemma SelectedIsAssembly(counted: set<string>, rs: seq<Report>, t: nat, digest: Hasher, report: JobReports,
                           signatories: seq<Signatory>, order: seq<string>, choice: map<string, Digest>,
                           out: Option<FinalReport>)
    requires t > 0 && forall j :: Supported(rs, t, j, digest) ==> j in counted
    requires Selected(rs, t, digest, counted, report, signatories, order, choice)
    requires out == if order == [] then None else Some(FinalReport(report, signatories))
    ensures AssembledBy(rs, t, digest, out, order, choice)
  {
  }

  /** `assembleFinalReport` for threshold `f + 1`, with every map visited in any order. */
  method AssembleFinalReport(rs: seq<Report>, f: nat, digest: Hasher)
    returns (out: Option<FinalReport>)
    ensures IsAssembly(rs, f + 1, digest, out)
  {
    var cnt: Counts, fin: Stored, sigs: SignerTable := map[], map[], map[];
    for i := 0 to |rs|
      invariant Tables(cnt, fin, sigs, rs[..i], digest)
    {
      cnt, fin, sigs := CountReport(cnt, fin, sigs, rs[..i], rs[i], digest);
      assert rs[..i + 1] == rs[..i] + [rs[i]];
    }
    assert rs[..|rs|] == rs;
    var report, signatories := SelectJobs(cnt, fin, sigs, rs, f + 1, digest);
    ghost var order, choice :| Selected(rs, f + 1, digest, cnt.Keys, report, signatories, order, choice);
    AllCounted(cnt, fin, sigs, rs, f + 1, digest);
    SelectedSize(cnt.Keys, rs, f + 1, digest, report, signatories, order, choice);
    if report == map[] || |signatories| < f + 1 {
      out := None;
    } else {
      out := Some(FinalReport(report, signatories));
    }
    SelectedIsAssembly(cnt.Keys, rs, f + 1, digest, report, signatories, order, choice, out);
  }

  lemma OneMore(t: nat, k: nat)
    ensures t * (k + 1) == t * k + t
  {
  }

  /** Each job with consensus contributes exactly `t` signatories. */
  lemma {:induction false} ResultSize(rs: seq<Report>, t: nat, digest: Hasher, order: seq<string>,
                                      choice: map<string, Digest>)
    requires forall j :: j in order ==> j in choice && Support(rs, j, choice[j], digest) >= t
    ensures |Blocks(rs, t, digest, order, choice)| == t * |order|
  {
    if order != [] {
      var last, front := order[|order| - 1], order[..|order| - 1];
      forall j | j in front ensures j in choice && Support(rs, j, choice[j], digest) >= t {
        assert j in order;
      }
      ResultSize(rs, t, digest, front, choice);
      SupportWithinSigners(rs, last, choice[last], digest);
      OneMore(t, |front|);
    }
  }
}
