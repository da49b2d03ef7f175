/** What assembly guarantees about the round: which values win, and who attests them. */
module Consensus {
  import opened Basics
  import opened FiniteSets
  import opened Quorum

  // ---- What is counted ----

  /** The places of the reports whose value for `job` hashes to `h`. */
  function Voters(rs: seq<Report>, job: string, h: Digest, digest: Hasher): set<nat> {
    set i: nat | i < |rs| && job in rs[i].reports && digest(rs[i].reports[job]) == Some(h)
  }

  /** Counting report by report counts each of them once. */
  lemma {:induction false} SupportCountsVoters(rs: seq<Report>, job: string, h: Digest, digest: Hasher)
    ensures Support(rs, job, h, digest) == |Voters(rs, job, h, digest)|
  {
    if rs != [] {
      var pre, last := rs[..|rs| - 1], |rs| - 1;
      SupportCountsVoters(pre, job, h, digest);
      if job in rs[last].reports && digest(rs[last].reports[job]) == Some(h) {
        assert Voters(rs, job, h, digest) == Voters(pre, job, h, digest) + {last};
      } else {
        assert Voters(rs, job, h, digest) == Voters(pre, job, h, digest);
      }
    }
  }

  /** The largest number of faulty nodes of which there are more than three times as many nodes. */
  lemma FaultBoundMeaning(n: nat)
    requires n >= 1
    ensures 3 * FaultBound(n) < n <= 3 * FaultBound(n) + 3
  {
  }

  // ---- Exact meaning of the assembled report ----

  lemma ValueIsReported(rs: seq<Report>, t: nat, digest: Hasher, job: string, h: Digest, v: Json)
    requires t > 0 && Support(rs, job, h, digest) >= t && LastValue(rs, job, h, digest) == Some(v)
    ensures Backed(rs, t, digest, job, v)
  {
    SupportHasValue(rs, job, h, digest);
    var i :| 0 <= i < |rs| && Votes(rs[i], job, h, digest) && v == rs[i].reports[job];
    assert Votes(rs[i], job, h, digest) && Support(rs, job, h, digest) >= t;
  }

  /** Some report carries `v` for `job`, and the hash of `v` has enough support. */
  ghost predicate Backed(rs: seq<Report>, t: nat, digest: Hasher, job: string, v: Json) {
    exists i :: 0 <= i < |rs| && job in rs[i].reports && rs[i].reports[job] == v
                && digest(v).Some? && Support(rs, job, digest(v).value, digest) >= t
  }

  lemma OrderSize(order: seq<string>, choice: map<string, Digest>)
    requires forall i, j :: 0 <= i < j < |order| ==> order[i] != order[j]
    requires forall j :: j in order <==> j in choice
    ensures |choice| == |order|
  {
    DistinctSize(order);
    assert Elements(order) == choice.Keys;
  }

  /** In every iteration order: a job is reported iff some value of it has enough support, the value
      reported is one of those, taken from a report that carries it, and every job brings exactly `t`
      signatories. */
  lemma ReportMeaning(rs: seq<Report>, t: nat, digest: Hasher, out: Option<FinalReport>)
    requires t > 0 && IsAssembly(rs, t, digest, out)
    ensures forall j :: (out.Some? && j in out.value.report) <==> Supported(rs, t, j, digest)
    ensures out.Some? ==> forall j :: j in out.value.report ==> Backed(rs, t, digest, j, out.value.report[j])
    ensures out.Some? ==> out.value.report != map[] && |out.value.signatories| == t * |out.value.report|
  {
    var order, choice :| AssembledBy(rs, t, digest, out, order, choice);
    if order == [] {
      assert forall j :: j !in choice;
    } else {
      assert order[0] in out.value.report;
      forall j | j in out.value.report ensures Backed(rs, t, digest, j, out.value.report[j]) {
        ValueIsReported(rs, t, digest, j, choice[j], out.value.report[j]);
      }
      ResultSize(rs, t, digest, order, choice);
      OrderSize(order, choice);
      assert |out.value.report| == |out.value.report.Keys| == |choice.Keys| == |choice|;
    }
  }

  // ---- Every choice is possible ----

  lemma OrderOf(jobs: set<string>) returns (order: seq<string>)
    ensures forall i, j :: 0 <= i < j < |order| ==> order[i] != order[j]
    ensures forall j :: j in order <==> j in jobs
    decreases |jobs|
  {
    order := [];
    if jobs != {} {
      var j :| j in jobs;
      var rest := OrderOf(jobs - {j});
      order := rest + [j];
    }
  }

  ghost function SupportedJobs(rs: seq<Report>, t: nat, digest: Hasher): set<string> {
    set r, j | r in rs && j in r.reports && Supported(rs, t, j, digest) :: j
  }

  lemma SupportedJobsComplete(rs: seq<Report>, t: nat, digest: Hasher, j: string)
    requires t > 0
    ensures j in SupportedJobs(rs, t, digest) <==> Supported(rs, t, j, digest)
  {
    if Supported(rs, t, j, digest) {
      var h :| Support(rs, j, h, digest) >= t;
      SupportHasValue(rs, j, h, digest);
      var i :| 0 <= i < |rs| && Votes(rs[i], j, h, digest);
      assert rs[i] in rs;
    }
  }

  ghost predicate ValidChoice(rs: seq<Report>, t: nat, digest: Hasher, choice: map<string, Digest>) {
    && (forall j :: j in choice <==> Supported(rs, t, j, digest))
    && (forall j :: j in choice ==> Support(rs, j, choice[j], digest) >= t)
  }

  /** Whichever sufficiently supported hash one picks for each job, some order of visiting the maps picks it. */
  lemma ChoiceIsPossible(rs: seq<Report>, t: nat, digest: Hasher, choice: map<string, Digest>)
    returns (out: Option<FinalReport>, order: seq<string>)
    requires t > 0 && ValidChoice(rs, t, digest, choice)
    ensures AssembledBy(rs, t, digest, out, order, choice)
  {
    order := OrderOf(choice.Keys);
    forall j | j in choice ensures LastValue(rs, j, choice[j], digest).Some? {
      SupportHasValue(rs, j, choice[j], digest);
    }
    var report := map j | j in choice :: LastValue(rs, j, choice[j], digest).value;
    out := if order == [] then None else Some(FinalReport(report, Blocks(rs, t, digest, order, choice)));
  }

  lemma SomeChoice(rs: seq<Report>, t: nat, digest: Hasher) returns (choice: map<string, Digest>)
    requires t > 0
    ensures ValidChoice(rs, t, digest, choice)
  {
    var jobs := SupportedJobs(rs, t, digest);
    forall j ensures j in jobs <==> Supported(rs, t, j, digest) {
      SupportedJobsComplete(rs, t, digest, j);
    }
    choice := map j | j in jobs :: var h :| Support(rs, j, h, digest) >= t; h;
  }

  /** Assembly always has an outcome. */
  lemma AssemblyExists(rs: seq<Report>, t: nat, digest: Hasher) returns (out: Option<FinalReport>)
    requires t > 0
    ensures IsAssembly(rs, t, digest, out)
  {
    var choice := SomeChoice(rs, t, digest);
    var order;
    out, order := ChoiceIsPossible(rs, t, digest, choice);
  }

  /** Every sufficiently supported value of a job is reported in some iteration order. */
  lemma SupportedIsPossible(rs: seq<Report>, t: nat, digest: Hasher, job: string, h: Digest)
    returns (out: Option<FinalReport>)
    requires t > 0 && Support(rs, job, h, digest) >= t
    ensures IsAssembly(rs, t, digest, out)
    ensures out.Some? && job in out.value.report && digest(out.value.report[job]) == Some(h)
  {
    var any := SomeChoice(rs, t, digest);
    var order;
    out, order := ChoiceIsPossible(rs, t, digest, any[job := h]);
    SupportHasValue(rs, job, h, digest);
    assert job in order;
  }

  /** All iteration orders yield the job map `expected`. */
  ghost predicate AlwaysYields(rs: seq<Report>, t: nat, digest: Hasher, expected: JobReports) {
    forall out :: IsAssembly(rs, t, digest, out) ==> Yields(out, expected)
  }

  predicate Yields(out: Option<FinalReport>, expected: JobReports) {
    if expected == map[] then out == None else out.Some? && out.value.report == expected
  }

  /** The hashes with enough support are exactly those of `expected`. */
  ghost predicate ExactSupport(rs: seq<Report>, t: nat, digest: Hasher, expected: JobReports) {
    forall j, h :: Support(rs, j, h, digest) >= t <==> j in expected && digest(expected[j]) == Some(h)
  }

  /** Exactly when every iteration order yields `expected`: iff the hashes counted often enough are exactly those of
      its values (given that no other value collides with one of them). */
  lemma YieldsIffExactSupport(rs: seq<Report>, t: nat, digest: Hasher, expected: JobReports)
    requires t > 0 && forall j :: j in expected ==> digest(expected[j]).Some?
    requires forall r, j :: r in rs && j in r.reports && j in expected ==>
               (digest(r.reports[j]) == digest(expected[j]) ==> r.reports[j] == expected[j])
    ensures AlwaysYields(rs, t, digest, expected) <==> ExactSupport(rs, t, digest, expected)
  {
    if AlwaysYields(rs, t, digest, expected) {
      forall j, h ensures Support(rs, j, h, digest) >= t <==> j in expected && digest(expected[j]) == Some(h) {
        NeedsSupport(rs, t, digest, expected, j, h);
      }
    } else if ExactSupport(rs, t, digest, expected) {
      forall out | IsAssembly(rs, t, digest, out) ensures Yields(out, expected) {
        ExactYields(rs, t, digest, expected, out);
      }
    }
  }

  lemma NeedsSupport(rs: seq<Report>, t: nat, digest: Hasher, expected: JobReports, j: string, h: Digest)
    requires t > 0 && AlwaysYields(rs, t, digest, expected)
    ensures Support(rs, j, h, digest) >= t <==> j in expected && digest(expected[j]) == Some(h)
  {
    if Support(rs, j, h, digest) >= t {
      var out := SupportedIsPossible(rs, t, digest, j, h);
      assert Yields(out, expected);
    } else if j in expected && digest(expected[j]) == Some(h) {
      var out := AssemblyExists(rs, t, digest);
      assert Yields(out, expected);
      ReportMeaning(rs, t, digest, out);
    }
  }

  lemma ExactYields(rs: seq<Report>, t: nat, digest: Hasher, expected: JobReports, out: Option<FinalReport>)
    requires t > 0 && ExactSupport(rs, t, digest, expected) && IsAssembly(rs, t, digest, out)
    requires forall j :: j in expected ==> digest(expected[j]).Some?
    requires forall r, j :: r in rs && j in r.reports && j in expected ==>
               (digest(r.reports[j]) == digest(expected[j]) ==> r.reports[j] == expected[j])
    ensures Yields(out, expected)
  {
    var order, choice :| AssembledBy(rs, t, digest, out, order, choice);
    forall j | j in expected ensures j in choice {
      assert Support(rs, j, digest(expected[j]).value, digest) >= t;
    }
    forall j | j in choice ensures j in expected && LastValue(rs, j, choice[j], digest) == Some(expected[j]) {
      assert Support(rs, j, choice[j], digest) >= t;
      SupportHasValue(rs, j, choice[j], digest);
    }
    assert choice.Keys == expected.Keys;
    AgreementExit(rs, t, digest, out, order, choice, expected);
  }

  function Carriers(rs: seq<Report>, job: string): nat {
    if rs == [] then 0 else
      Carriers(rs[..|rs| - 1], job) + if job in rs[|rs| - 1].reports then 1 else 0
  }

  lemma {:induction false} TwoChoices(rs: seq<Report>, job: string, h: Digest, g: Digest, digest: Hasher)
    requires h != g
    ensures Support(rs, job, h, digest) + Support(rs, job, g, digest) <= Carriers(rs, job)
  {
    if rs != [] {
      TwoChoices(rs[..|rs| - 1], job, h, g, digest);
    }
  }

  /** With fewer than 2t reports of a job, every iteration order gives that job the same value. */
  lemma ChoiceIsUnique(rs: seq<Report>, t: nat, digest: Hasher, out1: Option<FinalReport>, out2: Option<FinalReport>,
                       job: string)
    requires IsAssembly(rs, t, digest, out1) && IsAssembly(rs, t, digest, out2)
    requires Carriers(rs, job) < 2 * t
    ensures out1.Some? && job in out1.value.report ==>
              out2.Some? && job in out2.value.report && out1.value.report[job] == out2.value.report[job]
  {
    var order1, choice1 :| AssembledBy(rs, t, digest, out1, order1, choice1);
    var order2, choice2 :| AssembledBy(rs, t, digest, out2, order2, choice2);
    if job in choice1 {
      assert job in choice2 && order2 != [];
      if choice1[job] != choice2[job] {
        TwoChoices(rs, job, choice1[job], choice2[job], digest);
      }
    }
  }

  // ---- Conservation of signatories ----

  /** The votes for hash `h` summed over `jobs`. */
  ghost function TotalSupport(rs: seq<Report>, jobs: set<string>, h: Digest, digest: Hasher): nat
    decreases |jobs|
  {
    if jobs == {} then 0 else
      var j :| j in jobs;
      Support(rs, j, h, digest) + TotalSupport(rs, jobs - {j}, h, digest)
  }

  lemma {:induction false} TotalSupportPick(rs: seq<Report>, jobs: set<string>, j: string, h: Digest, digest: Hasher)
    requires j in jobs
    ensures TotalSupport(rs, jobs, h, digest) == Support(rs, j, h, digest) + TotalSupport(rs, jobs - {j}, h, digest)
    decreases |jobs|
  {
    var i :| i in jobs && TotalSupport(rs, jobs, h, digest)
                          == Support(rs, i, h, digest) + TotalSupport(rs, jobs - {i}, h, digest);
    if i != j {
      assert jobs - {i} - {j} == jobs - {j} - {i};
      TotalSupportPick(rs, jobs - {i}, j, h, digest);
      TotalSupportPick(rs, jobs - {j}, i, h, digest);
    }
  }

  lemma {:induction false} TotalSupportSnoc(pre: seq<Report>, r: Report, jobs: set<string>, h: Digest, digest: Hasher)
    ensures TotalSupport(pre + [r], jobs, h, digest)
            == TotalSupport(pre, jobs, h, digest) + |Sharing(r, h, digest) * jobs|
    decreases |jobs|
  {
    if jobs == {} {
      assert Sharing(r, h, digest) * jobs == {};
    } else {
      var j :| j in jobs;
      TotalSupportPick(pre + [r], jobs, j, h, digest);
      TotalSupportPick(pre, jobs, j, h, digest);
      TotalSupportSnoc(pre, r, jobs - {j}, h, digest);
      assert (pre + [r])[..|pre|] == pre;
      var less := Sharing(r, h, digest) * (jobs - {j});
      if Votes(r, j, h, digest) {
        assert Sharing(r, h, digest) * jobs == less + {j};
      } else {
        assert Sharing(r, h, digest) * jobs == less;
      }
    }
  }

  lemma {:induction false} NoReports(jobs: set<string>, h: Digest, digest: Hasher)
    ensures TotalSupport([], jobs, h, digest) == 0
    decreases |jobs|
  {
    if jobs != {} {
      var j :| j in jobs && TotalSupport([], jobs, h, digest)
                            == Support([], j, h, digest) + TotalSupport([], jobs - {j}, h, digest);
      assert Support([], j, h, digest) == 0;
      NoReports(jobs - {j}, h, digest);
    }
  }

  /** A hash's signatory list is as long as its counts over all jobs together. */
  lemma {:induction false} SignatoriesConserved(rs: seq<Report>, jobs: set<string>, h: Digest, digest: Hasher)
    requires forall r :: r in rs ==> r.reports.Keys <= jobs
    ensures |Signers(rs, h, digest)| == TotalSupport(rs, jobs, h, digest)
  {
    if rs == [] {
      NoReports(jobs, h, digest);
    } else {
      var pre, r := rs[..|rs| - 1], rs[|rs| - 1];
      assert rs == pre + [r];
      SignatoriesConserved(pre, jobs, h, digest);
      TotalSupportSnoc(pre, r, jobs, h, digest);
      assert Sharing(r, h, digest) * jobs == Sharing(r, h, digest);
    }
  }

  // ---- Who attests a block ----

  ghost predicate DistinctSenders(rs: seq<Report>) {
    forall i, j :: 0 <= i < j < |rs| && rs[i].reports != map[] && rs[j].reports != map[] ==> rs[i].from != rs[j].from
  }

  /** Where the entries of report `i` start in the signatory list of `h`. */
  function Start(rs: seq<Report>, i: nat, h: Digest, digest: Hasher): nat
    requires i <= |rs|
  {
    |Signers(rs[..i], h, digest)|
  }

  lemma StartNext(rs: seq<Report>, i: nat, h: Digest, digest: Hasher)
    requires i < |rs|
    ensures Start(rs, i + 1, h, digest) == Start(rs, i, h, digest) + |Sharing(rs[i], h, digest)|
  {
    assert rs[..i + 1][..i] == rs[..i];
  }

  /** Entry `k` of the signatory list comes from the report whose stretch contains it. */
  lemma {:induction false} Located(rs: seq<Report>, h: Digest, digest: Hasher, k: nat) returns (i: nat)
    requires k < |Signers(rs, h, digest)|
    ensures i < |rs| && Start(rs, i, h, digest) <= k < Start(rs, i + 1, h, digest)
    ensures Signers(rs, h, digest)[k] == Signer(rs[i]) && Sharing(rs[i], h, digest) != {}
  {
    var pre := rs[..|rs| - 1];
    if k < |Signers(pre, h, digest)| {
      i := Located(pre, h, digest, k);
      assert pre[..i] == rs[..i] && pre[..i + 1] == rs[..i + 1];
    } else {
      i := |rs| - 1;
      assert rs[..i + 1] == rs;
    }
  }

  lemma {:induction false} EntriesOf(rs: seq<Report>, i: nat, h: Digest, digest: Hasher, k: nat)
    requires i < |rs| && Start(rs, i, h, digest) <= k < Start(rs, i + 1, h, digest)
    ensures k < |Signers(rs, h, digest)| && Signers(rs, h, digest)[k] == Signer(rs[i])
    decreases |rs|
  {
    var pre := rs[..|rs| - 1];
    if i == |rs| - 1 {
      assert rs[..i + 1] == rs;
    } else {
      assert pre[..i] == rs[..i] && pre[..i + 1] == rs[..i + 1];
      EntriesOf(pre, i, h, digest, k);
    }
  }

  /** With one report per sender, the `t` signatories taken for a hash are distinct senders iff no report
      met before the last place is filled carries that hash for two of its jobs. */
  lemma BlockDistinctIff(rs: seq<Report>, t: nat, h: Digest, digest: Hasher)
    requires DistinctSenders(rs) && t <= |Signers(rs, h, digest)|
    ensures (forall a, b :: 0 <= a < b < t ==> Signers(rs, h, digest)[a].id != Signers(rs, h, digest)[b].id)
            <==> (forall i :: 0 <= i < |rs| && Start(rs, i, h, digest) + 1 < t ==> |Sharing(rs[i], h, digest)| <= 1)
  {
    var signers := Signers(rs, h, digest);
    if (forall a, b :: 0 <= a < b < t ==> signers[a].id != signers[b].id) {
      forall i | 0 <= i < |rs| && Start(rs, i, h, digest) + 1 < t ensures |Sharing(rs[i], h, digest)| <= 1 {
        StartNext(rs, i, h, digest);
        var k := Start(rs, i, h, digest);
        if |Sharing(rs[i], h, digest)| > 1 {
          EntriesOf(rs, i, h, digest, k);
          EntriesOf(rs, i, h, digest, k + 1);
        }
      }
    }
    if (forall i :: 0 <= i < |rs| && Start(rs, i, h, digest) + 1 < t ==> |Sharing(rs[i], h, digest)| <= 1) {
      forall a, b | 0 <= a < b < t ensures signers[a].id != signers[b].id {
        SameReport(rs, t, h, digest, a, b);
      }
    }
  }

  lemma SameReport(rs: seq<Report>, t: nat, h: Digest, digest: Hasher, a: nat, b: nat)
    requires DistinctSenders(rs) && a < b < t <= |Signers(rs, h, digest)|
    requires forall i :: 0 <= i < |rs| && Start(rs, i, h, digest) + 1 < t ==> |Sharing(rs[i], h, digest)| <= 1
    ensures Signers(rs, h, digest)[a].id != Signers(rs, h, digest)[b].id
  {
    var i := Located(rs, h, digest, a);
    var k := Located(rs, h, digest, b);
    StartNext(rs, i, h, digest);
    if i != k {
      assert rs[i].reports != map[] && rs[k].reports != map[] by {
        var x :| x in Sharing(rs[i], h, digest);
        var y :| y in Sharing(rs[k], h, digest);
      }
    }
  }

  ghost predicate NoCollision(rs: seq<Report>, digest: Hasher) {
    forall r, s, i, j :: r in rs && s in rs && i in r.reports && j in s.reports
                         && digest(r.reports[i]).Some? && digest(r.reports[i]) == digest(s.reports[j])
                         ==> r.reports[i] == s.reports[j]
  }

  /** The report of `id` contains value `v` for `job`. */
  ghost predicate Attests(rs: seq<Report>, id: string, job: string, v: Json) {
    exists i :: 0 <= i < |rs| && rs[i].from == id && job in rs[i].reports && rs[i].reports[job] == v
  }

  /** `k` blocks of `t` entries. */
  function Offset(t: nat, k: nat): nat {
    if k == 0 then 0 else Offset(t, k - 1) + t
  }

  lemma BlocksSnoc(rs: seq<Report>, t: nat, digest: Hasher, front: seq<string>, job: string,
                   choice: map<string, Digest>)
    requires (forall j :: j in front ==> j in choice) && job in choice && Support(rs, job, choice[job], digest) >= t
    ensures var signers := Signers(rs, choice[job], digest);
            && t <= |signers|
            && Blocks(rs, t, digest, front + [job], choice) == Blocks(rs, t, digest, front, choice) + signers[..t]
  {
    SupportWithinSigners(rs, job, choice[job], digest);
    assert (front + [job])[..|front|] == front;
  }

  lemma {:induction false} BlocksLength(rs: seq<Report>, t: nat, digest: Hasher, order: seq<string>,
                                        choice: map<string, Digest>)
    requires forall j :: j in order ==> j in choice && Support(rs, j, choice[j], digest) >= t
    ensures |Blocks(rs, t, digest, order, choice)| == Offset(t, |order|)
  {
    if order != [] {
      var last, front := order[|order| - 1], order[..|order| - 1];
      assert order == front + [last];
      BlocksLength(rs, t, digest, front, choice);
      BlocksSnoc(rs, t, digest, front, last, choice);
    }
  }

  lemma Within<T>(s: seq<T>, more: seq<T>, at: nat, t: nat, block: seq<T>)
    requires at + t <= |s| && s[at..at + t] == block
    ensures (s + more)[at..at + t] == block
  {
    assert (s + more)[at..at + t] == s[at..at + t];
  }

  lemma Appended<T>(s: seq<T>, block: seq<T>)
    ensures (s + block)[|s|..|s| + |block|] == block
  {
  }

  lemma LastBlockAt(rs: seq<Report>, t: nat, digest: Hasher, front: seq<string>, job: string,
                    choice: map<string, Digest>)
    requires forall j :: j in front + [job] ==> j in choice && Support(rs, j, choice[j], digest) >= t
    ensures var sigs, signers := Blocks(rs, t, digest, front + [job], choice), Signers(rs, choice[job], digest);
            && t <= |signers| && Offset(t, |front|) + t <= |sigs|
            && sigs[Offset(t, |front|)..Offset(t, |front|) + t] == signers[..t]
  {
    assert forall j :: j in front ==> j in front + [job];
    assert job in front + [job];
    BlocksSnoc(rs, t, digest, front, job, choice);
    BlocksLength(rs, t, digest, front, choice);
    Appended(Blocks(rs, t, digest, front, choice), Signers(rs, choice[job], digest)[..t]);
  }

  lemma EarlierBlockAt(rs: seq<Report>, t: nat, digest: Hasher, front: seq<string>, job: string,
                       choice: map<string, Digest>, at: nat, block: seq<Signatory>)
    requires (forall j :: j in front ==> j in choice) && job in choice && Support(rs, job, choice[job], digest) >= t
    requires var sigs := Blocks(rs, t, digest, front, choice);
             at + t <= |sigs| && sigs[at..at + t] == block
    ensures var sigs := Blocks(rs, t, digest, front + [job], choice);
            at + t <= |sigs| && sigs[at..at + t] == block
  {
    BlocksSnoc(rs, t, digest, front, job, choice);
    Within(Blocks(rs, t, digest, front, choice), Signers(rs, choice[job], digest)[..t], at, t, block);
  }

  /** Block `k` of the signatories of an assembled report is the front of the list of the hash chosen for job `k`. */
  lemma {:induction false} BlockAt(rs: seq<Report>, t: nat, digest: Hasher, order: seq<string>,
                                   choice: map<string, Digest>, k: nat)
    requires k < |order| && forall j :: j in order ==> j in choice && Support(rs, j, choice[j], digest) >= t
    ensures var sigs, signers := Blocks(rs, t, digest, order, choice), Signers(rs, choice[order[k]], digest);
            t <= |signers| && Offset(t, k) + t <= |sigs| && sigs[Offset(t, k)..Offset(t, k) + t] == signers[..t]
  {
    var last, front := order[|order| - 1], order[..|order| - 1];
    assert order == front + [last];
    if k < |front| {
      BlockAt(rs, t, digest, front, choice, k);
      EarlierBlockAt(rs, t, digest, front, last, choice, Offset(t, k), Signers(rs, choice[order[k]], digest)[..t]);
    } else {
      LastBlockAt(rs, t, digest, front, last, choice);
    }
  }

  /** `block` is what an assembled report's signatories hold for `job`, `t` entries starting at `at`. */
  ghost predicate IsBlock(fin: FinalReport, t: nat, at: nat, block: seq<Signatory>) {
    at + t <= |fin.signatories| && block == fin.signatories[at..at + t]
  }

  lemma BlockOfJob(rs: seq<Report>, t: nat, digest: Hasher, fin: FinalReport, job: string)
    returns (h: Digest, at: nat, block: seq<Signatory>)
    requires t > 0 && IsAssembly(rs, t, digest, Some(fin)) && job in fin.report
    ensures IsBlock(fin, t, at, block) && t <= |Signers(rs, h, digest)| && block == Signers(rs, h, digest)[..t]
    ensures digest(fin.report[job]) == Some(h) && LastValue(rs, job, h, digest) == Some(fin.report[job])
  {
    var order, choice :| AssembledBy(rs, t, digest, Some(fin), order, choice);
    h := choice[job];
    LastValueHash(rs, job, h, digest, fin.report[job]);
    at := ChosenBlock(rs, t, digest, order, choice, job);
    block := fin.signatories[at..at + t];
  }

  lemma ChosenBlock(rs: seq<Report>, t: nat, digest: Hasher, order: seq<string>, choice: map<string, Digest>,
                    job: string)
    returns (at: nat)
    requires job in order && forall j :: j in order ==> j in choice && Support(rs, j, choice[j], digest) >= t
    ensures var sigs, signers := Blocks(rs, t, digest, order, choice), Signers(rs, choice[job], digest);
            t <= |signers| && at + t <= |sigs| && sigs[at..at + t] == signers[..t]
  {
    var k :| 0 <= k < |order| && order[k] == job;
    BlockAt(rs, t, digest, order, choice, k);
    at := Offset(t, k);
  }

  lemma LastValueHash(rs: seq<Report>, job: string, h: Digest, digest: Hasher, v: Json)
    requires LastValue(rs, job, h, digest) == Some(v)
    ensures digest(v) == Some(h)
  {
    SupportHasValue(rs, job, h, digest);
  }

  /** With one report per sender and no report carrying the final value's hash for another job, an assembled report
      holds for each of its jobs `t` signatories that are distinct senders and reported its final value; if fewer than
      `t` senders are faulty, one of them is honest. */
  lemma JobIsAttested(rs: seq<Report>, t: nat, digest: Hasher, fin: FinalReport, job: string, faulty: set<string>)
    returns (at: nat, block: seq<Signatory>, honest: Signatory)
    requires IsAssembly(rs, t, digest, Some(fin)) && job in fin.report && |faulty| < t
    requires DistinctSenders(rs) && NoCollision(rs, digest)
    requires forall r, j :: r in rs && j in r.reports && digest(r.reports[j]) == digest(fin.report[job]) ==> j == job
    ensures IsBlock(fin, t, at, block) && forall a, b :: 0 <= a < b < t ==> block[a].id != block[b].id
    ensures forall x :: x in block ==> Attests(rs, x.id, job, fin.report[job])
    ensures honest in block && honest.id !in faulty
  {
    var h: Digest;
    h, at, block := BlockOfJob(rs, t, digest, fin, job);
    forall r | r in rs ensures Sharing(r, h, digest) <= {job} && |Sharing(r, h, digest)| <= 1 {
      SubsetSize(Sharing(r, h, digest), {job});
    }
    BlockDistinctIff(rs, t, h, digest);
    forall k | 0 <= k < t ensures Attests(rs, block[k].id, job, fin.report[job]) {
      BlockEntryAttests(rs, digest, job, h, fin.report[job], k);
    }
    honest := HonestEntry(block, faulty);
  }

  lemma HonestEntry(block: seq<Signatory>, faulty: set<string>) returns (honest: Signatory)
    requires forall a, b :: 0 <= a < b < |block| ==> block[a].id != block[b].id
    requires |faulty| < |block|
    ensures honest in block && honest.id !in faulty
  {
    var ids := seq(|block|, k requires 0 <= k < |block| => block[k].id);
    DistinctSize(ids);
    var id := Outsider(Elements(ids), faulty);
    var k :| 0 <= k < |ids| && ids[k] == id;
    honest := block[k];
  }

  lemma BlockEntryAttests(rs: seq<Report>, digest: Hasher, job: string, h: Digest, v: Json, k: nat)
    requires NoCollision(rs, digest) && LastValue(rs, job, h, digest) == Some(v)
    requires forall r :: r in rs ==> Sharing(r, h, digest) <= {job}
    requires k < |Signers(rs, h, digest)|
    ensures Attests(rs, Signers(rs, h, digest)[k].id, job, v)
  {
    var i := Located(rs, h, digest, k);
    assert rs[i] in rs;
    var x :| x in Sharing(rs[i], h, digest);
    assert x == job;
    SupportHasValue(rs, job, h, digest);
    var l :| 0 <= l < |rs| && Votes(rs[l], job, h, digest) && v == rs[l].reports[job];
    assert rs[l] in rs;
    assert rs[i].reports[job] == v;
  }

  /** The condition matters: two jobs with one value fill a block of two with the same sender twice. */
  lemma SharedHashRepeatsSender(v: Json, h: Digest, s1: Signature, s2: Signature, digest: Hasher)
    requires digest(v) == Some(h)
    ensures var reports := map["a" := v, "b" := v];
            var rs := [PLACEHOLDER, Report("p", reports, s1), Report("q", reports, s2)];
            && DistinctSenders(rs)
            && Support(rs, "a", h, digest) == 2
            && Signers(rs, h, digest)
               == [Signatory(s1, "p"), Signatory(s1, "p"), Signatory(s2, "q"), Signatory(s2, "q")]
  {
    var reports := map["a" := v, "b" := v];
    var p, q := Report("p", reports, s1), Report("q", reports, s2);
    var rs := [PLACEHOLDER, p, q];
    SupportSnoc([PLACEHOLDER, p], q, "a", h, digest);
    SupportSnoc([PLACEHOLDER], p, "a", h, digest);
    assert [PLACEHOLDER, p] + [q] == rs && [PLACEHOLDER] + [p] == [PLACEHOLDER, p];
    assert Sharing(p, h, digest) == {"a", "b"} == Sharing(q, h, digest);
    assert Sharing(PLACEHOLDER, h, digest) == {};
    SignersSnoc([PLACEHOLDER, p], q, h, digest);
    SignersSnoc([PLACEHOLDER], p, h, digest);
    assert Copies(Signer(p), 2) == [Signer(p), Signer(p)] && Copies(Signer(q), 2) == [Signer(q), Signer(q)];
  }

  lemma SupportSnoc(pre: seq<Report>, r: Report, job: string, h: Digest, digest: Hasher)
    ensures Support(pre + [r], job, h, digest)
            == Support(pre, job, h, digest) + if Votes(r, job, h, digest) then 1 else 0
  {
    assert (pre + [r])[..|pre|] == pre;
  }

  // ---- Agreement in one round ----

  /** The number of reports sent by members of `faulty`. */
  function FaultyReports(got: seq<Report>, faulty: set<string>): nat {
    if got == [] then 0 else
      FaultyReports(got[..|got| - 1], faulty) + if got[|got| - 1].from in faulty then 1 else 0
  }

  /** The jobs of `m` whose value has a JSON form. */
  function Encodable(m: JobReports, digest: Hasher): JobReports {
    map j | j in m && digest(m[j]).Some? :: m[j]
  }

  ghost predicate HonestAgree(got: seq<Report>, faulty: set<string>, honest: JobReports) {
    forall r :: r in got && r.from !in faulty ==> r.reports == honest
  }

  ghost predicate NoForgery(got: seq<Report>, honest: JobReports, digest: Hasher) {
    forall r, j :: r in got && j in r.reports && j in honest && digest(honest[j]).Some? ==>
      (digest(r.reports[j]) == digest(honest[j]) ==> r.reports[j] == honest[j])
  }

  lemma {:induction false} VoteBounds(got: seq<Report>, faulty: set<string>, honest: JobReports, digest: Hasher,
                                      j: string, h: Digest)
    requires HonestAgree(got, faulty, honest)
    ensures j in honest && digest(honest[j]) == Some(h) ==>
              Support([PLACEHOLDER] + got, j, h, digest) >= |got| - FaultyReports(got, faulty)
    ensures !(j in honest && digest(honest[j]) == Some(h)) ==>
              Support([PLACEHOLDER] + got, j, h, digest) <= FaultyReports(got, faulty)
  {
    var all := [PLACEHOLDER] + got;
    if got == [] {
      assert all[..0] == [];
    } else {
      var pre := got[..|got| - 1];
      assert all[..|all| - 1] == [PLACEHOLDER] + pre && all[|all| - 1] == got[|got| - 1];
      assert got[|got| - 1] in got;
      VoteBounds(pre, faulty, honest, digest, j, h);
    }
  }

  /** The trigger fires on n entries of which one is the placeholder; the honest reports among the rest
      still outnumber the fault bound. */
  lemma HonestQuorum(count: nat, n: nat, faultyReports: nat)
    requires count >= 1 && count + 1 >= n && faultyReports <= FaultBound(n)
    ensures count - faultyReports >= FaultBound(n) + 1
  {
    var f := FaultBound(n);
    if n > 0 {
      assert n - 1 >= 3 * f;
    }
  }

  /** Round agreement: when the trigger has fired and at most f of the collected reports come from faulty
      senders, assembly succeeds iff the honest job map has an encodable job, and its report is exactly the
      honest job map, in every iteration order. */
  lemma RoundAgreement(got: seq<Report>, n: nat, faulty: set<string>, honest: JobReports, digest: Hasher,
                       out: Option<FinalReport>)
    requires |got| >= 1 && |got| + 1 >= n
    requires FaultyReports(got, faulty) <= FaultBound(n)
    requires HonestAgree(got, faulty, honest) && NoForgery(got, honest, digest)
    requires IsAssembly([PLACEHOLDER] + got, FaultBound(n) + 1, digest, out)
    ensures out.Some? <==> Encodable(honest, digest) != map[]
    ensures out.Some? ==> out.value.report == Encodable(honest, digest)
  {
    var rs, t := [PLACEHOLDER] + got, FaultBound(n) + 1;
    var order, choice :| AssembledBy(rs, t, digest, out, order, choice);
    HonestQuorum(|got|, n, FaultyReports(got, faulty));
    var expected := Encodable(honest, digest);
    forall j ensures j in choice <==> j in expected {
      HonestWins(got, t, faulty, honest, digest, j);
    }
    forall j | j in choice ensures LastValue(rs, j, choice[j], digest) == Some(expected[j]) {
      HonestChoice(got, t, faulty, honest, digest, j, choice[j]);
    }
    assert choice.Keys == expected.Keys;
    AgreementExit(rs, t, digest, out, order, choice, expected);
  }

  lemma HonestChoice(got: seq<Report>, t: nat, faulty: set<string>, honest: JobReports, digest: Hasher, j: string,
                     h: Digest)
    requires HonestAgree(got, faulty, honest) && NoForgery(got, honest, digest)
    requires FaultyReports(got, faulty) < t && j in Encodable(honest, digest)
    requires Support([PLACEHOLDER] + got, j, h, digest) >= t
    ensures LastValue([PLACEHOLDER] + got, j, h, digest) == Some(honest[j])
  {
    VoteBounds(got, faulty, honest, digest, j, h);
    HonestValue(got, honest, digest, j, h);
  }

  lemma AgreementExit(rs: seq<Report>, t: nat, digest: Hasher, out: Option<FinalReport>, order: seq<string>,
                      choice: map<string, Digest>, expected: JobReports)
    requires AssembledBy(rs, t, digest, out, order, choice) && choice.Keys == expected.Keys
    requires forall j :: j in choice ==> LastValue(rs, j, choice[j], digest) == Some(expected[j])
    ensures out.Some? <==> expected != map[]
    ensures out.Some? ==> out.value.report == expected
  {
    if order == [] {
      assert expected.Keys == {};
    } else {
      assert order[0] in expected;
    }
  }

  lemma HonestWins(got: seq<Report>, t: nat, faulty: set<string>, honest: JobReports, digest: Hasher, j: string)
    requires HonestAgree(got, faulty, honest)
    requires FaultyReports(got, faulty) < t <= |got| - FaultyReports(got, faulty)
    ensures Supported([PLACEHOLDER] + got, t, j, digest) <==> j in Encodable(honest, digest)
  {
    var rs := [PLACEHOLDER] + got;
    if j in Encodable(honest, digest) {
      VoteBounds(got, faulty, honest, digest, j, digest(honest[j]).value);
    } else {
      forall h ensures Support(rs, j, h, digest) < t {
        VoteBounds(got, faulty, honest, digest, j, h);
      }
    }
  }

  lemma HonestValue(got: seq<Report>, honest: JobReports, digest: Hasher, j: string, h: Digest)
    requires NoForgery(got, honest, digest)
    requires j in honest && digest(honest[j]) == Some(h)
    requires Support([PLACEHOLDER] + got, j, h, digest) > 0
    ensures LastValue([PLACEHOLDER] + got, j, h, digest) == Some(honest[j])
  {
    var rs := [PLACEHOLDER] + got;
    SupportHasValue(rs, j, h, digest);
    var i :| 0 <= i < |rs| && Votes(rs[i], j, h, digest) && LastValue(rs, j, h, digest) == Some(rs[i].reports[j]);
    assert rs[i] == got[i - 1] && rs[i] in got;
  }

  lemma {:induction false} SupportGrows(rs: seq<Report>, more: seq<Report>, job: string, h: Digest, digest: Hasher)
    ensures Support(rs, job, h, digest) <= Support(rs + more, job, h, digest)
    decreases |more|
  {
    if more == [] {
      assert rs + more == rs;
    } else {
      var pre := more[..|more| - 1];
      assert (rs + more)[..|rs + more| - 1] == rs + pre;
      SupportGrows(rs, pre, job, h, digest);
    }
  }

  lemma SupportedGrows(rs: seq<Report>, more: seq<Report>, t: nat, job: string, digest: Hasher)
    requires Supported(rs, t, job, digest)
    ensures Supported(rs + more, t, job, digest)
  {
    var h :| Support(rs, job, h, digest) >= t;
    SupportGrows(rs, more, job, h, digest);
  }

  /** Later reports only add jobs to the report. */
  lemma ReportGrows(rs: seq<Report>, more: seq<Report>, t: nat, digest: Hasher, out: Option<FinalReport>,
                    later: Option<FinalReport>)
    requires t > 0 && IsAssembly(rs, t, digest, out) && IsAssembly(rs + more, t, digest, later)
    ensures out.Some? ==> later.Some? && out.value.report.Keys <= later.value.report.Keys
  {
    ReportMeaning(rs, t, digest, out);
    ReportMeaning(rs + more, t, digest, later);
    if out.Some? {
      forall j | j in out.value.report ensures later.Some? && j in later.value.report {
        SupportedGrows(rs, more, t, j, digest);
      }
      var j :| j in out.value.report;
      assert later.Some?;
    }
  }

  lemma {:induction false} FaultyGrow(got: seq<Report>, more: seq<Report>, faulty: set<string>)
    ensures FaultyReports(got, faulty) <= FaultyReports(got + more, faulty)
    decreases |more|
  {
    if more == [] {
      assert got + more == got;
    } else {
      assert (got + more)[..|got + more| - 1] == got + more[..|more| - 1];
      FaultyGrow(got, more[..|more| - 1], faulty);
    }
  }

  /** As long as at most f of all collected reports come from faulty senders, later reports leave the
      assembled report as it was. */
  lemma ReportIsStable(got: seq<Report>, more: seq<Report>, n: nat, faulty: set<string>, honest: JobReports,
                       digest: Hasher, out: Option<FinalReport>, later: Option<FinalReport>)
    requires |got| >= 1 && |got| + 1 >= n
    requires FaultyReports(got + more, faulty) <= FaultBound(n)
    requires HonestAgree(got + more, faulty, honest) && NoForgery(got + more, honest, digest)
    requires IsAssembly([PLACEHOLDER] + got, FaultBound(n) + 1, digest, out)
    requires IsAssembly([PLACEHOLDER] + (got + more), FaultBound(n) + 1, digest, later)
    ensures out.Some? <==> later.Some?
    ensures out.Some? ==> later.value.report == out.value.report
  {
    FaultyGrow(got, more, faulty);
    assert forall r :: r in got ==> r in got + more;
    RoundAgreement(got, n, faulty, honest, digest, out);
    RoundAgreement(got + more, n, faulty, honest, digest, later);
  }

  lemma TwiceIsSupport(first: seq<Report>, bad: Report, job: string, h: Digest, digest: Hasher)
    requires Votes(bad, job, h, digest)
    ensures Supported(first + [bad] + [bad], 2, job, digest)
  {
    SupportSnoc(first + [bad], bad, job, h, digest);
    SupportSnoc(first, bad, job, h, digest);
  }

  /** Reports are not counted once per sender: for n = 4 one faulty sender's two equal reports put a job with its own
      value into the report, whatever the honest report says. */
  lemma RepeatedReportsWin(bad: Report, job: string, honest: Report, digest: Hasher, out: Option<FinalReport>)
    requires job in bad.reports && digest(bad.reports[job]).Some?
    requires IsAssembly([PLACEHOLDER] + [honest, bad, bad], FaultBound(4) + 1, digest, out)
    ensures FaultyReports([honest, bad, bad], {bad.from}) > FaultBound(4)
    ensures out.Some? && job in out.value.report && out.value.report[job] == bad.reports[job]
  {
    var rs := [PLACEHOLDER] + [honest, bad, bad];
    assert rs == [PLACEHOLDER, honest] + [bad] + [bad];
    TwiceIsSupport([PLACEHOLDER, honest], bad, job, digest(bad.reports[job]).value, digest);
    ReportMeaning(rs, 2, digest, out);
    assert [honest, bad, bad][..2] == [honest, bad];
    TwiceIsReported(honest, bad, job, digest, out);
  }

  lemma TwiceIsReported(honest: Report, bad: Report, job: string, digest: Hasher, out: Option<FinalReport>)
    requires job in bad.reports && digest(bad.reports[job]).Some?
    requires IsAssembly([PLACEHOLDER] + [honest, bad, bad], 2, digest, out)
    requires out.Some? && job in out.value.report
    ensures out.value.report[job] == bad.reports[job]
  {
    var rs := [PLACEHOLDER] + [honest, bad, bad];
    var order, choice :| AssembledBy(rs, 2, digest, out, order, choice);
    if !Votes(bad, job, choice[job], digest) {
      OtherOnce(honest, bad, job, choice[job], digest);
    }
    assert rs[3] == bad;
  }

  lemma OtherOnce(honest: Report, bad: Report, job: string, h: Digest, digest: Hasher)
    requires !Votes(bad, job, h, digest)
    ensures Support([PLACEHOLDER] + [honest, bad, bad], job, h, digest) <= 1
  {
    var one, two := [PLACEHOLDER] + [honest], [PLACEHOLDER] + [honest] + [bad];
    assert [PLACEHOLDER] + [honest, bad, bad] == two + [bad];
    SupportSnoc(two, bad, job, h, digest);
    SupportSnoc(one, bad, job, h, digest);
    SupportSnoc([PLACEHOLDER], honest, job, h, digest);
    assert Support([PLACEHOLDER], job, h, digest) == 0;
  }
}
