/** A follower's check of the signatories attached to a broadcast final report. */
module Acceptance {
  import opened FiniteSets
  import opened Quorum

  /** Every signatory's ID parses as a key and is a known peer. */
  predicate Vetted(sigs: seq<Signatory>, known: set<string>, isKey: string -> bool) {
    forall s :: s in sigs ==> isKey(s.id) && s.id in known
  }

  function ValidIds(sigs: seq<Signatory>, valid: Signatory -> bool): set<string> {
    set s | s in sigs && valid(s) :: s.id
  }

  /** Some prefix is vetted throughout and holds f + 1 distinct IDs with a valid signature. */
  ghost predicate Accepts(sigs: seq<Signatory>, f: nat, known: set<string>, isKey: string -> bool,
                          valid: Signatory -> bool)
  {
    exists k :: 0 <= k <= |sigs| && Vetted(sigs[..k], known, isKey) && |ValidIds(sigs[..k], valid)| >= f + 1
  }

  lemma PrefixIds(sigs: seq<Signatory>, k: nat, l: nat, valid: Signatory -> bool)
    requires k <= l <= |sigs|
    ensures |ValidIds(sigs[..k], valid)| <= |ValidIds(sigs[..l], valid)|
  {
    forall s | s in sigs[..k] ensures s in sigs[..l] {
      var i :| 0 <= i < k && sigs[i] == s;
      assert sigs[..l][i] == s;
    }
    SubsetSize(ValidIds(sigs[..k], valid), ValidIds(sigs[..l], valid));
  }

  /** The loop: stop with a refusal at the first unvetted signatory, with success at f + 1 distinct valid ones. */
  method VerifySignatories(sigs: seq<Signatory>, f: nat, known: set<string>, isKey: string -> bool,
                           valid: Signatory -> bool) returns (ok: bool)
    ensures ok <==> Accepts(sigs, f, known, isKey, valid)
  {
    var unique: set<string> := {};
    var count := 0;
    for i := 0 to |sigs|
      invariant Vetted(sigs[..i], known, isKey)
      invariant unique == ValidIds(sigs[..i], valid)
      invariant count == |unique| <= f
    {
      var s := sigs[i];
      assert sigs[..i + 1] == sigs[..i] + [s];
      if !isKey(s.id) || s.id !in known {
        Refused(sigs, i, f, known, isKey, valid);
        return false;
      }
      if valid(s) {
        if s.id !in unique {
          unique := unique + {s.id};
          count := count + 1;
        }
      }
      assert unique == ValidIds(sigs[..i + 1], valid);
      if count >= f + 1 {
        return true;
      }
    }
    assert sigs[..|sigs|] == sigs;
    forall k | 0 <= k <= |sigs| ensures |ValidIds(sigs[..k], valid)| <= f {
      PrefixIds(sigs, k, |sigs|, valid);
    }
    return false;
  }

  lemma Refused(sigs: seq<Signatory>, i: nat, f: nat, known: set<string>, isKey: string -> bool,
                valid: Signatory -> bool)
    requires i < |sigs| && (!isKey(sigs[i].id) || sigs[i].id !in known)
    requires |ValidIds(sigs[..i], valid)| <= f
    ensures !Accepts(sigs, f, known, isKey, valid)
  {
    forall k | 0 <= k <= |sigs| ensures !(Vetted(sigs[..k], known, isKey) && |ValidIds(sigs[..k], valid)| >= f + 1) {
      if k <= i {
        PrefixIds(sigs, k, i, valid);
      } else {
        assert sigs[..k][i] == sigs[i];
      }
    }
  }

  /** When all signatories are vetted, the verdict is the number of distinct valid signers. */
  lemma AllVetted(sigs: seq<Signatory>, f: nat, known: set<string>, isKey: string -> bool, valid: Signatory -> bool)
    requires Vetted(sigs, known, isKey)
    ensures Accepts(sigs, f, known, isKey, valid) <==> |ValidIds(sigs, valid)| >= f + 1
  {
    assert sigs[..|sigs|] == sigs;
    forall k | 0 <= k <= |sigs| ensures |ValidIds(sigs[..k], valid)| <= |ValidIds(sigs, valid)| {
      PrefixIds(sigs, k, |sigs|, valid);
    }
  }

  /** Then the order of the signatories does not matter. */
  lemma VerdictIgnoresOrder(a: seq<Signatory>, b: seq<Signatory>, f: nat, known: set<string>, isKey: string -> bool,
                            valid: Signatory -> bool)
    requires Vetted(a, known, isKey) && multiset(a) == multiset(b)
    ensures Accepts(a, f, known, isKey, valid) <==> Accepts(b, f, known, isKey, valid)
  {
    forall s ensures s in a <==> s in b {
      assert s in multiset(a) <==> s in multiset(b);
    }
    assert ValidIds(a, valid) == ValidIds(b, valid);
    AllVetted(a, f, known, isKey, valid);
    AllVetted(b, f, known, isKey, valid);
  }

  /** The signatories that parse and are known, in order. */
  function VettedPart(sigs: seq<Signatory>, known: set<string>, isKey: string -> bool): seq<Signatory> {
    if sigs == [] then [] else
      var front, x := VettedPart(sigs[..|sigs| - 1], known, isKey), sigs[|sigs| - 1];
      if isKey(x.id) && x.id in known then front + [x] else front
  }

  /** The others, in order. */
  function UnvettedPart(sigs: seq<Signatory>, known: set<string>, isKey: string -> bool): seq<Signatory> {
    if sigs == [] then [] else
      var front, x := UnvettedPart(sigs[..|sigs| - 1], known, isKey), sigs[|sigs| - 1];
      if isKey(x.id) && x.id in known then front else front + [x]
  }

  lemma {:induction false} PartsMakeWhole(sigs: seq<Signatory>, known: set<string>, isKey: string -> bool)
    ensures multiset(VettedPart(sigs, known, isKey)) + multiset(UnvettedPart(sigs, known, isKey)) == multiset(sigs)
    ensures forall s :: s in VettedPart(sigs, known, isKey) <==> s in sigs && isKey(s.id) && s.id in known
    ensures forall s :: s in UnvettedPart(sigs, known, isKey) <==> s in sigs && !(isKey(s.id) && s.id in known)
  {
    if sigs != [] {
      PartsMakeWhole(sigs[..|sigs| - 1], known, isKey);
      assert sigs == sigs[..|sigs| - 1] + [sigs[|sigs| - 1]];
    }
  }

  /** With too few distinct valid signers among the vetted, no order is accepted. */
  lemma TooFewVetted(a: seq<Signatory>, b: seq<Signatory>, f: nat, known: set<string>, isKey: string -> bool,
                     valid: Signatory -> bool)
    requires multiset(a) == multiset(b) && |ValidIds(VettedPart(a, known, isKey), valid)| <= f
    ensures !Accepts(b, f, known, isKey, valid)
  {
    var vetted := VettedPart(a, known, isKey);
    PartsMakeWhole(a, known, isKey);
    forall k | 0 <= k <= |b| && Vetted(b[..k], known, isKey) ensures |ValidIds(b[..k], valid)| <= f {
      forall s | s in b[..k] ensures s in vetted {
        assert s in b && s in multiset(b) && s in multiset(a);
      }
      SubsetSize(ValidIds(b[..k], valid), ValidIds(vetted, valid));
    }
  }

  /** Visiting the vetted signatories first accepts, visiting an unvetted one first refuses. */
  lemma PartsOrdered(sigs: seq<Signatory>, f: nat, known: set<string>, isKey: string -> bool, valid: Signatory -> bool)
    requires !Vetted(sigs, known, isKey) && |ValidIds(VettedPart(sigs, known, isKey), valid)| > f
    ensures Accepts(VettedPart(sigs, known, isKey) + UnvettedPart(sigs, known, isKey), f, known, isKey, valid)
    ensures !Accepts(UnvettedPart(sigs, known, isKey) + VettedPart(sigs, known, isKey), f, known, isKey, valid)
  {
    var good, bad := VettedPart(sigs, known, isKey), UnvettedPart(sigs, known, isKey);
    PartsMakeWhole(sigs, known, isKey);
    assert (good + bad)[..|good|] == good;
    var s :| s in sigs && !(isKey(s.id) && s.id in known);
    assert s in bad && bad[0] in bad && (bad + good)[0] == bad[0];
    assert ValidIds((bad + good)[..0], valid) == {};
    Refused(bad + good, 0, f, known, isKey, valid);
  }

  ghost predicate OrderIrrelevant(sigs: seq<Signatory>, f: nat, known: set<string>, isKey: string -> bool,
                                  valid: Signatory -> bool)
  {
    forall b :: multiset(b) == multiset(sigs) ==> (Accepts(b, f, known, isKey, valid)
                                                   <==> Accepts(sigs, f, known, isKey, valid))
  }

  /** Exactly when the order does not matter: all signatories are vetted, or the vetted ones alone are too few. */
  lemma OrderIrrelevantIff(sigs: seq<Signatory>, f: nat, known: set<string>, isKey: string -> bool,
                           valid: Signatory -> bool)
    ensures OrderIrrelevant(sigs, f, known, isKey, valid)
            <==> Vetted(sigs, known, isKey) || |ValidIds(VettedPart(sigs, known, isKey), valid)| <= f
  {
    if Vetted(sigs, known, isKey) {
      forall b | multiset(b) == multiset(sigs)
        ensures Accepts(b, f, known, isKey, valid) <==> Accepts(sigs, f, known, isKey, valid)
      {
        VerdictIgnoresOrder(sigs, b, f, known, isKey, valid);
      }
    } else if |ValidIds(VettedPart(sigs, known, isKey), valid)| <= f {
      forall b | multiset(b) == multiset(sigs) ensures !Accepts(b, f, known, isKey, valid) {
        TooFewVetted(sigs, b, f, known, isKey, valid);
      }
      assert !Accepts(sigs, f, known, isKey, valid);
    } else {
      var good, bad := VettedPart(sigs, known, isKey), UnvettedPart(sigs, known, isKey);
      PartsMakeWhole(sigs, known, isKey);
      PartsOrdered(sigs, f, known, isKey, valid);
      assert multiset(good + bad) == multiset(sigs) == multiset(bad + good);
    }
  }

  /** An instance: one valid signer and one unknown signatory, with f = 0. */
  lemma OrderDecides(good: Signatory, bad: Signatory, known: set<string>, isKey: string -> bool,
                     valid: Signatory -> bool)
    requires isKey(good.id) && good.id in known && valid(good) && bad.id !in known
    ensures Accepts([good, bad], 0, known, isKey, valid) && !Accepts([bad, good], 0, known, isKey, valid)
  {
    var sigs := [good, bad];
    assert sigs[..1] == [good] && [good][..0] == [];
    assert VettedPart([good], known, isKey) == [good] && UnvettedPart([good], known, isKey) == [];
    assert VettedPart(sigs, known, isKey) == [good] && UnvettedPart(sigs, known, isKey) == [bad];
    assert good.id in ValidIds([good], valid);
    assert bad in sigs;
    PartsOrdered(sigs, 0, known, isKey, valid);
    assert [good] + [bad] == [good, bad] && [bad] + [good] == [bad, good];
  }

  /** An accepted report carries a valid signature of an honest, known peer when at most f IDs are faulty. */
  lemma AcceptedHasHonestSigner(sigs: seq<Signatory>, f: nat, known: set<string>, isKey: string -> bool,
                                valid: Signatory -> bool, faulty: set<string>) returns (s: Signatory)
    requires Accepts(sigs, f, known, isKey, valid) && |faulty| <= f
    ensures s in sigs && valid(s) && s.id in known && s.id !in faulty
  {
    var k :| 0 <= k <= |sigs| && Vetted(sigs[..k], known, isKey) && |ValidIds(sigs[..k], valid)| >= f + 1;
    var id := Outsider(ValidIds(sigs[..k], valid), faulty);
    s :| s in sigs[..k] && valid(s) && s.id == id;
  }
}
