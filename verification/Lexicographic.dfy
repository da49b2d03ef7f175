/** The order Go's `<` gives strings and byte slices, and association lists sorted by it. */
module Lexicographic {

  /** Lexicographic order on sequences whose elements are compared by `rank`. */
  predicate Less<T>(a: seq<T>, b: seq<T>, rank: T -> int)
  {
    b != [] &&
    (a == [] || rank(a[0]) < rank(b[0]) || (rank(a[0]) == rank(b[0]) && Less(a[1..], b[1..], rank)))
  }

  function CharRank(c: char): int {
    c as int
  }

  predicate Below(a: string, b: string) {
    Less(a, b, CharRank)
  }

  /** At the first place where they differ in rank, `a` has ended or is smaller. */
  ghost predicate SmallerAt<T>(a: seq<T>, b: seq<T>, rank: T -> int, k: nat) {
    && k <= |a| && k < |b| && (forall i :: 0 <= i < k ==> rank(a[i]) == rank(b[i]))
    && (k == |a| || rank(a[k]) < rank(b[k]))
  }

  lemma HeadsAgree<T>(a: seq<T>, b: seq<T>, rank: T -> int, k: nat)
    requires SmallerAt(a, b, rank, k)
    ensures k > 0 ==> a != [] && b != [] && rank(a[0]) == rank(b[0])
  {
  }

  lemma {:induction false} LessIff<T>(a: seq<T>, b: seq<T>, rank: T -> int)
    ensures Less(a, b, rank) <==> exists k: nat :: SmallerAt(a, b, rank, k)
  {
    if a == [] || b == [] || rank(a[0]) != rank(b[0]) {
      if Less(a, b, rank) {
        assert SmallerAt(a, b, rank, 0);
      }
      if exists k: nat :: SmallerAt(a, b, rank, k) {
        var k: nat :| SmallerAt(a, b, rank, k);
        HeadsAgree(a, b, rank, k);
      }
    } else {
      LessIff(a[1..], b[1..], rank);
      if Less(a, b, rank) {
        var k: nat :| SmallerAt(a[1..], b[1..], rank, k);
        forall i | 0 <= i < k + 1 ensures rank(a[i]) == rank(b[i]) {
          if i > 0 {
            assert a[i] == a[1..][i - 1] && b[i] == b[1..][i - 1];
          }
        }
        assert SmallerAt(a, b, rank, k + 1);
      }
      if exists k: nat :: SmallerAt(a, b, rank, k) {
        var k: nat :| SmallerAt(a, b, rank, k);
        forall i | 0 <= i < k - 1 ensures rank(a[1..][i]) == rank(b[1..][i]) {
          assert a[1..][i] == a[i + 1] && b[1..][i] == b[i + 1];
        }
        assert SmallerAt(a[1..], b[1..], rank, k - 1);
      }
    }
  }

  /** Go's `<` on strings: one is a proper prefix of the other, or has the smaller character where they first differ. */
  lemma BelowIff(a: string, b: string)
    ensures Below(a, b) <==> exists k :: 0 <= k <= |a| && k < |b| && a[..k] == b[..k] && (k == |a| || a[k] < b[k])
  {
    LessIff(a, b, CharRank);
    if Below(a, b) {
      var k: nat :| SmallerAt(a, b, CharRank, k);
      assert forall i :: 0 <= i < k ==> CharRank(a[i]) == CharRank(b[i]);
      assert a[..k] == b[..k];
    }
    if exists k :: 0 <= k <= |a| && k < |b| && a[..k] == b[..k] && (k == |a| || a[k] < b[k]) {
      var k :| 0 <= k <= |a| && k < |b| && a[..k] == b[..k] && (k == |a| || a[k] < b[k]);
      forall i | 0 <= i < k ensures a[i] == b[i] {
        assert a[i] == a[..k][i] && b[i] == b[..k][i];
      }
      assert SmallerAt(a, b, CharRank, k);
    }
  }

  lemma {:induction false} LessAsymmetric<T>(a: seq<T>, b: seq<T>, rank: T -> int)
    requires Less(a, b, rank)
    ensures a != b && !Less(b, a, rank)
  {
    if a != [] && rank(a[0]) == rank(b[0]) {
      LessAsymmetric(a[1..], b[1..], rank);
    }
  }

  lemma {:induction false} LessTransitive<T>(a: seq<T>, b: seq<T>, c: seq<T>, rank: T -> int)
    requires Less(a, b, rank) && Less(b, c, rank)
    ensures Less(a, c, rank)
  {
    if a != [] && rank(a[0]) == rank(b[0]) == rank(c[0]) {
      LessTransitive(a[1..], b[1..], c[1..], rank);
    }
  }

  lemma {:induction false} BelowTotal(a: string, b: string)
    ensures Below(a, b) || a == b || Below(b, a)
  {
    if a != [] && b != [] && a[0] == b[0] {
      BelowTotal(a[1..], b[1..]);
      assert a == [a[0]] + a[1..] && b == [b[0]] + b[1..];
    }
  }

  ghost predicate IsLeast(k: string, ks: set<string>) {
    k in ks && forall o :: o in ks ==> o == k || Below(k, o)
  }

  lemma {:induction false} LeastExists(ks: set<string>)
    requires ks != {}
    ensures exists k :: IsLeast(k, ks)
    decreases |ks|
  {
    var x :| x in ks;
    var rest := ks - {x};
    if rest == {} {
      assert ks == {x};
      assert IsLeast(x, ks);
    } else {
      LeastExists(rest);
      var y :| IsLeast(y, rest);
      BelowTotal(x, y);
      var k := if Below(x, y) then x else y;
      forall o | o in ks ensures o == k || Below(k, o) {
        if o in rest && o != y && k == x {
          LessTransitive(x, y, o, CharRank);
        }
      }
      assert IsLeast(k, ks);
    }
  }

  lemma LeastUnique(k: string, l: string, ks: set<string>)
    requires IsLeast(k, ks) && IsLeast(l, ks)
    ensures k == l
  {
    if k != l {
      LessAsymmetric(k, l, CharRank);
    }
  }

  ghost function Least(ks: set<string>): (k: string)
    requires ks != {}
    ensures IsLeast(k, ks)
  {
    LeastExists(ks);
    var k :| IsLeast(k, ks);
    k
  }

  /** The members of a JSON object in the order they are written. */
  type Members<V> = seq<(string, V)>

  predicate Sorted<V>(doc: Members<V>) {
    forall i, j :: 0 <= i < j < |doc| ==> Below(doc[i].0, doc[j].0)
  }

  /** Members of `m` whose keys are in `ks`, in ascending key order. */
  ghost function SortedMembers<V>(m: map<string, V>, ks: set<string>): (doc: Members<V>)
    requires ks <= m.Keys
    decreases |ks|
  {
    if ks == {} then [] else
      var k := Least(ks);
      [(k, m[k])] + SortedMembers(m, ks - {k})
  }

  /** Decoding an object: a later member overwrites an earlier one of the same name. */
  function FromMembers<V>(doc: Members<V>): (m: map<string, V>)
    ensures forall k :: k in m <==> exists i :: 0 <= i < |doc| && doc[i].0 == k
  {
    if doc == [] then map[] else
      FromMembers(doc[..|doc| - 1])[doc[|doc| - 1].0 := doc[|doc| - 1].1]
  }

  lemma {:induction false} SortedMembersSound<V>(m: map<string, V>, ks: set<string>)
    requires ks <= m.Keys
    ensures var doc := SortedMembers(m, ks);
            && Sorted(doc)
            && (forall i :: 0 <= i < |doc| ==> doc[i].0 in ks && doc[i].1 == m[doc[i].0])
            && (forall k :: k in ks ==> exists i :: 0 <= i < |doc| && doc[i].0 == k)
    decreases |ks|
  {
    if ks != {} {
      var k := Least(ks);
      var rest := SortedMembers(m, ks - {k});
      SortedMembersSound(m, ks - {k});
      var doc := [(k, m[k])] + rest;
      forall o | o in ks ensures exists i :: 0 <= i < |doc| && doc[i].0 == o {
        if o == k {
          assert doc[0].0 == o;
        } else {
          assert o in ks - {k};
          var i :| 0 <= i < |rest| && rest[i].0 == o;
          assert doc[i + 1].0 == o;
        }
      }
    }
  }

  /** In a sorted object every member survives decoding. */
  /** Of several members with one name the last one counts. */
  lemma {:induction false} LastMemberCounts<V>(doc: Members<V>, i: nat)
    requires i < |doc| && forall k :: i < k < |doc| ==> doc[k].0 != doc[i].0
    ensures doc[i].0 in FromMembers(doc) && FromMembers(doc)[doc[i].0] == doc[i].1
  {
    var last := |doc| - 1;
    if i < last {
      LastMemberCounts(doc[..last], i);
    }
  }

  lemma DecodedMember<V>(doc: Members<V>, i: nat)
    requires Sorted(doc) && i < |doc|
    ensures doc[i].0 in FromMembers(doc) && FromMembers(doc)[doc[i].0] == doc[i].1
  {
    forall k | i < k < |doc| ensures doc[k].0 != doc[i].0 {
      LessAsymmetric(doc[i].0, doc[k].0, CharRank);
    }
    LastMemberCounts(doc, i);
  }

  /** Decoding a sorted encoding restores the map. */
  lemma DecodeEncode<V>(m: map<string, V>)
    ensures FromMembers(SortedMembers(m, m.Keys)) == m
  {
    var doc := SortedMembers(m, m.Keys);
    SortedMembersSound(m, m.Keys);
    forall k | k in m.Keys ensures k in FromMembers(doc) && FromMembers(doc)[k] == m[k] {
      var i :| 0 <= i < |doc| && doc[i].0 == k;
      DecodedMember(doc, i);
    }
    assert FromMembers(doc).Keys == m.Keys;
  }

  /** A sorted member list is the only sorted member list for its contents. */
  lemma {:induction false} SortedIsCanonical<V>(m: map<string, V>, ks: set<string>, doc: Members<V>)
    requires ks <= m.Keys && Sorted(doc)
    requires forall i :: 0 <= i < |doc| ==> doc[i].0 in ks && doc[i].1 == m[doc[i].0]
    requires forall k :: k in ks ==> exists i :: 0 <= i < |doc| && doc[i].0 == k
    ensures doc == SortedMembers(m, ks)
    decreases |ks|
  {
    if ks == {} {
      assert doc == [];
    } else {
      assert |doc| > 0 by {
        var i :| 0 <= i < |doc| && doc[i].0 == Least(ks);
      }
      forall o | o in ks ensures o == doc[0].0 || Below(doc[0].0, o) {
        var i :| 0 <= i < |doc| && doc[i].0 == o;
      }
      LeastUnique(doc[0].0, Least(ks), ks);
      var k, rest := doc[0].0, doc[1..];
      forall i | 0 <= i < |rest| ensures rest[i].0 in ks - {k} {
        LessAsymmetric(doc[0].0, doc[i + 1].0, CharRank);
      }
      forall o | o in ks - {k} ensures exists i :: 0 <= i < |rest| && rest[i].0 == o {
        var i :| 0 <= i < |doc| && doc[i].0 == o;
        assert rest[i - 1].0 == o;
      }
      SortedIsCanonical(m, ks - {k}, rest);
      assert doc == [doc[0]] + rest;
    }
  }

  /** A document equals the encoding of a map iff it is sorted and decodes to that map. */
  lemma EncodingExactly<V>(m: map<string, V>, doc: Members<V>)
    ensures doc == SortedMembers(m, m.Keys) <==> Sorted(doc) && FromMembers(doc) == m
  {
    SortedMembersSound(m, m.Keys);
    DecodeEncode(m);
    if Sorted(doc) && FromMembers(doc) == m {
      forall i | 0 <= i < |doc| ensures doc[i].0 in m && doc[i].1 == m[doc[i].0] {
        DecodedMember(doc, i);
      }
      SortedIsCanonical(m, m.Keys, doc);
    }
  }

  /** Writes a map as an object with its keys in ascending order. */
  method WriteSorted<V>(m: map<string, V>) returns (doc: Members<V>)
    ensures doc == SortedMembers(m, m.Keys)
  {
    doc := [];
    var todo := m.Keys;
    while todo != {}
      invariant todo <= m.Keys
      invariant doc + SortedMembers(m, todo) == SortedMembers(m, m.Keys)
      decreases |todo|
    {
      LeastExists(todo);
      var k :| k in todo && forall o :: o in todo ==> o == k || Below(k, o);
      LeastUnique(k, Least(todo), todo);
      doc := doc + [(k, m[k])];
      todo := todo - {k};
    }
  }
}
