/** The per-sender observation map, its canonical encoding, and the two regroupings. */
module Observations {
  import opened Basics
  import opened FiniteSets
  import opened Lexicographic
  import opened Assembler

  /** jobId -> the observations one node made of that job. */
  type JobMap = map<string, seq<Response>>

  /** sender -> its observations by job. */
  type ObsMap = map<string, JobMap>

  /** JSON data as it travels; an object keeps its members in the order they are written. Documents with the same
      members may still differ in white space and escapes: `layout` tells those apart, and is empty as Go writes it. */
  datatype Doc = Malformed(raw: seq<Byte>) | Object(members: Members<Members<seq<Response>>>, layout: seq<Byte>)

  // ---- Canonical encoding ----

  ghost function EncodeInner(m: ObsMap): map<string, Members<seq<Response>>> {
    map p | p in m :: SortedMembers(m[p], m[p].Keys)
  }

  /** The document `json.Marshal` writes: keys ascending at both levels. */
  ghost function Encode(m: ObsMap): Doc {
    Doc.Object(SortedMembers(EncodeInner(m), m.Keys), [])
  }

  function Decode(doc: Doc): ObsMap
    requires doc.Object?
  {
    var outer := FromMembers(doc.members);
    map p | p in outer :: FromMembers(outer[p])
  }

  predicate Canonical(doc: Doc) {
    && doc.Object? && doc.layout == [] && Sorted(doc.members)
    && forall i :: 0 <= i < |doc.members| ==> Sorted(doc.members[i].1)
  }

  lemma EncodeMember(m: ObsMap, p: string)
    requires p in m
    ensures FromMembers(EncodeInner(m)[p]) == m[p]
  {
    DecodeEncode(m[p]);
  }

  /** Marshalling and then unmarshalling into a fresh map restores the map. */
  lemma RoundTrip(m: ObsMap)
    ensures Decode(Encode(m)) == m
  {
    var inner := EncodeInner(m);
    DecodeEncode(inner);
    assert inner.Keys == m.Keys;
    var d := Decode(Encode(m));
    assert d.Keys == m.Keys;
    forall p | p in m ensures d[p] == m[p] {
      EncodeMember(m, p);
    }
  }

  lemma EncodeIsCanonical(m: ObsMap)
    ensures Canonical(Encode(m))
  {
    var inner := EncodeInner(m);
    assert inner.Keys == m.Keys;
    SortedMembersSound(inner, inner.Keys);
    var members := Encode(m).members;
    forall i | 0 <= i < |members| ensures Sorted(members[i].1) {
      var p := members[i].0;
      SortedMembersSound(m[p], m[p].Keys);
    }
  }

  lemma CanonicalMember(doc: Doc, p: string)
    requires Canonical(doc) && p in Decode(doc)
    ensures var outer := FromMembers(doc.members);
            p in outer && outer[p] == SortedMembers(Decode(doc)[p], Decode(doc)[p].Keys)
  {
    var outer := FromMembers(doc.members);
    var i :| 0 <= i < |doc.members| && doc.members[i].0 == p;
    DecodedMember(doc.members, i);
    EncodingExactly(Decode(doc)[p], outer[p]);
  }

  lemma CanonicalEncoding(m: ObsMap, doc: Doc)
    requires Canonical(doc) && Decode(doc) == m
    ensures doc == Encode(m)
  {
    var inner, outer := EncodeInner(m), FromMembers(doc.members);
    assert outer.Keys == m.Keys by {
      assert outer.Keys == Decode(doc).Keys;
    }
    forall p | p in m ensures outer[p] == inner[p] {
      CanonicalMember(doc, p);
    }
    assert outer == inner;
    EncodingExactly(inner, doc.members);
  }

  /** A received document equals what marshalling `m` gives iff it is canonical and decodes to `m`. */
  lemma EncodedIff(m: ObsMap, doc: Doc)
    ensures doc == Encode(m) <==> Canonical(doc) && Decode(doc) == m
  {
    if doc == Encode(m) {
      RoundTrip(m);
      EncodeIsCanonical(m);
    } else if Canonical(doc) && Decode(doc) == m {
      CanonicalEncoding(m, doc);
    }
  }

  // ---- Regrouping one sender's responses by job (leader) ----

  /** The responses to job `j`, in the order they were sent. */
  function Select(rs: seq<Response>, j: string): seq<Response> {
    if rs == [] then [] else
      var front := Select(rs[..|rs| - 1], j);
      if rs[|rs| - 1].jobId == j then front + [rs[|rs| - 1]] else front
  }

  function Grouped(rs: seq<Response>): JobMap {
    map j | j in (set r | r in rs :: r.jobId) :: Select(rs, j)
  }

  /** Every sender's responses grouped by job. */
  function GroupAll(sent: map<string, seq<Response>>): ObsMap {
    map p | p in sent :: Grouped(sent[p])
  }

  lemma GroupAllUpdate(sent: map<string, seq<Response>>, p: string, rs: seq<Response>)
    ensures GroupAll(sent[p := rs]) == GroupAll(sent)[p := Grouped(rs)]
  {
  }

  method GroupByJob(rs: seq<Response>) returns (m: JobMap)
    ensures m == Grouped(rs)
  {
    m := map[];
    for i := 0 to |rs|
      invariant m == Grouped(rs[..i])
    {
      var j := rs[i].jobId;
      assert rs[..i + 1] == rs[..i] + [rs[i]];
      GroupedSnoc(rs[..i], rs[i]);
      m := m[j := (if j in m then m[j] else []) + [rs[i]]];
    }
    assert rs[..|rs|] == rs;
  }

  lemma GroupedSnoc(pre: seq<Response>, r: Response)
    ensures var m, j := Grouped(pre), r.jobId;
            Grouped(pre + [r]) == m[j := (if j in m then m[j] else []) + [r]]
  {
    var cur, m, j := pre + [r], Grouped(pre), r.jobId;
    assert cur[..|pre|] == pre;
    AbsentSelect(pre, j);
    assert Grouped(cur).Keys == m.Keys + {j};
  }

  lemma {:induction false} AbsentSelect(rs: seq<Response>, j: string)
    ensures (forall r :: r in rs ==> r.jobId != j) <==> Select(rs, j) == []
  {
    if rs != [] {
      var pre, last := rs[..|rs| - 1], rs[|rs| - 1];
      AbsentSelect(pre, j);
      assert rs == pre + [last];
    }
  }

  /** A sender's responses keep their order within each job: the k-th response is listed behind those for its job among
      the first k. */
  lemma {:induction false} SelectOrder(rs: seq<Response>, k: nat)
    requires k < |rs|
    ensures var before, all := Select(rs[..k], rs[k].jobId), Select(rs, rs[k].jobId);
            |before| < |all| && all[..|before|] == before && all[|before|] == rs[k]
  {
    var pre := rs[..|rs| - 1];
    if k == |rs| - 1 {
      assert pre == rs[..k];
    } else {
      SelectOrder(pre, k);
      assert pre[..k] == rs[..k];
    }
  }

  lemma {:induction false} SelectCount(rs: seq<Response>, j: string, x: Response)
    ensures multiset(Select(rs, j))[x] == if x.jobId == j then multiset(rs)[x] else 0
  {
    if rs != [] {
      SelectCount(rs[..|rs| - 1], j, x);
      assert rs == rs[..|rs| - 1] + [rs[|rs| - 1]];
    }
  }

  // ---- Regrouping across senders (follower) ----

  function Part(m: ObsMap, p: string, j: string): seq<Response>
    requires p in m
  {
    if j in m[p] then m[p][j] else []
  }

  /** All observations of job `j` by the senders in `ks`. */
  ghost function Collected(m: ObsMap, ks: set<string>, j: string): multiset<Response>
    requires ks <= m.Keys
    decreases |ks|
  {
    if ks == {} then multiset{} else
      var p :| p in ks;
      multiset(Part(m, p, j)) + Collected(m, ks - {p}, j)
  }

  lemma {:induction false} CollectedAdd(m: ObsMap, ks: set<string>, p: string, j: string)
    requires ks <= m.Keys && p in m && p !in ks
    ensures Collected(m, ks + {p}, j) == Collected(m, ks, j) + multiset(Part(m, p, j))
    decreases |ks|
  {
    var all := ks + {p};
    assert p in all;
    var q :| q in all && Collected(m, all, j) == multiset(Part(m, q, j)) + Collected(m, all - {q}, j);
    if q == p {
      assert all - {q} == ks;
    } else {
      assert all - {q} == (ks - {q}) + {p};
      assert ks == (ks - {q}) + {q};
      CollectedAdd(m, ks - {q}, p, j);
      CollectedAdd(m, ks - {q}, q, j);
    }
  }

  ghost function JobsOf(m: ObsMap): set<string> {
    set p, j | p in m && j in m[p] :: j
  }

  /** `part` holds the observations of the senders in `ks` and of `q`'s jobs in `done`. */
  ghost predicate Regrouped(part: JobMap, m: ObsMap, ks: set<string>, q: string, done: set<string>)
    requires ks <= m.Keys && q in m && done <= m[q].Keys
  {
    && (forall j :: j in part <==> j in done || exists p :: p in ks && j in m[p])
    && (forall j :: j in part ==>
          multiset(part[j]) == Collected(m, ks, j) + if j in done then multiset(m[q][j]) else multiset{})
  }

  lemma {:induction false} NothingCollected(m: ObsMap, ks: set<string>, j: string)
    requires ks <= m.Keys && forall p :: p in ks ==> j !in m[p]
    ensures Collected(m, ks, j) == multiset{}
    decreases |ks|
  {
    if ks != {} {
      var p :| p in ks && Collected(m, ks, j) == multiset(Part(m, p, j)) + Collected(m, ks - {p}, j);
      assert Part(m, p, j) == [];
      NothingCollected(m, ks - {p}, j);
    }
  }

  lemma RegroupStep(part: JobMap, m: ObsMap, ks: set<string>, q: string, done: set<string>, j: string)
    requires ks <= m.Keys && q in m && done <= m[q].Keys && Regrouped(part, m, ks, q, done)
    requires j in m[q] && j !in done
    ensures Regrouped(part[j := (if j in part then part[j] else []) + m[q][j]], m, ks, q, done + {j})
  {
    if j !in part {
      NothingCollected(m, ks, j);
    }
  }

  /** Appends the observations of sender `q` to the job lists of the senders before it. */
  method RegroupSender(part: JobMap, m: ObsMap, ghost ks: set<string>, q: string) returns (r: JobMap)
    requires ks <= m.Keys && q in m && q !in ks
    requires Regrouped(part, m, ks, q, {})
    ensures forall j :: j in r <==> exists p :: p in ks + {q} && j in m[p]
    ensures forall j :: j in r ==> multiset(r[j]) == Collected(m, ks + {q}, j)
  {
    r := part;
    var inner := m[q].Keys;
    while inner != {}
      invariant inner <= m[q].Keys
      invariant Regrouped(r, m, ks, q, m[q].Keys - inner)
      decreases |inner|
    {
      var j :| j in inner;
      RegroupStep(r, m, ks, q, m[q].Keys - inner, j);
      assert m[q].Keys - (inner - {j}) == (m[q].Keys - inner) + {j};
      r := r[j := (if j in r then r[j] else []) + m[q][j]];
      inner := inner - {j};
    }
    forall j | j in r ensures multiset(r[j]) == Collected(m, ks + {q}, j) {
      CollectedAdd(m, ks, q, j);
    }
  }

  /** The follower's regrouping: senders and their jobs are visited in any order. */
  method Transpose(m: ObsMap) returns (r: JobMap)
    ensures r.Keys == JobsOf(m)
    ensures forall j :: j in r <==> exists p :: p in m && j in m[p]
    ensures forall j :: j in r ==> multiset(r[j]) == Collected(m, m.Keys, j)
  {
    r := map[];
    var todo := m.Keys;
    while todo != {}
      invariant todo <= m.Keys
      invariant forall j :: j in r <==> exists p :: p in m.Keys - todo && j in m[p]
      invariant forall j :: j in r ==> multiset(r[j]) == Collected(m, m.Keys - todo, j)
      decreases |todo|
    {
      var q :| q in todo;
      r := RegroupSender(r, m, m.Keys - todo, q);
      assert (m.Keys - todo) + {q} == m.Keys - (todo - {q});
      todo := todo - {q};
    }
    assert m.Keys - todo == m.Keys;
  }

  /** An observation is collected iff one of the senders made it. */
  lemma {:induction false} CollectedMember(m: ObsMap, ks: set<string>, j: string, x: Response)
    requires ks <= m.Keys
    ensures x in Collected(m, ks, j) <==> exists p :: p in ks && j in m[p] && x in m[p][j]
    decreases |ks|
  {
    if ks != {} {
      var p :| p in ks;
      var rest := ks - {p};
      assert ks == rest + {p};
      CollectedAdd(m, rest, p, j);
      CollectedMember(m, rest, j, x);
      assert x in multiset(Part(m, p, j)) <==> x in Part(m, p, j);
    }
  }

  /** The observations of job `j`, sender after sender in a given order. */
  function SenderBySender(m: ObsMap, order: seq<string>, j: string): seq<Response>
    requires forall p :: p in order ==> p in m
  {
    if order == [] then [] else
      var last := order[|order| - 1];
      SenderBySender(m, order[..|order| - 1], j) + if j in m[last] then m[last][j] else []
  }

  lemma ElementsSnoc<T>(s: seq<T>, x: T)
    ensures Elements(s + [x]) == Elements(s) + {x}
  {
  }

  /** Collecting is listing, in whatever order the senders are visited. */
  lemma {:induction false} CollectedInOrder(m: ObsMap, order: seq<string>, j: string)
    requires forall p :: p in order ==> p in m
    requires forall a, b :: 0 <= a < b < |order| ==> order[a] != order[b]
    ensures Elements(order) <= m.Keys && Collected(m, Elements(order), j) == multiset(SenderBySender(m, order, j))
  {
    if order != [] {
      var front, last := order[..|order| - 1], order[|order| - 1];
      CollectedInOrder(m, front, j);
      ElementsSnoc(front, last);
      assert order == front + [last];
      CollectedAdd(m, Elements(front), last, j);
      assert SenderBySender(m, order, j) == SenderBySender(m, front, j) + Part(m, last, j);
    }
  }

  // ---- Conservation ----

  /** How often `x` occurs in the response lists of the senders in `ks`. */
  ghost function Occurrences(sent: map<string, seq<Response>>, ks: set<string>, x: Response): nat
    requires ks <= sent.Keys
    decreases |ks|
  {
    if ks == {} then 0 else
      var p :| p in ks;
      multiset(sent[p])[x] + Occurrences(sent, ks - {p}, x)
  }

  lemma {:induction false} OccurrencesAdd(sent: map<string, seq<Response>>, ks: set<string>, p: string, x: Response)
    requires ks <= sent.Keys && p in sent && p !in ks
    ensures Occurrences(sent, ks + {p}, x) == Occurrences(sent, ks, x) + multiset(sent[p])[x]
    decreases |ks|
  {
    var all := ks + {p};
    assert p in all;
    var q :| q in all && Occurrences(sent, all, x) == multiset(sent[q])[x] + Occurrences(sent, all - {q}, x);
    if q == p {
      assert all - {q} == ks;
    } else {
      assert all - {q} == (ks - {q}) + {p};
      assert ks == (ks - {q}) + {q};
      OccurrencesAdd(sent, ks - {q}, p, x);
      OccurrencesAdd(sent, ks - {q}, q, x);
    }
  }

  /** Grouping by job at the leader, then across senders at a follower, neither loses, repeats nor moves
      a response: job `j` collects each response sent for `j` exactly as often as it was sent. */
  lemma {:induction false} RegroupingConserves(sent: map<string, seq<Response>>, m: ObsMap, ks: set<string>,
                                               j: string, x: Response)
    requires m == GroupAll(sent)
    requires ks <= sent.Keys
    ensures Collected(m, ks, j)[x] == if x.jobId == j then Occurrences(sent, ks, x) else 0
    decreases |ks|
  {
    if ks != {} {
      var p :| p in ks;
      var rest := ks - {p};
      assert ks == rest + {p};
      CollectedAdd(m, rest, p, j);
      OccurrencesAdd(sent, rest, p, x);
      RegroupingConserves(sent, m, rest, j, x);
      SelectCount(sent[p], j, x);
      AbsentSelect(sent[p], j);
      assert Part(m, p, j) == Select(sent[p], j);
    }
  }

  // ---- The mutable map ----

  function Restrict(m: ObsMap, ks: set<string>): ObsMap
    requires ks <= m.Keys
  {
    map p | p in ks :: m[p]
  }

  /** Storing one of the entries still to come leaves the eventual map the same. */
  lemma StoreStep(s: ObsMap, m: ObsMap, ks: set<string>, p: string)
    requires p in ks && ks <= m.Keys
    ensures s[p := m[p]] + Restrict(m, ks - {p}) == s + Restrict(m, ks)
  {
  }

  lemma RestrictEnds(s: ObsMap, m: ObsMap)
    ensures Restrict(m, m.Keys) == m
    ensures s + Restrict(m, {}) == s
  {
  }

  method WriteInner(m: ObsMap) returns (inner: map<string, Members<seq<Response>>>)
    ensures inner == EncodeInner(m)
  {
    inner := map[];
    var todo := m.Keys;
    while todo != {}
      invariant todo <= m.Keys
      invariant inner.Keys == m.Keys - todo
      invariant forall p :: p in inner ==> inner[p] == SortedMembers(m[p], m[p].Keys)
      decreases |todo|
    {
      var p :| p in todo;
      var members := WriteSorted(m[p]);
      inner := inner[p := members];
      todo := todo - {p};
    }
  }

  class ObservationSafeMap {
    var store: ObsMap

    constructor ()
      ensures store == map[]
    {
      store := map[];
    }

    constructor Of(m: ObsMap)
      ensures store == m
    {
      store := m;
    }

    method Store(key: string, value: JobMap)
      modifies this
      ensures store == old(store)[key := value]
    {
      store := store[key := value];
    }

    /** Visits the entries in any order to fill a plain map, then writes that map as JSON. */
    method MarshalJSON() returns (doc: Doc)
      ensures doc == Encode(store)
    {
      ghost var src := store;
      var temp: ObsMap := map[];
      var todo := store.Keys;
      RestrictEnds(temp, src);
      while todo != {}
        invariant todo <= src.Keys
        invariant temp + Restrict(src, todo) == map[] + src
        decreases |todo|
      {
        var p :| p in todo;
        StoreStep(temp, src, todo, p);
        temp := temp[p := store[p]];
        todo := todo - {p};
      }
      RestrictEnds(temp, src);
      assert map[] + src == src;
      var inner := WriteInner(temp);
      var outer := WriteSorted(inner);
      doc := Doc.Object(outer, []);
    }

    /** Decodes `data` and stores its entries one by one, in any order, over those present. */
    method UnmarshalJSON(data: Doc) returns (ok: bool)
      modifies this
      ensures ok <==> data.Object?
      ensures store == if ok then old(store) + Decode(data) else old(store)
    {
      if data.Malformed? {
        return false;
      }
      var temp := Decode(data);
      var todo := temp.Keys;
      RestrictEnds(store, temp);
      while todo != {}
        invariant todo <= temp.Keys
        invariant store + Restrict(temp, todo) == old(store) + temp
        decreases |todo|
      {
        var p :| p in todo;
        StoreStep(store, temp, todo, p);
        store := store[p := temp[p]];
        todo := todo - {p};
      }
      RestrictEnds(store, temp);
      ok := true;
    }
  }
}
