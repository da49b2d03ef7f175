/** The leader's schedule: a queue of jobs dealt over the rounds of an epoch. */
module Schedule {

  const MAX_ROUNDS: nat := 10

  function PerRound(n: nat): nat {
    if n / MAX_ROUNDS > 0 then n / MAX_ROUNDS - 1 else 0
  }

  function Bucket<T>(schedule: map<int, seq<T>>, i: int): seq<T> {
    if i in schedule then schedule[i] else []
  }

  /** The schedule after dealing `b` items to each of the first `k` rounds from the front of `queue`. */
  function Dealt<T>(schedule: map<int, seq<T>>, queue: seq<T>, b: nat, k: nat): map<int, seq<T>>
    requires MAX_ROUNDS * b <= |queue| && k <= MAX_ROUNDS
  {
    if b == 0 || k == 0 then schedule else
      var before := Dealt(schedule, queue, b, k - 1);
      before[k - 1 := Bucket(before, k - 1) + Slice(queue, b, k - 1)]
  }

  lemma {:induction false} DealtBucket<T>(schedule: map<int, seq<T>>, queue: seq<T>, b: nat, k: nat, i: nat)
    requires MAX_ROUNDS * b <= |queue| && k <= MAX_ROUNDS
    ensures Bucket(Dealt(schedule, queue, b, k), i)
            == Bucket(schedule, i) + if i < k then Slice(queue, b, i) else []
  {
    if b == 0 {
      assert i < k ==> Slice(queue, b, i) == [];
    } else if k > 0 {
      DealtBucket(schedule, queue, b, k - 1, i);
    }
  }

  function Slice<T>(queue: seq<T>, b: nat, i: nat): seq<T>
    requires i < MAX_ROUNDS && MAX_ROUNDS * b <= |queue|
  {
    SliceBounds(|queue|, b, i);
    queue[i * b..i * b + b]
  }

  lemma SliceBounds(n: nat, b: nat, i: nat)
    requires i < MAX_ROUNDS && MAX_ROUNDS * b <= n
    ensures 0 <= i * b && i * b + b <= n
  {
    assert (i + 1) * b <= MAX_ROUNDS * b;
    assert (i + 1) * b == i * b + b;
  }

  lemma Fits(n: nat)
    ensures MAX_ROUNDS * PerRound(n) <= n
  {
  }

  /** The schedule after `Start` has dealt out `queue`. */
  function Scheduled<T>(schedule: map<int, seq<T>>, queue: seq<T>): map<int, seq<T>> {
    Fits(|queue|);
    Dealt(schedule, queue, PerRound(|queue|), MAX_ROUNDS)
  }

  /** The scheduling loops of `Start`; taking an item from an empty queue would be an error. */
  method DealRounds<T>(schedule0: map<int, seq<T>>, queue: seq<T>) returns (schedule: map<int, seq<T>>, rest: seq<T>)
    ensures MAX_ROUNDS * PerRound(|queue|) <= |queue|
    ensures schedule == Scheduled(schedule0, queue)
    ensures rest == queue[MAX_ROUNDS * PerRound(|queue|)..]
    ensures |rest| == |queue| - 10 * if |queue| >= 20 then |queue| / 10 - 1 else 0
  {
    var n := |queue|;
    var jobsPerRound := n / MAX_ROUNDS;
    ghost var b := PerRound(n);
    schedule, rest := schedule0, queue;
    for i := 0 to MAX_ROUNDS
      invariant i * b <= n && rest == queue[i * b..]
      invariant schedule == Dealt(schedule0, queue, b, i)
    {
      SliceBounds(n, b, i);
      assert (i + 1) * b == i * b + b;
      assert queue[i * b..][..b] == queue[i * b..i * b + b];
      assert queue[i * b..][b..] == queue[i * b + b..];
      schedule, rest := DealOne(schedule, rest, i, jobsPerRound, b);
    }
  }

  method DealOne<T>(schedule0: map<int, seq<T>>, queue: seq<T>, i: int, jobsPerRound: nat, ghost b: nat)
    returns (schedule: map<int, seq<T>>, rest: seq<T>)
    requires b == (if jobsPerRound > 0 then jobsPerRound - 1 else 0) && b <= |queue|
    ensures rest == queue[b..]
    ensures schedule == if b == 0 then schedule0 else schedule0[i := Bucket(schedule0, i) + queue[..b]]
  {
    schedule, rest := schedule0, queue;
    var j := 1;
    while j < jobsPerRound
      invariant 1 <= j <= b + 1
      invariant rest == queue[j - 1..]
      invariant schedule == if j == 1 then schedule0 else schedule0[i := Bucket(schedule0, i) + queue[..j - 1]]
    {
      var job := rest[0];
      rest := rest[1..];
      assert Bucket(schedule0, i) + queue[..j] == Bucket(schedule0, i) + queue[..j - 1] + [job];
      assert j == 1 ==> Bucket(schedule0, i) + queue[..0] == Bucket(schedule0, i);
      schedule := schedule[i := Bucket(schedule, i) + [job]];
      j := j + 1;
    }
  }

  /** The buckets of the first `k` rounds, one after the other. */
  function Announced<T>(schedule: map<int, seq<T>>, k: nat): seq<T> {
    if k == 0 then [] else Announced(schedule, k - 1) + Bucket(schedule, k - 1)
  }

  lemma Unfold(b: nat, k: nat)
    requires k > 0
    ensures k * b == (k - 1) * b + b
  {
  }

  lemma {:induction false} DealtPrefix<T>(queue: seq<T>, b: nat, k: nat)
    requires MAX_ROUNDS * b <= |queue| && k <= MAX_ROUNDS
    ensures 0 <= k * b <= |queue|
    ensures Announced(Dealt(map[], queue, b, MAX_ROUNDS), k) == queue[..k * b]
  {
    if k > 0 {
      DealtPrefix(queue, b, k - 1);
      SliceBounds(|queue|, b, k - 1);
      Unfold(b, k);
      DealtBucket(map[], queue, b, MAX_ROUNDS, k - 1);
      assert queue[..(k - 1) * b] + queue[(k - 1) * b..(k - 1) * b + b] == queue[..(k - 1) * b + b];
    }
  }

  /** First in, first out: the rounds in order followed by what is left over are the queue, and every round
      gets the same number of items. */
  lemma FifoPartition<T>(queue: seq<T>)
    ensures var schedule, share := Scheduled(map[], queue), if |queue| >= 20 then |queue| / 10 - 1 else 0;
            && 10 * share <= |queue| && Announced(schedule, 10) + queue[10 * share..] == queue
            && forall i :: 0 <= i < 10 ==> |Bucket(schedule, i)| == share
  {
    var b := PerRound(|queue|);
    DealtPrefix(queue, b, MAX_ROUNDS);
    forall i | 0 <= i < MAX_ROUNDS ensures |Bucket(Dealt(map[], queue, b, MAX_ROUNDS), i)| == b {
      BucketSize(queue, b, i);
    }
  }

  /** In numbers: from 20 jobs on each of the ten rounds gets a tenth of them less one, before that none, and what is
      over stays in the queue. */
  lemma RoundSizes<T>(queue: seq<T>)
    ensures var share := if |queue| >= 20 then |queue| / 10 - 1 else 0;
            && (forall i :: 0 <= i < 10 ==>
                  |Bucket(Scheduled(map[], queue), i)| == share && 0 <= i * share && i * share + share <= |queue|
                  && Bucket(Scheduled(map[], queue), i) == queue[i * share..i * share + share])
            && (forall i :: i >= 10 ==> Bucket(Scheduled(map[], queue), i) == [])
            && 10 * share <= |queue|
  {
    var b := PerRound(|queue|);
    forall i | 0 <= i < 10
      ensures |Bucket(Scheduled(map[], queue), i)| == b && 0 <= i * b && i * b + b <= |queue|
      ensures Bucket(Scheduled(map[], queue), i) == queue[i * b..i * b + b]
    {
      SliceBounds(|queue|, b, i);
      DealtBucket(map[], queue, b, MAX_ROUNDS, i);
    }
    forall i: int | i >= 10 ensures Bucket(Scheduled(map[], queue), i) == [] {
      DealtBucket(map[], queue, b, MAX_ROUNDS, i);
    }
  }

  lemma BucketSize<T>(queue: seq<T>, b: nat, i: nat)
    requires MAX_ROUNDS * b <= |queue| && i < MAX_ROUNDS
    ensures |Bucket(Dealt(map[], queue, b, MAX_ROUNDS), i)| == b
  {
    DealtBucket(map[], queue, b, MAX_ROUNDS, i);
    SliceBounds(|queue|, b, i);
  }

  /** Rounds are numbered from 1 but buckets from 0: a played round announces a stretch of the queue that
      starts behind the first `PerRound` items, so these are never announced, and no item is in two rounds. */
  lemma FirstBucketIsSkipped<T>(queue: seq<T>, round: nat)
    requires round >= 1
    ensures MAX_ROUNDS * PerRound(|queue|) <= |queue|
    ensures var b := PerRound(|queue|);
            var schedule := Scheduled(map[], queue);
            if round < MAX_ROUNDS
            then b <= round * b <= round * b + b <= |queue|
                 && Bucket(schedule, round) == queue[round * b..round * b + b]
            else Bucket(schedule, round) == []
  {
    var b := PerRound(|queue|);
    DealtBucket(map[], queue, b, MAX_ROUNDS, round);
    if round < MAX_ROUNDS {
      SliceBounds(|queue|, b, round);
      RoundsApart(b, round);
    }
  }

  lemma RoundsApart(b: nat, round: nat)
    requires round >= 1
    ensures b <= round * b
  {
    assert round * b == (round - 1) * b + b;
  }
}
