/** The server's two-way index between network IDs and server IDs. */
module PeerIndex {
  import opened Basics

  datatype Event = Discovered(netId: string) | Handshake(netId: string, serverId: string)

  /** peers: network ID -> server ID, empty until a handshake names it; index: server ID -> network ID. A handshake for
      a network ID that was never discovered leaves the lock held, and nothing after it takes effect. */
  datatype Index = Index(peers: map<string, string>, appIdToPeerId: map<string, string>, locked: bool)

  const EMPTY: Index := Index(map[], map[], false)

  function Next(s: Index, e: Event): Index {
    if s.locked then s
    else match e
      case Discovered(n) => s.(peers := s.peers[n := ""])
      case Handshake(n, id) =>
        if n !in s.peers then s.(locked := true)
        else s.(peers := s.peers[n := id], appIdToPeerId := s.appIdToPeerId[id := n])
  }

  function After(evs: seq<Event>): Index {
    if evs == [] then EMPTY else Next(After(evs[..|evs| - 1]), evs[|evs| - 1])
  }

  class Server {
    var peers: map<string, string>
    var appIdToPeerId: map<string, string>
    var peerLock: bool
    ghost var history: seq<Event>

    ghost predicate Valid()
      reads this
    {
      Index(peers, appIdToPeerId, peerLock) == After(history)
    }

    constructor ()
      ensures Valid() && history == []
    {
      peers, appIdToPeerId, peerLock, history := map[], map[], false, [];
    }

    method HandleNewPeer(netId: string) returns (count: nat)
      requires Valid() && !peerLock
      modifies this
      ensures Valid() && history == old(history) + [Discovered(netId)]
      ensures count == |peers|
    {
      assert (history + [Discovered(netId)])[..|history|] == history;
      peers := peers[netId := ""];
      count := |peers|;
      history := history + [Discovered(netId)];
    }

    /** One turn of the handshake loop. */
    method HandleHandshake(netId: string, serverId: string)
      requires Valid() && !peerLock
      modifies this
      ensures Valid() && history == old(history) + [Handshake(netId, serverId)]
    {
      assert (history + [Handshake(netId, serverId)])[..|history|] == history;
      history := history + [Handshake(netId, serverId)];
      if netId !in peers {
        peerLock := true;
        return;
      }
      appIdToPeerId := appIdToPeerId[serverId := netId];
      peers := peers[netId := serverId];
    }

    method IsPeer(id: string) returns (known: bool)
      requires Valid() && !peerLock
      ensures known <==> LastClaim(history, id).Some?
    {
      known := id in appIdToPeerId;
      IndexIsLastClaim(history, id);
    }

    /** The network ID a message for `id` goes to. */
    method Route(id: string) returns (netId: Option<string>)
      requires Valid()
      ensures LastClaim(history, id).Some? && LastClaim(history, id).value != "" ==> netId == LastClaim(history, id)
      ensures LastClaim(history, id).None? || LastClaim(history, id).value == "" ==> netId == None
    {
      IndexIsLastClaim(history, id);
      var pId := if id in appIdToPeerId then appIdToPeerId[id] else "";
      netId := if pId == "" then None else Some(pId);
    }
  }

  // ---- What the index means, over all interleavings ----

  /** Whether event `i` is a handshake that took effect. */
  predicate Accepted(evs: seq<Event>, i: nat)
    requires i < |evs|
  {
    evs[i].Handshake? && !After(evs[..i]).locked && evs[i].netId in After(evs[..i]).peers
  }

  /** The network ID of the last accepted handshake that claimed `id`. */
  function LastClaim(evs: seq<Event>, id: string): Option<string> {
    if evs == [] then None
    else if Accepted(evs, |evs| - 1) && evs[|evs| - 1].serverId == id then Some(evs[|evs| - 1].netId)
    else LastClaim(evs[..|evs| - 1], id)
  }

  /** In every interleaving, the index holds exactly the claimed server IDs, each with its last claimant. */
  lemma {:induction false} IndexIsLastClaim(evs: seq<Event>, id: string)
    ensures var s := After(evs);
            (if id in s.appIdToPeerId then Some(s.appIdToPeerId[id]) else None) == LastClaim(evs, id)
  {
    if evs != [] {
      IndexIsLastClaim(evs[..|evs| - 1], id);
    }
  }

  ghost predicate Sound(s: Index) {
    && (forall id :: id in s.appIdToPeerId ==> s.appIdToPeerId[id] in s.peers)
    && (forall n :: n in s.peers && s.peers[n] != "" ==> s.peers[n] in s.appIdToPeerId)
  }

  lemma SoundStep(s: Index, e: Event)
    requires Sound(s)
    ensures Sound(Next(s, e))
  {
  }

  /** In every interleaving, indexed network IDs are discovered peers and every identified peer is indexed. */
  lemma {:induction false} IndexSound(evs: seq<Event>)
    ensures Sound(After(evs))
  {
    if evs != [] {
      IndexSound(evs[..|evs| - 1]);
      SoundStep(After(evs[..|evs| - 1]), evs[|evs| - 1]);
    }
  }

  /** No two accepted handshakes claim one server ID for two network IDs or two server IDs for one network ID. */
  ghost predicate Consistent(evs: seq<Event>) {
    forall i, k :: 0 <= i < k < |evs| && Accepted(evs, i) && Accepted(evs, k) ==>
      (evs[i].serverId == evs[k].serverId <==> evs[i].netId == evs[k].netId)
  }

  // ---- When the two maps are inverse ----

  /** Whether event `i` gives its network ID a server ID, a discovery the empty one. */
  predicate Names(evs: seq<Event>, i: nat)
    requires i < |evs|
  {
    (evs[i].Discovered? && !After(evs[..i]).locked) || Accepted(evs, i)
  }

  /** Handshake `i` took effect and its network ID has not been named again since. */
  ghost predicate Standing(evs: seq<Event>, i: nat)
    requires i < |evs|
  {
    Accepted(evs, i) && forall k :: i < k < |evs| && Names(evs, k) ==> evs[k].netId != evs[i].netId
  }

  /** Handshake `i` took effect and its server ID has not been claimed again since. */
  ghost predicate Holding(evs: seq<Event>, i: nat)
    requires i < |evs|
  {
    Accepted(evs, i) && forall k :: i < k < |evs| && Accepted(evs, k) ==> evs[k].serverId != evs[i].serverId
  }

  lemma PrefixEvents(evs: seq<Event>, i: nat)
    requires i + 1 < |evs|
    ensures Accepted(evs[..|evs| - 1], i) <==> Accepted(evs, i)
    ensures Names(evs[..|evs| - 1], i) <==> Names(evs, i)
  {
    assert evs[..|evs| - 1][..i] == evs[..i];
  }

  /** Some handshake that called `n` by `id` still stands. */
  ghost predicate Stands(evs: seq<Event>, n: string, id: string) {
    exists i :: 0 <= i < |evs| && evs[i] == Handshake(n, id) && Standing(evs, i)
  }

  /** Some handshake that claimed `id` for `n` still holds it. */
  ghost predicate Holds(evs: seq<Event>, n: string, id: string) {
    exists i :: 0 <= i < |evs| && evs[i] == Handshake(n, id) && Holding(evs, i)
  }

  lemma StandingStep(evs: seq<Event>, i: nat)
    requires i + 1 < |evs|
    ensures var last := |evs| - 1;
            Standing(evs, i) <==> Standing(evs[..last], i) && !(Names(evs, last) && evs[last].netId == evs[i].netId)
  {
    forall k | 0 <= k < |evs| - 1 ensures Names(evs[..|evs| - 1], k) <==> Names(evs, k) {
      PrefixEvents(evs, k);
    }
    PrefixEvents(evs, i);
  }

  lemma HoldingStep(evs: seq<Event>, i: nat)
    requires i + 1 < |evs|
    ensures var last := |evs| - 1;
            Holding(evs, i)
            <==> Holding(evs[..last], i) && !(Accepted(evs, last) && evs[last].serverId == evs[i].serverId)
  {
    forall k | 0 <= k < |evs| - 1 ensures Accepted(evs[..|evs| - 1], k) <==> Accepted(evs, k) {
      PrefixEvents(evs, k);
    }
    PrefixEvents(evs, i);
  }

  lemma StandsStep(evs: seq<Event>, n: string, id: string)
    requires evs != []
    ensures var last := |evs| - 1;
            Stands(evs, n, id) <==> (evs[last] == Handshake(n, id) && Accepted(evs, last))
                                    || (Stands(evs[..last], n, id) && !(Names(evs, last) && evs[last].netId == n))
  {
    var last, pre := |evs| - 1, evs[..|evs| - 1];
    if Stands(evs, n, id) {
      var i :| 0 <= i < |evs| && evs[i] == Handshake(n, id) && Standing(evs, i);
      if i < last {
        StandingStep(evs, i);
        assert pre[i] == Handshake(n, id) && Standing(pre, i);
      }
    }
    if evs[last] == Handshake(n, id) && Accepted(evs, last) {
      assert Standing(evs, last);
    }
    if Stands(pre, n, id) && !(Names(evs, last) && evs[last].netId == n) {
      var i :| 0 <= i < last && pre[i] == Handshake(n, id) && Standing(pre, i);
      StandingStep(evs, i);
    }
  }

  lemma HoldsStep(evs: seq<Event>, n: string, id: string)
    requires evs != []
    ensures var last := |evs| - 1;
            Holds(evs, n, id) <==> (evs[last] == Handshake(n, id) && Accepted(evs, last))
                                   || (Holds(evs[..last], n, id) && !(Accepted(evs, last) && evs[last].serverId == id))
  {
    var last, pre := |evs| - 1, evs[..|evs| - 1];
    if Holds(evs, n, id) {
      var i :| 0 <= i < |evs| && evs[i] == Handshake(n, id) && Holding(evs, i);
      if i < last {
        HoldingStep(evs, i);
        assert pre[i] == Handshake(n, id) && Holding(pre, i);
      }
    }
    if evs[last] == Handshake(n, id) && Accepted(evs, last) {
      assert Holding(evs, last);
    }
    if Holds(pre, n, id) && !(Accepted(evs, last) && evs[last].serverId == id) {
      var i :| 0 <= i < last && pre[i] == Handshake(n, id) && Holding(pre, i);
      HoldingStep(evs, i);
    }
  }

  /** A peer carries a server ID iff a handshake that gave it that ID still stands. */
  lemma {:induction false} StandingIff(evs: seq<Event>, n: string, id: string)
    requires id != ""
    ensures n in After(evs).peers && After(evs).peers[n] == id <==> Stands(evs, n, id)
  {
    if evs != [] {
      StandingIff(evs[..|evs| - 1], n, id);
      StandsStep(evs, n, id);
    }
  }

  /** A server ID is indexed under a network ID iff a handshake that claimed it for that one still holds it. */
  lemma {:induction false} HoldingIff(evs: seq<Event>, n: string, id: string)
    ensures id in After(evs).appIdToPeerId && After(evs).appIdToPeerId[id] == n <==> Holds(evs, n, id)
  {
    if evs != [] {
      HoldingIff(evs[..|evs| - 1], n, id);
      HoldsStep(evs, n, id);
    }
  }

  /** Every identified peer is indexed under its own network ID. */
  ghost predicate LeadsBack(s: Index) {
    forall n :: n in s.peers && s.peers[n] != "" ==>
      s.peers[n] in s.appIdToPeerId && s.appIdToPeerId[s.peers[n]] == n
  }

  /** Every indexed server ID is that of the peer it leads to, unless that peer has been discovered anew. */
  ghost predicate LeadsForth(s: Index) {
    forall id :: id in s.appIdToPeerId ==>
      s.appIdToPeerId[id] in s.peers && s.peers[s.appIdToPeerId[id]] in {id, ""}
  }

  /** Exactly when peers lead back to themselves: iff no server ID that a standing handshake gave has been claimed
      since. */
  lemma LeadsBackIff(evs: seq<Event>)
    ensures LeadsBack(After(evs))
            <==> forall i :: 0 <= i < |evs| && Standing(evs, i) && evs[i].serverId != "" ==> Holding(evs, i)
  {
    if LeadsBack(After(evs)) {
      forall i | 0 <= i < |evs| && Standing(evs, i) && evs[i].serverId != "" ensures Holding(evs, i) {
        var n, id := evs[i].netId, evs[i].serverId;
        StandingIff(evs, n, id);
        HoldingIff(evs, n, id);
        var k :| 0 <= k < |evs| && evs[k] == Handshake(n, id) && Holding(evs, k);
        assert Names(evs, k) && Accepted(evs, i);
      }
    }
    if forall i :: 0 <= i < |evs| && Standing(evs, i) && evs[i].serverId != "" ==> Holding(evs, i) {
      var s := After(evs);
      forall n | n in s.peers && s.peers[n] != ""
        ensures s.peers[n] in s.appIdToPeerId && s.appIdToPeerId[s.peers[n]] == n
      {
        StandingIff(evs, n, s.peers[n]);
        HoldingIff(evs, n, s.peers[n]);
      }
    }
  }

  /** If handshake `i` holds its server ID, no other handshake with a server ID stands for its network ID. */
  ghost predicate StandsIfHeld(evs: seq<Event>, i: nat)
    requires i < |evs|
  {
    Holding(evs, i) ==>
      forall k :: 0 <= k < |evs| && Standing(evs, k) && evs[k].netId == evs[i].netId && evs[k].serverId != "" ==> k == i
  }

  /** Exactly when indexed IDs lead to peers that carry them: iff no network ID for which a handshake holds a server ID
      stands under another one. */
  lemma LeadsForthIff(evs: seq<Event>)
    ensures LeadsForth(After(evs)) <==> forall i :: 0 <= i < |evs| ==> StandsIfHeld(evs, i)
  {
    var s := After(evs);
    if LeadsForth(s) {
      forall i | 0 <= i < |evs| && Holding(evs, i) ensures StandsIfHeld(evs, i) {
        HoldingIff(evs, evs[i].netId, evs[i].serverId);
        forall k | 0 <= k < |evs| && Standing(evs, k) && evs[k].netId == evs[i].netId && evs[k].serverId != ""
          ensures k == i
        {
          StandingIff(evs, evs[k].netId, evs[k].serverId);
          assert Names(evs, i) && Accepted(evs, k);
        }
      }
    }
    if forall i :: 0 <= i < |evs| ==> StandsIfHeld(evs, i) {
      IndexSound(evs);
      forall id | id in s.appIdToPeerId ensures s.peers[s.appIdToPeerId[id]] in {id, ""} {
        var n := s.appIdToPeerId[id];
        HoldingIff(evs, n, id);
        var i :| 0 <= i < |evs| && evs[i] == Handshake(n, id) && Holding(evs, i);
        assert StandsIfHeld(evs, i);
        if s.peers[n] != "" {
          StandingIff(evs, n, s.peers[n]);
        }
      }
    }
  }

  /** Without conflicting claims the two maps are inverse to each other on identified peers. */
  lemma MutualInverse(evs: seq<Event>)
    requires Consistent(evs)
    ensures LeadsBack(After(evs)) && LeadsForth(After(evs))
  {
    forall i | 0 <= i < |evs| && Standing(evs, i) ensures Holding(evs, i) {
      forall k | i < k < |evs| && Accepted(evs, k) ensures evs[k].serverId != evs[i].serverId {
        assert Names(evs, k);
      }
    }
    LeadsBackIff(evs);
    forall i | 0 <= i < |evs| && Holding(evs, i) ensures StandsIfHeld(evs, i) {
      forall k | 0 <= k < |evs| && Standing(evs, k) && evs[k].netId == evs[i].netId ensures k == i {
        assert Accepted(evs, i) && Accepted(evs, k) && Names(evs, i);
      }
    }
    LeadsForthIff(evs);
  }

  /** An instance where they are not: a second claimant of a server ID leaves the first peer with an ID that leads to
      the other. */
  lemma ConflictingClaims(n: string, m: string, id: string)
    requires n != m && id != ""
    ensures var s := After([Discovered(n), Discovered(m), Handshake(n, id), Handshake(m, id)]);
            s == Index(map[n := id, m := id], map[id := m], false) && !LeadsBack(s)
  {
    var found := [Discovered(n)] + [Discovered(m)];
    AfterSnoc([], Discovered(n));
    AfterSnoc([Discovered(n)], Discovered(m));
    AfterSnoc(found, Handshake(n, id));
    AfterSnoc(found + [Handshake(n, id)], Handshake(m, id));
    assert [] + [Discovered(n)] == [Discovered(n)];
    assert found + [Handshake(n, id)] + [Handshake(m, id)]
           == [Discovered(n), Discovered(m), Handshake(n, id), Handshake(m, id)];
    assert n in map[n := id, m := id];
  }

  lemma AfterSnoc(evs: seq<Event>, e: Event)
    ensures After(evs + [e]) == Next(After(evs), e)
  {
    assert (evs + [e])[..|evs|] == evs;
  }

  // ---- The lock that is never released ----

  /** Event `i` is a handshake for a network ID that had not been discovered. */
  predicate Undiscovered(evs: seq<Event>, i: nat)
    requires i < |evs|
  {
    evs[i].Handshake? && Discovered(evs[i].netId) !in evs[..i]
  }

  lemma {:induction false} PeersAreDiscovered(evs: seq<Event>, n: string)
    requires !After(evs).locked
    ensures n in After(evs).peers <==> Discovered(n) in evs
  {
    if evs != [] {
      PeersAreDiscovered(evs[..|evs| - 1], n);
      assert evs == evs[..|evs| - 1] + [evs[|evs| - 1]];
    }
  }

  /** Exactly which histories leave the lock held: those with a handshake for an undiscovered network ID. */
  lemma {:induction false} LockedIff(evs: seq<Event>)
    ensures After(evs).locked <==> exists i :: 0 <= i < |evs| && Undiscovered(evs, i)
  {
    if evs != [] {
      var last, pre := |evs| - 1, evs[..|evs| - 1];
      LockedIff(pre);
      forall i | 0 <= i < last ensures Undiscovered(pre, i) <==> Undiscovered(evs, i) {
        assert pre[..i] == evs[..i];
      }
      if !After(pre).locked {
        PeersAreDiscovered(pre, evs[last].netId);
      }
      if After(pre).locked {
        var i :| 0 <= i < last && Undiscovered(pre, i);
        assert Undiscovered(evs, i);
      } else {
        assert forall i :: 0 <= i < last ==> !Undiscovered(pre, i);
        assert After(evs).locked <==> Undiscovered(evs, last);
      }
    }
  }

  lemma {:induction false} LockStays(evs: seq<Event>, more: seq<Event>)
    requires After(evs).locked
    ensures After(evs + more) == After(evs)
    decreases |more|
  {
    if more == [] {
      assert evs + more == evs;
    } else {
      assert (evs + more)[..|evs + more| - 1] == evs + more[..|more| - 1];
      LockStays(evs, more[..|more| - 1]);
    }
  }

  /** From the first handshake for an undiscovered network ID on, no event changes anything: the index stays what it was
      before, with the lock held. */
  lemma LockedForever(evs: seq<Event>, i: nat)
    requires i < |evs| && Undiscovered(evs, i) && forall k :: 0 <= k < i ==> !Undiscovered(evs, k)
    ensures After(evs) == After(evs[..i]).(locked := true)
  {
    var pre, upto := evs[..i], evs[..i + 1];
    forall k | 0 <= k < i ensures !Undiscovered(pre, k) {
      assert pre[..k] == evs[..k] && !Undiscovered(evs, k);
    }
    LockedIff(pre);
    PeersAreDiscovered(pre, evs[i].netId);
    assert upto == pre + [evs[i]];
    AfterSnoc(pre, evs[i]);
    LockStays(upto, evs[i + 1..]);
    assert upto + evs[i + 1..] == evs;
  }
}
