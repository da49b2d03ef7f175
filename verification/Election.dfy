/** Leader selection by smallest keyed digest, and the retry loop around it. */
module Election {
  import opened Basics
  import opened Lexicographic

  // ---- Hex ----

  const HEX_DIGITS: string := "0123456789abcdef"

  function Digit(d: int): (c: char)
    requires 0 <= d < 16
    ensures forall e :: 0 <= e < 16 ==> (CharRank(HEX_DIGITS[e]) < CharRank(c) <==> e < d)
  {
    HEX_DIGITS[d]
  }

  /** Lower-case Base 16, two digits a byte. */
  function Hex(bytes: Digest): string {
    if bytes == [] then [] else
      [Digit(bytes[0] as int / 16), Digit(bytes[0] as int % 16)] + Hex(bytes[1..])
  }

  function ByteRank(b: Byte): int {
    b as int
  }

  lemma DigitOrder(d: int, e: int)
    requires 0 <= d < 16 && 0 <= e < 16
    ensures CharRank(Digit(d)) < CharRank(Digit(e)) <==> d < e
    ensures Digit(d) == Digit(e) <==> d == e
  {
  }

  lemma ByteOrder(a: Byte, b: Byte)
    ensures a < b <==> a as int / 16 < b as int / 16
                       || (a as int / 16 == b as int / 16 && a as int % 16 < b as int % 16)
    ensures a == b <==> a as int / 16 == b as int / 16 && a as int % 16 == b as int % 16
  {
  }

  lemma LessCons<T>(x: T, a: seq<T>, y: T, b: seq<T>, rank: T -> int)
    ensures Less([x] + a, [y] + b, rank) <==> rank(x) < rank(y) || (rank(x) == rank(y) && Less(a, b, rank))
  {
    assert ([x] + a)[1..] == a && ([y] + b)[1..] == b;
  }

  lemma ByteThenRest(x: Byte, a: string, y: Byte, b: string)
    ensures Below([Digit(x as int / 16)] + ([Digit(x as int % 16)] + a),
                  [Digit(y as int / 16)] + ([Digit(y as int % 16)] + b))
            <==> x < y || (x == y && Below(a, b))
  {
    var p, q := x as int, y as int;
    LessCons(Digit(p / 16), [Digit(p % 16)] + a, Digit(q / 16), [Digit(q % 16)] + b, CharRank);
    LessCons(Digit(p % 16), a, Digit(q % 16), b, CharRank);
    ByteOrder(x, y);
    DigitOrder(p / 16, q / 16);
    DigitOrder(p % 16, q % 16);
  }

  /** Comparing hex strings, as the code does, is comparing the digests byte by byte. */
  lemma {:induction false} HexRefinesBytes(a: Digest, b: Digest)
    ensures Below(Hex(a), Hex(b)) <==> Less(a, b, ByteRank)
  {
    if a != [] && b != [] {
      HexRefinesBytes(a[1..], b[1..]);
      HexCons(a);
      HexCons(b);
      ByteThenRest(a[0], Hex(a[1..]), b[0], Hex(b[1..]));
    }
  }

  /** Two digits a byte, the high half first. */
  lemma {:induction false} HexDigits(bytes: Digest, i: nat)
    requires i < |bytes|
    ensures |Hex(bytes)| == 2 * |bytes|
    ensures Hex(bytes)[2 * i] == "0123456789abcdef"[bytes[i] as int / 16]
    ensures Hex(bytes)[2 * i + 1] == "0123456789abcdef"[bytes[i] as int % 16]
  {
    var rest := bytes[1..];
    HexLength(rest);
    if i > 0 {
      HexDigits(rest, i - 1);
      assert Hex(bytes)[2 * i] == Hex(rest)[2 * (i - 1)] && Hex(bytes)[2 * i + 1] == Hex(rest)[2 * (i - 1) + 1];
    }
  }

  lemma {:induction false} HexLength(bytes: Digest)
    ensures |Hex(bytes)| == 2 * |bytes|
  {
    if bytes != [] {
      HexLength(bytes[1..]);
    }
  }

  lemma HexCons(a: Digest)
    requires a != []
    ensures Hex(a) == [Digit(a[0] as int / 16)] + ([Digit(a[0] as int % 16)] + Hex(a[1..]))
  {
  }

  lemma {:induction false} HexInjective(a: Digest, b: Digest)
    requires Hex(a) == Hex(b)
    ensures a == b
  {
    if a != [] && b != [] {
      var p, q := a[0] as int, b[0] as int;
      assert Hex(a)[0] == Hex(b)[0] && Hex(a)[1] == Hex(b)[1];
      DigitOrder(p / 16, q / 16);
      DigitOrder(p % 16, q % 16);
      ByteOrder(a[0], b[0]);
      assert Hex(a)[2..] == Hex(a[1..]) && Hex(b)[2..] == Hex(b[1..]);
      HexInjective(a[1..], b[1..]);
    }
  }

  // ---- The digest input ----

  function Decimal(k: nat): string {
    if k < 10 then [HEX_DIGITS[k]] else Decimal(k / 10) + [HEX_DIGITS[k % 10]]
  }

  /** The number a string of decimal digits stands for. */
  function Numeral(s: string): int {
    if s == [] then 0 else 10 * Numeral(s[..|s| - 1]) + (s[|s| - 1] as int - '0' as int)
  }

  /** Decimal notation: digits only, no leading zero, and they stand for the number. */
  lemma {:induction false} DecimalMeaning(k: nat)
    ensures Numeral(Decimal(k)) == k && |Decimal(k)| >= 1 && (k > 0 ==> Decimal(k)[0] != '0')
    ensures forall i :: 0 <= i < |Decimal(k)| ==> '0' <= Decimal(k)[i] <= '9'
  {
    if k < 10 {
      assert Decimal(k)[..0] == [];
      assert HEX_DIGITS[k] as int == '0' as int + k;
    } else {
      DecimalMeaning(k / 10);
      var s := Decimal(k);
      assert s[..|s| - 1] == Decimal(k / 10);
      assert HEX_DIGITS[k % 10] as int == '0' as int + k % 10;
    }
  }

  /** What is fed to the HMAC: the peer's ID followed by the epoch in decimal. */
  function MacInput(peerId: string, epoch: nat): string {
    peerId + Decimal(epoch)
  }

  lemma {:induction false} DecimalInjective(d: nat, e: nat)
    requires Decimal(d) == Decimal(e)
    ensures d == e
  {
    if d < 10 || e < 10 {
      DecimalLength(d);
      DecimalLength(e);
      if d < 10 && e < 10 {
        DigitOrder(d, e);
      }
    } else {
      var s, t := Decimal(d), Decimal(e);
      assert s[..|s| - 1] == Decimal(d / 10) && t[..|t| - 1] == Decimal(e / 10);
      assert s[|s| - 1] == t[|t| - 1];
      DigitOrder(d % 10, e % 10);
      DecimalInjective(d / 10, e / 10);
    }
  }

  lemma {:induction false} DecimalLength(d: nat)
    ensures |Decimal(d)| >= 1
    ensures |Decimal(d)| == 1 <==> d < 10
  {
    if d >= 10 {
      DecimalLength(d / 10);
    }
  }

  /** The input determines the peer within an epoch, and peer and epoch together among IDs of one length. */
  lemma MacInputInjective(p: string, d: nat, q: string, e: nat)
    requires MacInput(p, d) == MacInput(q, e) && (d == e || |p| == |q|)
    ensures p == q && d == e
  {
    if d == e {
      assert |p| == |q|;
    }
    assert MacInput(p, d)[..|p|] == p && MacInput(q, e)[..|q|] == q;
    assert MacInput(p, d)[|p|..] == Decimal(d) && MacInput(q, e)[|q|..] == Decimal(e);
    DecimalInjective(d, e);
  }

  /** Exactly when two inputs coincide: the longer ID is the shorter one and the first digits of its epoch, and the
      rest of those digits is the other epoch. */
  lemma MacInputsEqualIff(p: string, d: nat, q: string, e: nat)
    requires |p| <= |q|
    ensures var k := |q| - |p|;
            MacInput(p, d) == MacInput(q, e)
            <==> k <= |Decimal(d)| && q == p + Decimal(d)[..k] && Decimal(e) == Decimal(d)[k..]
  {
    Concatenations(p, Decimal(d), q, Decimal(e));
  }

  lemma Concatenations<T>(p: seq<T>, x: seq<T>, q: seq<T>, y: seq<T>)
    requires |p| <= |q|
    ensures var k := |q| - |p|;
            p + x == q + y <==> k <= |x| && q == p + x[..k] && y == x[k..]
  {
    var k := |q| - |p|;
    if p + x == q + y {
      assert |x| == k + |y|;
      assert (p + x)[..|q|] == p + x[..k] && (q + y)[..|q|] == q;
      assert (p + x)[|q|..] == x[k..] && (q + y)[|q|..] == y;
    }
    if k <= |x| {
      assert p + x[..k] + x[k..] == p + x;
    }
  }

  /** An instance with different peers and epochs. */
  lemma MacInputAmbiguous(p: string)
    ensures MacInput(p + "1", 2) == MacInput(p, 12)
  {
    assert Decimal(12) == Decimal(1) + [HEX_DIGITS[2]];
    assert Decimal(1) == "1" && Decimal(2) == "2";
  }

  // ---- Selection ----

  /** The keyed digest of a server ID for one epoch and secret key. */
  type Keyed = string -> Digest

  ghost predicate NotBelow(id: string, other: string, mac: Keyed) {
    !Less(mac(other), mac(id), ByteRank)
  }

  /** The leader a node sees: a server ID of its peers or its own with the smallest digest; among equal digests the
      first peer visited, and a peer before the node itself. */
  ghost predicate Selects(self: string, peers: seq<string>, mac: Keyed, leader: string) {
    && (leader in peers || leader == self)
    && (forall p :: p in peers || p == self ==> NotBelow(leader, p, mac))
    && (leader == self && self !in peers ==> forall p :: p in peers ==> Less(mac(self), mac(p), ByteRank))
    && (leader in peers ==>
          exists i :: 0 <= i < |peers| && peers[i] == leader && forall k :: 0 <= k < i ==> mac(peers[k]) != mac(leader))
  }

  ghost predicate IsMin(minHash: string, peers: seq<string>, i: nat, mac: Keyed, at: nat)
    requires i <= |peers|
  {
    && at < i && minHash == Hex(mac(peers[at]))
    && (forall k :: 0 <= k < i ==> !Below(Hex(mac(peers[k])), minHash))
    && (forall k :: 0 <= k < at ==> Hex(mac(peers[k])) != minHash)
  }

  /** `findLeader`: the peers' server IDs in the order the tree visits them, then the node itself. */
  method FindLeader(self: string, peers: seq<string>, mac: Keyed) returns (leader: Option<string>)
    ensures leader.None? <==> peers == []
    ensures leader.Some? ==> Selects(self, peers, mac, leader.value)
  {
    if |peers| < 1 {
      return None;
    }
    var selected: Option<string> := None;
    var minHash := "";
    ghost var at := 0;
    for i := 0 to |peers|
      invariant selected.None? <==> i == 0
      invariant i > 0 ==> IsMin(minHash, peers, i, mac, at) && selected == Some(peers[at])
    {
      var peerHash := Hex(mac(peers[i]));
      if selected.None? || Below(peerHash, minHash) {
        MinMoves(minHash, peers, i, mac, at);
        selected := Some(peers[i]);
        minHash := peerHash;
        at := i;
      }
    }
    var selfHash := Hex(mac(self));
    MinSelects(self, peers, mac, at, Below(selfHash, minHash));
    if Below(selfHash, minHash) {
      return Some(self);
    }
    return selected;
  }

  lemma MinMoves(minHash: string, peers: seq<string>, i: nat, mac: Keyed, at: nat)
    requires i < |peers|
    requires i > 0 ==> IsMin(minHash, peers, i, mac, at) && Below(Hex(mac(peers[i])), minHash)
    ensures IsMin(Hex(mac(peers[i])), peers, i + 1, mac, i)
  {
    var h := Hex(mac(peers[i]));
    forall k | 0 <= k <= i ensures !Below(Hex(mac(peers[k])), h) && (k < i ==> Hex(mac(peers[k])) != h) {
      if k < i {
        if Below(Hex(mac(peers[k])), h) {
          LessTransitive(Hex(mac(peers[k])), h, minHash, CharRank);
        }
      } else if Below(h, h) {
        LessAsymmetric(h, h, CharRank);
      }
    }
  }

  lemma MinSelects(self: string, peers: seq<string>, mac: Keyed, at: nat, selfWins: bool)
    requires peers != [] && at < |peers| && IsMin(Hex(mac(peers[at])), peers, |peers|, mac, at)
    requires selfWins <==> Below(Hex(mac(self)), Hex(mac(peers[at])))
    ensures Selects(self, peers, mac, if selfWins then self else peers[at])
  {
    var h, sh := Hex(mac(peers[at])), Hex(mac(self));
    forall p | p in peers ensures !Less(mac(p), mac(peers[at]), ByteRank) {
      HexRefinesBytes(mac(p), mac(peers[at]));
    }
    HexRefinesBytes(mac(self), mac(peers[at]));
    if selfWins {
      forall p | p in peers ensures Less(mac(self), mac(p), ByteRank) && !Less(mac(p), mac(self), ByteRank) {
        BelowTotal(h, Hex(mac(p)));
        if Below(h, Hex(mac(p))) {
          LessTransitive(sh, h, Hex(mac(p)), CharRank);
        }
        HexRefinesBytes(mac(self), mac(p));
        LessAsymmetric(mac(self), mac(p), ByteRank);
      }
      if Less(mac(self), mac(self), ByteRank) {
        LessAsymmetric(mac(self), mac(self), ByteRank);
      }
    } else {
      forall k | 0 <= k < at ensures mac(peers[k]) != mac(peers[at]) {
      }
    }
  }

  // ---- Agreement across nodes ----

  ghost predicate InjectiveOn(mac: Keyed, ids: set<string>) {
    forall p, q :: p in ids && q in ids && mac(p) == mac(q) ==> p == q
  }

  function View(self: string, peers: seq<string>): set<string> {
    {self} + set p | p in peers
  }

  lemma {:induction false} BytesTotal(a: Digest, b: Digest)
    ensures Less(a, b, ByteRank) || a == b || Less(b, a, ByteRank)
  {
    if a != [] && b != [] && a[0] == b[0] {
      BytesTotal(a[1..], b[1..]);
      assert a == [a[0]] + a[1..] && b == [b[0]] + b[1..];
    }
  }

  /** Some ID that both nodes see has a digest that no ID seen by either is below. */
  ghost predicate SharedMinimum(view1: set<string>, view2: set<string>, mac: Keyed) {
    exists m :: m in view1 * view2 && forall p :: p in view1 + view2 ==> NotBelow(m, p, mac)
  }

  /** Exactly when two nodes with any two views select the same leader, whatever order their trees are visited in: iff
      both see an ID with the smallest digest of all that either sees. */
  lemma LeadersAgreeIff(self1: string, peers1: seq<string>, self2: string, peers2: seq<string>, mac: Keyed,
                        leader1: string, leader2: string)
    requires InjectiveOn(mac, View(self1, peers1) + View(self2, peers2))
    requires Selects(self1, peers1, mac, leader1) && Selects(self2, peers2, mac, leader2)
    ensures leader1 == leader2 <==> SharedMinimum(View(self1, peers1), View(self2, peers2), mac)
  {
    var view1, view2 := View(self1, peers1), View(self2, peers2);
    if leader1 == leader2 {
      assert leader1 in view1 * view2;
    }
    if SharedMinimum(view1, view2, mac) {
      var m :| m in view1 * view2 && forall p :: p in view1 + view2 ==> NotBelow(m, p, mac);
      MinimumIsLeader(self1, peers1, mac, leader1, m);
      MinimumIsLeader(self2, peers2, mac, leader2, m);
    }
  }

  lemma MinimumIsLeader(self: string, peers: seq<string>, mac: Keyed, leader: string, m: string)
    requires InjectiveOn(mac, View(self, peers)) && Selects(self, peers, mac, leader)
    requires m in View(self, peers) && forall p :: p in View(self, peers) ==> NotBelow(m, p, mac)
    ensures leader == m
  {
    BytesTotal(mac(m), mac(leader));
    assert leader in View(self, peers) && NotBelow(m, leader, mac) && NotBelow(leader, m, mac);
  }

  /** Two nodes whose peers and selves make up the same committee select the same leader, the one with the strictly
      smallest digest, if the digest separates the committee's IDs. */
  lemma LeadersAgree(self1: string, peers1: seq<string>, self2: string, peers2: seq<string>, mac: Keyed,
                     leader1: string, leader2: string)
    requires View(self1, peers1) == View(self2, peers2) && InjectiveOn(mac, View(self1, peers1))
    requires Selects(self1, peers1, mac, leader1) && Selects(self2, peers2, mac, leader2)
    ensures leader1 == leader2 && leader1 in View(self1, peers1)
    ensures forall p :: p in View(self1, peers1) && p != leader1 ==> Less(mac(leader1), mac(p), ByteRank)
  {
    var view := View(self1, peers1);
    assert view + view == view;
    assert leader1 in view * View(self2, peers2);
    assert SharedMinimum(view, View(self2, peers2), mac);
    LeadersAgreeIff(self1, peers1, self2, peers2, mac, leader1, leader2);
    forall p | p in view && p != leader1 ensures Less(mac(leader1), mac(p), ByteRank) {
      assert NotBelow(leader1, p, mac);
      BytesTotal(mac(leader1), mac(p));
    }
  }

  /** In a committee with one node per ID, exactly one node finds itself to be the leader. */
  lemma ExactlyOneLeader(selves: seq<string>, peers: seq<seq<string>>, mac: Keyed, leaders: seq<string>)
    returns (boss: nat)
    requires |selves| == |peers| == |leaders| > 0
    requires forall i, k :: 0 <= i < k < |selves| ==> selves[i] != selves[k]
    requires forall i :: 0 <= i < |selves| ==> View(selves[i], peers[i]) == set p | p in selves
    requires InjectiveOn(mac, set p | p in selves)
    requires forall i :: 0 <= i < |selves| ==> Selects(selves[i], peers[i], mac, leaders[i])
    ensures boss < |selves|
    ensures forall i :: 0 <= i < |selves| ==> leaders[i] == selves[boss] && (leaders[i] == selves[i] <==> i == boss)
  {
    assert leaders[0] in View(selves[0], peers[0]);
    boss :| 0 <= boss < |selves| && selves[boss] == leaders[0];
    forall i | 0 <= i < |selves| ensures leaders[i] == leaders[0] {
      LeadersAgree(selves[0], peers[0], selves[i], peers[i], mac, leaders[0], leaders[i]);
    }
  }

  /** An instance without agreement: a peer whose handshake is outstanding counts under the empty server ID, and if
      that has the smallest digest the two nodes of a committee disagree. */
  lemma OutstandingHandshakeDisagrees(a: string, b: string, mac: Keyed, leader1: string, leader2: string)
    requires a != "" && b != "" && Less(mac(""), mac(a), ByteRank) && Less(mac(""), mac(b), ByteRank)
    requires Selects(a, [""], mac, leader1) && Selects(b, [a], mac, leader2)
    ensures leader1 == "" && leader2 != ""
  {
    assert "" in [""];
    assert NotBelow(leader1, "", mac);
  }

  // ---- Retrying ----

  function Min(a: nat, b: nat): nat {
    if a <= b then a else b
  }

  function Doubled(init: nat, k: nat): nat {
    if k == 0 then init else 2 * Doubled(init, k - 1)
  }

  /** The k-th wait: the initial one, then doubled each time and capped. */
  function Wait(init: nat, max: nat, k: nat): nat {
    if k == 0 then init else Min(Doubled(init, k), max)
  }

  lemma {:induction false} NextWait(init: nat, max: nat, k: nat)
    ensures Wait(init, max, 0) == init
    ensures Wait(init, max, k + 1) == Min(2 * Wait(init, max, k), max)
    ensures Min(init, max) == if init <= max then init else max
    ensures init <= max ==> Wait(init, max, k) == Min(Doubled(init, k), max) && 2 * Wait(init, max, k) <= 2 * max
  {
  }

  /** `exponentialBackoff`, where `views[k]` is the peer tree attempt k sees. It ends at the first attempt that sees a
      peer; `leader` is None if no attempt in `views` does. */
  method ExponentialBackoff(init: nat, max: nat, self: string, views: seq<seq<string>>, mac: Keyed)
    returns (leader: Option<string>, waits: seq<nat>)
    ensures |waits| <= |views| && forall k :: 0 <= k < |waits| ==> views[k] == [] && waits[k] == Wait(init, max, k)
    ensures leader.None? ==> |waits| == |views|
    ensures leader.Some? ==>
              |waits| < |views| && views[|waits|] != [] && Selects(self, views[|waits|], mac, leader.value)
  {
    var backoff := init;
    waits := [];
    for k := 0 to |views|
      invariant |waits| == k && backoff == Wait(init, max, k)
      invariant forall i :: 0 <= i < k ==> views[i] == [] && waits[i] == Wait(init, max, i)
    {
      leader := FindLeader(self, views[k], mac);
      if leader.Some? {
        return;
      }
      waits := waits + [backoff];
      NextWait(init, max, k);
      backoff := backoff * 2;
      if backoff > max {
        backoff := max;
      }
    }
    leader := None;
  }
}
