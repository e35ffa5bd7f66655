/** The direct-mapped cache from which lost packets are repaired: 512 slots indexed by
    sequence number, each granting its packet a few well-spaced retransmissions. */
module RetransmissionCache {
  import opened Collections
  import opened RtpFields

  const CACHE_PACKETS: nat := 512
  const MIN_THROTTLE_NS := 20_000_000
  const MAX_THROTTLE_NS := 100_000_000
  const MAX_GRANTS: nat := 3

  datatype Packet = Packet(sequence: u16, id: nat)
  datatype Slot = Slot(packet: Option<Packet>, lastGrantAt: int, grants: nat)
  datatype Cache = Cache(slots: seq<Slot>, rtt: int)
  datatype Answer = Miss | Throttled | Granted(packet: Packet)

  // -------------------------------------------------------------- specification

  predicate WellFormed(c: Cache) {
    |c.slots| == CACHE_PACKETS
  }

  function Store(c: Cache, p: Packet): Cache
    requires WellFormed(c)
  {
    c.(slots := c.slots[p.sequence % CACHE_PACKETS := Slot(Some(p), 0, 0)])
  }

  /** Twice a round trip in wrapping 64-bit arithmetic. */
  function Doubled(rtt: int): int {
    (2 * rtt + 0x8000_0000_0000_0000) % 0x1_0000_0000_0000_0000 - 0x8000_0000_0000_0000
  }

  function Throttle(rtt: int): int {
    if rtt <= 0 then MAX_THROTTLE_NS
    else if Doubled(rtt) < MIN_THROTTLE_NS then MIN_THROTTLE_NS
    else if Doubled(rtt) > MAX_THROTTLE_NS then MAX_THROTTLE_NS
    else Doubled(rtt)
  }

  function Ask(c: Cache, sequence: u16, now: int): Answer
    requires WellFormed(c)
  {
    var slot := c.slots[sequence % CACHE_PACKETS];
    if slot.packet.None? || slot.packet.value.sequence != sequence then Miss
    else if slot.grants >= MAX_GRANTS then Throttled
    else if slot.lastGrantAt != 0 && now - slot.lastGrantAt < Throttle(c.rtt) then Throttled
    else Granted(slot.packet.value)
  }

  function AfterAsk(c: Cache, sequence: u16, now: int): Cache
    requires WellFormed(c)
  {
    var k := sequence % CACHE_PACKETS;
    if !Ask(c, sequence, now).Granted? then c
    else c.(slots := c.slots[k := c.slots[k].(lastGrantAt := now, grants := c.slots[k].grants + 1)])
  }

  function WithRTT(c: Cache, rtt: int): Cache {
    if rtt >= 0 then c.(rtt := rtt) else c
  }

  // --------------------------------------------------------- the imperative form

  class PacketCache {
    const slots: array<Slot>
    var rttNs: int

    ghost predicate Valid()
    {
      slots.Length == CACHE_PACKETS
    }

    ghost function Value(): Cache
      reads this, slots
    {
      Cache(slots[..], rttNs)
    }

    constructor ()
      ensures Valid() && fresh(slots) && WellFormed(Value()) && Value().rtt == 0
      ensures forall k :: 0 <= k < CACHE_PACKETS ==> slots[k].packet.None?
    {
      slots := new Slot[CACHE_PACKETS](_ => Slot(None, 0, 0));
      rttNs := 0;
    }

    method Replace(p: Packet)
      requires Valid()
      modifies slots
      ensures Value() == Store(old(Value()), p)
    {
      slots[p.sequence % CACHE_PACKETS] := Slot(Some(p), 0, 0);
    }

    method Clear()
      requires Valid()
      modifies slots
      ensures forall k :: 0 <= k < CACHE_PACKETS ==> slots[k].packet.None?
    {
      var k := 0;
      while k < slots.Length
        invariant 0 <= k <= slots.Length
        invariant forall j :: 0 <= j < k ==> slots[j].packet.None?
      {
        slots[k] := slots[k].(packet := None);
        k := k + 1;
      }
    }

    /** Retransmissions are then at least twice this round trip apart, within 20 to 100 ms; a
        negative measurement is ignored. */
    method SetRTT(rtt: int)
      modifies this
      ensures Value() == WithRTT(old(Value()), rtt)
      ensures MIN_THROTTLE_NS <= Throttle(Value().rtt) <= MAX_THROTTLE_NS
      ensures MIN_THROTTLE_NS <= 2 * rtt <= MAX_THROTTLE_NS ==> Throttle(Value().rtt) == 2 * rtt
      ensures 0 < 2 * rtt < MIN_THROTTLE_NS ==> Throttle(Value().rtt) == MIN_THROTTLE_NS
      ensures MAX_THROTTLE_NS < 2 * rtt < 0x8000_0000_0000_0000 ==> Throttle(Value().rtt) == MAX_THROTTLE_NS
    {
      if rtt >= 0 {
        rttNs := rtt;
      }
    }

    method Load(sequence: u16, now: int) returns (answer: Answer)
      requires Valid()
      modifies slots
      ensures answer == Ask(old(Value()), sequence, now)
      ensures Value() == AfterAsk(old(Value()), sequence, now)
    {
      var k := sequence % CACHE_PACKETS;
      var slot := slots[k];
      if slot.packet.None? || slot.packet.value.sequence != sequence {
        return Miss;
      }
      if slot.grants >= MAX_GRANTS {
        return Throttled;
      }
      var throttle := MAX_THROTTLE_NS;
      if rttNs > 0 {
        var twice := Doubled(rttNs);
        throttle := if twice < MIN_THROTTLE_NS then MIN_THROTTLE_NS
        else if twice > MAX_THROTTLE_NS then MAX_THROTTLE_NS else twice;
      }
      if slot.lastGrantAt != 0 && now - slot.lastGrantAt < throttle {
        return Throttled;
      }
      slots[k] := slot.(lastGrantAt := now, grants := slot.grants + 1);
      return Granted(slot.packet.value);
    }
  }

  // ---------------------------------------------------------------- whole runs

  datatype Operation = Put(packet: Packet) | Nack(sequence: u16, now: int) | Measure(rtt: int)

  /** A granted retransmission: of the how-manieth stored packet, when, and which throttle
      was in force. */
  datatype Grant = Grant(store: nat, at: int, throttle: int)

  /** The cache with everything ever stored and granted. */
  datatype Trace = Trace(cache: Cache, stores: seq<Packet>, grants: seq<Grant>)

  /** The index of the last store whose sequence number has residue `r`. */
  function LatestIn(stores: seq<Packet>, r: nat): Option<nat> {
    if stores == [] then None
    else if stores[|stores| - 1].sequence % CACHE_PACKETS == r then Some(|stores| - 1)
    else LatestIn(stores[..|stores| - 1], r)
  }

  function Step(t: Trace, op: Operation): Trace
    requires WellFormed(t.cache)
  {
    match op
    case Put(p) => Trace(Store(t.cache, p), t.stores + [p], t.grants)
    case Measure(rtt) => t.(cache := WithRTT(t.cache, rtt))
    case Nack(sequence, now) =>
      var latest := LatestIn(t.stores, sequence % CACHE_PACKETS);
      Trace(AfterAsk(t.cache, sequence, now), t.stores,
            if Ask(t.cache, sequence, now).Granted? && latest.Some? then t.grants + [Grant(latest.value, now, Throttle(t.cache.rtt))] else t.grants)
  }

  ghost predicate IsRun(run: seq<Trace>, ops: seq<Operation>) {
    && |run| == |ops| + 1
    && run[0].stores == [] && run[0].grants == [] && WellFormed(run[0].cache)
    && (forall k :: 0 <= k < CACHE_PACKETS ==> run[0].cache.slots[k].packet.None?)
    && (forall i :: 0 <= i < |ops| ==> WellFormed(run[i].cache) && run[i + 1] == Step(run[i], ops[i]))
  }

  /** The grants of store `i`, in the order they were made. */
  function GrantsOf(grants: seq<Grant>, i: nat): seq<Grant> {
    if grants == [] then []
    else
      var earlier := GrantsOf(grants[..|grants| - 1], i);
      if grants[|grants| - 1].store == i then earlier + [grants[|grants| - 1]] else earlier
  }

  /** Each slot mirrors the latest store of its residue class and that store's grants. */
  ghost predicate SlotMirrors(t: Trace, r: nat)
    requires WellFormed(t.cache) && r < CACHE_PACKETS
  {
    var slot, latest := t.cache.slots[r], LatestIn(t.stores, r);
    match latest
    case None => slot.packet.None?
    case Some(i) =>
      && i < |t.stores| && slot.packet == Some(t.stores[i])
      && slot.grants == |GrantsOf(t.grants, i)|
      && slot.lastGrantAt == (if GrantsOf(t.grants, i) == [] then 0 else GrantsOf(t.grants, i)[slot.grants - 1].at)
  }

  ghost predicate Mirrors(t: Trace) {
    && WellFormed(t.cache)
    && (forall r :: 0 <= r < CACHE_PACKETS ==> SlotMirrors(t, r))
    && (forall k :: 0 <= k < |t.grants| ==> t.grants[k].store < |t.stores|)
  }

  lemma {:induction false} LatestIsStored(stores: seq<Packet>, r: nat)
    ensures LatestIn(stores, r).Some? ==>
      LatestIn(stores, r).value < |stores| && stores[LatestIn(stores, r).value].sequence % CACHE_PACKETS == r
    ensures forall j :: 0 <= j < |stores| && stores[j].sequence % CACHE_PACKETS == r ==>
      LatestIn(stores, r).Some? && j <= LatestIn(stores, r).value
  {
    if stores != [] { LatestIsStored(stores[..|stores| - 1], r); }
  }

  lemma {:induction false} NeverGrantedYet(grants: seq<Grant>, i: nat)
    requires forall k :: 0 <= k < |grants| ==> grants[k].store != i
    ensures GrantsOf(grants, i) == []
  {
    if grants != [] { NeverGrantedYet(grants[..|grants| - 1], i); }
  }

  lemma MirrorsPut(t: Trace, p: Packet)
    requires Mirrors(t)
    ensures Mirrors(Step(t, Put(p)))
  {
    var t' := Step(t, Put(p));
    NeverGrantedYet(t.grants, |t.stores|);
    forall r | 0 <= r < CACHE_PACKETS ensures SlotMirrors(t', r) {
      assert SlotMirrors(t, r);
    }
  }

  lemma MirrorsNack(t: Trace, sequence: u16, now: int)
    requires Mirrors(t)
    ensures Mirrors(Step(t, Nack(sequence, now)))
  {
    var t' := Step(t, Nack(sequence, now));
    var k := sequence % CACHE_PACKETS;
    assert SlotMirrors(t, k);
    forall r | 0 <= r < CACHE_PACKETS ensures SlotMirrors(t', r) {
      assert SlotMirrors(t, r);
      if Ask(t.cache, sequence, now).Granted? {
        LatestIsStored(t.stores, r);
        LatestIsStored(t.stores, k);
      }
    }
  }

  lemma {:induction false} RunMirrors(run: seq<Trace>, ops: seq<Operation>, n: nat)
    requires IsRun(run, ops) && n <= |ops|
    ensures Mirrors(run[n])
  {
    if n > 0 {
      RunMirrors(run, ops, n - 1);
      match ops[n - 1] {
        case Put(p) => MirrorsPut(run[n - 1], p);
        case Nack(sequence, now) => MirrorsNack(run[n - 1], sequence, now);
        case Measure(rtt) =>
          forall r | 0 <= r < CACHE_PACKETS ensures SlotMirrors(run[n], r) {
            assert SlotMirrors(run[n - 1], r);
          }
      }
    }
  }

  /** A sequence number is found exactly when the latest store in its residue class had
      that very number, and then it is that store's packet. */
  lemma HitIffLatest(run: seq<Trace>, ops: seq<Operation>, n: nat, sequence: u16, now: int)
    requires IsRun(run, ops) && n <= |ops|
    ensures WellFormed(run[n].cache)
    ensures var t := run[n]; var latest := LatestIn(t.stores, sequence % CACHE_PACKETS);
      && (!Ask(t.cache, sequence, now).Miss? <==>
            latest.Some? && latest.value < |t.stores| && t.stores[latest.value].sequence == sequence)
      && (Ask(t.cache, sequence, now).Granted? ==>
            latest.Some? && latest.value < |t.stores| && Ask(t.cache, sequence, now).packet == t.stores[latest.value])
  {
    RunMirrors(run, ops, n);
    assert SlotMirrors(run[n], sequence % CACHE_PACKETS);
  }

  /** The last `count` stores carry consecutive numbers, modulo 2^16. */
  predicate ConsecutiveTail(stores: seq<Packet>, count: nat, first: u16) {
    && count <= |stores|
    && forall i :: |stores| - count <= i < |stores| ==> stores[i].sequence == (first + (i - (|stores| - count))) % SEQUENCES
  }

  lemma NearbyResiduesDiffer(x: nat, y: nat)
    requires x < y < x + CACHE_PACKETS
    ensures x % SEQUENCES % CACHE_PACKETS != y % SEQUENCES % CACHE_PACKETS
  {
  }

  /** So the last 512 consecutively numbered packets can all be found, also across the
      wrap from 65535 to 0. */
  lemma Last512Found(run: seq<Trace>, ops: seq<Operation>, n: nat, count: nat, first: u16, j: nat, now: int)
    requires IsRun(run, ops) && n <= |ops| && count <= CACHE_PACKETS && j < count
    requires ConsecutiveTail(run[n].stores, count, first)
    ensures WellFormed(run[n].cache)
    ensures !Ask(run[n].cache, (first + j) % SEQUENCES, now).Miss?
    ensures var at := |run[n].stores| - count + j;
      LatestIn(run[n].stores, (first + j) % SEQUENCES % CACHE_PACKETS) == Some(at)
  {
    var stores := run[n].stores;
    var at := |stores| - count + j;
    var sequence: u16 := (first + j) % SEQUENCES;
    TailIsLatest(stores, count, first, j);
    HitIffLatest(run, ops, n, sequence, now);
  }

  lemma TailIsLatest(stores: seq<Packet>, count: nat, first: u16, j: nat)
    requires count <= CACHE_PACKETS && j < count && ConsecutiveTail(stores, count, first)
    ensures LatestIn(stores, (first + j) % SEQUENCES % CACHE_PACKETS) == Some(|stores| - count + j)
    ensures stores[|stores| - count + j].sequence == (first + j) % SEQUENCES
  {
    var at := |stores| - count + j;
    var r := (first + j) % SEQUENCES % CACHE_PACKETS;
    assert stores[at].sequence == (first + j) % SEQUENCES;
    LatestIsStored(stores, r);
    var i := LatestIn(stores, r).value;
    if i > at {
      NearbyResiduesDiffer(first + j, first + (i - (|stores| - count)));
    }
  }

  /** A packet with these grants so far may be granted again: fewer than three times yet, and
      the last time at least the throttle ago, or at the instant zero of the clock, which the
      slot cannot tell from "never". */
  predicate MayGrant(grants: seq<Grant>, now: int, throttle: int) {
    && |grants| < MAX_GRANTS
    && (grants == [] || grants[|grants| - 1].at == 0 || now - grants[|grants| - 1].at >= throttle)
  }

  /** Exactly when a request is granted, over any run: the latest store of its residue class
      carries the number, and that store may be granted again under the throttle in force. */
  lemma GrantedIff(run: seq<Trace>, ops: seq<Operation>, n: nat, sequence: u16, now: int)
    requires IsRun(run, ops) && n <= |ops|
    ensures WellFormed(run[n].cache)
    ensures var t := run[n]; var latest := LatestIn(t.stores, sequence % CACHE_PACKETS);
      Ask(t.cache, sequence, now).Granted? <==>
        && latest.Some? && latest.value < |t.stores| && t.stores[latest.value].sequence == sequence
        && MayGrant(GrantsOf(t.grants, latest.value), now, Throttle(t.cache.rtt))
  {
    RunMirrors(run, ops, n);
    assert SlotMirrors(run[n], sequence % CACHE_PACKETS);
  }

  /** Exactly when a packet that was granted before is granted again too early: it has grants
      left and the last one was made at instant zero. */
  lemma GrantedTooEarlyIff(run: seq<Trace>, ops: seq<Operation>, n: nat, sequence: u16, now: int, i: nat)
    requires IsRun(run, ops) && n <= |ops| && LatestIn(run[n].stores, sequence % CACHE_PACKETS) == Some(i)
    requires i < |run[n].stores| && run[n].stores[i].sequence == sequence && GrantsOf(run[n].grants, i) != []
    ensures WellFormed(run[n].cache)
    ensures var t, g := run[n], GrantsOf(run[n].grants, i);
      Ask(t.cache, sequence, now).Granted? && now - g[|g| - 1].at < Throttle(t.cache.rtt) <==>
        |g| < MAX_GRANTS && g[|g| - 1].at == 0 && now < Throttle(t.cache.rtt)
  {
    GrantedIff(run, ops, n, sequence, now);
  }

  /** At most three grants, each at least the throttle then in force, and so at least 20 ms,
      after the one before it, unless that one was made at instant zero. */
  predicate Spaced(g: seq<Grant>) {
    && |g| <= MAX_GRANTS
    && forall k :: 0 < k < |g| && g[k - 1].at != 0 ==> g[k].at - g[k - 1].at >= g[k].throttle >= MIN_THROTTLE_NS
  }

  lemma SpacedNack(t: Trace, sequence: u16, now: int, i: nat)
    requires WellFormed(t.cache) && Spaced(GrantsOf(t.grants, i))
    requires var latest := LatestIn(t.stores, sequence % CACHE_PACKETS);
      Ask(t.cache, sequence, now).Granted? && latest.Some? ==>
        MayGrant(GrantsOf(t.grants, latest.value), now, Throttle(t.cache.rtt))
    ensures Spaced(GrantsOf(Step(t, Nack(sequence, now)).grants, i))
  {
  }

  /** One stored packet is retransmitted at most three times, well spaced, over any run. */
  lemma {:induction false} GrantsAreSpaced(run: seq<Trace>, ops: seq<Operation>, n: nat, i: nat)
    requires IsRun(run, ops) && n <= |ops|
    ensures Spaced(GrantsOf(run[n].grants, i))
  {
    if n > 0 {
      GrantsAreSpaced(run, ops, n - 1, i);
      var t, op := run[n - 1], ops[n - 1];
      if op.Nack? {
        GrantedIff(run, ops, n - 1, op.sequence, op.now);
        SpacedNack(t, op.sequence, op.now, i);
      }
    }
  }

  /** The exception is real: a packet granted at instant zero is granted again at once. */
  lemma InstantZeroIsNotThrottled(c: Cache, p: Packet)
    requires WellFormed(c)
    ensures var c' := Store(c, p);
      && Ask(c', p.sequence, 0) == Granted(p)
      && Ask(AfterAsk(c', p.sequence, 0), p.sequence, 0) == Granted(p)
  {
  }
}
