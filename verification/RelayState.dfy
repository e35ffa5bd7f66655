/** Relay state snapshots: what the control plane accepts, and the canonical form in
    which it compares them. */
module RelayState {

  const CONTRACT_VERSION := 1
  const MAX_BUSES: nat := 16
  const MAX_SUBSCRIPTIONS: nat := 1024
  const MAX_BUS_ID: nat := 64
  const MAX_EPOCH: nat := 128
  const MAX_SUBSCRIBER_ID: nat := 128

  datatype Bus = Bus(busId: string, role: string, sourceActive: bool, sourceGeneration: nat)
  datatype Subscription = Subscription(subscriberId: string, busId: string)
  datatype Snapshot = Snapshot(
    contractVersion: int, sessionId: string, relayEpoch: string, revision: nat, writerTerm: nat,
    observedAt: int, buses: seq<Bus>, subscriptions: seq<Subscription>)

  /** The zero time, which no accepted snapshot carries. */
  const ZERO_TIME: int := 0

  // ---------------------------------------------------------------- validation

  predicate IdentifierChar(c: char) {
    'a' <= c <= 'z' || 'A' <= c <= 'Z' || '0' <= c <= '9' || c == '.' || c == '_' || c == '-'
  }

  predicate Identifier(s: string, maximum: nat) {
    0 < |s| <= maximum && forall i :: 0 <= i < |s| ==> IdentifierChar(s[i])
  }

  method ValidIdentifier(value: string, maximum: nat) returns (ok: bool)
    ensures ok <==> Identifier(value, maximum)
  {
    if |value| == 0 || |value| > maximum {
      return false;
    }
    for i := 0 to |value|
      invariant forall k :: 0 <= k < i ==> IdentifierChar(value[k])
    {
      var c := value[i];
      if !(('a' <= c && c <= 'z') || ('A' <= c && c <= 'Z') || ('0' <= c && c <= '9') || c == '.' || c == '_' || c == '-') {
        return false;
      }
    }
    return true;
  }

  predicate ValidBuses(buses: seq<Bus>) {
    && (forall i :: 0 <= i < |buses| ==> Identifier(buses[i].busId, MAX_BUS_ID) && Identifier(buses[i].role, MAX_BUS_ID))
    && (forall i, j :: 0 <= i < j < |buses| ==> buses[i].busId != buses[j].busId)
  }

  function BusIds(buses: seq<Bus>): set<string> {
    set b | b in buses :: b.busId
  }

  predicate ValidSubscriptions(subscriptions: seq<Subscription>, buses: set<string>) {
    && (forall i :: 0 <= i < |subscriptions| ==>
          && Identifier(subscriptions[i].subscriberId, MAX_SUBSCRIBER_ID) && Identifier(subscriptions[i].busId, MAX_BUS_ID)
          && (subscriptions[i].busId == "mix" || subscriptions[i].busId in buses))
    && (forall i, j :: 0 <= i < j < |subscriptions| ==> subscriptions[i].subscriberId != subscriptions[j].subscriberId)
  }

  /** A complete, self-consistent observation: unique buses, unique subscribers, and every
      subscriber on the mix or on a bus of the same snapshot. */
  predicate Valid(s: Snapshot) {
    && s.contractVersion == CONTRACT_VERSION && s.sessionId != "" && Identifier(s.relayEpoch, MAX_EPOCH)
    && s.revision != 0 && s.observedAt != ZERO_TIME
    && |s.buses| <= MAX_BUSES && |s.subscriptions| <= MAX_SUBSCRIPTIONS
    && ValidBuses(s.buses) && ValidSubscriptions(s.subscriptions, BusIds(s.buses))
  }

  method CheckBuses(buses: seq<Bus>) returns (ok: bool, busIds: set<string>)
    ensures ok <==> ValidBuses(buses)
    ensures ok ==> busIds == BusIds(buses)
  {
    busIds := {};
    for i := 0 to |buses|
      invariant busIds == BusIds(buses[..i])
      invariant ValidBuses(buses[..i])
    {
      var bus := buses[i];
      assert buses[..i + 1] == buses[..i] + [bus];
      assert forall k :: 0 <= k < i ==> buses[k] in buses[..i];
      var idOk := ValidIdentifier(bus.busId, MAX_BUS_ID);
      var roleOk := ValidIdentifier(bus.role, MAX_BUS_ID);
      if !idOk || !roleOk || bus.busId in busIds {
        return false, busIds;
      }
      busIds := busIds + {bus.busId};
    }
    assert buses[..|buses|] == buses;
    ok := true;
  }

  method CheckSubscriptions(subscriptions: seq<Subscription>, busIds: set<string>) returns (ok: bool)
    ensures ok <==> ValidSubscriptions(subscriptions, busIds)
  {
    var subscriberIds := {};
    for i := 0 to |subscriptions|
      invariant subscriberIds == set s | s in subscriptions[..i] :: s.subscriberId
      invariant ValidSubscriptions(subscriptions[..i], busIds)
    {
      var sub := subscriptions[i];
      assert subscriptions[..i + 1] == subscriptions[..i] + [sub];
      assert forall k :: 0 <= k < i ==> subscriptions[k] in subscriptions[..i];
      var idOk := ValidIdentifier(sub.subscriberId, MAX_SUBSCRIBER_ID);
      var busOk := ValidIdentifier(sub.busId, MAX_BUS_ID);
      if !idOk || !busOk || (sub.busId != "mix" && sub.busId !in busIds) || sub.subscriberId in subscriberIds {
        return false;
      }
      subscriberIds := subscriberIds + {sub.subscriberId};
    }
    assert subscriptions[..|subscriptions|] == subscriptions;
    ok := true;
  }

  method ValidateRelaySnapshot(snapshot: Snapshot) returns (ok: bool)
    ensures ok <==> Valid(snapshot)
  {
    var epochOk := ValidIdentifier(snapshot.relayEpoch, MAX_EPOCH);
    if snapshot.contractVersion != CONTRACT_VERSION || snapshot.sessionId == "" || !epochOk || snapshot.revision == 0
       || snapshot.observedAt == ZERO_TIME || |snapshot.buses| > MAX_BUSES || |snapshot.subscriptions| > MAX_SUBSCRIPTIONS {
      return false;
    }
    var busesOk, busIds := CheckBuses(snapshot.buses);
    if !busesOk {
      return false;
    }
    ok := CheckSubscriptions(snapshot.subscriptions, busIds);
  }

  /** The mix is always there to listen to: one more listener of it keeps subscriptions valid. */
  lemma MixIsAlwaysThere(subscriptions: seq<Subscription>, buses: set<string>, id: string)
    requires ValidSubscriptions(subscriptions, buses) && Identifier(id, MAX_SUBSCRIBER_ID)
    requires forall i :: 0 <= i < |subscriptions| ==> subscriptions[i].subscriberId != id
    ensures ValidSubscriptions(subscriptions + [Subscription(id, "mix")], buses)
  {
    assert Identifier("mix", MAX_BUS_ID);
  }

  // ------------------------------------------------------------- canonical form

  /** Lexicographic order of strings. */
  predicate Less(a: string, b: string) {
    b != "" && (a == "" || a[0] < b[0] || (a[0] == b[0] && Less(a[1..], b[1..])))
  }

  lemma {:induction false} LessIsTotal(a: string, b: string)
    ensures a == b || Less(a, b) || Less(b, a)
    ensures !(Less(a, b) && (a == b || Less(b, a)))
  {
    if a != "" && b != "" {
      LessIsTotal(a[1..], b[1..]);
      if a[0] == b[0] && a[1..] == b[1..] {
        assert a == [a[0]] + a[1..] && b == [b[0]] + b[1..];
      }
    }
  }

  /** Texts are ordered where they first differ: by the smaller character, or the shorter text. */
  lemma {:induction false} LessAtFirstDifference(common: string, x: string, y: string)
    requires x != "" && y != "" ==> x[0] != y[0]
    ensures Less(common + x, common + y) <==> y != "" && (x == "" || x[0] < y[0])
  {
    if common == "" {
      assert common + x == x && common + y == y;
    } else {
      LessAtFirstDifference(common[1..], x, y);
      assert (common + x)[1..] == common[1..] + x && (common + y)[1..] == common[1..] + y;
    }
  }

  lemma {:induction false} LessIsTransitive(a: string, b: string, c: string)
    requires Less(a, b) && Less(b, c)
    ensures Less(a, c)
  {
    if a != "" && a[0] == b[0] && b[0] == c[0] {
      LessIsTransitive(a[1..], b[1..], c[1..]);
    }
  }

  function InsertBy<T>(s: seq<T>, x: T, key: T -> string): seq<T> {
    if s == [] || !Less(key(x), key(s[|s| - 1])) then s + [x]
    else InsertBy(s[..|s| - 1], x, key) + [s[|s| - 1]]
  }

  function SortBy<T>(s: seq<T>, key: T -> string): seq<T> {
    if s == [] then [] else InsertBy(SortBy(s[..|s| - 1], key), s[|s| - 1], key)
  }

  predicate StrictlyAscending<T>(s: seq<T>, key: T -> string) {
    forall i, j :: 0 <= i < j < |s| ==> Less(key(s[i]), key(s[j]))
  }

  predicate DistinctKeys<T>(s: seq<T>, key: T -> string) {
    forall i, j :: 0 <= i < j < |s| ==> key(s[i]) != key(s[j])
  }

  lemma {:induction false} InsertByAdds<T>(s: seq<T>, x: T, key: T -> string)
    ensures multiset(InsertBy(s, x, key)) == multiset(s) + multiset{x}
  {
    if s != [] && Less(key(x), key(s[|s| - 1])) {
      InsertByAdds(s[..|s| - 1], x, key);
      assert s == s[..|s| - 1] + [s[|s| - 1]];
    }
  }

  lemma {:induction false} InsertByAscends<T>(s: seq<T>, x: T, key: T -> string)
    requires StrictlyAscending(s, key)
    requires forall i :: 0 <= i < |s| ==> key(s[i]) != key(x)
    ensures StrictlyAscending(InsertBy(s, x, key), key)
  {
    if s != [] {
      var front, last := s[..|s| - 1], s[|s| - 1];
      LessIsTotal(key(x), key(last));
      if Less(key(x), key(last)) {
        InsertByAscends(front, x, key);
        InsertByAdds(front, x, key);
        var r := InsertBy(front, x, key);
        forall i | 0 <= i < |r| ensures Less(key(r[i]), key(last)) {
          assert r[i] in multiset(r);
        }
      } else {
        forall i | 0 <= i < |s| - 1 ensures Less(key(s[i]), key(x)) {
          LessIsTransitive(key(s[i]), key(last), key(x));
        }
      }
    }
  }

  /** A rearrangement of all but the last element avoids the last element's key. */
  lemma LastKeyIsNew<T>(s: seq<T>, r: seq<T>, key: T -> string)
    requires s != [] && DistinctKeys(s, key) && multiset(r) == multiset(s[..|s| - 1])
    ensures forall i :: 0 <= i < |r| ==> key(r[i]) != key(s[|s| - 1])
  {
    forall i | 0 <= i < |r| ensures key(r[i]) != key(s[|s| - 1]) {
      assert r[i] in multiset(r);
    }
  }

  lemma {:induction false} SortByAdds<T>(s: seq<T>, key: T -> string)
    ensures multiset(SortBy(s, key)) == multiset(s)
  {
    if s != [] {
      SortByAdds(s[..|s| - 1], key);
      InsertByAdds(SortBy(s[..|s| - 1], key), s[|s| - 1], key);
      assert s == s[..|s| - 1] + [s[|s| - 1]];
    }
  }

  lemma {:induction false} SortByAscends<T>(s: seq<T>, key: T -> string)
    requires DistinctKeys(s, key)
    ensures StrictlyAscending(SortBy(s, key), key)
  {
    if s != [] {
      var front := s[..|s| - 1];
      var r := SortBy(front, key);
      SortByAscends(front, key);
      SortByAdds(front, key);
      LastKeyIsNew(s, r, key);
      InsertByAscends(r, s[|s| - 1], key);
    }
  }

  lemma HeadsAgree<T>(a: seq<T>, b: seq<T>, key: T -> string)
    requires StrictlyAscending(a, key) && StrictlyAscending(b, key)
    requires a != [] && b != [] && a[0] in b && b[0] in a
    ensures a[0] == b[0]
  {
    LessIsTotal(key(a[0]), key(b[0]));
  }

  lemma TailBag<T>(s: seq<T>)
    requires s != []
    ensures multiset(s[1..]) == multiset(s) - multiset{s[0]}
  {
    assert s == [s[0]] + s[1..];
  }

  /** Whatever algorithm sorts them, distinct keys leave only one ascending order. */
  lemma {:induction false} AscendingIsUnique<T>(a: seq<T>, b: seq<T>, key: T -> string)
    requires StrictlyAscending(a, key) && StrictlyAscending(b, key) && multiset(a) == multiset(b)
    ensures a == b
  {
    assert |multiset(a)| == |a| && |multiset(b)| == |b|;
    if a != [] {
      assert a[0] in multiset(a) && b[0] in multiset(b);
      HeadsAgree(a, b, key);
      TailBag(a);
      TailBag(b);
      AscendingIsUnique(a[1..], b[1..], key);
      assert a == [a[0]] + a[1..] && b == [b[0]] + b[1..];
    }
  }

  function BusKey(b: Bus): string { b.busId }
  function SubscriptionKey(s: Subscription): string { s.subscriberId }

  function Normalize(s: Snapshot): Snapshot {
    s.(buses := SortBy(s.buses, BusKey), subscriptions := SortBy(s.subscriptions, SubscriptionKey))
  }

  /** Two valid snapshots have the same canonical attachments exactly when they list the
      same attachments, in whatever order. */
  lemma CanonicalIffSameAttachments(s: Snapshot, t: Snapshot)
    requires Valid(s) && Valid(t)
    ensures Normalize(s).buses == Normalize(t).buses <==> multiset(s.buses) == multiset(t.buses)
    ensures Normalize(s).subscriptions == Normalize(t).subscriptions <==> multiset(s.subscriptions) == multiset(t.subscriptions)
  {
    SortByAdds(s.buses, BusKey);
    SortByAdds(t.buses, BusKey);
    SortByAdds(s.subscriptions, SubscriptionKey);
    SortByAdds(t.subscriptions, SubscriptionKey);
    SortByAscends(s.buses, BusKey);
    SortByAscends(t.buses, BusKey);
    SortByAscends(s.subscriptions, SubscriptionKey);
    SortByAscends(t.subscriptions, SubscriptionKey);
    if multiset(s.buses) == multiset(t.buses) {
      AscendingIsUnique(Normalize(s).buses, Normalize(t).buses, BusKey);
    }
    if multiset(s.subscriptions) == multiset(t.subscriptions) {
      AscendingIsUnique(Normalize(s).subscriptions, Normalize(t).subscriptions, SubscriptionKey);
    }
  }
}
