/** The Session record and every operation that rewrites it. StateRevision is the version
    of the record's public state. */
module SessionRecords {
  import opened RelayState

  datatype Record = Record(
    id: string, incarnation: string, requiredBuses: seq<string>, codec: string, stateRevision: nat,
    relay: Snapshot, writerTerm: nat, mediaTerm: nat, lastActiveAt: int, expiresAt: int)

  /** The complete public control-plane state of a Session. */
  datatype PublicState = PublicState(
    sessionId: string, stateRevision: nat, relayEpoch: string, relayRevision: nat, requiredBuses: seq<string>,
    buses: seq<Bus>, subscriptions: seq<Subscription>, ready: bool, subscriptionCount: nat, codec: string)

  predicate BusActive(buses: seq<Bus>, id: string) {
    exists b :: b in buses && b.busId == id && b.sourceActive
  }

  predicate Ready(required: seq<string>, buses: seq<Bus>) {
    forall id :: id in required ==> BusActive(buses, id)
  }

  function Public(r: Record): PublicState {
    PublicState(r.id, r.stateRevision, r.relay.relayEpoch, r.relay.revision, r.requiredBuses, r.relay.buses,
                r.relay.subscriptions, Ready(r.requiredBuses, r.relay.buses), |r.relay.subscriptions|, r.codec)
  }

  /** A deployment's time limits. */
  datatype Limits = Limits(sessionTTL: nat, observationTTL: nat)

  datatype Error = NotFound | WriterFenced | InvalidRelayState
  datatype Result<T> = Ok(value: T) | Err(error: Error)

  // ----------------------------------------------------------------- operations

  predicate Live(r: Record, incarnation: string, now: int) {
    r.expiresAt > now && r.incarnation == incarnation
  }

  /** Observed connections are dropped, which is a visible change if there were any. */
  function Cleared(r: Record): Record {
    if r.relay.buses == [] && r.relay.subscriptions == [] then r
    else r.(relay := r.relay.(buses := [], subscriptions := []), stateRevision := r.stateRevision + 1)
  }

  /** Reading a Session drops an observation that is stale or made for another writer term. */
  function Refreshed(r: Record, term: nat, now: int, limits: Limits): Record {
    if r.writerTerm != term || now - r.relay.observedAt > limits.observationTTL then Cleared(r) else r
  }

  /** Compare-and-swap placement; the value is the term the epoch now holds. */
  function Acquired(r: Record, epoch: string, expected: nat, term: nat, now: int): Result<(Record, nat)> {
    if r.relay.relayEpoch == epoch && r.mediaTerm != 0 then Ok((r, r.mediaTerm))
    else if r.mediaTerm != expected then Err(WriterFenced)
    else
      var next := r.mediaTerm + 1;
      Ok((r.(mediaTerm := next, relay := Snapshot(0, r.id, epoch, 0, next, now, [], []),
             stateRevision := r.stateRevision + 1, writerTerm := term), next))
  }

  predicate SomethingActive(s: Snapshot) {
    s.subscriptions != [] || exists b :: b in s.buses && b.sourceActive
  }

  predicate BusesAreRequired(s: Snapshot, required: seq<string>) {
    forall b :: b in s.buses ==> b.busId in required
  }

  /** Replacing the observation by `s`, which is already in canonical form. The flag says
      whether anything visible changed. */
  function Applied(r: Record, s: Snapshot, term: nat, now: int, limits: Limits): Result<(Record, bool)> {
    if s.writerTerm != r.mediaTerm || r.mediaTerm == 0 || s.relayEpoch != r.relay.relayEpoch then Err(WriterFenced)
    else if s.revision < r.relay.revision then Ok((r, false))
    else if !BusesAreRequired(s, r.requiredBuses) then Err(InvalidRelayState)
    else
      var changed := s.revision != r.relay.revision || s.buses != r.relay.buses || s.subscriptions != r.relay.subscriptions;
      var r' := r.(relay := s.(observedAt := now), writerTerm := term,
                   stateRevision := if changed then r.stateRevision + 1 else r.stateRevision);
      Ok((if SomethingActive(s) then Touched(r', now, limits) else r', changed))
  }

  /** Activity extends a Session's life. */
  function Touched(r: Record, now: int, limits: Limits): Record {
    r.(lastActiveAt := now, expiresAt := now + limits.sessionTTL)
  }

  // --------------------------------------------------------- the imperative form

  method Contains(values: seq<string>, target: string) returns (found: bool)
    ensures found <==> target in values
  {
    for i := 0 to |values|
      invariant target !in values[..i]
    {
      if values[i] == target {
        return true;
      }
    }
    return false;
  }

  /** Every reported bus is one of the required ones. */
  method ContainsAll(required: seq<string>, buses: seq<Bus>) returns (all: bool)
    ensures all <==> forall b :: b in buses ==> b.busId in required
  {
    for i := 0 to |buses|
      invariant forall k :: 0 <= k < i ==> buses[k].busId in required
    {
      var found := Contains(required, buses[i].busId);
      if !found {
        assert buses[i] in buses;
        return false;
      }
    }
    return true;
  }

  /** The bus is there and has a live source. */
  method SourceIsActive(buses: seq<Bus>, id: string) returns (active: bool)
    ensures active <==> exists k :: 0 <= k < |buses| && buses[k].busId == id && buses[k].sourceActive
    ensures active <==> BusActive(buses, id)
  {
    active := false;
    for k := 0 to |buses|
      invariant active <==> exists m :: 0 <= m < k && buses[m].busId == id && buses[m].sourceActive
    {
      if buses[k].busId == id && buses[k].sourceActive {
        active := true;
      }
    }
  }

  /** Ready means that every required bus has a live source. */
  method AllActive(required: seq<string>, buses: seq<Bus>) returns (ready: bool)
    ensures ready <==> forall i :: 0 <= i < |required| ==> BusActive(buses, required[i])
    ensures ready <==> Ready(required, buses)
  {
    ready := true;
    for i := 0 to |required|
      invariant ready <==> forall j :: 0 <= j < i ==> BusActive(buses, required[j])
    {
      var active := SourceIsActive(buses, required[i]);
      if !active {
        ready := false;
      }
    }
  }

  /** The public state of a stored record. */
  method StateOf(r: Record) returns (state: PublicState)
    ensures state == Public(r)
    ensures state.ready <==> forall i :: 0 <= i < |r.requiredBuses| ==> BusActive(r.relay.buses, r.requiredBuses[i])
  {
    var ready := AllActive(r.requiredBuses, r.relay.buses);
    state := PublicState(r.id, r.stateRevision, r.relay.relayEpoch, r.relay.revision, r.requiredBuses, r.relay.buses,
                         r.relay.subscriptions, ready, |r.relay.subscriptions|, r.codec);
  }

  /** Somebody listens, or some bus has a live source. */
  method AnythingActive(s: Snapshot) returns (active: bool)
    ensures active <==> SomethingActive(s)
  {
    active := |s.subscriptions| > 0;
    for i := 0 to |s.buses|
      invariant active <==> s.subscriptions != [] || exists k :: 0 <= k < i && s.buses[k].sourceActive
    {
      active := active || s.buses[i].sourceActive;
    }
  }

  /** One Service instance over its table of Sessions; each method is one committed
      transaction of a writer that holds `term`. */
  class Service {
    var sessions: map<string, Record>
    const term: nat
    const incarnation: string
    const limits: Limits

    constructor (term: nat, incarnation: string, limits: Limits)
      ensures this.term == term && this.incarnation == incarnation && this.limits == limits && sessions == map[]
    {
      this.term, this.incarnation, this.limits, sessions := term, incarnation, limits, map[];
    }

    method Active(id: string, now: int) returns (r: Result<Record>)
      ensures r == if id in sessions && Live(sessions[id], incarnation, now) then Ok(sessions[id]) else Err(NotFound)
      ensures r.Ok? <==> id in sessions && now < sessions[id].expiresAt && sessions[id].incarnation == incarnation
    {
      if id !in sessions || !(sessions[id].expiresAt > now) || sessions[id].incarnation != incarnation {
        return Err(NotFound);
      }
      return Ok(sessions[id]);
    }

    method GetContext(id: string, now: int) returns (result: Result<PublicState>)
      modifies this
      ensures id in old(sessions) && Live(old(sessions)[id], incarnation, now) ==>
        && sessions == old(sessions)[id := Refreshed(old(sessions)[id], term, now, limits)]
        && result == Ok(Public(sessions[id])) && sessions[id] == Step(old(sessions)[id], Read(term, now), limits)
      ensures id in old(sessions) && Live(old(sessions)[id], incarnation, now) ==>
        var r := old(sessions)[id];
        var current := r.writerTerm == term && now - r.relay.observedAt <= limits.observationTTL;
        && result.Ok? && result.value.buses == (if current then r.relay.buses else [])
        && result.value.subscriptions == (if current then r.relay.subscriptions else [])
        && (sessions == old(sessions) <==> current || (r.relay.buses == [] && r.relay.subscriptions == []))
      ensures !(id in old(sessions) && Live(old(sessions)[id], incarnation, now)) ==>
        sessions == old(sessions) && result == Err(NotFound)
    {
      var found := Active(id, now);
      if found.Err? {
        return Err(NotFound);
      }
      var r := found.value;
      if r.writerTerm != term || now - r.relay.observedAt > limits.observationTTL {
        if |r.relay.buses| > 0 || |r.relay.subscriptions| > 0 {
          r := r.(relay := r.relay.(buses := [], subscriptions := []), stateRevision := r.stateRevision + 1);
          sessions := sessions[id := r];
        }
      }
      var state := StateOf(r);
      assert r.stateRevision == old(sessions)[id].stateRevision ==> sessions == old(sessions)[id := r] == old(sessions);
      result := Ok(state);
    }

    method AcquireRelayWriter(id: string, epoch: string, expected: nat, now: int) returns (result: Result<nat>)
      modifies this
      ensures result.Err? ==> sessions == old(sessions)
      ensures result == Err(InvalidRelayState) <==> !Identifier(epoch, MAX_EPOCH)
      ensures result == Err(NotFound) <==>
        Identifier(epoch, MAX_EPOCH) && !(id in old(sessions) && Live(old(sessions)[id], incarnation, now))
      ensures Identifier(epoch, MAX_EPOCH) && id in old(sessions) && Live(old(sessions)[id], incarnation, now) ==>
        match Acquired(old(sessions)[id], epoch, expected, term, now)
        case Ok((r, t)) => result == Ok(t) && sessions == old(sessions)[id := r]
        case Err(e) => result == Err(e)
      ensures Identifier(epoch, MAX_EPOCH) && id in old(sessions) && Live(old(sessions)[id], incarnation, now) ==>
        var r := old(sessions)[id];
        var held := r.relay.relayEpoch == epoch && r.mediaTerm != 0;
        && id in sessions && sessions[id] == Step(r, Acquire(epoch, expected, term, now), limits)
        && (result.Ok? <==> held || expected == r.mediaTerm)
        && (!result.Ok? ==> result == Err(WriterFenced))
        && (held ==> result == Ok(r.mediaTerm) && sessions == old(sessions))
        && (!held && expected == r.mediaTerm ==>
              && result == Ok(r.mediaTerm + 1)
              && sessions == old(sessions)[id := r.(mediaTerm := r.mediaTerm + 1, stateRevision := r.stateRevision + 1, writerTerm := term,
                                                    relay := Snapshot(0, r.id, epoch, 0, r.mediaTerm + 1, now, [], []))])
    {
      var valid := ValidIdentifier(epoch, MAX_EPOCH);
      if !valid {
        return Err(InvalidRelayState);
      }
      var found := Active(id, now);
      if found.Err? {
        return Err(NotFound);
      }
      var r := found.value;
      if r.relay.relayEpoch == epoch && r.mediaTerm != 0 {
        assert sessions == sessions[id := r];
        return Ok(r.mediaTerm);
      }
      if r.mediaTerm != expected {
        return Err(WriterFenced);
      }
      var next := r.mediaTerm + 1;
      r := r.(mediaTerm := next, relay := Snapshot(0, r.id, epoch, 0, next, now, [], []),
              stateRevision := r.stateRevision + 1, writerTerm := term);
      sessions := sessions[id := r];
      return Ok(next);
    }

    /** A new writer forgets every observation: what was connected has to be observed again. */
    method ForgetObservations()
      modifies this
      ensures sessions.Keys == old(sessions).Keys
      ensures forall id :: id in sessions ==> sessions[id] == Step(old(sessions)[id], Restart, limits)
      ensures forall id :: id in sessions ==>
        var r, r' := old(sessions)[id], sessions[id];
        && r'.relay.buses == [] && r'.relay.subscriptions == []
        && (r' == r <==> r.relay.buses == [] && r.relay.subscriptions == [])
        && r'.stateRevision == r.stateRevision + (if r' == r then 0 else 1)
    {
      var todo := sessions.Keys;
      while todo != {}
        invariant todo <= sessions.Keys == old(sessions).Keys
        invariant forall id :: id in sessions ==>
          sessions[id] == if id in todo then old(sessions)[id] else Cleared(old(sessions)[id])
        decreases todo
      {
        var id :| id in todo;
        todo := todo - {id};
        var r := sessions[id];
        if |r.relay.buses| > 0 || |r.relay.subscriptions| > 0 {
          r := r.(relay := r.relay.(buses := [], subscriptions := []), stateRevision := r.stateRevision + 1);
          sessions := sessions[id := r];
        }
      }
    }

    /** A refused or malformed snapshot changes nothing. */
    method ApplyRelayState(id: string, snapshot: Snapshot, now: int) returns (result: Result<(PublicState, bool)>)
      modifies this
      ensures result.Err? ==> sessions == old(sessions)
      ensures snapshot.sessionId != id || !Valid(snapshot) ==> result == Err(InvalidRelayState)
      ensures snapshot.sessionId == id && Valid(snapshot) && !(id in old(sessions) && Live(old(sessions)[id], incarnation, now))
        ==> result == Err(NotFound)
      ensures snapshot.sessionId == id && Valid(snapshot) && id in old(sessions) && Live(old(sessions)[id], incarnation, now) ==>
        match Applied(old(sessions)[id], Normalize(snapshot), term, now, limits)
        case Ok((r, changed)) => result == Ok((Public(r), changed)) && sessions == old(sessions)[id := r]
        case Err(e) => result == Err(e)
      ensures snapshot.sessionId == id && id in old(sessions) && Live(old(sessions)[id], incarnation, now) ==>
        id in sessions && sessions[id] == Step(old(sessions)[id], Apply(snapshot, term, now), limits)
    {
      if snapshot.sessionId != id {
        return Err(InvalidRelayState);
      }
      var valid := ValidateRelaySnapshot(snapshot);
      if !valid {
        return Err(InvalidRelayState);
      }
      var found := Active(id, now);
      if found.Err? {
        return Err(NotFound);
      }
      var r, s := found.value, Normalize(snapshot);
      if s.writerTerm != r.mediaTerm || r.mediaTerm == 0 || s.relayEpoch != r.relay.relayEpoch {
        return Err(WriterFenced);
      }
      if s.revision < r.relay.revision {
        assert sessions == sessions[id := r];
        var stale := StateOf(r);
        return Ok((stale, false));
      }
      var contained := ContainsAll(r.requiredBuses, s.buses);
      if !contained {
        return Err(InvalidRelayState);
      }
      var changed := s.revision != r.relay.revision || s.buses != r.relay.buses || s.subscriptions != r.relay.subscriptions;
      r := r.(relay := s.(observedAt := now), writerTerm := term);
      if changed {
        r := r.(stateRevision := r.stateRevision + 1);
      }
      var active := AnythingActive(s);
      if active {
        r := r.(lastActiveAt := now, expiresAt := now + limits.sessionTTL);
      }
      sessions := sessions[id := r];
      var state := StateOf(r);
      return Ok((state, changed));
    }
  }

  // -------------------------------------------------------------- versions

  /** Everything that rewrites a stored record, whichever Service instance does it. */
  datatype Operation =
    | Read(term: nat, now: int)
    | Restart
    | Acquire(epoch: string, expected: nat, term: nat, now: int)
    | Apply(snapshot: Snapshot, term: nat, now: int)
    | Issue(now: int)

  function Step(r: Record, op: Operation, limits: Limits): Record {
    match op
    case Read(term, now) => Refreshed(r, term, now, limits)
    case Restart => Cleared(r)
    case Acquire(epoch, expected, term, now) =>
      var a := Acquired(r, epoch, expected, term, now);
      if a.Ok? then a.value.0 else r
    case Apply(s, term, now) =>
      var a := Applied(r, Normalize(s), term, now, limits);
      if Valid(s) && a.Ok? then a.value.0 else r
    case Issue(now) => Touched(r, now, limits)
  }

  /** Issuing a token extends the Session's life and changes nothing visible. */
  lemma IssueExtends(r: Record, now: int, limits: Limits)
    ensures var r' := Step(r, Issue(now), limits);
      && r'.lastActiveAt == now && r'.expiresAt == now + limits.sessionTTL
      && Public(r') == Public(r) && r'.mediaTerm == r.mediaTerm && r'.relay == r.relay
  {
  }

  /** `run` lists the committed records of one Session around each of `ops`. */
  ghost predicate IsRun(run: seq<Record>, ops: seq<Operation>, limits: Limits) {
    |run| == |ops| + 1 && forall i :: 0 <= i < |ops| ==> run[i + 1] == Step(run[i], ops[i], limits)
  }

  lemma VersionStep(r: Record, op: Operation, limits: Limits)
    ensures var next := Step(r, op, limits);
      r.stateRevision <= next.stateRevision && (r.stateRevision == next.stateRevision ==> Public(r) == Public(next))
  {
  }

  /** StateRevision is a faithful version of the public state: over any run it never
      decreases, and two committed states of one Session with the same revision are the same. */
  lemma {:induction false} VersionIsFaithful(run: seq<Record>, ops: seq<Operation>, limits: Limits, i: nat, j: nat)
    requires IsRun(run, ops, limits) && i <= j < |run|
    ensures run[i].stateRevision <= run[j].stateRevision
    ensures run[i].stateRevision == run[j].stateRevision ==> Public(run[i]) == Public(run[j])
    decreases j
  {
    if i < j {
      VersionIsFaithful(run, ops, limits, i, j - 1);
      VersionStep(run[j - 1], ops[j - 1], limits);
    }
  }

  /** Stored attachments are in canonical order. */
  predicate Canonical(r: Record) {
    StrictlyAscending(r.relay.buses, BusKey) && StrictlyAscending(r.relay.subscriptions, SubscriptionKey)
  }

  lemma NormalizedIsCanonical(s: Snapshot)
    requires Valid(s)
    ensures StrictlyAscending(Normalize(s).buses, BusKey) && StrictlyAscending(Normalize(s).subscriptions, SubscriptionKey)
    ensures multiset(Normalize(s).buses) == multiset(s.buses)
    ensures multiset(Normalize(s).subscriptions) == multiset(s.subscriptions)
  {
    SortByAscends(s.buses, BusKey);
    SortByAscends(s.subscriptions, SubscriptionKey);
    SortByAdds(s.buses, BusKey);
    SortByAdds(s.subscriptions, SubscriptionKey);
  }

  lemma {:induction false} StaysCanonical(run: seq<Record>, ops: seq<Operation>, limits: Limits, n: nat)
    requires IsRun(run, ops, limits) && n < |run| && Canonical(run[0])
    ensures Canonical(run[n])
  {
    if n > 0 {
      StaysCanonical(run, ops, limits, n - 1);
      if ops[n - 1].Apply? && Valid(ops[n - 1].snapshot) { NormalizedIsCanonical(ops[n - 1].snapshot); }
    }
  }

  /** Exactly what becomes of a valid observation: it is fenced unless it carries the current term
      and epoch, ignored if it is older than the stored one, refused if it names a bus that is not
      required, and otherwise stored; activity, and nothing else, extends the Session's life. */
  lemma ObservationStoredIff(r: Record, s: Snapshot, term: nat, now: int, limits: Limits)
    requires Valid(s)
    ensures var a := Applied(r, Normalize(s), term, now, limits);
      var current := s.writerTerm == r.mediaTerm != 0 && s.relayEpoch == r.relay.relayEpoch;
      var unknown := exists b :: b in s.buses && b.busId !in r.requiredBuses;
      && (a == Err(WriterFenced) <==> !current)
      && (a == Err(InvalidRelayState) <==> current && s.revision >= r.relay.revision && unknown)
      && (current && s.revision < r.relay.revision ==> a == Ok((r, false)))
      && (current && s.revision >= r.relay.revision && !unknown ==> a.Ok? && Stores(r, s, a.value.0, term, now, limits))
  {
    NormalizedIsCanonical(s);
    SameElements(Normalize(s).buses, s.buses);
    assert |multiset(Normalize(s).subscriptions)| == |multiset(s.subscriptions)|;
  }

  lemma SameElements<T>(a: seq<T>, b: seq<T>)
    requires multiset(a) == multiset(b)
    ensures forall x :: x in a <==> x in b
  {
    assert forall x :: x in a <==> x in multiset(a);
    assert forall x :: x in b <==> x in multiset(b);
  }

  /** `r'` is `r` with the observation `s` in place of the stored one. */
  predicate Stores(r: Record, s: Snapshot, r': Record, term: nat, now: int, limits: Limits) {
    && multiset(r'.relay.buses) == multiset(s.buses) && multiset(r'.relay.subscriptions) == multiset(s.subscriptions)
    && r'.relay.revision == s.revision && r'.relay.relayEpoch == s.relayEpoch && r'.relay.writerTerm == s.writerTerm
    && r'.relay.observedAt == now && r'.writerTerm == term && r'.mediaTerm == r.mediaTerm
    && r'.id == r.id && r'.incarnation == r.incarnation && r'.requiredBuses == r.requiredBuses && r'.codec == r.codec
    && if s.subscriptions != [] || exists b :: b in s.buses && b.sourceActive
       then r'.lastActiveAt == now && r'.expiresAt == now + limits.sessionTTL
       else r'.lastActiveAt == r.lastActiveAt && r'.expiresAt == r.expiresAt
  }

  /** An accepted observation counts as a change exactly when its revision or its
      attachments differ from the stored ones, however they are ordered. */
  lemma ChangeIffDifferent(r: Record, s: Snapshot, term: nat, now: int, limits: Limits)
    requires Canonical(r) && Valid(s) && s.revision >= r.relay.revision
    requires Applied(r, Normalize(s), term, now, limits).Ok?
    ensures var (r', changed) := Applied(r, Normalize(s), term, now, limits).value;
      && (changed <==> s.revision != r.relay.revision || multiset(s.buses) != multiset(r.relay.buses)
                       || multiset(s.subscriptions) != multiset(r.relay.subscriptions))
      && (changed <==> r'.stateRevision != r.stateRevision) && (changed <==> Public(r') != Public(r))
  {
    NormalizedIsCanonical(s);
    if multiset(s.buses) == multiset(r.relay.buses) {
      AscendingIsUnique(Normalize(s).buses, r.relay.buses, BusKey);
    }
    if multiset(s.subscriptions) == multiset(r.relay.subscriptions) {
      AscendingIsUnique(Normalize(s).subscriptions, r.relay.subscriptions, SubscriptionKey);
    }
  }

  /** So a lost acknowledgement can be answered by sending the same attachments again, in
      any order: the second observation is accepted and is not a change. */
  lemma ResendIsNoChange(r: Record, s: Snapshot, again: Snapshot, term: nat, now: int, term': nat, now': int, limits: Limits)
    requires Canonical(r) && Valid(s) && Valid(again) && s.revision >= r.relay.revision
    requires Applied(r, Normalize(s), term, now, limits).Ok?
    requires again.revision == s.revision && again.writerTerm == s.writerTerm && again.relayEpoch == s.relayEpoch
    requires multiset(again.buses) == multiset(s.buses) && multiset(again.subscriptions) == multiset(s.subscriptions)
    ensures var first := Applied(r, Normalize(s), term, now, limits).value.0;
      var second := Applied(first, Normalize(again), term', now', limits);
      second.Ok? && !second.value.1 && Public(second.value.0) == Public(first)
  {
    NormalizedIsCanonical(s);
    NormalizedIsCanonical(again);
    CanonicalIffSameAttachments(s, again);
  }
}
