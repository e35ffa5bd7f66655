/** Placement of one Session on one of many relay processes: the processes' own writer
    tables, an unreliable network in between, and the Session record they compete for. */
module MediaPlacement {
  import opened Collections
  import opened RelayState
  import opened SessionRecords

  // ------------------------------------------------ a relay process's own table

  datatype Status = Pending | Placed(term: nat) | Fenced | Broken

  /** What a process remembers about one Session: the term it first saw, which every retry
      repeats, and how its acquisition stands. */
  datatype Writer = Writer(expected: nat, status: Status)

  datatype Metadata = Metadata(mediaTerm: nat, relayEpoch: string)
  datatype Reply = Term(term: nat) | Refused | Failure

  /** The entry after a request for placement, and whether an acquire call is made. */
  function Ensured(w: Option<Writer>, seen: nat): (Writer, bool) {
    match w
    case None => (Writer(seen, Pending), true)
    case Some(Writer(expected, Broken)) => (Writer(expected, Pending), true)
    case Some(known) => (known, false)
  }

  function Completed(w: Writer, reply: Reply): Writer {
    if !w.status.Pending? then w
    else match reply
      case Term(t) => w.(status := Placed(t))
      case Refused => w.(status := Fenced)
      case Failure => w.(status := Broken)
  }

  datatype Decision = CallAcquire(expected: nat) | Wait | Use(term: nat) | Recheck(term: nat) | GiveUp | AtCapacity

  /** In this deployment, process `i` knows this much about the Session. */
  predicate Shows(s: System, i: nat, entry: Option<Writer>) {
    i < |s.processes| && s.processes[i].entry == entry
  }

  /** The table of one process, under its mutex. */
  class RelayProcess {
    const relayEpoch: string
    const maxRooms: nat
    var mediaWriters: map<string, Writer>

    constructor (epoch: string, maxRooms: nat)
      ensures relayEpoch == epoch && this.maxRooms == maxRooms && mediaWriters == map[]
    {
      relayEpoch, this.maxRooms, mediaWriters := epoch, maxRooms, map[];
    }

    /** What is known locally about a Session. */
    function Known(id: string): Option<Writer>
      reads this
    {
      if id in mediaWriters then Some(mediaWriters[id]) else None
    }

    /** A known Session keeps the term it was first seen with; only an unknown one can be
        turned away for lack of room. */
    method EnsureMediaWriter(id: string, metadata: Metadata) returns (d: Decision)
      modifies this
      ensures d.AtCapacity? <==> old(Known(id)).None? && |old(mediaWriters)| >= maxRooms
      ensures d.AtCapacity? ==> mediaWriters == old(mediaWriters)
      ensures !d.AtCapacity? ==>
        var (w, calls) := Ensured(old(Known(id)), metadata.mediaTerm);
        && mediaWriters == old(mediaWriters)[id := w]
        && (d.CallAcquire? <==> calls) && (calls ==> d.expected == w.expected)
        && (d.Wait? <==> !calls && w.status.Pending?)
        && (d.GiveUp? <==> w.status.Fenced?)
        && (d.Use? <==> w.status.Placed? && metadata == Metadata(w.status.term, relayEpoch))
        && (d.Use? || d.Recheck? ==> w.status.Placed? && d.term == w.status.term)
      ensures !d.AtCapacity? ==> forall s: System, i: nat ::
                Shows(s, i, old(Known(id))) && s.processes[i].seen == Some(metadata) ==> Shows(StepEnsure(s, i), i, Known(id))
      ensures !d.AtCapacity? ==> forall s: System, i: nat ::
                Shows(s, i, old(Known(id))) && s.processes[i].seen == Some(metadata) ==>
                StepEnsure(s, i).requests == if d.CallAcquire? then s.requests + {Request(i, d.expected)} else s.requests
    {
      if id !in mediaWriters {
        if |mediaWriters| >= maxRooms {
          return AtCapacity;
        }
        mediaWriters := mediaWriters[id := Writer(metadata.mediaTerm, Pending)];
        return CallAcquire(metadata.mediaTerm);
      }
      var w := mediaWriters[id];
      match w.status {
        case Broken =>
          mediaWriters := mediaWriters[id := Writer(w.expected, Pending)];
          d := CallAcquire(w.expected);
        case Pending => d := Wait;
        case Fenced => d := GiveUp;
        case Placed(term) =>
          d := if metadata.mediaTerm != term || metadata.relayEpoch != relayEpoch then Recheck(term) else Use(term);
      }
    }

    /** Fills a pending entry with the outcome of its acquire call, exactly as the reply moves
        this process in the deployment. */
    method Complete(id: string, reply: Reply)
      modifies this
      ensures forall other :: other != id ==> Known(other) == old(Known(other))
      ensures forall s: System, i: nat :: Shows(s, i, old(Known(id))) ==> Shows(StepReply(s, i, reply), i, Known(id))
    {
      if id !in mediaWriters || !mediaWriters[id].status.Pending? {
        return;
      }
      var w := mediaWriters[id];
      match reply {
        case Term(t) => w := w.(status := Placed(t));
        case Refused => w := w.(status := Fenced);
        case Failure => w := w.(status := Broken);
      }
      mediaWriters := mediaWriters[id := w];
    }

    /** After a push: a fence drops the live Session but keeps the tombstone; only authoritative
        absence releases the entry, exactly as reading the metadata of a deleted Session does. */
    method AfterPush(id: string, error: Option<Error>) returns (dropSession: bool)
      modifies this
      ensures forall other :: other != id ==> Known(other) == old(Known(other))
      ensures dropSession <==> error == Some(NotFound) || error == Some(WriterFenced)
      ensures error != Some(NotFound) ==> Known(id) == old(Known(id))
      ensures error == Some(NotFound) ==> forall s: System, i: nat ::
                s.record.None? && i < |s.processes| ==> Shows(StepMetadata(s, i), i, Known(id))
    {
      dropSession := error == Some(NotFound) || error == Some(WriterFenced);
      if error == Some(NotFound) {
        mediaWriters := mediaWriters - {id};
      }
    }

    /** The term under which this process may send observations: exactly those snapshots of its
        own epoch that carry it leave the process in the deployment. */
    method MediaWriterTerm(id: string) returns (term: Option<nat>)
      ensures forall s: System, i: nat, x: Snapshot :: Shows(s, i, Known(id)) && x !in s.observations ==>
                (x in StepSend(s, i, x).observations <==> term == Some(x.writerTerm) && x.relayEpoch == s.processes[i].epoch)
    {
      if id in mediaWriters && mediaWriters[id].status.Placed? {
        return Some(mediaWriters[id].status.term);
      }
      return None;
    }
  }

  // ------------------------------------------------------- the whole deployment

  datatype Process = Process(epoch: string, entry: Option<Writer>, seen: Option<Metadata>)
  datatype Request = Request(process: nat, expected: nat)
  datatype Answer = Answer(process: nat, reply: Reply)
  datatype Grant = Grant(term: nat, epoch: string)

  /** `grants` and `accepted` are history: every term ever handed out, and the terms of
      every observation that replaced the stored one. Messages are never removed from the
      network, so each may be lost, delayed or repeated. */
  datatype System = System(
    record: Option<Record>,
    processes: seq<Process>,
    requests: set<Request>,
    answers: set<Answer>,
    observations: set<Snapshot>,
    grants: seq<Grant>,
    accepted: seq<Grant>)

  datatype Action =
    | ReadMetadata(i: nat)
    | Ensure(i: nat)
    | Execute(request: Request, term: nat, now: int)
    | Deliver(answer: Answer)
    | TimeOut(i: nat)
    | Send(i: nat, snapshot: Snapshot)
    | Observe(snapshot: Snapshot, term: nat, now: int)
    | Maintain(op: Operation)
    | Delete

  function WithProcess(s: System, i: nat, p: Process): System {
    if i < |s.processes| then s.(processes := s.processes[i := p]) else s
  }

  function StepMetadata(s: System, i: nat): System {
    if i >= |s.processes| then s
    else if s.record.None? then WithProcess(s, i, s.processes[i].(entry := None, seen := None))
    else
      var r := s.record.value;
      WithProcess(s, i, s.processes[i].(seen := Some(Metadata(r.mediaTerm, r.relay.relayEpoch))))
  }

  function StepEnsure(s: System, i: nat): System {
    if i >= |s.processes| || s.processes[i].seen.None? then s else
    var (w, calls) := Ensured(s.processes[i].entry, s.processes[i].seen.value.mediaTerm);
    WithProcess(s, i, s.processes[i].(entry := Some(w)))
      .(requests := if calls then s.requests + {Request(i, w.expected)} else s.requests)
  }

  function StepExecute(s: System, q: Request, term: nat, now: int): System {
    if q !in s.requests || q.process >= |s.processes| then s
    else if s.record.None? then s.(answers := s.answers + {Answer(q.process, Failure)})
    else
      var epoch := s.processes[q.process].epoch;
      match Acquired(s.record.value, epoch, q.expected, term, now)
      case Err(_) => s.(answers := s.answers + {Answer(q.process, Refused)})
      case Ok((r, t)) =>
        s.(record := Some(r), answers := s.answers + {Answer(q.process, Term(t))},
           grants := if r.mediaTerm != s.record.value.mediaTerm then s.grants + [Grant(t, epoch)] else s.grants)
  }

  function StepReply(s: System, i: nat, reply: Reply): System {
    if i >= |s.processes| || s.processes[i].entry.None? then s
    else WithProcess(s, i, s.processes[i].(entry := Some(Completed(s.processes[i].entry.value, reply))))
  }

  function StepSend(s: System, i: nat, x: Snapshot): System {
    if i < |s.processes| && s.processes[i].entry.Some? && s.processes[i].entry.value.status == Placed(x.writerTerm)
       && x.relayEpoch == s.processes[i].epoch
    then s.(observations := s.observations + {x}) else s
  }

  function StepObserve(s: System, x: Snapshot, term: nat, now: int, limits: Limits): System {
    if x !in s.observations || s.record.None? || !Valid(x) then s
    else match Applied(s.record.value, Normalize(x), term, now, limits)
      case Err(_) => s
      case Ok((r, _)) =>
        if x.revision < s.record.value.relay.revision then s
        else s.(record := Some(r), accepted := s.accepted + [Grant(x.writerTerm, x.relayEpoch)])
  }

  function StepMaintain(s: System, op: Operation, limits: Limits): System {
    if s.record.None? || op.Acquire? || op.Apply? then s
    else s.(record := Some(SessionRecords.Step(s.record.value, op, limits)))
  }

  function Next(s: System, a: Action, limits: Limits): System {
    match a
    case ReadMetadata(i) => StepMetadata(s, i)
    case Ensure(i) => StepEnsure(s, i)
    case Execute(q, term, now) => StepExecute(s, q, term, now)
    case Deliver(answer) => if answer in s.answers then StepReply(s, answer.process, answer.reply) else s
    case TimeOut(i) => StepReply(s, i, Failure)
    case Send(i, x) => StepSend(s, i, x)
    case Observe(x, term, now) => StepObserve(s, x, term, now, limits)
    case Maintain(op) => StepMaintain(s, op, limits)
    case Delete => s.(record := None)
  }

  ghost predicate Initial(s: System) {
    && s.record.Some? && s.record.value.mediaTerm == 0
    && (forall i :: 0 <= i < |s.processes| ==> s.processes[i].entry.None? && s.processes[i].seen.None?)
    && (forall i, j :: 0 <= i < j < |s.processes| ==> s.processes[i].epoch != s.processes[j].epoch)
    && s.requests == {} && s.answers == {} && s.observations == {} && s.grants == [] && s.accepted == []
  }

  ghost predicate IsRun(run: seq<System>, actions: seq<Action>, limits: Limits) {
    && |run| == |actions| + 1 && Initial(run[0])
    && forall i :: 0 <= i < |actions| ==> run[i + 1] == Next(run[i], actions[i], limits)
  }

  // ------------------------------------------------------------------ invariant

  /** Every call a process has in flight repeats the one term its entry remembers, and a
      process that obtained a term obtained exactly the successor of that one. */
  predicate Faithful(s: System) {
    && (forall i, j :: 0 <= i < j < |s.processes| ==> s.processes[i].epoch != s.processes[j].epoch)
    && (forall k :: 0 <= k < |s.grants| ==> s.grants[k].term == k + 1)
    && (s.record.Some? ==>
          && s.record.value.mediaTerm == |s.grants|
          && (s.grants != [] ==> s.record.value.relay.relayEpoch == s.grants[|s.grants| - 1].epoch)
          && (forall q :: q in s.requests && q.process < |s.processes| ==> Remembers(s, q))
          && (forall k :: 0 <= k < |s.grants| ==> Granted(s, k)))
  }

  /** The caller's entry holds the term that call `q` repeats. */
  predicate Remembers(s: System, q: Request) {
    && q.process < |s.processes| && s.processes[q.process].entry.Some?
    && s.processes[q.process].entry.value.expected == q.expected
  }

  predicate SamePlacement(r: Record, r': Record) {
    r'.mediaTerm == r.mediaTerm && r'.relay.relayEpoch == r.relay.relayEpoch
  }

  /** Grant `k` went to the process whose entry says it started from term `k`. */
  predicate Granted(s: System, k: nat)
    requires k < |s.grants|
  {
    exists i :: 0 <= i < |s.processes| && s.processes[i].epoch == s.grants[k].epoch
             && s.processes[i].entry.Some? && s.processes[i].entry.value.expected == k
  }

  /** No epoch was granted two terms. */
  predicate EpochsOnce(s: System) {
    forall j, k :: 0 <= j < k < |s.grants| ==> s.grants[j].epoch != s.grants[k].epoch
  }

  /** Terms named in answers, tables and observations really were granted to that epoch. */
  predicate Truthful(s: System) {
    && (forall a :: a in s.answers && a.process < |s.processes| && a.reply.Term? ==>
          WasGranted(s, a.reply.term, s.processes[a.process].epoch))
    && (forall i :: 0 <= i < |s.processes| && s.processes[i].entry.Some? && s.processes[i].entry.value.status.Placed? ==>
          WasGranted(s, s.processes[i].entry.value.status.term, s.processes[i].epoch))
    && (forall k :: 0 <= k < |s.accepted| ==> WasGranted(s, s.accepted[k].term, s.accepted[k].epoch))
    && (forall j, k :: 0 <= j < k < |s.accepted| ==> s.accepted[j].term <= s.accepted[k].term)
  }

  predicate WasGranted(s: System, term: nat, epoch: string) {
    1 <= term <= |s.grants| && s.grants[term - 1].epoch == epoch
  }

  ghost predicate Inv(s: System) {
    Faithful(s) && EpochsOnce(s) && Truthful(s)
  }

  /** `t` has the same processes with the same remembered terms, possibly some new ones. */
  predicate SameMemory(s: System, t: System) {
    && |t.processes| == |s.processes|
    && forall j :: 0 <= j < |s.processes| ==>
         && t.processes[j].epoch == s.processes[j].epoch
         && (s.processes[j].entry.Some? ==>
               t.processes[j].entry.Some? && t.processes[j].entry.value.expected == s.processes[j].entry.value.expected)
  }

  lemma GrantedKept(s: System, t: System, k: nat)
    requires SameMemory(s, t) && k < |s.grants| && s.grants <= t.grants && Granted(s, k)
    ensures Granted(t, k)
  {
  }

  lemma AllGrantedKept(s: System, t: System)
    requires SameMemory(s, t) && s.grants <= t.grants
    requires forall k :: 0 <= k < |s.grants| ==> Granted(s, k)
    ensures forall k :: 0 <= k < |s.grants| ==> Granted(t, k)
  {
    forall k | 0 <= k < |s.grants| ensures Granted(t, k) {
      GrantedKept(s, t, k);
    }
  }

  /** One process, one remembered term: so one epoch, one grant. */
  lemma GrantsAreOnce(s: System)
    requires forall i, j :: 0 <= i < j < |s.processes| ==> s.processes[i].epoch != s.processes[j].epoch
    requires forall k :: 0 <= k < |s.grants| ==> Granted(s, k)
    ensures EpochsOnce(s)
  {
    forall j, k | 0 <= j < k < |s.grants| ensures s.grants[j].epoch != s.grants[k].epoch {
      assert Granted(s, j) && Granted(s, k);
    }
  }

  lemma FaithfulLocal(s: System, t: System)
    requires Faithful(s) && SameMemory(s, t) && t.record == s.record && t.grants == s.grants
    requires forall q :: q in t.requests ==> q in s.requests || Remembers(t, q)
    ensures Faithful(t)
  {
    if s.record.Some? { AllGrantedKept(s, t); }
  }

  lemma FaithfulRecord(s: System, t: System)
    requires Faithful(s) && t.processes == s.processes && t.grants == s.grants && t.requests == s.requests
    requires t.record.Some? ==> s.record.Some? && SamePlacement(s.record.value, t.record.value)
    ensures Faithful(t)
  {
    if t.record.Some? { AllGrantedKept(s, t); }
  }

  lemma FaithfulExecute(s: System, q: Request, term: nat, now: int)
    requires Faithful(s) && EpochsOnce(s)
    ensures var t := StepExecute(s, q, term, now); Faithful(t) && EpochsOnce(t)
  {
    var t := StepExecute(s, q, term, now);
    if t.grants == s.grants {
      FaithfulRecord(s, t);
    } else {
      AllGrantedKept(s, t);
      var k := |s.grants|;
      assert Granted(t, k) by {
        assert s.processes[q.process].entry.value.expected == k;
        assert t.processes[q.process].epoch == t.grants[k].epoch;
      }
      GrantsAreOnce(t);
    }
  }

  lemma FaithfulEnsure(s: System, i: nat)
    requires Faithful(s)
    ensures Faithful(StepEnsure(s, i))
  {
    FaithfulLocal(s, StepEnsure(s, i));
  }

  lemma FaithfulReply(s: System, i: nat, reply: Reply)
    requires Faithful(s)
    ensures Faithful(StepReply(s, i, reply))
  {
    FaithfulLocal(s, StepReply(s, i, reply));
  }

  lemma FaithfulMetadata(s: System, i: nat)
    requires Faithful(s)
    ensures Faithful(StepMetadata(s, i))
  {
    if s.record.Some? { FaithfulLocal(s, StepMetadata(s, i)); }
  }

  lemma FaithfulObserve(s: System, x: Snapshot, term: nat, now: int, limits: Limits)
    requires Faithful(s)
    ensures Faithful(StepObserve(s, x, term, now, limits))
  {
    FaithfulRecord(s, StepObserve(s, x, term, now, limits));
  }

  lemma FaithfulMaintain(s: System, op: Operation, limits: Limits)
    requires Faithful(s)
    ensures Faithful(StepMaintain(s, op, limits))
  {
    FaithfulRecord(s, StepMaintain(s, op, limits));
  }

  lemma FaithfulStep(s: System, a: Action, limits: Limits)
    requires Faithful(s) && EpochsOnce(s)
    ensures var t := Next(s, a, limits); Faithful(t) && EpochsOnce(t)
  {
    match a {
      case Execute(q, term, now) => FaithfulExecute(s, q, term, now);
      case ReadMetadata(i) => FaithfulMetadata(s, i);
      case Ensure(i) => FaithfulEnsure(s, i);
      case Deliver(answer) => FaithfulReply(s, answer.process, answer.reply);
      case TimeOut(i) => FaithfulReply(s, i, Failure);
      case Observe(x, term, now) => FaithfulObserve(s, x, term, now, limits);
      case Maintain(op) => FaithfulMaintain(s, op, limits);
      case Send(i, x) => FaithfulRecord(s, StepSend(s, i, x));
      case Delete =>
    }
  }

  lemma TruthfulExecute(s: System, q: Request, term: nat, now: int)
    requires Faithful(s) && Truthful(s)
    ensures Truthful(StepExecute(s, q, term, now))
  {
  }

  lemma TruthfulObserve(s: System, x: Snapshot, term: nat, now: int, limits: Limits)
    requires Faithful(s) && Truthful(s)
    ensures Truthful(StepObserve(s, x, term, now, limits))
  {
  }

  lemma TruthfulReply(s: System, i: nat, reply: Reply)
    requires Truthful(s)
    requires reply.Term? && i < |s.processes| ==> WasGranted(s, reply.term, s.processes[i].epoch)
    ensures Truthful(StepReply(s, i, reply))
  {
  }

  lemma TruthfulEnsure(s: System, i: nat)
    requires Truthful(s)
    ensures Truthful(StepEnsure(s, i))
  {
  }

  lemma TruthfulStep(s: System, a: Action, limits: Limits)
    requires Faithful(s) && Truthful(s)
    ensures Truthful(Next(s, a, limits))
  {
    match a {
      case Execute(q, term, now) => TruthfulExecute(s, q, term, now);
      case Observe(x, term, now) => TruthfulObserve(s, x, term, now, limits);
      case Deliver(answer) => if answer in s.answers { TruthfulReply(s, answer.process, answer.reply); }
      case TimeOut(i) => TruthfulReply(s, i, Failure);
      case Ensure(i) => TruthfulEnsure(s, i);
      case _ =>
    }
  }

  lemma {:induction false} RunInv(run: seq<System>, actions: seq<Action>, limits: Limits, n: nat)
    requires IsRun(run, actions, limits) && n < |run|
    ensures Inv(run[n])
  {
    if n > 0 {
      RunInv(run, actions, limits, n - 1);
      FaithfulStep(run[n - 1], actions[n - 1], limits);
      TruthfulStep(run[n - 1], actions[n - 1], limits);
    }
  }

  // ------------------------------------------------------------------- theorems

  lemma {:induction false} GrantsOnlyGrow(run: seq<System>, actions: seq<Action>, limits: Limits, i: nat, j: nat)
    requires IsRun(run, actions, limits) && i <= j < |run|
    ensures run[i].grants <= run[j].grants
    ensures run[j].record.Some? ==> run[i].record.Some?
    decreases j
  {
    if i < j {
      GrantsOnlyGrow(run, actions, limits, i, j - 1);
    }
  }

  /** Over any run with lost, delayed and repeated messages: while the Session lives its
      media term only grows, every term belongs to one epoch, and every epoch to one term. */
  lemma TermsAndEpochsMatch(run: seq<System>, actions: seq<Action>, limits: Limits, i: nat, j: nat)
    requires IsRun(run, actions, limits) && i <= j < |run| && run[j].record.Some?
    ensures run[i].record.Some? && run[i].record.value.mediaTerm <= run[j].record.value.mediaTerm
    ensures forall k :: 0 <= k < |run[j].grants| ==> run[j].grants[k].term == k + 1
    ensures EpochsOnce(run[j])
  {
    GrantsOnlyGrow(run, actions, limits, i, j);
    RunInv(run, actions, limits, i);
    RunInv(run, actions, limits, j);
  }

  /** A process that believes it is placed was placed with that term. */
  lemma PlacedWasGranted(run: seq<System>, actions: seq<Action>, limits: Limits, n: nat, i: nat)
    requires IsRun(run, actions, limits) && n < |run| && i < |run[n].processes|
    requires run[n].processes[i].entry.Some? && run[n].processes[i].entry.value.status.Placed?
    ensures WasGranted(run[n], run[n].processes[i].entry.value.status.term, run[n].processes[i].epoch)
  {
    RunInv(run, actions, limits, n);
  }

  /** `epoch` held the placement once and somebody else holds it now. */
  predicate Displaced(s: System, epoch: string) {
    exists k :: 0 <= k < |s.grants| - 1 && s.grants[k].epoch == epoch
  }

  lemma DisplacedIsNotCurrent(s: System, epoch: string)
    requires Inv(s) && s.record.Some? && Displaced(s, epoch)
    ensures s.record.value.relay.relayEpoch != epoch
  {
  }

  /** A displaced process stays displaced: no call of its own gets the placement back, and
      no snapshot that names its epoch ever replaces the stored observation again. */
  lemma DisplacedForGood(run: seq<System>, actions: seq<Action>, limits: Limits, i: nat, j: nat, epoch: string,
                         s: Snapshot, term: nat, now: int)
    requires IsRun(run, actions, limits) && i <= j < |run| && Displaced(run[i], epoch) && run[j].record.Some?
    requires s.relayEpoch == epoch
    ensures Displaced(run[j], epoch)
    ensures run[j].record.value.relay.relayEpoch != epoch
    ensures Applied(run[j].record.value, s, term, now, limits) == Err(WriterFenced)
  {
    GrantsOnlyGrow(run, actions, limits, i, j);
    RunInv(run, actions, limits, j);
    var k :| 0 <= k < |run[i].grants| - 1 && run[i].grants[k].epoch == epoch;
    assert run[j].grants[k].epoch == epoch;
    DisplacedIsNotCurrent(run[j], epoch);
  }

  /** The observations that were ever stored come from granted placements, in term order. */
  lemma ObservationsInTermOrder(run: seq<System>, actions: seq<Action>, limits: Limits, n: nat, j: nat, k: nat)
    requires IsRun(run, actions, limits) && n < |run| && j <= k < |run[n].accepted|
    ensures run[n].accepted[j].term <= run[n].accepted[k].term
    ensures WasGranted(run[n], run[n].accepted[k].term, run[n].accepted[k].epoch)
  {
    RunInv(run, actions, limits, n);
  }

  // ------------------------------------------------------- placements are granted

  /** What executing an acquire call does: the holder of the current term gets it again, whoever
      repeats the current term gets the next one and the record, and everybody else is refused. */
  predicate ExecutedAs(s: System, t: System, q: Request)
    requires q.process < |s.processes| && s.record.Some?
  {
    var r, epoch := s.record.value, s.processes[q.process].epoch;
    if r.relay.relayEpoch == epoch && r.mediaTerm != 0 then
      Answer(q.process, Term(r.mediaTerm)) in t.answers && t.record == s.record && t.grants == s.grants
    else if q.expected == r.mediaTerm then
      && Answer(q.process, Term(r.mediaTerm + 1)) in t.answers && t.grants == s.grants + [Grant(r.mediaTerm + 1, epoch)]
      && t.record.Some? && t.record.value.mediaTerm == r.mediaTerm + 1 && t.record.value.relay.relayEpoch == epoch
    else
      Answer(q.process, Refused) in t.answers && t.record == s.record && t.grants == s.grants
  }

  lemma ExecuteAnswers(run: seq<System>, actions: seq<Action>, limits: Limits, n: nat, q: Request)
    requires IsRun(run, actions, limits) && n < |actions| && actions[n].Execute? && actions[n].request == q
    requires q in run[n].requests && q.process < |run[n].processes| && run[n].record.Some?
    ensures ExecutedAs(run[n], run[n + 1], q)
  {
    assert run[n + 1] == Next(run[n], actions[n], limits);
  }

  predicate NetworkGrows(s: System, t: System) {
    && s.requests <= t.requests && s.answers <= t.answers && |s.processes| == |t.processes|
    && forall i :: 0 <= i < |s.processes| ==> s.processes[i].epoch == t.processes[i].epoch
  }

  lemma NetworkGrowsStep(s: System, a: Action, limits: Limits)
    ensures NetworkGrows(s, Next(s, a, limits))
  {
  }

  lemma {:induction false} NetworkOnlyGrows(run: seq<System>, actions: seq<Action>, limits: Limits, i: nat, j: nat)
    requires IsRun(run, actions, limits) && i <= j < |run|
    ensures NetworkGrows(run[i], run[j])
    decreases j
  {
    if i < j {
      NetworkOnlyGrows(run, actions, limits, i, j - 1);
      NetworkGrowsStep(run[j - 1], actions[j - 1], limits);
    }
  }

  /** A process that knows nothing yet holds no grant. */
  lemma UnknownHoldsNothing(s: System, i: nat)
    requires Faithful(s) && s.record.Some? && i < |s.processes| && s.processes[i].entry.None?
    ensures s.record.value.mediaTerm == 0 || s.grants[|s.grants| - 1].epoch != s.processes[i].epoch
  {
    if s.grants != [] {
      assert Granted(s, |s.grants| - 1);
    }
  }

  /** Placement works: a process that asks for the term it read, while that is still the current
      one, is granted the next term, and the record names its epoch. */
  lemma CurrentRequestIsGranted(run: seq<System>, actions: seq<Action>, limits: Limits, i: nat, a: nat, b: nat)
    requires IsRun(run, actions, limits) && a < b < |actions| && i < |run[a].processes|
    requires actions[a] == Ensure(i) && run[a].processes[i].entry.None? && run[a].processes[i].seen.Some?
    requires run[b].record.Some? && run[b].grants == run[a].grants
    requires run[a].processes[i].seen.value.mediaTerm == |run[a].grants|
    requires actions[b].Execute? && actions[b].request == Request(i, |run[a].grants|)
    ensures var term, epoch := |run[a].grants| + 1, run[a].processes[i].epoch;
      && Answer(i, Term(term)) in run[b + 1].answers && run[b + 1].grants == run[b].grants + [Grant(term, epoch)]
      && run[b + 1].record.Some? && run[b + 1].record.value.mediaTerm == term && run[b + 1].record.value.relay.relayEpoch == epoch
  {
    RunInv(run, actions, limits, a);
    RunInv(run, actions, limits, b);
    GrantsOnlyGrow(run, actions, limits, a, b);
    UnknownHoldsNothing(run[a], i);
    assert run[a + 1] == Next(run[a], actions[a], limits);
    NetworkOnlyGrows(run, actions, limits, a, a + 1);
    NetworkOnlyGrows(run, actions, limits, a + 1, b);
    ExecuteAnswers(run, actions, limits, b, Request(i, |run[a].grants|));
  }

  /** A process whose acquisition failed asks again for the term it first saw; and if its earlier
      call did take the placement, asking again returns that placement's term. */
  lemma RetryGetsSameTerm(run: seq<System>, actions: seq<Action>, limits: Limits, n: nat, i: nat)
    requires IsRun(run, actions, limits) && n < |actions| && i < |run[n].processes|
    ensures actions[n] == Ensure(i) && run[n].processes[i].seen.Some? && run[n].processes[i].entry.Some?
            && run[n].processes[i].entry.value.status.Broken? ==>
      var w := run[n].processes[i].entry.value;
      i < |run[n + 1].processes| && run[n + 1].processes[i].entry == Some(Writer(w.expected, Pending))
      && Request(i, w.expected) in run[n + 1].requests
    ensures actions[n].Execute? && actions[n].request.process == i && actions[n].request in run[n].requests
            && run[n].record.Some? && run[n].grants != [] && run[n].grants[|run[n].grants| - 1].epoch == run[n].processes[i].epoch ==>
      Answer(i, Term(|run[n].grants|)) in run[n + 1].answers && run[n + 1].grants == run[n].grants
  {
    RunInv(run, actions, limits, n);
    assert run[n + 1] == Next(run[n], actions[n], limits);
    if actions[n].Execute? && actions[n].request.process == i && actions[n].request in run[n].requests && run[n].record.Some? {
      ExecuteAnswers(run, actions, limits, n, actions[n].request);
    }
  }

  /** Reading the metadata of a Session shows its current term and epoch. */
  lemma MetadataIsCurrent(run: seq<System>, actions: seq<Action>, limits: Limits, n: nat, i: nat)
    requires IsRun(run, actions, limits) && n < |actions| && actions[n] == ReadMetadata(i) && i < |run[n].processes|
    ensures i < |run[n + 1].processes|
    ensures run[n].record.Some? ==>
      && run[n + 1].processes[i].seen.Some? && run[n + 1].processes[i].seen.value.mediaTerm == |run[n].grants|
      && run[n + 1].processes[i].seen.value.relayEpoch == run[n].record.value.relay.relayEpoch
      && run[n + 1].processes[i].entry == run[n].processes[i].entry
    ensures run[n].record.None? ==> run[n + 1].processes[i].entry.None?
  {
    RunInv(run, actions, limits, n);
    assert run[n + 1] == Next(run[n], actions[n], limits);
  }

  /** The reply that reaches a process still waiting is what it goes by from then on. */
  lemma ReplyIsBelieved(run: seq<System>, actions: seq<Action>, limits: Limits, n: nat, i: nat, reply: Reply)
    requires IsRun(run, actions, limits) && n < |actions| && i < |run[n].processes|
    requires actions[n] == Deliver(Answer(i, reply)) && Answer(i, reply) in run[n].answers
    requires run[n].processes[i].entry.Some? && run[n].processes[i].entry.value.status.Pending?
    ensures i < |run[n + 1].processes| && run[n + 1].processes[i].entry.Some?
    ensures run[n + 1].processes[i].entry.value.expected == run[n].processes[i].entry.value.expected
    ensures var status := run[n + 1].processes[i].entry.value.status;
      match reply
      case Term(t) => status == Placed(t)
      case Refused => status == Fenced
      case Failure => status == Broken
  {
    assert run[n + 1] == Next(run[n], actions[n], limits);
  }

  /** A snapshot that has been sent replaces the stored observation if and only if it carries the
      current term and epoch, is not older, and names only required buses. */
  lemma ObservedIff(run: seq<System>, actions: seq<Action>, limits: Limits, n: nat, x: Snapshot)
    requires IsRun(run, actions, limits) && n < |actions| && actions[n].Observe? && actions[n].snapshot == x
    requires x in run[n].observations && Valid(x) && run[n].record.Some?
    ensures var r := run[n].record.value;
      var stored := && x.writerTerm == r.mediaTerm != 0 && x.relayEpoch == r.relay.relayEpoch && x.revision >= r.relay.revision
                    && forall b :: b in x.buses ==> b.busId in r.requiredBuses;
      && run[n + 1].accepted == (if stored then run[n].accepted + [Grant(x.writerTerm, x.relayEpoch)] else run[n].accepted)
      && (stored ==> run[n + 1].record.Some? && Stores(r, x, run[n + 1].record.value, actions[n].term, actions[n].now, limits))
      && (!stored ==> run[n + 1].record == run[n].record)
  {
    assert run[n + 1] == Next(run[n], actions[n], limits);
    ObservationStoredIff(run[n].record.value, x, actions[n].term, actions[n].now, limits);
  }

  /** A snapshot leaves a process exactly if the process is placed, under its term and epoch. */
  lemma SentIff(run: seq<System>, actions: seq<Action>, limits: Limits, n: nat, i: nat, x: Snapshot)
    requires IsRun(run, actions, limits) && n < |actions| && actions[n] == Send(i, x)
    requires i < |run[n].processes| && x !in run[n].observations
    ensures x in run[n + 1].observations <==>
      && run[n].processes[i].entry.Some? && run[n].processes[i].entry.value.status == Placed(x.writerTerm)
      && x.relayEpoch == run[n].processes[i].epoch
  {
    assert run[n + 1] == Next(run[n], actions[n], limits);
  }

  /** Giving up waiting breaks a pending acquisition and nothing else; a deleted Session is gone;
      and maintenance rewrites the record as the record's own operation does. */
  lemma OtherStepsMean(run: seq<System>, actions: seq<Action>, limits: Limits, n: nat)
    requires IsRun(run, actions, limits) && n < |actions|
    ensures actions[n].TimeOut? && actions[n].i < |run[n].processes| && run[n].processes[actions[n].i].entry.Some?
            && run[n].processes[actions[n].i].entry.value.status.Pending? ==>
      var i, w := actions[n].i, run[n].processes[actions[n].i].entry.value;
      i < |run[n + 1].processes| && run[n + 1].processes[i].entry == Some(Writer(w.expected, Broken))
    ensures actions[n].Delete? ==> run[n + 1].record.None?
    ensures actions[n].Maintain? && run[n].record.Some? && !actions[n].op.Acquire? && !actions[n].op.Apply? ==>
      run[n + 1].record == Some(SessionRecords.Step(run[n].record.value, actions[n].op, limits))
  {
    assert run[n + 1] == Next(run[n], actions[n], limits);
  }
}
