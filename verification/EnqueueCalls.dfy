/** What becomes of every call and every packet of the slot pool: each call meets exactly one
    fate, packets leave the queue in the order they entered it, and nobody gets stuck. */
module EnqueueCalls {
  import opened Collections
  import opened PacketPool

  /** `run` lists the states around each of `actions`. */
  ghost predicate IsRun(run: seq<State>, actions: seq<Action>) {
    && |run| == |actions| + 1 && run[0] == Initial()
    && forall k {:trigger actions[k]} :: 0 <= k < |actions| ==> run[k + 1] == Step(run[k], actions[k])
  }

  /** These are exactly the states of the pool's interleavings. */
  lemma {:induction false} IsRunOf(run: seq<State>, actions: seq<Action>, n: nat)
    requires IsRun(run, actions) && n <= |actions|
    ensures run[n] == Run(actions[..n])
  {
    if n > 0 {
      IsRunOf(run, actions, n - 1);
      assert actions[..n][..n - 1] == actions[..n - 1] && actions[..n][n - 1] == actions[n - 1];
    }
  }

  lemma InvAt(run: seq<State>, actions: seq<Action>, n: nat)
    requires IsRun(run, actions) && n <= |actions|
    ensures Inv(run[n])
  {
    IsRunOf(run, actions, n);
    RunInv(actions[..n]);
  }

  // ------------------------------------------------------------------- fates

  datatype Fate = GateClosed | OutOfBounds | NoSlot | QueueFull | Queued

  /** The fate that call `i` meets in this step, if any: the gate is closed when it loads the
      admission word, its packet is out of bounds, its scan has passed every slot, or it tries
      to queue its packet. */
  function FateAt(s: State, a: Action, i: nat): Option<Fate> {
    if !a.Enqueue? || a.i != i || i >= |s.producers| then None else
    match (a.produce, s.producers[i].progress)
    case (Load, Calling) => if s.gate.closed then Some(GateClosed) else None
    case (RejectBounds, Admitted) => Some(OutOfBounds)
    case (TrySlot, Scanning(_, offset, _)) => if offset == POOL_SLOTS then Some(NoSlot) else None
    case (Push, Filled(_)) => if |s.queue| < QUEUE_CAPACITY then Some(Queued) else Some(QueueFull)
    case _ => None
  }

  /** The fates of call `i` in the first `n` steps. */
  function Fates(run: seq<State>, actions: seq<Action>, i: nat, n: nat): seq<Fate>
    requires n <= |actions| < |run|
  {
    if n == 0 then [] else Fates(run, actions, i, n - 1) + Listed(FateAt(run[n - 1], actions[n - 1], i))
  }

  /** The fates a call at this point of its way can have met. */
  predicate Fitting(fates: seq<Fate>, s: State, i: nat) {
    if i >= |s.producers| then fates == [] else
    match s.producers[i].progress
    case Pushed => fates == [Queued]
    case Dropping(_) => fates == [QueueFull]
    case Leaving => |fates| == 1 && fates[0] != GateClosed
    case Returned => |fates| == 1
    case _ => fates == []
  }

  ghost predicate FitsOn(s: State, a: Action, t: State, i: nat) {
    forall fates :: Fitting(fates, s, i) ==> Fitting(fates + Listed(FateAt(s, a, i)), t, i)
  }

  lemma WorkerLeavesCalls(s: State, m: WorkerMove)
    ensures WorkerStep(s, m).producers == s.producers
  {
  }

  /** A call that does not move, or is only just made, meets no fate. */
  lemma FitsOnOthers(s: State, a: Action, t: State, i: nat)
    requires !(a.Enqueue? && a.i == i)
    requires if i < |s.producers| then i < |t.producers| && t.producers[i] == s.producers[i]
             else i < |t.producers| ==> t.producers[i].progress.Calling?
    ensures FitsOn(s, a, t, i)
  {
    assert forall fates: seq<Fate> :: fates + [] == fates;
  }

  lemma FitsOnOwn(s: State, m: ProducerMove, i: nat, fates: seq<Fate>)
    requires Fitting(fates, s, i)
    ensures Fitting(fates + Listed(FateAt(s, Enqueue(i, m), i)), Produce(s, i, m), i)
  {
    assert fates + [] == fates;
  }

  lemma FitsOnStep(s: State, a: Action, i: nat)
    ensures FitsOn(s, a, Step(s, a), i)
  {
    if a.Enqueue? && a.i == i {
      forall fates | Fitting(fates, s, i)
        ensures Fitting(fates + Listed(FateAt(s, a, i)), Produce(s, i, a.produce), i)
      {
        FitsOnOwn(s, a.produce, i, fates);
      }
    } else {
      OthersLeaveCall(s, a, i);
      FitsOnOthers(s, a, Step(s, a), i);
    }
  }

  lemma FitsAt(run: seq<State>, actions: seq<Action>, i: nat, k: nat)
    requires IsRun(run, actions) && k < |actions|
    ensures FitsOn(run[k], actions[k], run[k + 1], i)
  {
    assert run[k + 1] == Step(run[k], actions[k]);
    FitsOnStep(run[k], actions[k], i);
  }

  lemma {:induction false} FatesFit(run: seq<State>, actions: seq<Action>, i: nat, n: nat)
    requires n <= |actions| < |run| && run[0].producers == []
    requires forall k :: 0 <= k < n ==> FitsOn(run[k], actions[k], run[k + 1], i)
    ensures Fitting(Fates(run, actions, i, n), run[n], i)
  {
    if n > 0 {
      FatesFit(run, actions, i, n - 1);
      assert FitsOn(run[n - 1], actions[n - 1], run[n - 1 + 1], i);
    }
  }

  lemma FittingAt(run: seq<State>, actions: seq<Action>, i: nat, n: nat)
    requires IsRun(run, actions) && n <= |actions|
    ensures Fitting(Fates(run, actions, i, n), run[n], i)
  {
    forall k | 0 <= k < n
      ensures FitsOn(run[k], actions[k], run[k + 1], i)
    {
      FitsAt(run, actions, i, k);
    }
    FatesFit(run, actions, i, n);
  }

  /** Every call that has returned met exactly one fate, once. Unless its packet was queued, it
      found the gate closed, its packet out of bounds, no slot, or the queue full. */
  lemma EveryCallHasOneFate(run: seq<State>, actions: seq<Action>, i: nat, n: nat)
    requires IsRun(run, actions) && n <= |actions| && i < |run[n].producers| && run[n].producers[i].progress.Returned?
    ensures |Fates(run, actions, i, n)| == 1
    ensures var fate := Fates(run, actions, i, n)[0];
      !fate.Queued? ==> fate.GateClosed? || fate.OutOfBounds? || fate.NoSlot? || fate.QueueFull?
  {
    FittingAt(run, actions, i, n);
  }

  /** A filled slot that is pushed enters the queue behind everything else if and only if the
      queue has room; otherwise the call goes on to give the slot back. */
  lemma PushQueuesIff(run: seq<State>, actions: seq<Action>, i: nat, n: nat)
    requires IsRun(run, actions) && n < |actions| && actions[n] == Enqueue(i, Push)
    requires i < |run[n].producers| && run[n].producers[i].progress.Filled?
    ensures var s, t := run[n], run[n + 1];
      var p, slot := s.producers[i], s.producers[i].progress.slot;
      && i < |t.producers| && t.producers[i].packet == p.packet
      && (t.producers[i].progress == Pushed <==> |s.queue| < QUEUE_CAPACITY)
      && (t.producers[i].progress == Dropping(slot) <==> |s.queue| == QUEUE_CAPACITY)
      && t.queue == (if |s.queue| < QUEUE_CAPACITY then s.queue + [Item(slot, p.packet)] else s.queue)
  {
    InvAt(run, actions, n);
  }

  // --------------------------------------------------------------- first in, first out

  /** The packet that enters the queue in this step, if any. */
  function EntersAt(s: State, a: Action): Option<Item> {
    if a.Enqueue? && FateAt(s, a, a.i) == Some(Queued)
    then Some(Item(s.producers[a.i].progress.slot, s.producers[a.i].packet)) else None
  }

  /** The packet that the worker or `Stop` takes out of the queue in this step, if any. */
  function TakenAt(s: State, a: Action): Option<Item> {
    if s.queue == [] then None
    else if a == Work(Receive) && s.worker.Looping? && |s.pending| <= QUEUE_CAPACITY then Some(s.queue[0])
    else if a.Halt? && s.stop.Sweeping? then Some(s.queue[0])
    else None
  }

  function Entered(run: seq<State>, actions: seq<Action>, n: nat): seq<Item>
    requires n <= |actions| < |run|
  {
    if n == 0 then [] else Entered(run, actions, n - 1) + Listed(EntersAt(run[n - 1], actions[n - 1]))
  }

  function Taken(run: seq<State>, actions: seq<Action>, n: nat): seq<Item>
    requires n <= |actions| < |run|
  {
    if n == 0 then [] else Taken(run, actions, n - 1) + Listed(TakenAt(run[n - 1], actions[n - 1]))
  }

  ghost predicate QueueGoesOn(s: State, a: Action, t: State) {
    && s.queue + Listed(EntersAt(s, a)) == Listed(TakenAt(s, a)) + t.queue
    && t.accepted == s.accepted + |Listed(EntersAt(s, a))|
  }

  lemma QueueWork(s: State, m: WorkerMove)
    ensures QueueGoesOn(s, Work(m), WorkerStep(s, m))
  {
  }

  lemma QueueProduce(s: State, i: nat, m: ProducerMove)
    ensures QueueGoesOn(s, Enqueue(i, m), Produce(s, i, m))
  {
  }

  lemma QueueStop(s: State)
    ensures QueueGoesOn(s, Halt, StopStep(s))
  {
  }

  lemma QueueStep(s: State, a: Action)
    ensures QueueGoesOn(s, a, Step(s, a))
  {
    match a
    case Call(_) =>
    case Enqueue(i, m) => QueueProduce(s, i, m);
    case Work(m) => QueueWork(s, m);
    case Halt => QueueStop(s);
  }

  lemma Regroup(taken: seq<Item>, queue: seq<Item>, entering: seq<Item>, leaving: seq<Item>, rest: seq<Item>)
    requires queue + entering == leaving + rest
    ensures (taken + queue) + entering == (taken + leaving) + rest
  {
    assert (taken + queue) + entering == taken + (queue + entering);
    assert (taken + leaving) + rest == taken + (leaving + rest);
  }

  lemma {:induction false} Fifo(run: seq<State>, actions: seq<Action>, n: nat)
    requires n <= |actions| < |run| && run[0].queue == [] && run[0].accepted == 0
    requires forall k :: 0 <= k < n ==> QueueGoesOn(run[k], actions[k], run[k + 1])
    ensures Entered(run, actions, n) == Taken(run, actions, n) + run[n].queue && run[n].accepted == |Entered(run, actions, n)|
  {
    if n > 0 {
      Fifo(run, actions, n - 1);
      var s, a := run[n - 1], actions[n - 1];
      assert QueueGoesOn(s, a, run[n - 1 + 1]);
      Regroup(Taken(run, actions, n - 1), s.queue, Listed(EntersAt(s, a)), Listed(TakenAt(s, a)), run[n].queue);
    }
  }

  /** The queue loses, repeats and reorders nothing: what ever entered it is what was taken out,
      in that order, followed by what is still in it; and `accepted` counts it. */
  lemma QueueIsFifo(run: seq<State>, actions: seq<Action>, n: nat)
    requires IsRun(run, actions) && n <= |actions|
    ensures Entered(run, actions, n) == Taken(run, actions, n) + run[n].queue
    ensures run[n].accepted == |Entered(run, actions, n)|
  {
    forall k | 0 <= k < n
      ensures QueueGoesOn(run[k], actions[k], run[k + 1])
    {
      QueueStep(run[k], actions[k]);
    }
    Fifo(run, actions, n);
  }

  // ------------------------------------------------------------------ calls come to an end

  /** A call's own next step. */
  function OwnMove(p: Progress): ProducerMove {
    match p
    case Calling => Load
    case Loaded(_) => CompareAndSwap
    case Admitted => BeginScan
    case Scanning(_, _, _) => TrySlot
    case Claimed(_) => Fill
    case Filled(_) => Push
    case Dropping(_) => DropFull
    case Pushed => CountEnqueued
    case Leaving => Leave
    case Returned => Leave
  }

  /** How many own steps a call needs at most if nobody changes the gate meanwhile. */
  function Distance(gate: Gate, p: Progress): int {
    match p
    case Returned => 0
    case Leaving => 1
    case Pushed => 2
    case Dropping(_) => 2
    case Filled(_) => 3
    case Claimed(_) => 4
    case Scanning(_, offset, _) => 5 + POOL_SLOTS - offset
    case Admitted => 6 + POOL_SLOTS
    case Loaded(seen) => if seen == gate then 7 + POOL_SLOTS else 9 + POOL_SLOTS
    case Calling => 8 + POOL_SLOTS
  }

  /** A call never waits for anybody: its own next step always brings its return nearer, and
      no step of anybody else moves it. */
  lemma CallNeverBlocks(run: seq<State>, actions: seq<Action>, i: nat, n: nat)
    requires IsRun(run, actions) && n < |actions| && i < |run[n].producers| && !run[n].producers[i].progress.Returned?
    ensures i < |run[n + 1].producers|
    ensures actions[n] == Enqueue(i, OwnMove(run[n].producers[i].progress)) ==>
      0 <= Distance(run[n + 1].gate, run[n + 1].producers[i].progress)
        < Distance(run[n].gate, run[n].producers[i].progress) <= 9 + POOL_SLOTS
    ensures !(actions[n].Enqueue? && actions[n].i == i) ==> run[n + 1].producers[i] == run[n].producers[i]
  {
    InvAt(run, actions, n);
    var s := run[n];
    if actions[n] == Enqueue(i, OwnMove(s.producers[i].progress)) {
      OwnMoveProceeds(s, i);
    } else {
      OthersLeaveCall(s, actions[n], i);
    }
  }

  lemma OwnMoveProceeds(s: State, i: nat)
    requires i < |s.producers| && !s.producers[i].progress.Returned? && ScansSound(s)
    ensures var t := Step(s, Enqueue(i, OwnMove(s.producers[i].progress)));
      && i < |t.producers|
      && 0 <= Distance(t.gate, t.producers[i].progress) < Distance(s.gate, s.producers[i].progress) <= 9 + POOL_SLOTS
  {
    if s.producers[i].progress.Scanning? {
      assert ScanSound(s.pool.Keys, s.claims, s.producers[i].progress);
    }
  }

  lemma OthersLeaveCall(s: State, a: Action, i: nat)
    ensures i < |s.producers| ==> i < |Step(s, a).producers|
    ensures i < |s.producers| && !(a.Enqueue? && a.i == i) ==> Step(s, a).producers[i] == s.producers[i]
    ensures |s.producers| <= i < |Step(s, a).producers| ==> Step(s, a).producers[i].progress.Calling?
  {
    if a.Work? { WorkerLeavesCalls(s, a.work); }
  }

  // ------------------------------------------------- the worker and Stop come to an end

  /** The worker's own next step when it is busy with something. */
  function OwnWork(s: State): WorkerMove {
    match s.worker
    case Resending(_) => EndResend
    case Writing(_) => WriteFails
    case Failed(_) => CountFailed
    case Spent(_) => ReleaseSpent
    case Evicting(_) => ReleaseEvicted
    case Counting => CountSent
    case Draining(_) => DrainOne
    case Clearing(_) => ClearOne
    case _ => SeeDone
  }

  function WorkerLeft(s: State): int {
    var rest := |s.pending| + CACHE_PACKETS;
    match s.worker
    case Finished => 0
    case Clearing(k) => 1 + CACHE_PACKETS - k
    case Draining(_) => 2 + rest
    case Looping => 3 + rest
    case Resending(_) => 4 + rest
    case Counting => 4 + rest
    case Spent(_) => 4 + rest
    case Evicting(_) => 5 + rest
    case Failed(_) => 5 + rest
    case Writing(_) => 6 + rest
  }

  function StopLeft(s: State): nat {
    var rest := 3 * |s.queue|;
    match s.stop
    case StopReturned => 0
    case Sweeping => 1 + rest
    case SweepCount => 2 + rest
    case SweepHeld(_) => 3 + rest
    case DoneClosed => 4 + rest
    case Joining => 5 + rest
    case Flagged => 6 + rest
    case Idle => 7 + rest
  }

  /** The next step on the way to the end of `Stop`. */
  function TowardsStop(s: State): Action {
    if s.stop.DoneClosed? && !s.worker.Finished? then Work(OwnWork(s)) else Halt
  }

  /** Once no call is inside, `Stop` is never stuck: in every reachable state the next step of
      `Stop` itself, or of the worker it waits for, brings its return nearer. */
  lemma StopNeverBlocks(run: seq<State>, actions: seq<Action>, n: nat)
    requires IsRun(run, actions) && n < |actions| && run[n].gate.count == 0 && !run[n].stop.StopReturned?
    requires actions[n] == TowardsStop(run[n])
    ensures 0 <= WorkerLeft(run[n + 1]) + StopLeft(run[n + 1]) < WorkerLeft(run[n]) + StopLeft(run[n])
  {
    InvAt(run, actions, n);
    TowardsStopProceeds(run[n]);
  }

  lemma TowardsStopProceeds(s: State)
    requires Bounded(s) && Phased(s) && s.gate.count == 0 && !s.stop.StopReturned?
    ensures var t := Step(s, TowardsStop(s));
      0 <= WorkerLeft(t) + StopLeft(t) < WorkerLeft(s) + StopLeft(s)
  {
  }

  /** The worker takes the oldest packet queued into its window whenever there is room. */
  lemma ReceiveTakesOldest(run: seq<State>, actions: seq<Action>, n: nat)
    requires IsRun(run, actions) && n < |actions| && actions[n] == Work(Receive)
    requires run[n].worker.Looping? && run[n].queue != [] && |run[n].pending| < WINDOW_CAPACITY
    ensures run[n + 1].pending == run[n].pending + [run[n].queue[0]] && run[n + 1].queue == run[n].queue[1..]
  {
  }

  /** A packet of the window that is popped is the one that gets written. */
  lemma PopWrites(run: seq<State>, actions: seq<Action>, n: nat, j: nat)
    requires IsRun(run, actions) && n < |actions| && actions[n] == Work(Pop(j))
    requires run[n].worker.Looping? && j < |run[n].pending|
    ensures run[n + 1].worker == Writing(run[n].pending[j])
    ensures j <= |run[n + 1].pending| && run[n].pending == run[n + 1].pending[..j] + [run[n].pending[j]] + run[n + 1].pending[j..]
  {
  }

  /** A packet that was sent replaces exactly the cache entry of its residue class. */
  lemma SentIsCached(run: seq<State>, actions: seq<Action>, n: nat, sequence: nat)
    requires IsRun(run, actions) && n < |actions| && actions[n] == Work(Store(sequence)) && run[n].worker.Writing?
    ensures |run[n].cache| == CACHE_PACKETS && run[n + 1].worker == Evicting(run[n].cache[sequence % CACHE_PACKETS])
    ensures run[n + 1].cache == run[n].cache[sequence % CACHE_PACKETS := Some(run[n].worker.item)]
  {
    InvAt(run, actions, n);
  }

  /** A retransmission borrows exactly the cache entry asked for. */
  lemma ResendBorrows(run: seq<State>, actions: seq<Action>, n: nat, k: nat)
    requires IsRun(run, actions) && n < |actions| && actions[n] == Work(StartResend(k)) && run[n].worker.Looping?
    requires k < |run[n].cache| && run[n].cache[k].Some?
    ensures run[n + 1] == run[n].(worker := Resending(run[n].cache[k].value))
  {
  }

  /** Every scan starts one slot after the scan before it, on a 32-bit counter. */
  lemma ScansRotate(run: seq<State>, actions: seq<Action>, n: nat, i: nat)
    requires IsRun(run, actions) && n < |actions| && actions[n] == Enqueue(i, BeginScan)
    requires i < |run[n].producers| && run[n].producers[i].progress.Admitted?
    ensures run[n + 1].scanHint == (run[n].scanHint + 1) % 0x1_0000_0000
    ensures i < |run[n + 1].producers| && run[n + 1].producers[i].progress.Scanning?
    ensures run[n + 1].producers[i].progress.start == run[n + 1].scanHint % POOL_SLOTS
    ensures run[n + 1].producers[i].progress.offset == 0
  {
  }
}
