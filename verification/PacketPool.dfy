/** The slot pool behind one downlink: any number of lock-free producers, the
    32-deep queue, the single worker, its 512-entry repair cache and `Stop`, as one
    transition system whose actions are the atomic steps of the source. */
module PacketPool {
  import opened Collections

  const CACHE_PACKETS: nat := 512
  const QUEUE_CAPACITY: nat := 32
  const WINDOW_CAPACITY: nat := QUEUE_CAPACITY + 1
  const POOL_SLOTS: nat := CACHE_PACKETS + 2 * QUEUE_CAPACITY + 1

  type Packet = nat

  /** A holder's view of a slot: which slot, and what the holder believes is in it. */
  datatype Cell = Cell(slot: nat, content: Option<Packet>)
  datatype Item = Item(slot: nat, packet: Packet)

  /** The admission word: a closed flag and the number of admitted calls. */
  datatype Gate = Gate(closed: bool, count: int)

  /** What the pool looked like when a claim scan began. */
  datatype Snapshot = Snapshot(claimed: set<nat>, queued: nat, held: nat, claims: nat)

  /** Progress of one EnqueueSource call. */
  datatype Progress =
    | Calling
    | Loaded(seen: Gate)
    | Admitted
    | Scanning(start: nat, offset: nat, began: Snapshot)
    | Claimed(slot: nat)
    | Filled(slot: nat)
    | Dropping(slot: nat)
    | Pushed
    | Leaving
    | Returned
  datatype Producer = Producer(packet: Packet, progress: Progress)

  datatype Worker =
    | Looping
    | Resending(borrowed: Item)
    | Writing(item: Item)
    | Failed(item: Item)
    | Spent(item: Item)
    | Evicting(previous: Option<Item>)
    | Counting
    | Draining(total: nat)
    | Clearing(next: nat)
    | Finished

  datatype Stopper = Idle | Flagged | Joining | DoneClosed | Sweeping | SweepHeld(item: Item) | SweepCount | StopReturned

  /** `pool` has a key exactly for each slot whose claimed flag is set. `accepted` and
      `claims` are history: packets that entered the queue, and slots ever claimed. */
  datatype State = State(
    gate: Gate,
    producers: seq<Producer>,
    pool: map<nat, Option<Packet>>,
    scanHint: nat,
    queue: seq<Item>,
    pending: seq<Item>,
    worker: Worker,
    cache: seq<Option<Item>>,
    stop: Stopper,
    enqueuedCount: nat,
    completedCount: nat,
    accepted: nat,
    claims: seq<nat>)

  datatype ProducerMove =
    Load | CompareAndSwap | RejectBounds | BeginScan | TrySlot | Fill | Push | DropFull | CountEnqueued | Leave
  datatype WorkerMove =
    | Receive | StartResend(entry: nat) | EndResend | Pop(j: nat) | WriteFails | CountFailed | ReleaseSpent
    | Store(sequence: nat) | ReleaseEvicted | CountSent | SeeDone | DrainOne | ClearOne
  datatype Action = Call(packet: Packet) | Enqueue(i: nat, produce: ProducerMove) | Work(work: WorkerMove) | Halt

  // ---------------------------------------------------------------- transitions

  function Initial(): State {
    State(Gate(false, 0), [], map[], 0, [], [], Looping, seq(CACHE_PACKETS, _ => None), Idle, 0, 0, 0, [])
  }

  predicate DoneIsClosed(t: Stopper) {
    !t.Idle? && !t.Flagged? && !t.Joining?
  }

  function SlotAt(start: nat, offset: nat): nat {
    (start + offset) % POOL_SLOTS
  }

  function Move(s: State, i: nat, p: Progress): State {
    if i < |s.producers| then s.(producers := s.producers[i := s.producers[i].(progress := p)]) else s
  }

  /** One step of call `i`. A move that its progress does not allow changes nothing. */
  function Produce(s: State, i: nat, m: ProducerMove): State {
    if |s.producers| <= i then s else
    var packet := s.producers[i].packet;
    match (m, s.producers[i].progress)
    case (Load, Calling) => Move(s, i, if s.gate.closed then Returned else Loaded(s.gate))
    case (CompareAndSwap, Loaded(seen)) =>
      if s.gate == seen then Move(s, i, Admitted).(gate := s.gate.(count := s.gate.count + 1))
      else Move(s, i, Calling)
    case (RejectBounds, Admitted) => Move(s, i, Leaving)
    case (BeginScan, Admitted) =>
      var hint := (s.scanHint + 1) % 0x1_0000_0000;
      var began := Snapshot(s.pool.Keys, |s.queue|, Tally(s.producers, Holds), |s.claims|);
      Move(s, i, Scanning(hint % POOL_SLOTS, 0, began)).(scanHint := hint)
    case (TrySlot, Scanning(start, offset, began)) =>
      var slot := SlotAt(start, offset);
      if offset == POOL_SLOTS then Move(s, i, Leaving)
      else if slot in s.pool then Move(s, i, Scanning(start, offset + 1, began))
      else Move(s, i, Claimed(slot)).(pool := s.pool[slot := None], claims := s.claims + [slot])
    case (Fill, Claimed(slot)) => Move(s, i, Filled(slot)).(pool := s.pool[slot := Some(packet)])
    case (Push, Filled(slot)) =>
      if |s.queue| < QUEUE_CAPACITY then
        Move(s, i, Pushed).(queue := s.queue + [Item(slot, packet)], accepted := s.accepted + 1)
      else Move(s, i, Dropping(slot))
    case (DropFull, Dropping(slot)) => Move(s, i, Leaving).(pool := s.pool - {slot})
    case (CountEnqueued, Pushed) => Move(s, i, Leaving).(enqueuedCount := s.enqueuedCount + 1)
    case (Leave, Leaving) => Move(s, i, Returned).(gate := s.gate.(count := s.gate.count - 1))
    case _ => s
  }

  /** One step of the worker, including the deferred shutdown of its loop. */
  function WorkerStep(s: State, m: WorkerMove): State {
    match (m, s.worker)
    case (Receive, Looping) =>
      if |s.pending| < WINDOW_CAPACITY && s.queue != []
      then s.(pending := s.pending + [s.queue[0]], queue := s.queue[1..]) else s
    case (StartResend(k), Looping) =>
      if k < |s.cache| && s.cache[k].Some? then s.(worker := Resending(s.cache[k].value)) else s
    case (EndResend, Resending(_)) => s.(worker := Looping)
    case (Pop(j), Looping) =>
      if j < |s.pending| then s.(worker := Writing(s.pending[j]), pending := s.pending[..j] + s.pending[j + 1..]) else s
    case (WriteFails, Writing(x)) => s.(worker := Failed(x))
    case (CountFailed, Failed(x)) => s.(worker := Spent(x), completedCount := s.completedCount + 1)
    case (ReleaseSpent, Spent(x)) => s.(worker := Looping, pool := s.pool - {x.slot})
    case (Store(sequence), Writing(x)) =>
      var k := sequence % CACHE_PACKETS;
      if k < |s.cache| then s.(worker := Evicting(s.cache[k]), cache := s.cache[k := Some(x)]) else s
    case (ReleaseEvicted, Evicting(previous)) => s.(worker := Counting, pool := WithoutEntry(s.pool, previous))
    case (CountSent, Counting) => s.(worker := Looping, completedCount := s.completedCount + 1)
    case (SeeDone, Looping) => if DoneIsClosed(s.stop) then s.(worker := Draining(|s.pending|)) else s
    case (DrainOne, Draining(total)) =>
      if s.pending != [] then s.(pending := s.pending[1..], pool := s.pool - {s.pending[0].slot})
      else s.(worker := Clearing(0), completedCount := s.completedCount + total)
    case (ClearOne, Clearing(k)) =>
      if k < |s.cache|
      then s.(worker := Clearing(k + 1), cache := s.cache[k := None], pool := WithoutEntry(s.pool, s.cache[k]))
      else s.(worker := Finished)
    case _ => s
  }

  function WithoutEntry(pool: map<nat, Option<Packet>>, x: Option<Item>): map<nat, Option<Packet>> {
    if x.Some? then pool - {x.value.slot} else pool
  }

  /** One step of the goroutine that runs the body of `Stop`. */
  function StopStep(s: State): State {
    match s.stop
    case Idle => s.(stop := Flagged)
    case Flagged => s.(stop := Joining, gate := s.gate.(closed := true))
    case Joining => if s.gate.count == 0 then s.(stop := DoneClosed) else s
    case DoneClosed => if s.worker.Finished? then s.(stop := Sweeping) else s
    case Sweeping =>
      if s.queue != [] then s.(stop := SweepHeld(s.queue[0]), queue := s.queue[1..]) else s.(stop := StopReturned)
    case SweepHeld(x) => s.(stop := SweepCount, pool := s.pool - {x.slot})
    case SweepCount => s.(stop := Sweeping, completedCount := s.completedCount + 1)
    case StopReturned => s
  }

  function Step(s: State, a: Action): State {
    match a
    case Call(p) => s.(producers := s.producers + [Producer(p, Calling)])
    case Enqueue(i, m) => Produce(s, i, m)
    case Work(m) => WorkerStep(s, m)
    case Halt => StopStep(s)
  }

  /** The state after an arbitrary interleaving. */
  function Run(actions: seq<Action>): State {
    if actions == [] then Initial() else Step(Run(actions[..|actions| - 1]), actions[|actions| - 1])
  }

  // ------------------------------------------------------------------- holders

  /** The cell a call holds, if any. */
  function HeldBy(p: Producer): Option<Cell> {
    match p.progress
    case Claimed(slot) => Some(Cell(slot, None))
    case Filled(slot) => Some(Cell(slot, Some(p.packet)))
    case Dropping(slot) => Some(Cell(slot, Some(p.packet)))
    case _ => None
  }

  function ItemCell(x: Item): Cell {
    Cell(x.slot, Some(x.packet))
  }

  function EntryCell(x: Option<Item>): Option<Cell> {
    if x.Some? then Some(ItemCell(x.value)) else None
  }

  function WorkerCell(w: Worker): Option<Cell> {
    match w
    case Writing(x) => Some(ItemCell(x))
    case Failed(x) => Some(ItemCell(x))
    case Spent(x) => Some(ItemCell(x))
    case Evicting(x) => EntryCell(x)
    case _ => None
  }

  function StopCell(t: Stopper): Option<Cell> {
    if t.SweepHeld? then Some(ItemCell(t.item)) else None
  }

  predicate Holds(p: Producer) {
    HeldBy(p).Some?
  }

  function ProducerHolds(c: Cell): Producer -> bool { p => HeldBy(p) == Some(c) }
  function ItemIs(c: Cell): Item -> bool { x => ItemCell(x) == c }
  function EntryIs(c: Cell): Option<Item> -> bool { x => EntryCell(x) == Some(c) }
  function One(b: bool): nat { if b then 1 else 0 }

  /** How many holders claim to hold cell `c`. */
  ghost function Holding(s: State, c: Cell): nat {
    Tally(s.producers, ProducerHolds(c)) + Tally(s.queue, ItemIs(c)) + Tally(s.pending, ItemIs(c))
    + One(WorkerCell(s.worker) == Some(c)) + Tally(s.cache, EntryIs(c)) + One(StopCell(s.stop) == Some(c))
  }

  // ----------------------------------------------------------------- invariant

  predicate Inside(p: Producer) {
    !p.progress.Calling? && !p.progress.Loaded? && !p.progress.Returned?
  }

  predicate NotYetCounted(p: Producer) {
    p.progress.Pushed?
  }

  function WorkerOwes(s: State): nat {
    match s.worker
    case Draining(total) => total
    case Writing(_) => |s.pending| + 1
    case Failed(_) => |s.pending| + 1
    case Evicting(_) => |s.pending| + 1
    case Counting => |s.pending| + 1
    case _ => |s.pending|
  }

  function StopOwes(t: Stopper): nat {
    if t.SweepHeld? || t.SweepCount? then 1 else 0
  }

  /** The ownership law: a slot is claimed exactly when it has one holder, and that
      holder is right about the slot's content. */
  ghost predicate Conserved(s: State) {
    forall c: Cell :: Holding(s, c) == One(InPool(s, c))
  }

  /** Packets accepted into the queue are completed, queued or in someone's hands. */
  predicate Balanced(s: State) {
    s.accepted == s.completedCount + |s.queue| + WorkerOwes(s) + StopOwes(s.stop)
  }

  /** The published counters: only calls between push and count, and only calls
      inside the gate, make a difference. */
  predicate Counted(s: State) {
    && s.enqueuedCount + Tally(s.producers, NotYetCounted) == s.accepted
    && s.gate.count == Tally(s.producers, Inside)
  }

  predicate Bounded(s: State) {
    && |s.queue| <= QUEUE_CAPACITY
    && |s.cache| == CACHE_PACKETS
    && |s.pending| <= WINDOW_CAPACITY - (if s.worker.Writing? || s.worker.Failed? || s.worker.Spent? || s.worker.Evicting? || s.worker.Counting? then 1 else 0)
    && (forall i :: 0 <= i < |s.producers| && s.producers[i].progress.Loaded? ==> !s.producers[i].progress.seen.closed)
  }

  predicate Sweeps(t: Stopper) {
    t.Sweeping? || t.SweepHeld? || t.SweepCount? || t.StopReturned?
  }

  /** How far `Stop` and the worker's deferred shutdown can have got. */
  predicate Phased(s: State) {
    && (s.gate.closed <==> !s.stop.Idle? && !s.stop.Flagged?)
    && (DoneIsClosed(s.stop) ==> s.gate.count == 0)
    && (s.worker.Draining? || s.worker.Clearing? || s.worker.Finished? ==> DoneIsClosed(s.stop))
    && (Sweeps(s.stop) ==> s.worker.Finished?)
    && (s.worker.Draining? ==> |s.pending| <= s.worker.total)
    && (s.worker.Clearing? ==> s.pending == [] && s.worker.next <= |s.cache|
                               && forall k :: 0 <= k < s.worker.next ==> s.cache[k].None?)
    && (s.worker.Finished? ==> s.pending == [] && forall k :: 0 <= k < |s.cache| ==> s.cache[k].None?)
    && (s.worker.Resending? ==> Some(s.worker.borrowed) in s.cache)
    && (s.stop.StopReturned? ==> s.queue == [])
  }

  /** Every slot a scan has passed was claimed when the scan began, or was claimed by
      somebody since; and the slots claimed at the start had few enough holders. */
  predicate ScanSound(claimed: set<nat>, claims: seq<nat>, p: Progress)
    requires p.Scanning?
  {
    && p.offset <= POOL_SLOTS
    && p.began.queued <= QUEUE_CAPACITY
    && p.began.claims <= |claims|
    && |p.began.claimed| <= CACHE_PACKETS + WINDOW_CAPACITY + p.began.queued + p.began.held
    && (forall k :: k in claimed ==> k in p.began.claimed || k in claims[p.began.claims..])
    && (forall k :: 0 <= k < p.offset ==>
          SlotAt(p.start, k) in p.began.claimed || SlotAt(p.start, k) in claims[p.began.claims..])
  }

  predicate ScansSound(s: State) {
    forall i :: 0 <= i < |s.producers| && s.producers[i].progress.Scanning? ==>
      ScanSound(s.pool.Keys, s.claims, s.producers[i].progress)
  }

  ghost predicate Inv(s: State) {
    Bounded(s) && Conserved(s) && Balanced(s) && Counted(s) && Phased(s) && ScansSound(s)
  }

  lemma InitialInv()
    ensures Inv(Initial())
  {
    var s := Initial();
    forall c: Cell ensures Holding(s, c) == One(InPool(s, c)) {
      TallyZero(s.cache, CACHE_PACKETS, EntryIs(c));
    }
  }

  // ------------------------------------------------------------- preservation

  predicate SameElsewhere(s: State, t: State) {
    s.queue == t.queue && s.pending == t.pending && s.worker == t.worker && s.cache == t.cache && s.stop == t.stop
  }

  /** A call that moves exchanges its own cell and no other. */
  lemma MoveHolding(s: State, t: State, i: nat, q: Producer, c: Cell)
    requires i < |s.producers| && t.producers == s.producers[i := q] && SameElsewhere(s, t)
    ensures Holding(t, c) + One(HeldBy(s.producers[i]) == Some(c)) == Holding(s, c) + One(HeldBy(q) == Some(c))
  {
    TallyUpdate(s.producers, i, q, ProducerHolds(c));
  }

  /** Whether the pool says that cell `c` is claimed with that content. */
  predicate InPool(s: State, c: Cell) {
    c.slot in s.pool && s.pool[c.slot] == c.content
  }

  lemma ConservedTrySlot(s: State, i: nat)
    requires Conserved(s)
    ensures Conserved(Produce(s, i, TrySlot))
  {
    var t := Produce(s, i, TrySlot);
    if i < |s.producers| && s.producers[i].progress.Scanning? {
      forall c: Cell ensures Holding(t, c) == One(InPool(t, c)) {
        MoveHolding(s, t, i, t.producers[i], c);
      }
    }
  }

  lemma ConservedByOwner(s: State, i: nat, m: ProducerMove)
    requires Conserved(s) && (m.Fill? || m.DropFull?)
    ensures Conserved(Produce(s, i, m))
  {
    var t := Produce(s, i, m);
    if t != s {
      MoveHolding(s, t, i, t.producers[i], HeldBy(s.producers[i]).value);
      forall c: Cell ensures Holding(t, c) == One(InPool(t, c)) {
        MoveHolding(s, t, i, t.producers[i], c);
      }
    }
  }

  lemma ConservedOutside(s: State, i: nat, m: ProducerMove)
    requires Conserved(s) && !m.Push? && !m.TrySlot? && !m.Fill? && !m.DropFull?
    ensures Conserved(Produce(s, i, m))
  {
    var t := Produce(s, i, m);
    if t != s {
      assert HeldBy(t.producers[i]) == HeldBy(s.producers[i]);
      forall c: Cell ensures Holding(t, c) == One(InPool(t, c)) {
        MoveHolding(s, t, i, t.producers[i], c);
      }
    }
  }

  lemma ConservedByPush(s: State, i: nat)
    requires Conserved(s)
    ensures Conserved(Produce(s, i, Push))
  {
    var t := Produce(s, i, Push);
    if i < |s.producers| && s.producers[i].progress.Filled? {
      var p := s.producers[i];
      forall c: Cell ensures Holding(t, c) == One(InPool(t, c)) {
        assert Holding(s, c) == One(InPool(s, c));
        TallyUpdate(s.producers, i, t.producers[i], ProducerHolds(c));
        TallyPush(s.queue, Item(p.progress.slot, p.packet), ItemIs(c));
      }
    }
  }

  lemma ConservedByCall(s: State, packet: Packet)
    requires Conserved(s)
    ensures Conserved(Step(s, Call(packet)))
  {
    var t := Step(s, Call(packet));
    forall c: Cell ensures Holding(t, c) == One(InPool(t, c)) {
      assert Holding(s, c) == One(InPool(s, c));
      TallyPush(s.producers, Producer(packet, Calling), ProducerHolds(c));
    }
  }

  /** If `t` differs from `s` by one holder giving back cell `x`, ownership is kept. */
  lemma ConservedByRelease(s: State, t: State, x: Cell)
    requires Conserved(s) && t.pool == s.pool - {x.slot}
    requires forall c: Cell :: Holding(t, c) + One(c == x) == Holding(s, c)
    ensures Conserved(t)
  {
    assert Holding(t, x) + One(x == x) == Holding(s, x);
    forall c: Cell ensures Holding(t, c) == One(InPool(t, c)) {
      assert Holding(t, c) + One(c == x) == Holding(s, c);
    }
  }

  lemma ConservedReceive(s: State)
    requires Conserved(s)
    ensures Conserved(WorkerStep(s, Receive))
  {
    var t := WorkerStep(s, Receive);
    if t != s {
      forall c: Cell ensures Holding(t, c) == One(InPool(t, c)) {
        assert Holding(s, c) == One(InPool(s, c));
        TallyHead(s.queue, ItemIs(c));
        TallyPush(s.pending, s.queue[0], ItemIs(c));
      }
    }
  }

  lemma ConservedPop(s: State, j: nat)
    requires Conserved(s)
    ensures Conserved(WorkerStep(s, Pop(j)))
  {
    var t := WorkerStep(s, Pop(j));
    if t != s {
      forall c: Cell ensures Holding(t, c) == One(InPool(t, c)) {
        assert Holding(s, c) == One(InPool(s, c));
        TallyRemove(s.pending, j, ItemIs(c));
      }
    }
  }

  lemma ConservedStore(s: State, sequence: nat)
    requires Conserved(s)
    ensures Conserved(WorkerStep(s, Store(sequence)))
  {
    var t := WorkerStep(s, Store(sequence));
    if t != s {
      forall c: Cell ensures Holding(t, c) == One(InPool(t, c)) {
        assert Holding(s, c) == One(InPool(s, c));
        TallyUpdate(s.cache, sequence % CACHE_PACKETS, Some(s.worker.item), EntryIs(c));
      }
    }
  }

  lemma ConservedDrainOne(s: State)
    requires Conserved(s)
    ensures Conserved(WorkerStep(s, DrainOne))
  {
    var t := WorkerStep(s, DrainOne);
    if s.worker.Draining? && s.pending != [] {
      var x := ItemCell(s.pending[0]);
      forall c: Cell ensures Holding(t, c) + One(c == x) == Holding(s, c) {
        TallyHead(s.pending, ItemIs(c));
      }
      ConservedByRelease(s, t, x);
    } else {
      ConservedQuietly(s, t);
    }
  }

  lemma ConservedClearOne(s: State)
    requires Conserved(s)
    ensures Conserved(WorkerStep(s, ClearOne))
  {
    var t := WorkerStep(s, ClearOne);
    if s.worker.Clearing? && s.worker.next < |s.cache| {
      var k := s.worker.next;
      if s.cache[k].Some? {
        var x := ItemCell(s.cache[k].value);
        forall c: Cell ensures Holding(t, c) + One(c == x) == Holding(s, c) {
          TallyUpdate(s.cache, k, None, EntryIs(c));
        }
        ConservedByRelease(s, t, x);
      } else {
        assert t.cache == s.cache;
        ConservedQuietly(s, t);
      }
    } else {
      ConservedQuietly(s, t);
    }
  }

  /** Steps that hand nothing over. */
  lemma ConservedQuietly(s: State, t: State)
    requires Conserved(s) && s.pool == t.pool && s.producers == t.producers && s.queue == t.queue && s.pending == t.pending
    requires s.cache == t.cache && WorkerCell(s.worker) == WorkerCell(t.worker) && StopCell(s.stop) == StopCell(t.stop)
    ensures Conserved(t)
  {
    forall c: Cell ensures Holding(t, c) == One(InPool(t, c)) {
      assert Holding(s, c) == One(InPool(s, c));
    }
  }

  lemma ConservedWorkerRelease(s: State, m: WorkerMove)
    requires Conserved(s) && (m.ReleaseSpent? || m.ReleaseEvicted?)
    ensures Conserved(WorkerStep(s, m))
  {
    var t := WorkerStep(s, m);
    if t != s {
      if WorkerCell(s.worker).Some? {
        ConservedByRelease(s, t, WorkerCell(s.worker).value);
      } else {
        ConservedQuietly(s, t);
      }
    }
  }

  lemma ConservedByWorker(s: State, m: WorkerMove)
    requires Conserved(s)
    ensures Conserved(WorkerStep(s, m))
  {
    match m {
      case Receive => ConservedReceive(s);
      case Pop(j) => ConservedPop(s, j);
      case Store(n) => ConservedStore(s, n);
      case DrainOne => ConservedDrainOne(s);
      case ClearOne => ConservedClearOne(s);
      case ReleaseSpent => ConservedWorkerRelease(s, m);
      case ReleaseEvicted => ConservedWorkerRelease(s, m);
      case _ => ConservedQuietly(s, WorkerStep(s, m));
    }
  }

  lemma ConservedByStop(s: State)
    requires Conserved(s)
    ensures Conserved(StopStep(s))
  {
    var t := StopStep(s);
    if s.stop.Sweeping? && s.queue != [] {
      forall c: Cell ensures Holding(t, c) == One(InPool(t, c)) {
        assert Holding(s, c) == One(InPool(s, c));
        TallyHead(s.queue, ItemIs(c));
      }
    } else if s.stop.SweepHeld? {
      ConservedByRelease(s, t, ItemCell(s.stop.item));
    } else {
      ConservedQuietly(s, t);
    }
  }

  lemma ConservedStep(s: State, a: Action)
    requires Conserved(s)
    ensures Conserved(Step(s, a))
  {
    match a {
      case Call(p) => ConservedByCall(s, p);
      case Enqueue(i, m) =>
        if m.Push? { ConservedByPush(s, i); }
        else if m.TrySlot? { ConservedTrySlot(s, i); }
        else if m.Fill? || m.DropFull? { ConservedByOwner(s, i, m); }
        else { ConservedOutside(s, i, m); }
      case Work(m) => ConservedByWorker(s, m);
      case Halt => ConservedByStop(s);
    }
  }

  lemma GateCounted(s: State, i: nat, m: ProducerMove)
    requires s.gate.count == Tally(s.producers, Inside)
    ensures var t := Produce(s, i, m); t.gate.count == Tally(t.producers, Inside)
  {
    var t := Produce(s, i, m);
    if t != s { TallyUpdate(s.producers, i, t.producers[i], Inside); }
  }

  lemma PushesCounted(s: State, i: nat, m: ProducerMove)
    requires s.enqueuedCount + Tally(s.producers, NotYetCounted) == s.accepted
    ensures var t := Produce(s, i, m); t.enqueuedCount + Tally(t.producers, NotYetCounted) == t.accepted
  {
    var t := Produce(s, i, m);
    if t != s { TallyUpdate(s.producers, i, t.producers[i], NotYetCounted); }
  }

  lemma CountedStep(s: State, a: Action)
    requires Counted(s)
    ensures Counted(Step(s, a))
  {
    match a {
      case Call(p) =>
        TallyPush(s.producers, Producer(p, Calling), Inside);
        TallyPush(s.producers, Producer(p, Calling), NotYetCounted);
      case Enqueue(i, m) =>
        GateCounted(s, i, m);
        PushesCounted(s, i, m);
      case Work(m) =>
      case Halt =>
    }
  }

  lemma BalancedByWorker(s: State, m: WorkerMove)
    requires Balanced(s)
    ensures Balanced(WorkerStep(s, m))
  {
  }

  lemma BalancedStep(s: State, a: Action)
    requires Balanced(s)
    ensures Balanced(Step(s, a))
  {
    if a.Work? { BalancedByWorker(s, a.work); }
  }

  lemma BoundedStep(s: State, a: Action)
    requires Bounded(s)
    ensures Bounded(Step(s, a))
  {
  }

  /** Once the gate is closed and drained, nobody is inside any more. */
  lemma NobodyInside(s: State, i: nat)
    requires Counted(s) && s.gate.count == 0 && i < |s.producers|
    ensures !Inside(s.producers[i])
  {
    TallyZero(s.producers, |s.producers|, Inside);
  }

  lemma PhasedStep(s: State, a: Action)
    requires Bounded(s) && Counted(s) && Phased(s)
    ensures Phased(Step(s, a))
  {
    if a.Enqueue? && a.i < |s.producers| && DoneIsClosed(s.stop) {
      NobodyInside(s, a.i);
    }
  }

  // ------------------------------------------------------ the counting argument

  function ProducerSlot(p: Producer): set<nat> { if HeldBy(p).Some? then {HeldBy(p).value.slot} else {} }
  function ItemSlot(x: Item): set<nat> { {x.slot} }
  function EntrySlot(x: Option<Item>): set<nat> { if x.Some? then {x.value.slot} else {} }

  function CellSlot(x: Option<Cell>): set<nat> { if x.Some? then {x.value.slot} else {} }

  /** All slots that some holder believes it holds. */
  ghost function SlotsInUse(s: State): set<nat> {
    UnionTo(s.producers, |s.producers|, ProducerSlot) + UnionTo(s.queue, |s.queue|, ItemSlot)
    + UnionTo(s.pending, |s.pending|, ItemSlot) + UnionTo(s.cache, |s.cache|, EntrySlot)
    + CellSlot(WorkerCell(s.worker)) + CellSlot(StopCell(s.stop))
  }

  lemma HolderSlot(s: State, k: nat)
    requires Conserved(s) && k in s.pool
    ensures k in SlotsInUse(s)
  {
    var c := Cell(k, s.pool[k]);
    assert Holding(s, c) == One(InPool(s, c));
    TallyZero(s.producers, |s.producers|, ProducerHolds(c));
    TallyZero(s.queue, |s.queue|, ItemIs(c));
    TallyZero(s.pending, |s.pending|, ItemIs(c));
    TallyZero(s.cache, |s.cache|, EntryIs(c));
    if i :| 0 <= i < |s.producers| && ProducerHolds(c)(s.producers[i]) {
      UnionIn(s.producers, |s.producers|, ProducerSlot, i);
    } else if i :| 0 <= i < |s.queue| && ItemIs(c)(s.queue[i]) {
      UnionIn(s.queue, |s.queue|, ItemSlot, i);
    } else if i :| 0 <= i < |s.pending| && ItemIs(c)(s.pending[i]) {
      UnionIn(s.pending, |s.pending|, ItemSlot, i);
    } else if i :| 0 <= i < |s.cache| && EntryIs(c)(s.cache[i]) {
      UnionIn(s.cache, |s.cache|, EntrySlot, i);
    }
  }

  predicate Always<T>(x: T) { true }

  lemma UseBound(s: State)
    ensures |SlotsInUse(s)| <= Tally(s.producers, Holds) + |s.queue| + |s.pending| + |s.cache|
                               + |CellSlot(WorkerCell(s.worker))| + |CellSlot(StopCell(s.stop))|
  {
    var a, b, c, d := UnionTo(s.producers, |s.producers|, ProducerSlot), UnionTo(s.queue, |s.queue|, ItemSlot),
                      UnionTo(s.pending, |s.pending|, ItemSlot), UnionTo(s.cache, |s.cache|, EntrySlot);
    UnionBound(s.producers, |s.producers|, ProducerSlot, Holds);
    UnionBound(s.queue, |s.queue|, ItemSlot, Always);
    UnionBound(s.pending, |s.pending|, ItemSlot, Always);
    UnionBound(s.cache, |s.cache|, EntrySlot, Always);
    UnionSize(a, b);
    UnionSize(a + b, c);
    UnionSize(a + b + c, d);
    UnionSize(a + b + c + d, CellSlot(WorkerCell(s.worker)));
    UnionSize(a + b + c + d + CellSlot(WorkerCell(s.worker)), CellSlot(StopCell(s.stop)));
  }

  /** The arithmetic behind the pool size: outside the queue and the producers
      themselves at most 512 + 33 slots can be claimed. */
  lemma ClaimedBound(s: State)
    requires Bounded(s) && Conserved(s) && Phased(s)
    ensures |s.pool.Keys| <= CACHE_PACKETS + WINDOW_CAPACITY + |s.queue| + Tally(s.producers, Holds)
  {
    forall k | k in s.pool ensures k in SlotsInUse(s) {
      HolderSlot(s, k);
    }
    SubsetSize(s.pool.Keys, SlotsInUse(s));
    UseBound(s);
  }

  lemma ScanKept(claimed: set<nat>, claims: seq<nat>, claimed': set<nat>, claims': seq<nat>, p: Progress)
    requires p.Scanning? && ScanSound(claimed, claims, p) && claims <= claims'
    requires forall k :: k in claimed' ==> k in claimed || k in claims'[|claims|..]
    ensures ScanSound(claimed', claims', p)
  {
    var since := claims[p.began.claims..];
    assert claims'[p.began.claims..] == since + claims'[|claims|..];
  }

  lemma KeysAfterProduce(s: State, i: nat, m: ProducerMove)
    requires Conserved(s)
    ensures var t := Produce(s, i, m);
      s.claims <= t.claims && forall k :: k in t.pool ==> k in s.pool || k in t.claims[|s.claims|..]
  {
    if i < |s.producers| && s.producers[i].progress.Claimed? {
      var c := Cell(s.producers[i].progress.slot, None);
      TallyZero(s.producers, |s.producers|, ProducerHolds(c));
      assert ProducerHolds(c)(s.producers[i]);
      assert Holding(s, c) == One(InPool(s, c));
    }
  }

  lemma ScansByProducer(s: State, i: nat, m: ProducerMove)
    requires Inv(s)
    ensures ScansSound(Produce(s, i, m))
  {
    var t := Produce(s, i, m);
    KeysAfterProduce(s, i, m);
    if m.BeginScan? { ClaimedBound(s); }
    if t != s {
      forall j | 0 <= j < |t.producers| && t.producers[j].progress.Scanning?
        ensures ScanSound(t.pool.Keys, t.claims, t.producers[j].progress)
      {
        if j != i {
          ScanKept(s.pool.Keys, s.claims, t.pool.Keys, t.claims, s.producers[j].progress);
        }
      }
    }
  }

  lemma ScansStep(s: State, a: Action)
    requires Inv(s)
    ensures ScansSound(Step(s, a))
  {
    var t := Step(s, a);
    if a.Enqueue? {
      ScansByProducer(s, a.i, a.produce);
    } else {
      assert t.claims == s.claims && t.pool.Keys <= s.pool.Keys;
      forall j | 0 <= j < |t.producers| && t.producers[j].progress.Scanning?
        ensures ScanSound(t.pool.Keys, t.claims, t.producers[j].progress)
      {
        ScanKept(s.pool.Keys, s.claims, t.pool.Keys, t.claims, s.producers[j].progress);
      }
    }
  }

  lemma StepInv(s: State, a: Action)
    requires Inv(s)
    ensures Inv(Step(s, a))
  {
    ConservedStep(s, a);
    BalancedStep(s, a);
    CountedStep(s, a);
    BoundedStep(s, a);
    PhasedStep(s, a);
    ScansStep(s, a);
  }

  // ------------------------------------------------------------------ theorems

  /** The invariant holds after every interleaving. */
  lemma {:induction false} RunInv(actions: seq<Action>)
    ensures Inv(Run(actions))
  {
    if actions == [] {
      InitialInv();
    } else {
      RunInv(actions[..|actions| - 1]);
      StepInv(Run(actions[..|actions| - 1]), actions[|actions| - 1]);
    }
  }

  function ProducerHasSlot(k: nat): Producer -> bool { p => HeldBy(p).Some? && HeldBy(p).value.slot == k }
  function ItemHasSlot(k: nat): Item -> bool { (x: Item) => x.slot == k }
  function EntryHasSlot(k: nat): Option<Item> -> bool { (x: Option<Item>) => x.Some? && x.value.slot == k }
  predicate CellHasSlot(x: Option<Cell>, k: nat) { x.Some? && x.value.slot == k }

  /** How many calls, queue places, window places, hands and cache entries refer to slot `k`. */
  function SlotHolders(s: State, k: nat): nat {
    Tally(s.producers, ProducerHasSlot(k)) + Tally(s.queue, ItemHasSlot(k)) + Tally(s.pending, ItemHasSlot(k))
    + One(CellHasSlot(WorkerCell(s.worker), k)) + Tally(s.cache, EntryHasSlot(k)) + One(CellHasSlot(StopCell(s.stop), k))
  }

  lemma HeldCellIsCurrent(s: State, c: Cell)
    requires Conserved(s) && Holding(s, c) > 0
    ensures InPool(s, c)
  {
    assert Holding(s, c) == One(InPool(s, c));
  }

  /** A holder of slot `k` holds the one cell that the pool has for `k`; if the slot is
      unclaimed it has no holder. */
  lemma HoldersAgree(s: State, k: nat, c: Cell)
    requires Conserved(s) && c.slot == k && (k in s.pool ==> c.content == s.pool[k])
    ensures SlotHolders(s, k) == Holding(s, c)
  {
    forall i | 0 <= i < |s.producers| ensures ProducerHasSlot(k)(s.producers[i]) == ProducerHolds(c)(s.producers[i]) {
      if ProducerHasSlot(k)(s.producers[i]) {
        var d := HeldBy(s.producers[i]).value;
        TallyZero(s.producers, |s.producers|, ProducerHolds(d));
        assert ProducerHolds(d)(s.producers[i]);
        HeldCellIsCurrent(s, d);
      }
    }
    TallyAgree(s.producers, |s.producers|, ProducerHasSlot(k), ProducerHolds(c));
    ItemsAgree(s, s.queue, k, c);
    ItemsAgree(s, s.pending, k, c);
    forall i | 0 <= i < |s.cache| ensures EntryHasSlot(k)(s.cache[i]) == EntryIs(c)(s.cache[i]) {
      if EntryHasSlot(k)(s.cache[i]) {
        var d := EntryCell(s.cache[i]).value;
        TallyZero(s.cache, |s.cache|, EntryIs(d));
        assert EntryIs(d)(s.cache[i]);
        HeldCellIsCurrent(s, d);
      }
    }
    TallyAgree(s.cache, |s.cache|, EntryHasSlot(k), EntryIs(c));
    if CellHasSlot(WorkerCell(s.worker), k) { HeldCellIsCurrent(s, WorkerCell(s.worker).value); }
    if CellHasSlot(StopCell(s.stop), k) { HeldCellIsCurrent(s, StopCell(s.stop).value); }
  }

  lemma ItemsAgree(s: State, xs: seq<Item>, k: nat, c: Cell)
    requires Conserved(s) && c.slot == k && (k in s.pool ==> c.content == s.pool[k])
    requires xs == s.queue || xs == s.pending
    ensures Tally(xs, ItemHasSlot(k)) == Tally(xs, ItemIs(c))
  {
    forall i | 0 <= i < |xs| ensures ItemHasSlot(k)(xs[i]) == ItemIs(c)(xs[i]) {
      if ItemHasSlot(k)(xs[i]) {
        var d := ItemCell(xs[i]);
        TallyZero(xs, |xs|, ItemIs(d));
        assert ItemIs(d)(xs[i]);
        HeldCellIsCurrent(s, d);
      }
    }
    TallyAgree(xs, |xs|, ItemHasSlot(k), ItemIs(c));
  }

  /** In every interleaving a slot is claimed exactly when it has one holder, and an
      unclaimed slot has none: nothing is released twice or reused while held. */
  lemma OneHolderPerClaimedSlot(actions: seq<Action>, k: nat)
    ensures SlotHolders(Run(actions), k) == One(k in Run(actions).pool)
  {
    RunInv(actions);
    var s := Run(actions);
    var c := Cell(k, if k in s.pool then s.pool[k] else None);
    HoldersAgree(s, k, c);
    assert Holding(s, c) == One(InPool(s, c));
  }

  /** A packet being written or retransmitted still has the content its producer put
      into the slot, whatever the producers did meanwhile. */
  lemma PacketIntact(actions: seq<Action>, x: Item)
    requires var w := Run(actions).worker; w == Writing(x) || w == Resending(x)
    ensures var s := Run(actions); x.slot in s.pool && s.pool[x.slot] == Some(x.packet)
  {
    RunInv(actions);
    var s, c := Run(actions), ItemCell(x);
    if s.worker.Resending? {
      var k :| 0 <= k < |s.cache| && s.cache[k] == Some(x);
      TallyZero(s.cache, |s.cache|, EntryIs(c));
      assert EntryIs(c)(s.cache[k]);
    }
    HeldCellIsCurrent(s, c);
  }

  /** A scan that has passed every offset has passed every slot. */
  lemma ScanCoversPool(start: nat, k: nat) returns (offset: nat)
    requires k < POOL_SLOTS
    ensures offset < POOL_SLOTS && SlotAt(start, offset) == k
  {
    offset := (k + POOL_SLOTS - start % POOL_SLOTS) % POOL_SLOTS;
  }

  lemma FullScan(claimed: set<nat>, claims: seq<nat>, p: Progress)
    requires p.Scanning? && ScanSound(claimed, claims, p) && p.offset == POOL_SLOTS
    ensures p.began.queued + p.began.held + (|claims| - p.began.claims) >= QUEUE_CAPACITY
  {
    var since := claims[p.began.claims..];
    var later := set k | k in since;
    forall k | k in Below(POOL_SLOTS) ensures k in p.began.claimed + later {
      var offset := ScanCoversPool(p.start, k);
    }
    SubsetSize(Below(POOL_SLOTS), p.began.claimed + later);
    UnionSize(p.began.claimed, later);
    ElementsSize(since);
  }

  /** A claim scan comes back empty-handed only if the packets queued and the slots held
      by producers when it began, plus the claims made meanwhile, fill the queue. */
  lemma ScanFailsOnlyUnderLoad(actions: seq<Action>, i: nat)
    requires var s := Run(actions); i < |s.producers| && s.producers[i].progress.Scanning?
    requires Run(actions).producers[i].progress.offset == POOL_SLOTS
    ensures var s := Run(actions); var began := s.producers[i].progress.began;
      began.claims <= |s.claims| && began.queued + began.held + (|s.claims| - began.claims) >= QUEUE_CAPACITY
  {
    RunInv(actions);
    var s := Run(actions);
    FullScan(s.pool.Keys, s.claims, s.producers[i].progress);
  }

  /** So a producer that is alone during its scan is refused only by a full queue. */
  lemma LoneScanFailsOnlyOnFullQueue(actions: seq<Action>, i: nat)
    requires var s := Run(actions); i < |s.producers| && s.producers[i].progress.Scanning?
    requires var s := Run(actions); var p := s.producers[i].progress;
      p.offset == POOL_SLOTS && p.began.held == 0 && p.began.claims == |s.claims|
    ensures Run(actions).producers[i].progress.began.queued == QUEUE_CAPACITY
  {
    RunInv(actions);
    ScanFailsOnlyUnderLoad(actions, i);
  }

  /** When `Stop` has returned no call is inside, every slot is free, queue, window and
      cache are empty, and everything enqueued has been completed. */
  lemma StopLeavesNothing(actions: seq<Action>)
    requires Run(actions).stop.StopReturned?
    ensures var s := Run(actions);
      && s.gate == Gate(true, 0)
      && (forall i :: 0 <= i < |s.producers| ==> !Inside(s.producers[i]))
      && s.pool == map[] && s.queue == [] && s.pending == []
      && (forall k :: 0 <= k < |s.cache| ==> s.cache[k].None?)
      && s.enqueuedCount == s.completedCount == s.accepted
  {
    RunInv(actions);
    var s := Run(actions);
    TallyZero(s.producers, |s.producers|, Inside);
    TallyZero(s.producers, |s.producers|, NotYetCounted);
    forall k: nat ensures k !in s.pool {
      var c := Cell(k, if k in s.pool then s.pool[k] else None);
      TallyZero(s.producers, |s.producers|, ProducerHolds(c));
      TallyZero(s.cache, |s.cache|, EntryIs(c));
      assert Holding(s, c) == One(InPool(s, c));
    }
  }

  /** At every moment accepted packets are completed, queued, or held by the worker or by
      `Stop`; and the published counter lags only by calls between their two steps. */
  lemma NothingLost(actions: seq<Action>)
    ensures var s := Run(actions);
      && s.accepted == s.completedCount + |s.queue| + WorkerOwes(s) + StopOwes(s.stop)
      && s.enqueuedCount + Tally(s.producers, NotYetCounted) == s.accepted
  {
    RunInv(actions);
  }

  // -------------------------------------------------------------- the gate word

  const CLOSED_BIT: nat := 0x8000_0000_0000_0000
  const WORD: nat := 2 * CLOSED_BIT

  function Word(g: Gate): int {
    (if g.closed then CLOSED_BIT else 0) + g.count
  }

  /** The single 64-bit admission word behaves like the gate above: setting the top bit
      keeps the count, adding one or 2^64 - 1 keeps the flag, and the masked word is the count. */
  lemma GateWord(g: Gate)
    requires 0 <= g.count < CLOSED_BIT
    ensures g.closed <==> Word(g) >= CLOSED_BIT
    ensures Word(g) % CLOSED_BIT == g.count
    ensures !g.closed ==> Word(g) + CLOSED_BIT == Word(g.(closed := true))
    ensures g.count + 1 < CLOSED_BIT ==> (Word(g) + 1) % WORD == Word(g.(count := g.count + 1))
    ensures g.count > 0 ==> (Word(g) + (WORD - 1)) % WORD == Word(g.(count := g.count - 1))
  {
  }
}
