/** The forward worker's reorder window: an in-place insertion sort by extended sequence
    number, and the rule that decides when the smallest packet held may go out. */
module ReorderWindow {
  import opened Collections

  const WINDOW_CAPACITY: nat := 33
  const REORDER_WAIT_NS := 40_000_000

  /** A numbered packet: its extended sequence number, when it was enqueued, and when
      the worker received it. */
  datatype Held = Held(ext: int, at: int, got: int)

  // -------------------------------------------------------------------- sorting

  /** `x` placed behind everything not greater than it. */
  function Insert(s: seq<Held>, x: Held): seq<Held> {
    if s == [] || s[|s| - 1].ext <= x.ext then s + [x]
    else Insert(s[..|s| - 1], x) + [s[|s| - 1]]
  }

  function Sort(s: seq<Held>): seq<Held> {
    if s == [] then [] else Insert(Sort(s[..|s| - 1]), s[|s| - 1])
  }

  predicate Ascending(s: seq<Held>) {
    forall i, j :: 0 <= i < j < |s| ==> s[i].ext <= s[j].ext
  }

  /** The elements with extended number `e`, in order. */
  function WithExt(s: seq<Held>, e: int): seq<Held> {
    if s == [] then []
    else if s[|s| - 1].ext == e then WithExt(s[..|s| - 1], e) + [s[|s| - 1]]
    else WithExt(s[..|s| - 1], e)
  }

  lemma {:induction false} InsertAt(s: seq<Held>, x: Held, p: nat)
    requires p <= |s| && (p == 0 || s[p - 1].ext <= x.ext)
    requires forall k :: p <= k < |s| ==> x.ext < s[k].ext
    ensures Insert(s, x) == s[..p] + [x] + s[p..]
  {
    if p == |s| {
      assert s[..p] == s;
    } else {
      var front := s[..|s| - 1];
      InsertAt(front, x, p);
      assert front[..p] == s[..p];
      assert s[p..] == front[p..] + [s[|s| - 1]];
    }
  }

  lemma {:induction false} InsertAdds(s: seq<Held>, x: Held)
    ensures multiset(Insert(s, x)) == multiset(s) + multiset{x}
  {
    if s != [] && x.ext < s[|s| - 1].ext {
      InsertAdds(s[..|s| - 1], x);
      assert s == s[..|s| - 1] + [s[|s| - 1]];
    }
  }

  lemma {:induction false} InsertKeepsAscending(s: seq<Held>, x: Held)
    requires Ascending(s)
    ensures Ascending(Insert(s, x))
  {
    if s != [] && x.ext < s[|s| - 1].ext {
      var front := s[..|s| - 1];
      InsertKeepsAscending(front, x);
      InsertAdds(front, x);
      forall k | 0 <= k < |Insert(front, x)| ensures Insert(front, x)[k].ext <= s[|s| - 1].ext {
        assert Insert(front, x)[k] in multiset(Insert(front, x));
      }
    }
  }

  lemma {:induction false} WithExtPush(s: seq<Held>, x: Held, e: int)
    ensures WithExt(s + [x], e) == WithExt(s, e) + if x.ext == e then [x] else []
  {
  }

  lemma {:induction false} InsertIsStable(s: seq<Held>, x: Held, e: int)
    requires Ascending(s)
    ensures WithExt(Insert(s, x), e) == WithExt(s, e) + if x.ext == e then [x] else []
  {
    if s == [] || s[|s| - 1].ext <= x.ext {
      WithExtPush(s, x, e);
    } else {
      var front, last := s[..|s| - 1], s[|s| - 1];
      InsertIsStable(front, x, e);
      WithExtPush(Insert(front, x), last, e);
    }
  }

  /** Sorting yields an ascending rearrangement that keeps equal numbers in arrival order. */
  lemma {:induction false} SortIsStableSort(s: seq<Held>, e: int)
    ensures Ascending(Sort(s)) && multiset(Sort(s)) == multiset(s) && |Sort(s)| == |s|
    ensures WithExt(Sort(s), e) == WithExt(s, e)
  {
    if s != [] {
      var front, x := s[..|s| - 1], s[|s| - 1];
      SortIsStableSort(front, e);
      InsertAdds(Sort(front), x);
      InsertKeepsAscending(Sort(front), x);
      InsertIsStable(Sort(front), x, e);
      assert s == front + [x];
      assert |multiset(Sort(s))| == |multiset(s)|;
    }
  }

  /** Sorting an ascending sequence changes nothing. */
  lemma {:induction false} SortOfAscending(s: seq<Held>)
    requires Ascending(s)
    ensures Sort(s) == s
  {
    if s != [] {
      SortOfAscending(s[..|s| - 1]);
    }
  }

  /** The worker's in-place insertion sort of the first `n` places. */
  method SortPacedPacketsByExtendedSequence(items: array<Held>, n: nat)
    requires n <= items.Length
    modifies items
    ensures items[..n] == Sort(old(items[..n]))
    ensures items[n..] == old(items[n..])
  {
    var index := 0;
    while index < n
      invariant 0 <= index <= n
      invariant items[..index] == Sort(old(items[..index]))
      invariant items[index..] == old(items[index..])
    {
      InsertInPlace(items, index);
      assert old(items[..index + 1])[..index] == old(items[..index]);
      index := index + 1;
    }
  }

  /** The inner loop: the item at `index` is shifted down to its place. */
  method InsertInPlace(items: array<Held>, index: nat)
    requires index < items.Length
    modifies items
    ensures items[..index + 1] == Insert(old(items[..index]), old(items[index]))
    ensures items[index + 1..] == old(items[index + 1..])
  {
    var item := items[index];
    ghost var s := items[..index];
    var position := index;
    while position > 0 && item.ext < items[position - 1].ext
      invariant 0 <= position <= index
      invariant forall k :: 0 <= k < position ==> items[k] == s[k]
      invariant forall k :: position < k <= index ==> items[k] == s[k - 1]
      invariant forall k :: index < k < items.Length ==> items[k] == old(items[k])
      invariant forall k :: position <= k < index ==> item.ext < s[k].ext
    {
      items[position] := items[position - 1];
      position := position - 1;
    }
    items[position] := item;
    InsertAt(s, item, position);
    assert items[..position] == s[..position];
    assert items[position + 1..index + 1] == s[position..];
    assert items[..index + 1] == items[..position] + [item] + items[position + 1..index + 1];
  }

  // ---------------------------------------------------------------- the window

  /** The packets held, smallest first, and the highest number released so far. */
  datatype Window = Window(pending: seq<Held>, last: Option<int>)

  function Oldest(s: seq<Held>): int
    requires s != []
  {
    if |s| == 1 then s[0].at
    else
      var earlier := Oldest(s[..|s| - 1]);
      if s[|s| - 1].at < earlier then s[|s| - 1].at else earlier
  }

  lemma {:induction false} OldestIsHeld(s: seq<Held>) returns (at: nat)
    requires s != []
    ensures at < |s| && s[at].at == Oldest(s)
    ensures forall k :: 0 <= k < |s| ==> Oldest(s) <= s[k].at
  {
    at := |s| - 1;
    if |s| > 1 {
      var earlier := OldestIsHeld(s[..|s| - 1]);
      if s[earlier].at <= s[at].at { at := earlier; }
    }
  }

  predicate HasGap(w: Window) {
    w.pending != [] && w.last.Some? && w.pending[0].ext > w.last.value + 1
  }

  /** A gap is waited for unless the window is full or its oldest packet has waited 40 ms. */
  predicate MayRelease(w: Window, now: int) {
    w.pending != [] && (HasGap(w) ==> |w.pending| == WINDOW_CAPACITY || now >= Oldest(w.pending) + REORDER_WAIT_NS)
  }

  function LastAfter(last: Option<int>, ext: int): Option<int> {
    if last.Some? && ext <= last.value then last else Some(ext)
  }

  function Released(w: Window): Window
    requires w.pending != []
  {
    Window(w.pending[1..], LastAfter(w.last, w.pending[0].ext))
  }

  class ForwardWindow {
    const pending: array<Held>
    var pendingLen: nat
    var haveReleased: bool
    var lastReleasedExtSeq: int

    ghost predicate Valid()
      reads this
    {
      pending.Length == WINDOW_CAPACITY && pendingLen <= WINDOW_CAPACITY
    }

    ghost function Value(): Window
      requires Valid()
      reads this, pending
    {
      Window(pending[..pendingLen], if haveReleased then Some(lastReleasedExtSeq) else None)
    }

    constructor ()
      ensures Valid() && fresh(pending) && Value() == Window([], None)
    {
      pending := new Held[WINDOW_CAPACITY](_ => Held(0, 0, 0));
      pendingLen, haveReleased, lastReleasedExtSeq := 0, false, 0;
    }

    /** A packet from the queue goes behind the ones held. */
    method Take(x: Held)
      requires Valid() && pendingLen < WINDOW_CAPACITY
      modifies this, pending
      ensures Valid() && Value() == old(Value()).(pending := old(Value()).pending + [x])
    {
      pending[pendingLen] := x;
      pendingLen := pendingLen + 1;
    }

    method SortHeld()
      requires Valid()
      modifies pending
      ensures Valid() && Value() == old(Value()).(pending := Sort(old(Value()).pending))
    {
      SortPacedPacketsByExtendedSequence(pending, pendingLen);
    }

    /** Takes what the queue offers, as far as there is room, and then sorts once: that is the
        same as receiving the packets one by one into a sorted window. */
    method DrainQueue(queue: seq<Held>) returns (taken: nat)
      requires Valid() && Ascending(Value().pending)
      modifies this, pending
      ensures Valid() && Ascending(Value().pending)
      ensures taken == if |queue| < WINDOW_CAPACITY - old(pendingLen) then |queue| else WINDOW_CAPACITY - old(pendingLen)
      ensures Value() == old(Value()).(pending := InsertAll(old(Value()).pending, queue[..taken]))
    {
      ghost var held := pending[..pendingLen];
      taken := 0;
      while pendingLen < pending.Length && taken < |queue|
        invariant Valid() && taken <= |queue| && pendingLen == |held| + taken
        invariant Value() == old(Value()).(pending := held + queue[..taken])
      {
        Take(queue[taken]);
        taken := taken + 1;
        assert held + queue[..taken] == held + queue[..taken - 1] + [queue[taken - 1]];
      }
      SortHeld();
      SortInsertsAll(held, queue[..taken]);
    }

    /** The time until which a gap is waited for. */
    method GapDeadline() returns (deadline: int)
      requires Valid() && pendingLen > 0
      ensures deadline == Oldest(Value().pending) + REORDER_WAIT_NS
    {
      var gapStartedAt := pending[0].at;
      var i := 1;
      while i < pendingLen
        invariant 1 <= i <= pendingLen
        invariant gapStartedAt == Oldest(pending[..i])
      {
        assert pending[..i + 1][..i] == pending[..i];
        if pending[i].at < gapStartedAt {
          gapStartedAt := pending[i].at;
        }
        i := i + 1;
      }
      deadline := gapStartedAt + REORDER_WAIT_NS;
    }

    /** Whether the worker may stop waiting and write the first packet held. */
    method MayStopWaiting(now: int) returns (yes: bool)
      requires Valid() && pendingLen > 0
      ensures yes <==> MayRelease(Value(), now)
    {
      if haveReleased && pending[0].ext > lastReleasedExtSeq + 1 && pendingLen < pending.Length {
        var deadline := GapDeadline();
        yes := now >= deadline;
      } else {
        yes := true;
      }
    }

    method ReleaseFirst() returns (item: Held)
      requires Valid() && pendingLen > 0
      modifies this, pending
      ensures Valid() && item == old(Value()).pending[0] && Value() == Released(old(Value()))
    {
      item := pending[0];
      ghost var before := pending[..pendingLen];
      forall k | 0 <= k < pendingLen - 1 {
        pending[k] := pending[k + 1];
      }
      pendingLen := pendingLen - 1;
      if !haveReleased || item.ext > lastReleasedExtSeq {
        haveReleased, lastReleasedExtSeq := true, item.ext;
      }
      assert pending[..pendingLen] == before[1..];
    }
  }

  // ---------------------------------------------------------------- whole runs

  datatype Event = Receive(ext: int, at: int, now: int) | Release(now: int)

  /** The window together with everything it ever received and released. */
  datatype Trace = Trace(window: Window, received: seq<Held>, released: seq<Held>)

  /** Taking packets and then sorting is inserting them one after the other. */
  lemma ReceiveThenSort(held: seq<Held>, taken: seq<Held>, x: Held)
    requires Ascending(held)
    ensures Sort(held) == held && Sort(held + (taken + [x])) == Insert(Sort(held + taken), x)
  {
    SortOfAscending(held);
    assert held + (taken + [x]) == (held + taken) + [x];
  }

  /** Receiving these packets one after the other. */
  function InsertAll(held: seq<Held>, xs: seq<Held>): seq<Held> {
    if xs == [] then held else Insert(InsertAll(held, xs[..|xs| - 1]), xs[|xs| - 1])
  }

  lemma {:induction false} SortInsertsAll(held: seq<Held>, xs: seq<Held>)
    requires Ascending(held)
    ensures Sort(held + xs) == InsertAll(held, xs) && Ascending(InsertAll(held, xs))
  {
    if xs == [] {
      assert held + xs == held;
      SortOfAscending(held);
    } else {
      var front := xs[..|xs| - 1];
      SortInsertsAll(held, front);
      ReceiveThenSort(held, front, xs[|xs| - 1]);
      assert xs == front + [xs[|xs| - 1]];
      InsertKeepsAscending(InsertAll(held, front), xs[|xs| - 1]);
    }
  }

  /** An event the window's rules do not allow changes nothing. */
  function Step(r: Trace, e: Event): Trace {
    match e
    case Receive(ext, at, now) =>
      if |r.window.pending| == WINDOW_CAPACITY then r else
      var x := Held(ext, at, now);
      Trace(r.window.(pending := Insert(r.window.pending, x)), r.received + [x], r.released)
    case Release(now) =>
      if !MayRelease(r.window, now) then r else
      Trace(Released(r.window), r.received, r.released + [r.window.pending[0]])
  }

  /** `run` lists the states of the worker around each of `events`. */
  ghost predicate IsRun(run: seq<Trace>, events: seq<Event>) {
    && |run| == |events| + 1
    && run[0] == Trace(Window([], None), [], [])
    && forall i :: 0 <= i < |events| ==> run[i + 1] == Step(run[i], events[i])
  }

  /** Held packets are in ascending order, fit the window, and together with the released
      ones are exactly the received ones. */
  ghost predicate Sound(r: Trace) {
    && Ascending(r.window.pending) && |r.window.pending| <= WINDOW_CAPACITY
    && multiset(r.received) == multiset(r.released) + multiset(r.window.pending)
  }

  lemma {:induction false} RunIsSound(run: seq<Trace>, events: seq<Event>, n: nat)
    requires IsRun(run, events) && n <= |events|
    ensures Sound(run[n])
  {
    if n > 0 {
      RunIsSound(run, events, n - 1);
      SoundStep(run[n - 1], events[n - 1]);
    }
  }

  lemma SoundStep(r: Trace, e: Event)
    requires Sound(r)
    ensures Sound(Step(r, e))
  {
    var w := r.window;
    match e {
      case Receive(ext, at, now) =>
        var x := Held(ext, at, now);
        InsertKeepsAscending(w.pending, x);
        InsertAdds(w.pending, x);
        assert |multiset(Insert(w.pending, x))| == |w.pending| + 1;
      case Release(now) =>
        if MayRelease(w, now) {
          assert w.pending == [w.pending[0]] + w.pending[1..];
        }
    }
  }

  /** What goes out is always the smallest number held; and it leaves a gap behind the
      highest number released only from a full window or after a 40 ms wait. */
  lemma ReleasesSmallest(run: seq<Trace>, events: seq<Event>, n: nat)
    requires IsRun(run, events) && n < |events| && |run[n + 1].released| > |run[n].released|
    ensures var w, x := run[n].window, run[n + 1].released[|run[n].released|];
      && (forall y :: y in w.pending ==> x.ext <= y.ext)
      && (w.last.Some? && x.ext > w.last.value + 1 ==>
            |w.pending| == WINDOW_CAPACITY || exists y :: y in w.pending && events[n].now >= y.at + REORDER_WAIT_NS)
  {
    RunIsSound(run, events, n);
    var w := run[n].window;
    if HasGap(w) && |w.pending| < WINDOW_CAPACITY {
      var k := OldestIsHeld(w.pending);
      assert w.pending[k] in w.pending;
    }
  }

  /** A packet is taken exactly if the window is not full. */
  lemma ReceivesIff(run: seq<Trace>, events: seq<Event>, n: nat)
    requires IsRun(run, events) && n < |events| && events[n].Receive?
    ensures var e := events[n];
      if |run[n].window.pending| < WINDOW_CAPACITY
      then run[n + 1].received == run[n].received + [Held(e.ext, e.at, e.now)] && run[n + 1].released == run[n].released
      else run[n + 1] == run[n]
  {
    RunIsSound(run, events, n);
  }

  /** The highest number that ever went out is remembered. */
  lemma {:induction false} LastIsHighest(run: seq<Trace>, events: seq<Event>, n: nat)
    requires IsRun(run, events) && n <= |events|
    ensures var last, released := run[n].window.last, run[n].released;
      && (last.None? <==> released == [])
      && (last.Some? ==>
            && (forall k :: 0 <= k < |released| ==> released[k].ext <= last.value)
            && exists k :: 0 <= k < |released| && released[k].ext == last.value)
  {
    if n > 0 {
      LastIsHighest(run, events, n - 1);
      var s, t := run[n - 1], run[n];
      assert t == Step(s, events[n - 1]);
      if |t.released| > |s.released| {
        assert t.released[|s.released|] == s.window.pending[0];
        if s.window.last.Some? {
          var k :| 0 <= k < |s.released| && s.released[k].ext == s.window.last.value;
          assert t.released[k] == s.released[k];
        }
      }
    }
  }

  /** Exactly when a packet goes out: something is held, and nothing has gone out yet, no gap lies
      in front of it, the window is full, or a held packet has waited 40 ms. */
  lemma ReleasesIff(run: seq<Trace>, events: seq<Event>, n: nat)
    requires IsRun(run, events) && n < |events| && events[n].Release?
    ensures var w := run[n].window;
      |run[n + 1].released| > |run[n].released| <==>
        && w.pending != []
        && (|| run[n].released == []
            || (exists y :: y in w.pending && w.last.Some? && y.ext <= w.last.value + 1)
            || |w.pending| == WINDOW_CAPACITY
            || exists y :: y in w.pending && events[n].now >= y.at + REORDER_WAIT_NS)
  {
    RunIsSound(run, events, n);
    LastIsHighest(run, events, n);
    var w := run[n].window;
    if w.pending != [] {
      var k := OldestIsHeld(w.pending);
      assert w.pending[0] in w.pending && w.pending[k] in w.pending;
    }
  }

  // ------------------------------------------------------- repaired reordering

  function Exts(s: seq<Held>): set<int> {
    set x | x in s :: x.ext
  }

  /** The numbers that overtook packet `k` on the way to the worker. */
  function Overtakers(s: seq<Held>, k: nat): set<int>
    requires k < |s|
  {
    set x | x in s[..k] && x.ext > s[k].ext :: x.ext
  }

  /** A stream without repetitions whose reordering stays within both bounds of the window: at
      most 32 packets overtake any packet, and it is received less than 40 ms after any of them
      was enqueued. Any number of packets may be missing. */
  ghost predicate WithinBounds(s: seq<Held>) {
    && (forall j, k :: 0 <= j < k < |s| ==> s[j].ext != s[k].ext)
    && (forall k :: 0 <= k < |s| ==> |Overtakers(s, k)| < WINDOW_CAPACITY)
    && (forall j, k :: 0 <= j < k < |s| && s[j].ext > s[k].ext ==> s[k].got < s[j].at + REORDER_WAIT_NS)
  }

  predicate Smallest(x: Held, s: seq<Held>) {
    forall k :: 0 <= k < |s| ==> x.ext <= s[k].ext
  }

  predicate Chronological(events: seq<Event>) {
    forall i, j :: 0 <= i < j < |events| ==> events[i].now <= events[j].now
  }

  predicate Rising(s: seq<Held>) {
    forall i, j :: 0 <= i < j < |s| ==> s[i].ext < s[j].ext
  }

  /** Numbers went out in ascending order, the last of them is the highest released, and
      everything held or still to come lies above it. */
  predicate InOrder(r: Trace, all: seq<Held>) {
    && Rising(r.released)
    && r.window.last == (if r.released == [] then None else Some(r.released[|r.released| - 1].ext))
    && (r.released != [] ==>
          && (forall x :: x in r.window.pending ==> x.ext > r.window.last.value)
          && (forall k :: |r.received| <= k < |all| ==> all[k].ext > r.window.last.value))
  }

  lemma {:induction false} ReceivedGrows(run: seq<Trace>, events: seq<Event>, n: nat, m: nat)
    requires IsRun(run, events) && n <= m <= |events| && Chronological(events)
    ensures run[n].received <= run[m].received && run[n].released <= run[m].released
    ensures n < |events| ==> forall k :: |run[n].received| <= k < |run[m].received| ==>
      events[n].now <= run[m].received[k].got
    decreases m - n
  {
    if n < m { ReceivedGrows(run, events, n, m - 1); }
  }

  lemma {:induction false} AscendingExts(s: seq<Held>)
    requires Ascending(s) && forall i, j :: 0 <= i < j < |s| ==> s[i].ext != s[j].ext
    ensures |Exts(s)| == |s|
  {
    if s != [] {
      var front, last := s[..|s| - 1], s[|s| - 1];
      AscendingExts(front);
      assert s == front + [last];
      assert Exts(s) == Exts(front) + {last.ext};
      assert last.ext !in Exts(front);
    }
  }

  /** Held packets are distinct positions of the received stream. */
  lemma PendingDistinct(r: Trace)
    requires Sound(r) && forall j, k :: 0 <= j < k < |r.received| ==> r.received[j].ext != r.received[k].ext
    ensures forall i, j :: 0 <= i < j < |r.window.pending| ==> r.window.pending[i].ext != r.window.pending[j].ext
  {
    var p := r.window.pending;
    forall i, j | 0 <= i < j < |p| ensures p[i].ext != p[j].ext {
      if p[i].ext == p[j].ext {
        ReceivedOnce(r, p[i], p[j]);
        SeqCountsTwo(p, i, j);
      }
    }
  }

  lemma SeqCountsTwo(p: seq<Held>, i: nat, j: nat)
    requires i < j < |p| && p[i] == p[j]
    ensures multiset(p)[p[i]] >= 2
  {
    assert p == p[..j] + [p[j]] + p[j + 1..];
    assert p[i] in p[..j];
  }

  lemma ReceivedOnce(r: Trace, x: Held, y: Held)
    requires Sound(r) && x in r.window.pending && y in r.window.pending && x.ext == y.ext
    requires forall j, k :: 0 <= j < k < |r.received| ==> r.received[j].ext != r.received[k].ext
    ensures x == y && multiset(r.received)[x] == 1
  {
    assert x in multiset(r.received) && y in multiset(r.received);
    var j :| 0 <= j < |r.received| && r.received[j] == x;
    var k :| 0 <= k < |r.received| && r.received[k] == y;
    var front, back := r.received[..j], r.received[j + 1..];
    assert r.received == front + [x] + back;
    assert x !in front && x !in back;
  }

  /** Everything released or held was received. */
  lemma AccountedFor(r: Trace, x: Held)
    requires Sound(r)
    ensures x in r.received <==> x in r.released || x in r.window.pending
  {
    assert x in r.received <==> x in multiset(r.received);
    assert x in multiset(r.received) <==> x in multiset(r.released) || x in multiset(r.window.pending);
  }

  lemma InOrderReceive(r: Trace, e: Event, all: seq<Held>)
    requires e.Receive? && Sound(r) && InOrder(r, all) && r.received <= all && Step(r, e).received <= all
    ensures InOrder(Step(r, e), all)
  {
    if |r.window.pending| < WINDOW_CAPACITY {
      var x := Held(e.ext, e.at, e.now);
      assert all[|r.received|] == x;
      assert r.released != [] ==> x.ext > r.window.last.value;
      InsertAdds(r.window.pending, x);
      forall y | y in Step(r, e).window.pending ensures y in r.window.pending || y == x {
        assert y in multiset(Insert(r.window.pending, x));
      }
    }
  }

  /** A packet still to come has not been overtaken by a whole window. */
  lemma TooManyOvertakers(r: Trace, all: seq<Held>, k: nat)
    requires Sound(r) && WithinBounds(all) && r.received <= all && |r.received| <= k < |all|
    requires forall x :: x in r.window.pending ==> x.ext > all[k].ext
    ensures |r.window.pending| < WINDOW_CAPACITY
  {
    var p := r.window.pending;
    PendingDistinct(r);
    AscendingExts(p);
    forall e | e in Exts(p) ensures e in Overtakers(all, k) {
      var x :| x in p && x.ext == e;
      AccountedFor(r, x);
      var j :| 0 <= j < |r.received| && r.received[j] == x;
      assert all[..k][j] == x;
    }
    SubsetSize(Exts(p), Overtakers(all, k));
  }

  /** Whether the gap was closed, the window full or the wait over: whatever is still to come
      lies above the packet that goes out. */
  lemma RestIsAbove(r: Trace, now: int, all: seq<Held>, k: nat)
    requires Sound(r) && InOrder(r, all) && r.released != [] && WithinBounds(all) && r.received <= all
    requires MayRelease(r.window, now) && |r.received| <= k < |all| && now <= all[k].got
    ensures all[k].ext > r.window.pending[0].ext
  {
    var w := r.window;
    AccountedFor(r, w.pending[0]);
    var h :| 0 <= h < |r.received| && r.received[h] == w.pending[0];
    assert all[h] == w.pending[0];
    if all[k].ext < w.pending[0].ext && HasGap(w) {
      if |w.pending| == WINDOW_CAPACITY {
        TooManyOvertakers(r, all, k);
      } else {
        var o := OldestIsHeld(w.pending);
        AccountedFor(r, w.pending[o]);
      }
    }
  }

  lemma InOrderRelease(r: Trace, now: int, all: seq<Held>)
    requires Sound(r) && InOrder(r, all) && WithinBounds(all) && r.received <= all && MayRelease(r.window, now)
    requires forall k :: |r.received| <= k < |all| ==> now <= all[k].got
    requires r.released == [] ==> Smallest(r.window.pending[0], all)
    ensures InOrder(Step(r, Release(now)), all)
  {
    var x := r.window.pending[0];
    PendingDistinct(r);
    AccountedFor(r, x);
    var h :| 0 <= h < |r.received| && r.received[h] == x;
    assert all[h] == x;
    if r.released != [] {
      assert x in r.window.pending;
      forall k | |r.received| <= k < |all| ensures all[k].ext > x.ext {
        RestIsAbove(r, now, all, k);
      }
    }
  }

  lemma {:induction false} InOrderUpTo(run: seq<Trace>, events: seq<Event>, n: nat)
    requires IsRun(run, events) && n <= |events| && Chronological(events) && WithinBounds(run[|events|].received)
    requires run[|events|].released != [] ==> Smallest(run[|events|].released[0], run[|events|].received)
    ensures InOrder(run[n], run[|events|].received)
  {
    if n > 0 {
      var r, e, all := run[n - 1], events[n - 1], run[|events|].received;
      InOrderUpTo(run, events, n - 1);
      RunIsSound(run, events, n - 1);
      ReceivedGrows(run, events, n - 1, |events|);
      ReceivedGrows(run, events, n, |events|);
      if e.Receive? {
        InOrderReceive(r, e, all);
      } else if MayRelease(r.window, e.now) {
        assert run[n].released == r.released + [r.window.pending[0]];
        assert run[|events|].released[|r.released|] == r.window.pending[0];
        InOrderRelease(r, e.now, all);
      }
    }
  }

  /** A release after something was received. */
  predicate Opens(events: seq<Event>, n: nat)
    requires n < |events|
  {
    events[n].Release? && exists j :: 0 <= j < n && events[j].Receive?
  }

  /** The first such release: the one that sends the first packet. */
  predicate OpensAt(events: seq<Event>, n: nat)
    requires n < |events|
  {
    Opens(events, n) && forall i :: 0 <= i < n ==> !Opens(events, i)
  }

  lemma {:induction false} NothingOpened(run: seq<Trace>, events: seq<Event>, n: nat)
    requires IsRun(run, events) && n <= |events| && forall i :: 0 <= i < n ==> !Opens(events, i)
    ensures run[n].released == [] && run[n].window.last.None?
    ensures run[n].window.pending != [] <==> exists j :: 0 <= j < n && events[j].Receive?
  {
    if n > 0 {
      NothingOpened(run, events, n - 1);
      assert run[n] == Step(run[n - 1], events[n - 1]);
      assert !Opens(events, n - 1);
    }
  }

  lemma {:induction false} FirstOpening(run: seq<Trace>, events: seq<Event>, m: nat) returns (n: nat)
    requires IsRun(run, events) && m <= |events| && run[m].released != []
    ensures n < m && OpensAt(events, n)
  {
    if i :| 0 <= i < m - 1 && Opens(events, i) {
      n := FirstOpens(events, i);
    } else {
      n := m - 1;
      if !Opens(events, n) {
        NothingOpened(run, events, m);
      }
    }
  }

  lemma {:induction false} FirstOpens(events: seq<Event>, m: nat) returns (n: nat)
    requires m < |events| && Opens(events, m)
    ensures n <= m && OpensAt(events, n)
  {
    n := m;
    if i :| 0 <= i < m && Opens(events, i) {
      n := FirstOpens(events, i);
    }
  }

  /** The smallest packet of the stream is among these. */
  ghost predicate HasSmallest(s: seq<Held>, all: seq<Held>) {
    exists x :: x in s && Smallest(x, all)
  }

  /** The first packet sent is the smallest of the stream if and only if the smallest had been
      received by then. */
  lemma SmallestGoesFirstIff(run: seq<Trace>, events: seq<Event>, n: nat)
    requires IsRun(run, events) && Chronological(events) && n < |events| && OpensAt(events, n)
    ensures run[|events|].released != []
    ensures Smallest(run[|events|].released[0], run[|events|].received) <==> HasSmallest(run[n].received, run[|events|].received)
  {
    var r, all := run[n], run[|events|].received;
    NothingOpened(run, events, n);
    RunIsSound(run, events, n);
    ReceivedGrows(run, events, n + 1, |events|);
    var x := r.window.pending[0];
    assert run[n + 1] == Step(r, events[n]);
    assert run[n + 1].released == [x] && run[|events|].released[0] == x;
    AccountedFor(r, x);
    if HasSmallest(r.received, all) {
      var y :| y in r.received && Smallest(y, all);
      AccountedFor(r, y);
      assert x.ext <= y.ext;
    }
  }

  /** When the first packet is sent, the smallest one of the stream has been received. */
  ghost predicate SmallestInTime(run: seq<Trace>, events: seq<Event>)
    requires |run| == |events| + 1
  {
    forall n :: 0 <= n < |events| && OpensAt(events, n) ==> HasSmallest(run[n].received, run[|events|].received)
  }

  lemma InTimeIffFirst(run: seq<Trace>, events: seq<Event>)
    requires IsRun(run, events) && Chronological(events)
    ensures SmallestInTime(run, events) <==>
              run[|events|].released == [] || Smallest(run[|events|].released[0], run[|events|].received)
  {
    forall n | 0 <= n < |events| && OpensAt(events, n)
      ensures run[|events|].released != []
      ensures Smallest(run[|events|].released[0], run[|events|].received) <==> HasSmallest(run[n].received, run[|events|].received)
    {
      SmallestGoesFirstIff(run, events, n);
    }
    if run[|events|].released != [] {
      var n := FirstOpening(run, events, |events|);
    }
  }

  /** Reordering within the window's bounds is repaired, whatever else is lost: if the smallest
      packet is received before the first one is sent, then at every moment of every run the
      released numbers are in strictly ascending order, and nothing smaller is held. */
  lemma RepairedInOrder(run: seq<Trace>, events: seq<Event>, n: nat)
    requires IsRun(run, events) && n <= |events| && Chronological(events) && WithinBounds(run[|events|].received)
    requires SmallestInTime(run, events)
    ensures Rising(run[n].released)
    ensures run[n].released != [] ==>
      forall x :: x in run[n].window.pending ==> x.ext > run[n].released[|run[n].released| - 1].ext
  {
    InTimeIffFirst(run, events);
    InOrderUpTo(run, events, n);
  }

  /** The condition is exact: once everything has gone out, each packet went out exactly once,
      and in ascending order if and only if the smallest was received before the first was sent. */
  lemma RepairedCompletely(run: seq<Trace>, events: seq<Event>)
    requires IsRun(run, events) && Chronological(events) && WithinBounds(run[|events|].received)
    requires run[|events|].window.pending == []
    ensures var r := run[|events|];
      && multiset(r.released) == multiset(r.received) && |r.released| == |r.received|
      && (Rising(r.released) <==> SmallestInTime(run, events))
  {
    var r := run[|events|];
    RunIsSound(run, events, |events|);
    assert |multiset(r.released)| == |multiset(r.received)|;
    InTimeIffFirst(run, events);
    if SmallestInTime(run, events) {
      RepairedInOrder(run, events, |events|);
    } else if Rising(r.released) {
      forall k | 0 <= k < |r.received| ensures r.released[0].ext <= r.received[k].ext {
        AccountedFor(r, r.received[k]);
      }
    }
  }

  /** In particular a stream whose first packet is its smallest is repaired. */
  lemma FirstReceivedGoesFirst(run: seq<Trace>, events: seq<Event>)
    requires IsRun(run, events) && Chronological(events)
    requires run[|events|].received != [] ==> Smallest(run[|events|].received[0], run[|events|].received)
    ensures SmallestInTime(run, events)
    ensures run[|events|].released != [] ==> Smallest(run[|events|].released[0], run[|events|].received)
  {
    forall n | 0 <= n < |events| && OpensAt(events, n)
      ensures HasSmallest(run[n].received, run[|events|].received)
    {
      NothingOpened(run, events, n);
      RunIsSound(run, events, n);
      ReceivedGrows(run, events, n, |events|);
      AccountedFor(run[n], run[n].window.pending[0]);
      assert run[n].received[0] == run[|events|].received[0];
    }
    InTimeIffFirst(run, events);
  }

  /** A first packet is not held back for a smaller one: received out of order from the start,
      two packets can go out in the wrong order. */
  lemma FirstPacketIsNotHeldBack(now: int) returns (run: seq<Trace>, events: seq<Event>)
    ensures IsRun(run, events) && Chronological(events) && WithinBounds(run[|events|].received)
    ensures run[|events|].window.pending == [] && !Rising(run[|events|].released)
  {
    var two, one := Held(2, now, now), Held(1, now, now);
    events := [Receive(2, now, now), Release(now), Receive(1, now, now), Release(now)];
    var s0 := Trace(Window([], None), [], []);
    var s1, s2 := Trace(Window([two], None), [two], []), Trace(Window([], Some(2)), [two], [two]);
    var s3, s4 := Trace(Window([one], Some(2)), [two, one], [two]), Trace(Window([], Some(2)), [two, one], [two, one]);
    run := [s0, s1, s2, s3, s4];
    assert s1 == Step(s0, events[0]);
    assert s2 == Step(s1, events[1]);
    assert s3 == Step(s2, events[2]);
    assert s4 == Step(s3, events[3]);
    TwoAreWithinBounds(two, one);
    assert s4.released[0].ext > s4.released[1].ext;
  }

  lemma TwoAreWithinBounds(x: Held, y: Held)
    requires x.ext != y.ext && y.got < x.at + REORDER_WAIT_NS
    ensures WithinBounds([x, y])
  {
    assert Overtakers([x, y], 0) == {};
    SubsetSize(Overtakers([x, y], 1), {x.ext});
  }

  // ------------------------------------------------------- streams that lose nothing

  /** The stream has every number from `first` on. */
  ghost predicate Gapless(s: seq<Held>, first: int) {
    && (forall k :: 0 <= k < |s| ==> first <= s[k].ext < first + |s|)
    && (forall e :: first <= e < first + |s| ==> e in Exts(s))
  }

  /** In a stream that loses nothing, everything up to the newest number has been released. */
  lemma NothingSkipped(r: Trace, all: seq<Held>, first: int, e: int)
    requires Sound(r) && InOrder(r, all) && Gapless(all, first) && r.received <= all && r.released != []
    requires first <= e <= r.window.last.value < first + |all|
    ensures exists i :: 0 <= i < |r.released| && r.released[i].ext == e
  {
    assert e in Exts(all);
    var x :| x in all && x.ext == e;
    var k :| 0 <= k < |all| && all[k] == x;
    assert k < |r.received| && r.received[k] == x;
    AccountedFor(r, x);
  }

  lemma {:induction false} Consecutive(r: Trace, all: seq<Held>, first: int, i: nat)
    requires Sound(r) && InOrder(r, all) && Gapless(all, first) && r.received <= all && i < |r.released|
    ensures r.released[i].ext == first + i
  {
    if i > 0 {
      Consecutive(r, all, first, i - 1);
    }
    var newest := r.released[|r.released| - 1];
    AccountedFor(r, newest);
    AccountedFor(r, r.released[i]);
    assert newest in all && r.released[i] in all;
    NothingSkipped(r, all, first, first + i);
    var j :| 0 <= j < |r.released| && r.released[j].ext == first + i;
  }

  /** Such a stream comes out consecutively from its first number on, at every moment. */
  lemma LosslessIsConsecutive(run: seq<Trace>, events: seq<Event>, n: nat, first: int, i: nat)
    requires IsRun(run, events) && n <= |events| && Chronological(events) && WithinBounds(run[|events|].received)
    requires SmallestInTime(run, events)
    requires Gapless(run[|events|].received, first) && i < |run[n].released|
    ensures run[n].released[i].ext == first + i
  {
    InTimeIffFirst(run, events);
    InOrderUpTo(run, events, n);
    RunIsSound(run, events, n);
    ReceivedGrows(run, events, n, |events|);
    Consecutive(run[n], run[|events|].received, first, i);
  }
}
