/** The generation-stamped ring of packet timestamps: one writer stores each entry field by
    field, readers snapshot it without any lock. */
module PacketLog {
  const WINDOW := 1000
  const FIELDS := 9

  datatype Entry = Entry(number: int, rtpTs: int, payloadType: int, ssrc: int, payloadBytes: int,
                         padding: int, paddingBytes: int, rxNs: int, txNs: int)

  /** The words an entry is stored as, in the order they are stored. */
  function Words(e: Entry): (w: seq<int>)
    ensures |w| == FIELDS
  {
    [e.number, e.rtpTs, e.payloadType, e.ssrc, e.payloadBytes, e.padding, e.paddingBytes, e.rxNs, e.txNs]
  }

  lemma WordsAreFaithful(a: Entry, b: Entry)
    requires Words(a) == Words(b)
    ensures a == b
  {
  }

  /** How many entries a reader gets: a negative limit converts to a huge unsigned one. */
  function Wanted(limit: int, written: nat): (n: nat)
    ensures n <= written && n <= WINDOW
  {
    var count := if written < WINDOW then written else WINDOW;
    if limit < 0 || limit > count then count else limit
  }

  // ------------------------------------------------------- alone: exactly the last entries

  class Ring {
    const generation: array<nat>
    const entries: array<Entry>
    var writeCount: nat
    ghost var history: seq<Entry>

    ghost predicate Valid()
      reads this, generation, entries
    {
      && generation.Length == WINDOW && entries.Length == WINDOW && |history| == writeCount
      && forall p :: 0 <= p < writeCount && p + WINDOW >= writeCount ==> Published(p)
    }

    ghost predicate Published(p: nat)
      requires generation.Length == WINDOW && entries.Length == WINDOW && p < |history|
      reads this, generation, entries
    {
      generation[p % WINDOW] == 2 * p + 2 && entries[p % WINDOW] == history[p]
    }

    constructor ()
      ensures Valid() && history == []
      ensures fresh(generation) && fresh(entries)
    {
      generation := new nat[WINDOW](_ => 0);
      entries := new Entry[WINDOW](_ => Entry(0, 0, 0, 0, 0, 0, 0, 0, 0));
      writeCount, history := 0, [];
    }

    method Record(entry: Entry)
      requires Valid()
      modifies this, generation, entries
      ensures Valid() && history == old(history) + [entry]
    {
      var position := writeCount;
      var slot := position % WINDOW;
      generation[slot] := 2 * position + 1;
      entries[slot] := entry;
      generation[slot] := 2 * position + 2;
      writeCount := position + 1;
      history := history + [entry];
      forall p | 0 <= p < writeCount && p + WINDOW >= writeCount
        ensures Published(p)
      {
        if p < position {
          assert old(Published(p));
        }
      }
    }

    /** The most recent entries, oldest first. */
    method Last(limit: int) returns (out: seq<Entry>)
      requires Valid()
      ensures out == history[|history| - Wanted(limit, |history|)..]
    {
      var written := writeCount;
      var count := if written < WINDOW then written else WINDOW;
      var n := if limit < 0 || limit > count then count else limit;
      out := [];
      var start := written - n;
      for position := start to written
        invariant out == history[start..position]
      {
        assert Published(position);
        if generation[position % WINDOW] == 2 * position + 2 {
          out := out + [entries[position % WINDOW]];
        }
      }
    }
  }

  // ------------------------------------------------------- reading while the writer runs

  datatype Slot = Slot(generation: nat, words: seq<int>)

  /** What the writer stores next for position `writeCount`: first the odd generation, then word
      by word, then the even generation, then the count. */
  datatype Writer = Resting | Opening | Storing(field: nat) | Closing | Counting

  /** What the reader loads next for `position`: the generation, then word by word, then the
      generation again. `taken` are the entries it has accepted, with their positions. */
  datatype Reader =
    | Off(start: nat, total: nat, taken: seq<(nat, seq<int>)>)
    | Checking(start: nat, total: nat, position: nat, taken: seq<(nat, seq<int>)>)
    | Loading(start: nat, total: nat, position: nat, taken: seq<(nat, seq<int>)>, words: seq<int>)

  /** `history` holds every entry whose recording has begun. */
  datatype State = State(slots: seq<Slot>, writeCount: nat, history: seq<Entry>, writer: Writer, reader: Reader)

  datatype Action = Begin(entry: Entry) | Write | Read(limit: int) | Load

  function SetSlot(s: State, slot: Slot): State
    requires |s.slots| == WINDOW
  {
    s.(slots := s.slots[s.writeCount % WINDOW := slot])
  }

  function WriterStep(s: State): State
    requires Shaped(s)
  {
    var slot := s.slots[s.writeCount % WINDOW];
    match s.writer
    case Resting => s
    case Opening => SetSlot(s, slot.(generation := 2 * s.writeCount + 1)).(writer := Storing(0))
    case Storing(field) =>
      if field >= FIELDS then s
      else SetSlot(s, slot.(words := slot.words[field := Words(s.history[s.writeCount])[field]]))
           .(writer := if field + 1 < FIELDS then Storing(field + 1) else Closing)
    case Closing => SetSlot(s, slot.(generation := 2 * s.writeCount + 2)).(writer := Counting)
    case Counting => s.(writeCount := s.writeCount + 1, writer := Resting)
  }

  function ReaderStep(s: State): State
    requires Shaped(s)
  {
    match s.reader
    case Off(_, _, _) => s
    case Checking(start, total, position, taken) =>
      if position >= total then s.(reader := Off(start, total, taken))
      else if s.slots[position % WINDOW].generation != 2 * position + 2 then
        s.(reader := Checking(start, total, position + 1, taken))
      else s.(reader := Loading(start, total, position, taken, []))
    case Loading(start, total, position, taken, words) =>
      if |words| < FIELDS then
        s.(reader := Loading(start, total, position, taken, words + [s.slots[position % WINDOW].words[|words|]]))
      else if s.slots[position % WINDOW].generation == 2 * position + 2 then
        s.(reader := Checking(start, total, position + 1, taken + [(position, words)]))
      else s.(reader := Checking(start, total, position + 1, taken))
  }

  function Next(s: State, a: Action): State
    requires Shaped(s)
  {
    match a
    case Begin(entry) => if s.writer.Resting? then s.(writer := Opening, history := s.history + [entry]) else s
    case Write => WriterStep(s)
    case Read(limit) =>
      if s.reader.Off? then
        var start := s.writeCount - Wanted(limit, s.writeCount);
        s.(reader := Checking(start, s.writeCount, start, []))
      else s
    case Load => ReaderStep(s)
  }

  predicate Shaped(s: State) {
    && |s.slots| == WINDOW && (forall x :: 0 <= x < WINDOW ==> |s.slots[x].words| == FIELDS)
    && |s.history| == s.writeCount + (if s.writer.Resting? then 0 else 1)
  }

  predicate Fresh(s: State) {
    && |s.slots| == WINDOW && (forall x :: 0 <= x < WINDOW ==> s.slots[x].generation == 0 && |s.slots[x].words| == FIELDS)
    && s.writeCount == 0 && s.history == [] && s.writer == Resting && s.reader == Off(0, 0, [])
  }

  ghost predicate IsRun(run: seq<State>, actions: seq<Action>) {
    && |run| == |actions| + 1 && Fresh(run[0])
    && forall i {:trigger actions[i]} :: 0 <= i < |actions| ==> Shaped(run[i]) && run[i + 1] == Next(run[i], actions[i])
  }

  // ---------------------------------------------------------------- invariant

  /** The slot is being rewritten: it shows an odd generation and the words stored so far. */
  predicate Torn(s: State, x: nat)
    requires Shaped(s) && x < WINDOW
  {
    var w := s.writeCount;
    && (s.writer.Storing? || s.writer.Closing?) && x == w % WINDOW && s.slots[x].generation == 2 * w + 1
    && (s.writer.Storing? ==> s.writer.field < FIELDS && s.slots[x].words[..s.writer.field] == Words(s.history[w])[..s.writer.field])
    && (s.writer.Closing? ==> s.slots[x].words == Words(s.history[w]))
  }

  /** The slot shows one whole entry. */
  predicate Whole(s: State, x: nat)
    requires Shaped(s) && x < WINDOW
  {
    var g := s.slots[x].generation;
    && g > 0 && g % 2 == 0 && g / 2 - 1 < |s.history| && (g / 2 - 1) % WINDOW == x
    && s.slots[x].words == Words(s.history[g / 2 - 1])
  }

  predicate SlotInv(s: State, x: nat)
    requires Shaped(s) && x < WINDOW
  {
    if (s.writer.Storing? || s.writer.Closing?) && x == s.writeCount % WINDOW then Torn(s, x)
    else s.slots[x].generation == 0 || Whole(s, x)
  }

  /** A recorded position's slot never shows an older entry. */
  predicate Recorded(s: State, p: nat)
    requires Shaped(s)
  {
    s.slots[p % WINDOW].generation >= 2 * p + 2
  }

  /** The position the writer is storing: while it is, the slot does not show a later entry. */
  predicate WriterInv(s: State)
    requires Shaped(s)
  {
    && (s.writer.Opening? ==> s.slots[s.writeCount % WINDOW].generation <= 2 * s.writeCount)
    && (s.writer.Counting? ==> s.slots[s.writeCount % WINDOW].generation == 2 * s.writeCount + 2)
    && (s.writer.Resting? ==> s.slots[s.writeCount % WINDOW].generation <= 2 * s.writeCount)
  }

  predicate TakenAt(taken: seq<(nat, seq<int>)>, p: nat) {
    exists i :: 0 <= i < |taken| && taken[i].0 == p
  }

  /** A position is left out only if the writer has come around to it again. */
  predicate Covered(history: seq<Entry>, taken: seq<(nat, seq<int>)>, p: nat) {
    TakenAt(taken, p) || p + WINDOW < |history|
  }

  predicate TakenInv(history: seq<Entry>, taken: seq<(nat, seq<int>)>, start: nat, position: nat) {
    && (forall i :: 0 <= i < |taken| ==>
          start <= taken[i].0 < position && taken[i].0 < |history| && taken[i].1 == Words(history[taken[i].0]))
    && (forall i, j :: 0 <= i < j < |taken| ==> taken[i].0 < taken[j].0)
    && (forall p :: start <= p < position ==> Covered(history, taken, p))
  }

  predicate ReaderInv(s: State)
    requires Shaped(s)
  {
    match s.reader
    case Off(start, total, taken) => start <= total <= s.writeCount && TakenInv(s.history, taken, start, total)
    case Checking(start, total, position, taken) =>
      start <= position <= total <= s.writeCount && TakenInv(s.history, taken, start, position)
    case Loading(start, total, position, taken, words) =>
      && start <= position < total <= s.writeCount && TakenInv(s.history, taken, start, position) && |words| <= FIELDS
      && (s.slots[position % WINDOW].generation == 2 * position + 2 ==> words == Words(s.history[position])[..|words|])
  }

  predicate Inv(s: State) {
    && Shaped(s)
    && (forall x :: 0 <= x < WINDOW ==> SlotInv(s, x))
    && (forall p :: 0 <= p < s.writeCount ==> Recorded(s, p))
    && WriterInv(s) && ReaderInv(s)
  }

  lemma SlotWrite(s: State, x: nat)
    requires Shaped(s) && WriterInv(s) && x < WINDOW && SlotInv(s, x)
    ensures Shaped(WriterStep(s)) && SlotInv(WriterStep(s), x)
  {
    var t, w := WriterStep(s), s.writeCount;
    if s.writer.Storing? && x == w % WINDOW {
      var f, target := s.writer.field, Words(s.history[w]);
      assert t.slots[x].words[..f + 1] == s.slots[x].words[..f] + [target[f]] == target[..f + 1];
      if f + 1 == FIELDS {
        assert t.slots[x].words == t.slots[x].words[..FIELDS];
        assert target == target[..FIELDS];
      }
    }
  }

  lemma WriterWrite(s: State)
    requires Shaped(s) && WriterInv(s) && SlotInv(s, s.writeCount % WINDOW) && SlotInv(s, (s.writeCount + 1) % WINDOW)
    ensures Shaped(WriterStep(s)) && WriterInv(WriterStep(s))
  {
  }

  lemma RecordedWrite(s: State, p: nat)
    requires Shaped(s) && WriterInv(s) && SlotInv(s, s.writeCount % WINDOW) && p < WriterStep(s).writeCount
    requires p < s.writeCount ==> Recorded(s, p)
    ensures Shaped(WriterStep(s)) && Recorded(WriterStep(s), p)
  {
  }

  lemma TakenGrows(history: seq<Entry>, more: seq<Entry>, taken: seq<(nat, seq<int>)>, start: nat, position: nat)
    requires TakenInv(history, taken, start, position) && history <= more
    ensures TakenInv(more, taken, start, position)
  {
    assert forall p :: Covered(history, taken, p) ==> Covered(more, taken, p);
  }

  /** Whatever the writer stores, the reader's words stay right for as long as they can matter. */
  lemma ReaderDuringWrite(s: State)
    requires Shaped(s) && WriterInv(s) && SlotInv(s, s.writeCount % WINDOW) && ReaderInv(s)
    ensures Shaped(WriterStep(s)) && ReaderInv(WriterStep(s))
  {
  }

  /** A slot that no longer shows a recorded position has been taken over by a later one. */
  lemma Overtaken(s: State, p: nat)
    requires Shaped(s) && p < s.writeCount && SlotInv(s, p % WINDOW) && Recorded(s, p)
    requires s.slots[p % WINDOW].generation != 2 * p + 2
    ensures p + WINDOW < |s.history|
  {
  }

  /** A slot that shows a position shows that position's entry. */
  lemma Shown(s: State, p: nat)
    requires Shaped(s) && SlotInv(s, p % WINDOW) && s.slots[p % WINDOW].generation == 2 * p + 2
    ensures p < |s.history| && s.slots[p % WINDOW].words == Words(s.history[p])
  {
  }

  lemma TakeOne(history: seq<Entry>, taken: seq<(nat, seq<int>)>, start: nat, position: nat, words: seq<int>)
    requires TakenInv(history, taken, start, position) && start <= position < |history| && words == Words(history[position])
    ensures TakenInv(history, taken + [(position, words)], start, position + 1)
  {
    var more := taken + [(position, words)];
    assert more[|taken|].0 == position;
    assert TakenAt(more, position);
    forall p | start <= p < position
      ensures Covered(history, more, p)
    {
      assert Covered(history, taken, p);
      if TakenAt(taken, p) {
        var i :| 0 <= i < |taken| && taken[i].0 == p;
        assert more[i].0 == p;
      }
    }
  }

  lemma SkipOne(history: seq<Entry>, taken: seq<(nat, seq<int>)>, start: nat, position: nat)
    requires TakenInv(history, taken, start, position) && position + WINDOW < |history|
    ensures TakenInv(history, taken, start, position + 1)
  {
  }

  lemma ReaderLoad(s: State)
    requires Shaped(s) && ReaderInv(s)
    requires !s.reader.Off? && s.reader.position < s.reader.total ==>
               SlotInv(s, s.reader.position % WINDOW) && Recorded(s, s.reader.position)
    ensures ReaderInv(ReaderStep(s))
  {
    var r := s.reader;
    if !r.Off? && r.position < r.total {
      var p := r.position;
      if s.slots[p % WINDOW].generation != 2 * p + 2 {
        Overtaken(s, p);
        SkipOne(s.history, r.taken, r.start, p);
      } else {
        Shown(s, p);
        if r.Loading? {
          LoadWords(s);
        }
      }
    }
  }

  lemma LoadWords(s: State)
    requires Shaped(s) && ReaderInv(s) && s.reader.Loading?
    requires s.reader.position < |s.history|
    requires s.slots[s.reader.position % WINDOW] == Slot(2 * s.reader.position + 2, Words(s.history[s.reader.position]))
    ensures ReaderInv(ReaderStep(s))
  {
    var r := s.reader;
    var target := Words(s.history[r.position]);
    if |r.words| < FIELDS {
      assert r.words + [target[|r.words|]] == target[..|r.words| + 1];
    } else {
      assert r.words == target;
      TakeOne(s.history, r.taken, r.start, r.position, r.words);
    }
  }

  lemma InvWrite(s: State)
    requires Inv(s)
    ensures Inv(WriterStep(s))
  {
    var t := WriterStep(s);
    assert SlotInv(s, s.writeCount % WINDOW) && SlotInv(s, (s.writeCount + 1) % WINDOW);
    WriterWrite(s);
    ReaderDuringWrite(s);
    forall x | 0 <= x < WINDOW
      ensures SlotInv(t, x)
    {
      SlotWrite(s, x);
    }
    forall p | 0 <= p < t.writeCount
      ensures Recorded(t, p)
    {
      RecordedWrite(s, p);
    }
  }

  lemma InvBegin(s: State, entry: Entry)
    requires Inv(s)
    ensures Inv(Next(s, Begin(entry)))
  {
    var t := Next(s, Begin(entry));
    TakenGrows(s.history, t.history, s.reader.taken, s.reader.start, if s.reader.Off? then s.reader.total else s.reader.position);
    forall x | 0 <= x < WINDOW
      ensures SlotInv(t, x)
    {
      assert SlotInv(s, x);
    }
    forall p | 0 <= p < t.writeCount
      ensures Recorded(t, p)
    {
      assert Recorded(s, p);
    }
  }

  /** The reader changes nothing that the writer or the slots depend on. */
  lemma ReaderOnly(s: State, reader: Reader)
    requires Inv(s) && ReaderInv(s.(reader := reader))
    ensures Inv(s.(reader := reader))
  {
    var t := s.(reader := reader);
    forall x | 0 <= x < WINDOW
      ensures SlotInv(t, x)
    {
      assert SlotInv(s, x);
    }
    forall p | 0 <= p < t.writeCount
      ensures Recorded(t, p)
    {
      assert Recorded(s, p);
    }
  }

  lemma InvRead(s: State, a: Action)
    requires Inv(s) && (a.Read? || a.Load?)
    ensures Inv(Next(s, a))
  {
    if !s.reader.Off? && s.reader.position < s.reader.total {
      assert SlotInv(s, s.reader.position % WINDOW) && Recorded(s, s.reader.position);
    }
    ReaderLoad(s);
    ReaderOnly(s, Next(s, a).reader);
  }

  lemma InvStep(s: State, a: Action)
    requires Inv(s)
    ensures Inv(Next(s, a))
  {
    match a
    case Begin(entry) => InvBegin(s, entry);
    case Write => InvWrite(s);
    case Read(_) => InvRead(s, a);
    case Load => InvRead(s, a);
  }

  lemma {:induction false} RunInv(run: seq<State>, actions: seq<Action>, n: nat)
    requires IsRun(run, actions) && n < |run|
    ensures Inv(run[n])
  {
    if n == 0 {
    } else {
      RunInv(run, actions, n - 1);
      InvStep(run[n - 1], actions[n - 1]);
    }
  }

  // ----------------------------------------------------------------- theorems

  /** Whatever the writer does meanwhile, everything a reader returns is exactly the entry
      recorded at one position of its window, in ascending order of position; and it leaves a
      position of the window out only if the writer has begun to record over it. */
  lemma SnapshotIsFaithful(run: seq<State>, actions: seq<Action>, n: nat, i: nat, p: nat)
    requires IsRun(run, actions) && n < |run| && run[n].reader.Off?
    ensures var r, history := run[n].reader, run[n].history;
      && (i < |r.taken| ==>
            r.start <= r.taken[i].0 < r.total && r.taken[i].0 < |history| && r.taken[i].1 == Words(history[r.taken[i].0]))
      && (0 < i < |r.taken| ==> r.taken[i - 1].0 < r.taken[i].0)
      && (r.start <= p < r.total ==> TakenAt(r.taken, p) || p + WINDOW < |history|)
  {
    RunInv(run, actions, n);
    if run[n].reader.start <= p < run[n].reader.total {
      assert Covered(run[n].history, run[n].reader.taken, p);
    }
  }

  /** How many own steps the writer still needs for the entry it is recording. */
  function WriterLeft(w: Writer): nat {
    match w
    case Resting => 0
    case Counting => 1
    case Closing => 2
    case Storing(field) => if field < FIELDS then 2 + FIELDS - field else 2
    case Opening => 3 + FIELDS
  }

  /** The writer never waits: an entry is begun whenever none is under way, every own step brings
      its end nearer, and at the end the count has grown by one. */
  lemma WriterNeverBlocks(run: seq<State>, actions: seq<Action>, n: nat)
    requires IsRun(run, actions) && n < |actions|
    ensures actions[n].Begin? && run[n].writer.Resting? ==>
      run[n + 1].writer.Opening? && run[n + 1].history == run[n].history + [actions[n].entry]
    ensures actions[n].Write? && !run[n].writer.Resting? ==>
      && WriterLeft(run[n + 1].writer) < WriterLeft(run[n].writer) && run[n + 1].history == run[n].history
      && run[n + 1].writeCount == run[n].writeCount + (if run[n + 1].writer.Resting? then 1 else 0)
  {
    RunInv(run, actions, n);
    if run[n].writer.Storing? {
      assert SlotInv(run[n], run[n].writeCount % WINDOW);
    }
    assert run[n + 1] == Next(run[n], actions[n]);
  }

  /** A read looks at exactly the last entries recorded when it was called: all of the window, or as
      many as asked for; and it keeps to that window until it ends. */
  lemma ReadWindow(run: seq<State>, actions: seq<Action>, n: nat)
    requires IsRun(run, actions) && n < |actions|
    ensures actions[n].Read? && run[n].reader.Off? ==>
      var r, written, limit := run[n + 1].reader, run[n].writeCount, actions[n].limit;
      && r.Checking? && r.total == written && r.position == r.start <= r.total && r.taken == []
      && (limit < 0 ==> r.total - r.start == if written < WINDOW then written else WINDOW)
      && (limit >= 0 ==> r.total - r.start <= limit && r.total - r.start <= WINDOW
                         && (r.total - r.start == limit || r.total - r.start == WINDOW || r.start == 0))
    ensures !(actions[n].Read? && run[n].reader.Off?) ==>
      run[n + 1].reader.start == run[n].reader.start && run[n + 1].reader.total == run[n].reader.total
  {
    assert run[n + 1] == Next(run[n], actions[n]);
  }

  /** How many own steps the reader still needs. */
  function ReaderLeft(r: Reader): int {
    match r
    case Off(_, _, _) => 0
    case Checking(_, total, position, _) => 1 + (total - position) * (FIELDS + 2)
    case Loading(_, total, position, _, words) => (total - position) * (FIELDS + 2) - |words|
  }

  /** A reader never waits for the writer: every own step brings its end nearer. */
  lemma ReaderNeverBlocks(run: seq<State>, actions: seq<Action>, n: nat)
    requires IsRun(run, actions) && n < |actions| && actions[n].Load? && !run[n].reader.Off?
    ensures 0 <= ReaderLeft(run[n + 1].reader) < ReaderLeft(run[n].reader)
  {
    RunInv(run, actions, n);
    assert run[n + 1] == Next(run[n], actions[n]);
  }
}
