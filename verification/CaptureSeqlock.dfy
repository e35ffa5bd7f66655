/** The seqlock around the RTP-to-capture-clock mapping: any number of writers and a reader
    that gives up after four attempts, interleaved one atomic load or store at a time. */
module CaptureSeqlock {
  import opened Collections

  const FIELDS := 3
  const ATTEMPTS := 4

  /** One observation: RTP time, NTP capture time, and when it was observed. */
  datatype Mapping = Mapping(rtp: int, ntp: int, observed: int)

  function Words(m: Mapping): (w: seq<int>)
    ensures |w| == FIELDS
  {
    [m.rtp, m.ntp, m.observed]
  }

  /** A writer inside ObserveCapture: about to load the version, about to try to lock it, or
      holding the lock and about to store a field (or, after the last one, the new version). */
  datatype Writer =
    | Away
    | Polling(mapping: Mapping)
    | Locking(mapping: Mapping, seen: nat)
    | Storing(mapping: Mapping, seen: nat, field: nat)

  /** The reader inside captureMapping, with the attempts it has left and the number of
      mappings that had been published when it was called. */
  datatype Reader =
    | Returned(since: nat, result: Option<seq<int>>)
    | Looking(since: nat, left: nat)
    | Loading(since: nat, left: nat, before: nat, words: seq<int>)

  /** `log` is every mapping whose writer has released the lock, in that order. */
  datatype State = State(version: nat, words: seq<int>, writers: seq<Writer>, reader: Reader, log: seq<Mapping>)

  datatype Action = Observe(w: nat, mapping: Mapping) | Step(w: nat) | Ask | Load

  function SetWriter(s: State, w: nat, writer: Writer): State
    requires w < |s.writers|
  {
    s.(writers := s.writers[w := writer])
  }

  function WriterStep(s: State, w: nat): State
    requires w < |s.writers|
  {
    match s.writers[w]
    case Away => s
    case Polling(m) => if s.version % 2 != 0 then s else SetWriter(s, w, Locking(m, s.version))
    case Locking(m, seen) =>
      if s.version == seen then SetWriter(s, w, Storing(m, seen, 0)).(version := seen + 1)
      else SetWriter(s, w, Polling(m))
    case Storing(m, seen, field) =>
      if field < FIELDS && field < |s.words| then
        SetWriter(s, w, Storing(m, seen, field + 1)).(words := s.words[field := Words(m)[field]])
      else SetWriter(s, w, Away).(version := seen + 2, log := s.log + [m])
  }

  function ReaderStep(s: State): State {
    match s.reader
    case Returned(_, _) => s
    case Looking(since, left) =>
      if left == 0 then s.(reader := Returned(since, None))
      else if s.version == 0 || s.version % 2 != 0 then s.(reader := Looking(since, left - 1))
      else s.(reader := Loading(since, left - 1, s.version, []))
    case Loading(since, left, before, words) =>
      if |words| < FIELDS && |words| < |s.words| then
        s.(reader := Loading(since, left, before, words + [s.words[|words|]]))
      else if s.version == before then s.(reader := Returned(since, Some(words)))
      else s.(reader := Looking(since, left))
  }

  function Next(s: State, a: Action): State {
    match a
    case Observe(w, m) => if w < |s.writers| && s.writers[w].Away? then SetWriter(s, w, Polling(m)) else s
    case Step(w) => if w < |s.writers| then WriterStep(s, w) else s
    case Ask => if s.reader.Returned? then s.(reader := Looking(|s.log|, ATTEMPTS)) else s
    case Load => ReaderStep(s)
  }

  predicate Fresh(s: State) {
    && s.version == 0 && |s.words| == FIELDS && s.log == [] && s.reader == Returned(0, None)
    && forall w :: 0 <= w < |s.writers| ==> s.writers[w].Away?
  }

  ghost predicate IsRun(run: seq<State>, actions: seq<Action>) {
    && |run| == |actions| + 1 && Fresh(run[0])
    && forall i {:trigger actions[i]} :: 0 <= i < |actions| ==> run[i + 1] == Next(run[i], actions[i])
  }

  // ---------------------------------------------------------------- invariant

  predicate Holds(s: State, w: nat) {
    w < |s.writers| && s.writers[w].Storing?
  }

  /** The lock holder locked the version that was there, and has stored a prefix of its words. */
  predicate HolderInv(s: State, w: nat)
    requires |s.words| == FIELDS && Holds(s, w)
  {
    var h := s.writers[w];
    && s.version == h.seen + 1 && h.seen % 2 == 0 && h.field <= FIELDS
    && s.words[..h.field] == Words(h.mapping)[..h.field]
  }

  predicate VersionInv(s: State) {
    && |s.words| == FIELDS && |s.log| == s.version / 2
    && (s.version % 2 == 0 && s.version > 0 ==> s.words == Words(s.log[s.version / 2 - 1]))
  }

  ghost predicate WritersInv(s: State)
    requires |s.words| == FIELDS
  {
    && (forall w :: Holds(s, w) ==> HolderInv(s, w))
    && (forall w, v :: Holds(s, w) && Holds(s, v) ==> w == v)
    && (forall w :: 0 <= w < |s.writers| && s.writers[w].Locking? ==> s.writers[w].seen % 2 == 0)
  }

  /** These are the fields of one published mapping, no older than the newest one at the call. */
  predicate Answered(log: seq<Mapping>, since: nat, words: seq<int>) {
    exists i :: 0 <= i < |log| && since <= i + 1 && words == Words(log[i])
  }

  predicate ReaderInv(s: State) {
    match s.reader
    case Returned(since, result) => result.Some? ==> Answered(s.log, since, result.value)
    case Looking(since, _) => since <= |s.log|
    case Loading(since, _, before, words) =>
      && 0 < before <= s.version && before % 2 == 0 && |words| <= FIELDS && since <= before / 2 <= |s.log|
      && (s.version == before ==> words == Words(s.log[before / 2 - 1])[..|words|])
  }

  ghost predicate Inv(s: State) {
    VersionInv(s) && WritersInv(s) && ReaderInv(s)
  }

  lemma StoreStep(s: State, w: nat)
    requires VersionInv(s) && WritersInv(s) && Holds(s, w)
    ensures VersionInv(WriterStep(s, w)) && WritersInv(WriterStep(s, w))
  {
    assert HolderInv(s, w);
    var t, h := WriterStep(s, w), s.writers[w];
    forall v | Holds(t, v)
      ensures v == w
    {
      assert Holds(s, v);
    }
    if h.field < FIELDS {
      assert t.words[..h.field + 1] == s.words[..h.field] + [Words(h.mapping)[h.field]] == Words(h.mapping)[..h.field + 1];
    } else {
      assert s.words == s.words[..FIELDS] && Words(h.mapping) == Words(h.mapping)[..FIELDS];
    }
  }

  lemma LockStep(s: State, w: nat)
    requires VersionInv(s) && WritersInv(s) && w < |s.writers| && !Holds(s, w)
    ensures VersionInv(WriterStep(s, w)) && WritersInv(WriterStep(s, w))
  {
    var t := WriterStep(s, w);
    forall v | Holds(t, v) && v != w
      ensures Holds(s, v) && HolderInv(s, v) && !Holds(t, w)
    {
      assert Holds(s, v);
    }
  }

  /** A version that changed while the reader was loading never comes back. */
  lemma ReaderDuringWrite(s: State, w: nat)
    requires Inv(s) && w < |s.writers|
    ensures ReaderInv(WriterStep(s, w))
  {
    if Holds(s, w) {
      assert HolderInv(s, w);
    }
    if s.reader.Returned? && s.reader.result.Some? {
      var i :| 0 <= i < |s.log| && s.reader.since <= i + 1 && s.reader.result.value == Words(s.log[i]);
      assert WriterStep(s, w).log[i] == s.log[i];
    }
  }

  lemma InvStep(s: State, a: Action)
    requires Inv(s)
    ensures Inv(Next(s, a))
  {
    match a
    case Observe(w, m) =>
      var t := Next(s, a);
      assert forall v :: Holds(t, v) ==> Holds(s, v) && HolderInv(s, v);
    case Step(w) =>
      if w < |s.writers| {
        ReaderDuringWrite(s, w);
        if Holds(s, w) {
          StoreStep(s, w);
        } else {
          LockStep(s, w);
        }
      }
    case Ask => ReaderOnly(s, Next(s, a).reader);
    case Load =>
      ReaderOnly(s, Next(s, a).reader);
  }

  lemma ReaderOnly(s: State, reader: Reader)
    requires Inv(s) && ReaderInv(s.(reader := reader))
    ensures Inv(s.(reader := reader))
  {
    var t := s.(reader := reader);
    assert forall v :: Holds(t, v) ==> Holds(s, v) && HolderInv(s, v);
  }

  lemma {:induction false} RunInv(run: seq<State>, actions: seq<Action>, n: nat)
    requires IsRun(run, actions) && n < |run|
    ensures Inv(run[n])
  {
    if n > 0 {
      RunInv(run, actions, n - 1);
      InvStep(run[n - 1], actions[n - 1]);
    }
  }

  // ----------------------------------------------------------------- theorems

  /** However many writers interleave, a reader returns the three fields of one observation,
      and no observation that had already been superseded when it was called. */
  lemma ReadsOneObservation(run: seq<State>, actions: seq<Action>, n: nat)
    requires IsRun(run, actions) && n < |run|
    requires run[n].reader.Returned? && run[n].reader.result.Some?
    ensures exists i :: 0 <= i < |run[n].log| && run[n].reader.since <= i + 1
                        && run[n].reader.result.value == Words(run[n].log[i])
  {
    RunInv(run, actions, n);
    assert Answered(run[n].log, run[n].reader.since, run[n].reader.result.value);
  }

  /** At most one writer is ever between locking and releasing the version. */
  lemma OneWriterAtATime(run: seq<State>, actions: seq<Action>, n: nat, w: nat, v: nat)
    requires IsRun(run, actions) && n < |run| && Holds(run[n], w) && Holds(run[n], v)
    ensures w == v && run[n].version % 2 == 1
  {
    RunInv(run, actions, n);
    assert HolderInv(run[n], w);
  }

  /** Without a writer the first attempt succeeds as soon as anything has been observed. */
  lemma QuietReadSucceeds(s: State)
    requires Inv(s) && s.version > 0 && s.version % 2 == 0 && s.reader == Looking(|s.log|, ATTEMPTS)
    ensures ReaderStep(ReaderStep(ReaderStep(ReaderStep(ReaderStep(s))))).reader
         == Returned(|s.log|, Some(Words(s.log[|s.log| - 1])))
  {
    var w := s.words;
    assert [] + [w[0]] + [w[1]] + [w[2]] == w;
  }

  /** Steps of one writer alone. */
  function WriterSteps(s: State, w: nat, n: nat): (t: State)
    requires w < |s.writers|
    ensures |t.writers| == |s.writers|
  {
    if n == 0 then s else WriterStep(WriterSteps(s, w, n - 1), w)
  }

  /** A writer that nobody disturbs publishes its observation in six steps, and nothing else. */
  lemma QuietWriteSucceeds(s: State, w: nat, m: Mapping)
    requires Inv(s) && w < |s.writers| && s.writers[w] == Polling(m) && s.version % 2 == 0
    ensures var t := WriterSteps(s, w, 6);
      t.writers[w] == Away && t.log == s.log + [m] && t.words == Words(m) && t.version == s.version + 2 && t.reader == s.reader
  {
    var s1 := SetWriter(s, w, Locking(m, s.version));
    assert WriterSteps(s, w, 1) == s1;
    var s2 := SetWriter(s1, w, Storing(m, s.version, 0)).(version := s.version + 1);
    assert WriterSteps(s, w, 2) == s2;
    var s3 := SetWriter(s2, w, Storing(m, s.version, 1)).(words := s2.words[0 := m.rtp]);
    assert WriterSteps(s, w, 3) == s3;
    var s4 := SetWriter(s3, w, Storing(m, s.version, 2)).(words := s3.words[1 := m.ntp]);
    assert WriterSteps(s, w, 4) == s4;
    var s5 := SetWriter(s4, w, Storing(m, s.version, 3)).(words := s4.words[2 := m.observed]);
    assert WriterSteps(s, w, 5) == s5;
    assert s5.words == Words(m);
    assert WriterSteps(s, w, 6) == SetWriter(s5, w, Away).(version := s.version + 2, log := s.log + [m]);
  }

  /** How many own steps a writer still needs if it is not overtaken. */
  function WriterLeft(s: State, writer: Writer): nat {
    match writer
    case Away => 0
    case Storing(_, _, field) => if field < FIELDS then 1 + FIELDS - field else 1
    case Locking(_, seen) => if seen == s.version then 2 + FIELDS else 4 + FIELDS
    case Polling(_) => 3 + FIELDS
  }

  /** A writer is held up only while another one holds the lock: otherwise its own next step brings
      its end nearer, and the holder's own steps always do. */
  lemma WriterNeverBlocks(run: seq<State>, actions: seq<Action>, n: nat, w: nat)
    requires IsRun(run, actions) && n < |actions| && actions[n] == Step(w) && w < |run[n].writers| && !run[n].writers[w].Away?
    requires run[n].version % 2 == 0 || Holds(run[n], w)
    ensures w < |run[n + 1].writers| && WriterLeft(run[n + 1], run[n + 1].writers[w]) < WriterLeft(run[n], run[n].writers[w])
    ensures run[n + 1].writers[w].Away? ==> run[n].writers[w].Storing? && run[n + 1].log == run[n].log + [run[n].writers[w].mapping]
  {
    RunInv(run, actions, n);
    assert run[n + 1] == Next(run[n], actions[n]);
    if Holds(run[n], w) {
      assert HolderInv(run[n], w);
    }
  }

  /** A call starts writing or reading whenever its object is free. */
  lemma CallsBegin(run: seq<State>, actions: seq<Action>, n: nat)
    requires IsRun(run, actions) && n < |actions|
    ensures actions[n].Observe? && actions[n].w < |run[n].writers| && run[n].writers[actions[n].w].Away? ==>
      actions[n].w < |run[n + 1].writers| && run[n + 1].writers[actions[n].w] == Polling(actions[n].mapping)
    ensures actions[n].Ask? && run[n].reader.Returned? ==> run[n + 1].reader == Looking(|run[n].log|, ATTEMPTS)
  {
    assert run[n + 1] == Next(run[n], actions[n]);
  }

  /** A reader gives up only after four attempts, each of which found nothing published, a writer
      at work, or a version that had changed by the end. */
  lemma AttemptFailsOnlyDisturbed(run: seq<State>, actions: seq<Action>, n: nat)
    requires IsRun(run, actions) && n < |actions| && actions[n] == Load
    ensures var s, t := run[n].reader, run[n + 1].reader;
      && (s.Looking? && t.Returned? ==> s.left == 0 && t.result.None?)
      && (s.Looking? && t.Looking? ==> t.left == s.left - 1 && (run[n].version == 0 || run[n].version % 2 == 1))
      && (s.Looking? && t.Loading? ==> t.left == s.left - 1)
      && (s.Loading? && t.Looking? ==> t.left == s.left && run[n].version != s.before)
      && (s.Loading? && t.Returned? ==> t.result.Some?)
      && !(s.Looking? && t == s)
  {
    RunInv(run, actions, n);
    assert run[n + 1] == Next(run[n], actions[n]);
  }
}
