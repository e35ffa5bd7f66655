/** The network boundary for published Opus: message framing with the duration rules of section
    3.1 of RFC 6716, and the pacing timeline that admits frames. Times are in nanoseconds. */
module OpusIngress {
  import opened Collections
  import opened RtpFields

  const HEADER_BYTES := 40
  const MAX_PAYLOAD_BYTES := 1275
  const FRAME_SAMPLES := 960
  const MILLISECOND := 1_000_000
  const FRAME_DURATION := 20 * MILLISECOND
  const MAX_SESSION_AGE := 24 * 3600 * 1000 * MILLISECOND
  const MAX_LATE := 250 * MILLISECOND
  const MAX_AHEAD := 100 * MILLISECOND
  const MAX_FRAMES := 4_320_000
  const MAX_GAP := 1500

  datatype Frame = Frame(number: nat, timestamp: nat, captureNs: nat, generation: nat, channels: nat, payload: seq<Byte>)

  // ------------------------------------------------------------------ framing

  /** An unsigned big-endian number. */
  function BigEndian(bytes: seq<Byte>): nat {
    if bytes == [] then 0 else BigEndian(bytes[..|bytes| - 1]) * 256 + bytes[|bytes| - 1] as int
  }

  /** The first byte weighs most. */
  lemma BigEndianPair(a: Byte, b: Byte)
    ensures BigEndian([a, b]) == a * 256 + b
  {
    assert [a, b][..1] == [a] && [a][..0] == [];
    assert BigEndian([a]) == a;
  }

  datatype Mode = Silk | Hybrid | Celt

  /** The coding mode of a configuration number. */
  function ModeOf(configuration: nat): Mode {
    if configuration < 12 then Silk else if configuration < 16 then Hybrid else Celt
  }

  /** Frame durations by mode, in tenths of a millisecond. */
  function Durations(mode: Mode): seq<nat> {
    match mode
    case Silk => [100, 200, 400, 600]
    case Hybrid => [100, 200]
    case Celt => [25, 50, 100, 200]
  }

  function DurationOf(configuration: nat): nat {
    var durations := Durations(ModeOf(configuration));
    durations[configuration % |durations|]
  }

  /** How many frames a packet codes; none if the count byte is missing. */
  function FrameCount(payload: seq<Byte>): nat
    requires payload != []
  {
    match payload[0] % 4
    case 0 => 1
    case 1 => 2
    case 2 => 2
    case _ => if |payload| < 2 then 0 else payload[1] % 64
  }

  /** The frame count codes of sections 3.1 and 3.2 of RFC 6716. */
  lemma FrameCountCodes(payload: seq<Byte>)
    requires payload != []
    ensures payload[0] % 4 == 0 ==> FrameCount(payload) == 1
    ensures 1 <= payload[0] % 4 <= 2 ==> FrameCount(payload) == 2
    ensures payload[0] % 4 == 3 && |payload| > 1 ==> FrameCount(payload) == payload[1] % 64
    ensures FrameCount(payload) == 0 <==> payload[0] % 4 == 3 && (|payload| == 1 || payload[1] % 64 == 0)
  {
  }

  /** The packet lasts exactly 20 ms. */
  predicate TwentyMilliseconds(payload: seq<Byte>)
    requires payload != []
  {
    DurationOf(payload[0] / 8) * FrameCount(payload) == 200
  }

  predicate WellFramed(message: seq<Byte>) {
    && HEADER_BYTES < |message| <= HEADER_BYTES + MAX_PAYLOAD_BYTES
    && message[..4] == [0x50, 0x4B, 0x53, 0x4F]
    && message[4] == 1 && (message[5] == 1 || message[5] == 2) && message[6] == 0 && message[7] == 0
    && BigEndian(message[20..22]) == FRAME_SAMPLES
    && BigEndian(message[22..24]) == |message| - HEADER_BYTES
  }

  /** A 16-bit product. */
  function Product16(a: nat, b: nat): nat {
    a * b % 65536
  }

  /** Samples per frame at 48 kHz, as the code computes them. */
  function SamplesOf(configuration: nat): nat
    requires configuration < 32
  {
    if configuration < 12 then [480, 960, 1920, 2880][configuration % 4]
    else if configuration < 16 then (if configuration % 2 == 1 then 960 else 480)
    else [120, 240, 480, 960][configuration % 4]
  }

  /** The 16-bit product never wraps onto 960 by accident. */
  lemma WrapIsHarmless(samples: nat, count: nat)
    requires samples in {120, 240, 480, 960, 1920, 2880} && count < 64
    ensures Product16(samples, count) == FRAME_SAMPLES <==> samples * count == FRAME_SAMPLES
  {
  }

  lemma DurationAgrees(configuration: nat, count: nat)
    requires configuration < 32 && count < 64
    ensures count != 0 && Product16(SamplesOf(configuration), count) == FRAME_SAMPLES <==> DurationOf(configuration) * count == 200
  {
  }

  /** Accepts exactly the well-framed messages whose packet lasts 20 ms. */
  method Parse(message: seq<Byte>) returns (frame: Option<Frame>)
    ensures frame.Some? <==> WellFramed(message) && TwentyMilliseconds(message[HEADER_BYTES..])
    ensures frame.Some? ==> frame.value == Frame(BigEndian(message[8..16]), BigEndian(message[16..20]), BigEndian(message[24..32]),
                                                 BigEndian(message[32..40]), message[5], message[HEADER_BYTES..])
  {
    if |message| <= HEADER_BYTES || |message| > HEADER_BYTES + MAX_PAYLOAD_BYTES
       || message[..4] != [0x50, 0x4B, 0x53, 0x4F] || message[4] != 1
       || (message[5] != 1 && message[5] != 2) || message[6] != 0 || message[7] != 0
       || BigEndian(message[20..22]) != FRAME_SAMPLES || BigEndian(message[22..24]) != |message| - HEADER_BYTES {
      return None;
    }
    var payload := message[HEADER_BYTES..];
    var configuration: nat := payload[0] / 8;
    var samples := SamplesOf(configuration);
    var count: nat := 1;
    if payload[0] % 4 == 1 || payload[0] % 4 == 2 {
      count := 2;
    } else if payload[0] % 4 == 3 {
      if |payload| < 2 {
        return None;
      }
      count := payload[1] % 64;
    }
    DurationAgrees(configuration, count);
    if count == 0 || Product16(samples, count) != FRAME_SAMPLES {
      return None;
    }
    return Some(Frame(BigEndian(message[8..16]), BigEndian(message[16..20]), BigEndian(message[24..32]),
                      BigEndian(message[32..40]), message[5], payload));
  }

  // ------------------------------------------------------------------- pacing

  /** The first admitted frame with its arrival, and the last admitted frame. */
  datatype Origin = Origin(first: Frame, at: int, last: Frame)

  datatype Verdict = Admitted(late: bool) | Continuity | Future

  function Media(origin: Origin, frame: Frame): int {
    (frame.number - origin.first.number) * FRAME_DURATION
  }

  /** The frame continues the stream: later in every respect, within a day, and with a timestamp
      that moved by exactly its sequence distance. */
  predicate ContinuesStream(origin: Origin, frame: Frame) {
    var last := origin.last;
    && frame.channels == last.channels && frame.number > last.number && frame.captureNs > last.captureNs
    && frame.captureNs - origin.first.captureNs <= MAX_SESSION_AGE
    && frame.number - origin.first.number <= MAX_FRAMES
    && frame.number - last.number <= MAX_GAP
    && (frame.timestamp - last.timestamp) % CLOCK == (frame.number - last.number) * FRAME_SAMPLES % CLOCK
  }

  function Judged(state: Option<Origin>, frame: Frame, now: int): Verdict {
    if state.None? then Admitted(false)
    else if !ContinuesStream(state.value, frame) then Continuity
    else if Media(state.value, frame) - (now - state.value.at) > MAX_AHEAD then Future
    else Admitted(now - state.value.at - Media(state.value, frame) > MAX_LATE)
  }

  function After(state: Option<Origin>, frame: Frame, now: int): Option<Origin> {
    if !Judged(state, frame, now).Admitted? then state
    else if state.None? then Some(Origin(frame, now, frame))
    else Some(state.value.(last := frame))
  }

  class Timeline {
    var started: bool
    var originNs: nat
    var originSequence: nat
    var originAt: int
    var last: Frame
    ghost var first: Frame

    ghost predicate Valid()
      reads this
    {
      started ==> first.captureNs == originNs && first.number == originSequence
                  && originNs <= last.captureNs && originSequence <= last.number
    }

    ghost function State(): Option<Origin>
      reads this
    {
      if started then Some(Origin(first, originAt, last)) else None
    }

    constructor ()
      ensures Valid() && State() == None
    {
      started, originNs, originSequence, originAt := false, 0, 0, 0;
      last, first := Frame(0, 0, 0, 0, 0, []), Frame(0, 0, 0, 0, 0, []);
    }

    method Admit(frame: Frame, now: int) returns (verdict: Verdict)
      requires Valid()
      modifies this
      ensures Valid() && verdict == Judged(old(State()), frame, now) && State() == After(old(State()), frame, now)
    {
      if !started {
        started, originNs, originSequence, originAt := true, frame.captureNs, frame.number, now;
        last, first := frame, frame;
        return Admitted(false);
      }
      if frame.channels != last.channels || frame.number <= last.number || frame.captureNs <= last.captureNs
         || frame.captureNs - originNs > MAX_SESSION_AGE || frame.number - originSequence > MAX_SESSION_AGE / FRAME_DURATION {
        return Continuity;
      }
      var delta := frame.number - last.number;
      if delta > MAX_GAP || (frame.timestamp - last.timestamp) % CLOCK != delta * FRAME_SAMPLES % CLOCK {
        return Continuity;
      }
      var elapsed := (frame.number - originSequence) * FRAME_DURATION;
      var arrivalElapsed := now - originAt;
      if elapsed - arrivalElapsed > MAX_AHEAD {
        return Future;
      }
      last := frame;
      return Admitted(arrivalElapsed - elapsed > MAX_LATE);
    }
  }

  // ----------------------------------------------------------------- whole runs

  /** A frame that was admitted: when it arrived and whether it counted as late. */
  datatype Entry = Entry(frame: Frame, at: int, late: bool)

  datatype Session = Session(state: Option<Origin>, log: seq<Entry>)

  function Next(s: Session, frame: Frame, now: int): Session {
    match Judged(s.state, frame, now)
    case Admitted(late) => Session(After(s.state, frame, now), s.log + [Entry(frame, now, late)])
    case _ => s
  }

  ghost predicate IsRun(run: seq<Session>, arrivals: seq<(Frame, int)>) {
    && |run| == |arrivals| + 1 && run[0] == Session(None, [])
    && forall i {:trigger arrivals[i]} :: 0 <= i < |arrivals| ==> run[i + 1] == Next(run[i], arrivals[i].0, arrivals[i].1)
  }

  /** What one admitted frame satisfies with respect to the first one. */
  predicate InTime(first: Entry, e: Entry) {
    var media := (e.frame.number - first.frame.number) * FRAME_DURATION;
    && e.frame.timestamp % CLOCK == (first.frame.timestamp + (e.frame.number - first.frame.number) * FRAME_SAMPLES) % CLOCK
    && media - (e.at - first.at) <= MAX_AHEAD
    && (e.late <==> e.at - first.at - media > MAX_LATE)
    && e.frame.channels == first.frame.channels
  }

  predicate Inv(s: Session) {
    && (s.state.None? <==> s.log == [])
    && (s.state.Some? ==>
          && s.state.value.first == s.log[0].frame && s.state.value.at == s.log[0].at
          && s.state.value.last == s.log[|s.log| - 1].frame)
    && (forall i :: 0 <= i < |s.log| ==> InTime(s.log[0], s.log[i]))
    && (forall i :: 0 < i < |s.log| ==> s.log[i - 1].frame.number < s.log[i].frame.number)
  }

  /** Timestamp steps add up modulo 2^32. */
  lemma TimestampsAddUp(first: int, last: int, next: int, steps: int, more: int)
    requires last % CLOCK == (first + steps * FRAME_SAMPLES) % CLOCK
    requires (next - last) % CLOCK == more * FRAME_SAMPLES % CLOCK
    ensures next % CLOCK == (first + (steps + more) * FRAME_SAMPLES) % CLOCK
  {
  }

  lemma InvStep(s: Session, frame: Frame, now: int)
    requires Inv(s)
    ensures Inv(Next(s, frame, now))
  {
    var t := Next(s, frame, now);
    if s.state.Some? && Judged(s.state, frame, now).Admitted? {
      var first, last := s.log[0].frame, s.log[|s.log| - 1].frame;
      assert InTime(s.log[0], s.log[|s.log| - 1]);
      TimestampsAddUp(first.timestamp, last.timestamp, frame.timestamp, last.number - first.number, frame.number - last.number);
      forall i | 0 <= i < |t.log|
        ensures InTime(t.log[0], t.log[i])
      {
        if i < |s.log| {
          assert InTime(s.log[0], s.log[i]);
        }
      }
    }
  }

  lemma {:induction false} RunInv(run: seq<Session>, arrivals: seq<(Frame, int)>, n: nat)
    requires IsRun(run, arrivals) && n < |run|
    ensures Inv(run[n])
  {
    if n > 0 {
      RunInv(run, arrivals, n - 1);
      InvStep(run[n - 1], arrivals[n - 1].0, arrivals[n - 1].1);
    }
  }

  lemma {:induction false} NumbersIncrease(log: seq<Entry>, i: nat, j: nat)
    requires i <= j < |log| && forall k :: 0 < k < |log| ==> log[k - 1].frame.number < log[k].frame.number
    ensures log[j].frame.number >= log[i].frame.number + (j - i)
    decreases j
  {
    if i < j {
      NumbersIncrease(log, i, j - 1);
    }
  }

  /** Over any run, admitted frames have strictly increasing sequence numbers, timestamps that
      follow from the first one, media time at most 100 ms ahead of arrival time, and, unless
      flagged late, at most 250 ms behind it. */
  lemma AdmittedFrames(run: seq<Session>, arrivals: seq<(Frame, int)>, n: nat, i: nat, j: nat)
    requires IsRun(run, arrivals) && n < |run| && i < j < |run[n].log|
    ensures var a, b, first := run[n].log[i], run[n].log[j], run[n].log[0];
      && a.frame.number < b.frame.number
      && b.frame.timestamp % CLOCK == (first.frame.timestamp + (b.frame.number - first.frame.number) * FRAME_SAMPLES) % CLOCK
      && (b.frame.number - first.frame.number) * FRAME_DURATION - (b.at - first.at) <= MAX_AHEAD
      && (!b.late ==> b.at - first.at - (b.frame.number - first.frame.number) * FRAME_DURATION <= MAX_LATE)
  {
    RunInv(run, arrivals, n);
    NumbersIncrease(run[n].log, i, j);
    assert InTime(run[n].log[0], run[n].log[j]);
  }

  /** The next frame continues what was admitted: same channels, later than the last one in number
      and capture time, at most 1500 numbers further with a timestamp to match, and within a day
      and 4320000 frames of the first one. */
  predicate Continues(log: seq<Entry>, frame: Frame)
    requires log != []
  {
    var first, last := log[0].frame, log[|log| - 1].frame;
    && frame.channels == last.channels && last.number < frame.number <= last.number + MAX_GAP
    && last.captureNs < frame.captureNs <= first.captureNs + MAX_SESSION_AGE
    && frame.number <= first.number + MAX_FRAMES
    && frame.timestamp % CLOCK == (first.timestamp + (frame.number - first.number) * FRAME_SAMPLES) % CLOCK
  }

  lemma StepMatchesFirst(first: int, last: int, next: int, steps: int, more: int)
    requires last % CLOCK == (first + steps * FRAME_SAMPLES) % CLOCK
    ensures (next - last) % CLOCK == more * FRAME_SAMPLES % CLOCK <==>
              next % CLOCK == (first + (steps + more) * FRAME_SAMPLES) % CLOCK
  {
  }

  /** Exactly when the next frame is admitted, over any run: the first one always, and later ones
      if they continue the stream and their media time is at most 100 ms ahead of their arrival; a
      frame that is admitted more than 250 ms behind is flagged. Any other frame changes nothing. */
  lemma AdmittedIff(run: seq<Session>, arrivals: seq<(Frame, int)>, n: nat)
    requires IsRun(run, arrivals) && n < |arrivals|
    ensures var log, frame, now := run[n].log, arrivals[n].0, arrivals[n].1;
      if log == [] then run[n + 1].log == [Entry(frame, now, false)]
      else
        var media, elapsed := (frame.number - log[0].frame.number) * FRAME_DURATION, now - log[0].at;
        if Continues(log, frame) && media - elapsed <= MAX_AHEAD
        then run[n + 1].log == log + [Entry(frame, now, elapsed - media > MAX_LATE)]
        else run[n + 1] == run[n]
  {
    RunInv(run, arrivals, n);
    var s, frame, now := run[n], arrivals[n].0, arrivals[n].1;
    assert run[n + 1] == Next(s, frame, now);
    if s.log != [] {
      var first, last := s.log[0].frame, s.log[|s.log| - 1].frame;
      assert InTime(s.log[0], s.log[|s.log| - 1]);
      StepMatchesFirst(first.timestamp, last.timestamp, frame.timestamp, last.number - first.number, frame.number - last.number);
      assert ContinuesStream(s.state.value, frame) <==> Continues(s.log, frame);
    }
  }

  /** A publisher cannot get more frames in than real time plus 100 ms allows. */
  lemma RateIsBounded(run: seq<Session>, arrivals: seq<(Frame, int)>, n: nat)
    requires IsRun(run, arrivals) && n < |run| && run[n].log != []
    ensures var log := run[n].log;
      (|log| - 1) * FRAME_DURATION <= log[|log| - 1].at - log[0].at + MAX_AHEAD
  {
    RunInv(run, arrivals, n);
    var log := run[n].log;
    NumbersIncrease(log, 0, |log| - 1);
    assert InTime(log[0], log[|log| - 1]);
  }
}
