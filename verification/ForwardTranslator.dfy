/** The forward worker's numbering: the translator that rebases successive source
    attachments into one subscriber stream, and the unwrapper that extends 16-bit RTP
    sequence numbers (appendix A.1 of RFC 3550) for the reorder window. */
module ForwardTranslator {
  import opened Arithmetic
  import opened Collections
  import opened RtpFields

  function Wrap16(x: int): u16 { x % 0x1_0000 }
  function Wrap32(x: int): u32 { x % 0x1_0000_0000 }

  /** The int16 reading of a 16-bit difference. */
  function Signed16(x: u16): int { if x < 0x8000 then x else x - 0x1_0000 }
  function Signed32(x: u32): int { if x < 0x8000_0000 then x else x - 0x1_0000_0000 }

  const DEFAULT_FRAME_SAMPLES: u32 := 960
  const MAX_NOMINAL_SAMPLES: u32 := 4_800
  const SAMPLE_RATE_HZ := 48_000
  const SECOND_NS := 1_000_000_000
  const MAX_U32 := 0xFFFF_FFFF
  const WORD64 := 0x1_0000_0000_0000_0000
  const MAX_DURATION := 0x7FFF_FFFF_FFFF_FFFF

  type Source = nat

  /** `None` is the zero time. */
  type Arrival = Option<int>

  datatype Packet = Packet(sequence: u16, timestamp: u32)
  datatype Input = Input(packet: Packet, source: Source, arrival: Arrival)

  // ------------------------------------------------------------ timestamp steps

  /** time.Time.Sub saturates at the range of a Duration. */
  function Between(earlier: Arrival, later: Arrival): int {
    if earlier.None? || later.None? then 0
    else
      var d := later.value - earlier.value;
      if d > MAX_DURATION then MAX_DURATION else if d < -MAX_DURATION - 1 then -MAX_DURATION - 1 else d
  }

  /** `samples` rounded to the nearest multiple of `frame`, halves upward. */
  function NearestMultiple(samples: nat, frame: u32): nat
    requires frame > 0
  {
    var x := samples + frame / 2;
    x - x % frame
  }

  /** elapsed * 48000 / 1s in unsigned 64-bit arithmetic. */
  function ElapsedSamples(elapsed: int): nat {
    elapsed * SAMPLE_RATE_HZ % WORD64 / SECOND_NS
  }

  /** How far a rebase moves the output timestamp. */
  function RebaseStep(frame: u32, elapsed: int): u32
    requires frame > 0
  {
    if elapsed <= 0 then frame else
    var quantized := NearestMultiple(ElapsedSamples(elapsed), frame);
    if frame < quantized <= MAX_U32 then quantized else frame
  }

  /** The step that unbounded arithmetic would give. */
  function IdealStep(frame: u32, elapsed: int): u32
    requires frame > 0
  {
    if elapsed <= 0 then frame else
    var quantized := NearestMultiple(elapsed * SAMPLE_RATE_HZ / SECOND_NS, frame);
    if frame < quantized <= MAX_U32 then quantized else frame
  }

  /** `q` is the multiple of `frame` nearest to `samples`, the upper one of two equally near. */
  predicate Nearest(q: int, samples: nat, frame: u32)
    requires frame > 0
  {
    q % frame == 0 && 2 * (q - samples) <= frame && 2 * (samples - q) < frame
  }

  lemma NearestIsNear(samples: nat, frame: u32)
    requires frame > 0
    ensures Nearest(NearestMultiple(samples, frame), samples, frame)
  {
    var x := samples + frame / 2;
    assert x == x / frame * frame + x % frame;
    DivisionIsUnique(x / frame * frame, x / frame, 0, frame);
  }

  lemma NearestIsUnique(p: int, q: int, samples: nat, frame: u32)
    requires frame > 0 && Nearest(p, samples, frame) && Nearest(q, samples, frame)
    ensures p == q
  {
    var m, n := p / frame, q / frame;
    assert p == m * frame && q == n * frame;
    assert p - q == (m - n) * frame && q - p == (n - m) * frame;
    if m > n {
      ProductAtLeast(m - n, frame);
    } else if m < n {
      ProductAtLeast(n - m, frame);
    }
  }

  /** As long as the product does not wrap, the step is the multiple of the frame nearest to the
      elapsed time, if that is more than one frame and fits a timestamp, and one frame otherwise. */
  lemma StepIsNearest(frame: u32, elapsed: int, q: int)
    requires frame > 0 && elapsed > 0 && !ProductWraps(elapsed)
    requires Nearest(q, elapsed * SAMPLE_RATE_HZ / SECOND_NS, frame)
    ensures RebaseStep(frame, elapsed) == if frame < q <= MAX_U32 then q else frame
  {
    WrappedGapIsLong(elapsed);
    NearestIsNear(ElapsedSamples(elapsed), frame);
    NearestIsUnique(q, NearestMultiple(ElapsedSamples(elapsed), frame), ElapsedSamples(elapsed), frame);
  }

  /** Every rebase advances by a positive multiple of the nominal frame. */
  lemma StepIsPositiveMultiple(frame: u32, elapsed: int)
    requires frame > 0
    ensures RebaseStep(frame, elapsed) >= frame && RebaseStep(frame, elapsed) % frame == 0
  {
    DivisionIsUnique(frame, 1, 0, frame);
    if elapsed > 0 { NearestIsNear(ElapsedSamples(elapsed), frame); }
  }

  /** Whether the unsigned product of `elapsed` and the sample rate wraps. */
  predicate ProductWraps(elapsed: int) {
    elapsed * SAMPLE_RATE_HZ >= WORD64
  }

  lemma WrappedGapIsLong(elapsed: int)
    ensures ProductWraps(elapsed) ==> elapsed * SAMPLE_RATE_HZ / SECOND_NS > MAX_U32 + MAX_NOMINAL_SAMPLES
    ensures elapsed > 0 && !ProductWraps(elapsed) ==> ElapsedSamples(elapsed) == elapsed * SAMPLE_RATE_HZ / SECOND_NS
  {
  }

  lemma LongGapKeepsFrame(frame: u32, elapsed: int)
    requires 0 < frame <= MAX_NOMINAL_SAMPLES && elapsed > 0
    requires elapsed * SAMPLE_RATE_HZ / SECOND_NS > MAX_U32 + MAX_NOMINAL_SAMPLES
    ensures IdealStep(frame, elapsed) == frame
  {
    NearestIsNear(elapsed * SAMPLE_RATE_HZ / SECOND_NS, frame);
  }

  /** The rebase follows the elapsed time, to the nearest frame, exactly unless the 64-bit
      product wrapped and the wrapped time happens to look like a plausible gap. */
  lemma StepFollowsElapsedTime(frame: u32, elapsed: int)
    requires 0 < frame <= MAX_NOMINAL_SAMPLES
    ensures RebaseStep(frame, elapsed) == IdealStep(frame, elapsed)
       <==> !(ProductWraps(elapsed) && frame < NearestMultiple(ElapsedSamples(elapsed), frame) <= MAX_U32)
  {
    WrappedGapIsLong(elapsed);
    if ProductWraps(elapsed) { LongGapKeepsFrame(frame, elapsed); }
  }

  /** Such a gap exists: after about 4.45 days of silence the output moves by 40 ms. */
  lemma LongSilenceMisread()
    ensures RebaseStep(960, 384_307_208_202_283) == 1920
    ensures IdealStep(960, 384_307_208_202_283) == 960
  {
  }

  // --------------------------------------------------- translator and unwrapper

  datatype Translator = Fresh | Attached(
    source: Source,
    sequenceOffset: u16,
    timestampOffset: u32,
    lastInput: Packet,
    lastOutput: Packet,
    nominal: u32,
    lastArrival: Arrival)

  function Shift(p: Packet, sequenceOffset: int, timestampOffset: int): Packet {
    Packet(Wrap16(p.sequence + sequenceOffset), Wrap32(p.timestamp + timestampOffset))
  }

  lemma ShiftUndone(p: Packet, sequenceOffset: int, timestampOffset: int)
    ensures Shift(Shift(p, sequenceOffset, timestampOffset), -sequenceOffset, -timestampOffset) == p
  {
    ModOfSum(-sequenceOffset, p.sequence + sequenceOffset, 0x1_0000);
    ModOfSum(-timestampOffset, p.timestamp + timestampOffset, 0x1_0000_0000);
  }

  /** Samples per frame suggested by two packets of one attachment, if plausible. */
  function NominalAfter(nominal: u32, earlier: Packet, later: Packet): u32 {
    var frames := Signed16(Wrap16(later.sequence - earlier.sequence));
    var samples := Signed32(Wrap32(later.timestamp - earlier.timestamp));
    if frames <= 0 || samples <= 0 then nominal
    else if 0 < samples / frames <= MAX_NOMINAL_SAMPLES then samples / frames else nominal
  }

  /** The step a rebase of `t` at `arrival` takes. */
  function StepOf(t: Translator, arrival: Arrival): u32
    requires t.Attached?
  {
    RebaseStep(if t.nominal == 0 then DEFAULT_FRAME_SAMPLES else t.nominal, Between(t.lastArrival, arrival))
  }

  function Rebase(t: Translator, x: Input, step: u32): Translator
    requires t.Attached?
  {
    var sequenceOffset := Wrap16(t.lastOutput.sequence + 1 - x.packet.sequence);
    var timestampOffset := Wrap32(t.lastOutput.timestamp + step - x.packet.timestamp);
    var output := Shift(x.packet, sequenceOffset, timestampOffset);
    Attached(x.source, sequenceOffset, timestampOffset, Shift(output, 0 - sequenceOffset, 0 - timestampOffset), output,
             t.nominal, x.arrival)
  }

  /** A further packet of the same attachment; only a newer one moves the state. */
  function Follow(t: Translator, p: Packet, arrival: Arrival): Translator
    requires t.Attached?
  {
    if Signed16(Wrap16(p.sequence - t.lastInput.sequence)) <= 0 then t else
    t.(nominal := NominalAfter(t.nominal, t.lastInput, p), lastInput := p,
       lastOutput := Shift(p, t.sequenceOffset, t.timestampOffset), lastArrival := arrival)
  }

  function Translate(t: Translator, x: Input): Translator {
    if t.Fresh? then Attached(x.source, 0, 0, x.packet, x.packet, DEFAULT_FRAME_SAMPLES, x.arrival)
    else if x.source != t.source then Rebase(t, x, StepOf(t, x.arrival))
    else Follow(t, x.packet, x.arrival)
  }

  /** What the subscriber is sent for input `x`, given the translator state after it. */
  function Emitted(after: Translator, x: Input): Packet
    requires after.Attached?
  {
    Shift(x.packet, after.sequenceOffset, after.timestampOffset)
  }

  /** The highest extended number so far, or `None` before the first packet. */
  type Unwrapper = Option<int>

  function Extend(u: Unwrapper, sequence: u16): int {
    if u.None? then sequence else u.value + Signed16(Wrap16(sequence - Wrap16(u.value)))
  }

  function Highest(u: Unwrapper, sequence: u16): int {
    if u.Some? && Extend(u, sequence) < u.value then u.value else Extend(u, sequence)
  }

  // --------------------------------------------------------- the imperative form

  class RtpPacket {
    var sequenceNumber: u16
    var timestamp: u32

    constructor (p: Packet)
      ensures Value() == p
    {
      sequenceNumber, timestamp := p.sequence, p.timestamp;
    }

    function Value(): Packet
      reads this
    {
      Packet(sequenceNumber, timestamp)
    }
  }

  class RtpForwardTranslator {
    var initialized: bool
    var source: Source
    var sequenceOffset: u16
    var timestampOffset: u32
    var lastInputSequence: u16
    var lastInputTimestamp: u32
    var lastOutputSequence: u16
    var lastOutputTimestamp: u32
    var nominalSamples: u32
    var lastArrival: Arrival

    constructor ()
      ensures Value() == Fresh
      ensures sequenceOffset == 0 && timestampOffset == 0
    {
      initialized, source, sequenceOffset, timestampOffset := false, 0, 0, 0;
      lastInputSequence, lastInputTimestamp, lastOutputSequence, lastOutputTimestamp := 0, 0, 0, 0;
      nominalSamples, lastArrival := 0, None;
    }

    function Value(): Translator
      reads this
    {
      if !initialized then Fresh else
      Attached(source, sequenceOffset, timestampOffset, Packet(lastInputSequence, lastInputTimestamp),
               Packet(lastOutputSequence, lastOutputTimestamp), nominalSamples, lastArrival)
    }

    /** The timestamp distance from the last output to a new attachment's first packet. */
    method TimestampStep(arrival: Arrival) returns (timestampStep: u32)
      requires initialized
      ensures timestampStep == StepOf(Value(), arrival)
    {
      timestampStep := nominalSamples;
      if timestampStep == 0 {
        timestampStep := DEFAULT_FRAME_SAMPLES;
      }
      if arrival.Some? && lastArrival.Some? {
        var elapsed := Between(lastArrival, arrival);
        if elapsed > 0 {
          var elapsedSamples := ElapsedSamples(elapsed);
          var quantizedSamples := (elapsedSamples + timestampStep / 2) / timestampStep * timestampStep;
          assert quantizedSamples == NearestMultiple(elapsedSamples, timestampStep);
          if quantizedSamples > timestampStep && quantizedSamples <= MAX_U32 {
            timestampStep := quantizedSamples;
          }
        }
      }
    }

    method RebaseOnto(pkt: RtpPacket, from: Source, arrival: Arrival, timestampStep: u32)
      requires initialized
      modifies this, pkt
      ensures initialized
      ensures Value() == Rebase(old(Value()), Input(old(pkt.Value()), from, arrival), timestampStep)
      ensures pkt.Value() == Value().lastOutput
    {
      var input := pkt.Value();
      source := from;
      sequenceOffset := Wrap16(lastOutputSequence + 1 - input.sequence);
      timestampOffset := Wrap32(lastOutputTimestamp + timestampStep - input.timestamp);
      var output := Shift(input, sequenceOffset, timestampOffset);
      pkt.sequenceNumber, pkt.timestamp := output.sequence, output.timestamp;
      input := Shift(output, 0 - sequenceOffset, 0 - timestampOffset);
      lastInputSequence, lastInputTimestamp := input.sequence, input.timestamp;
      lastOutputSequence, lastOutputTimestamp := output.sequence, output.timestamp;
      lastArrival := arrival;
    }

    method Continue(pkt: RtpPacket, arrival: Arrival)
      requires initialized
      modifies this, pkt
      ensures initialized
      ensures Value() == Follow(old(Value()), old(pkt.Value()), arrival)
      ensures pkt.Value() == Shift(old(pkt.Value()), sequenceOffset, timestampOffset)
    {
      var inputSequence, inputTimestamp := pkt.sequenceNumber, pkt.timestamp;
      pkt.sequenceNumber := Wrap16(pkt.sequenceNumber + sequenceOffset);
      pkt.timestamp := Wrap32(pkt.timestamp + timestampOffset);
      var sequenceDelta := Signed16(Wrap16(inputSequence - lastInputSequence));
      if sequenceDelta > 0 {
        var timestampDelta := Signed32(Wrap32(inputTimestamp - lastInputTimestamp));
        if timestampDelta > 0 {
          var candidate := timestampDelta / sequenceDelta;
          if candidate > 0 && candidate <= MAX_NOMINAL_SAMPLES {
            nominalSamples := candidate;
          }
        }
        lastInputSequence, lastInputTimestamp := inputSequence, inputTimestamp;
        lastOutputSequence, lastOutputTimestamp := pkt.sequenceNumber, pkt.timestamp;
        lastArrival := arrival;
      }
    }

    method TranslateAt(pkt: RtpPacket, from: Source, arrival: Arrival) returns (reset: bool)
      requires !initialized ==> sequenceOffset == 0 && timestampOffset == 0
      modifies this, pkt
      ensures initialized
      ensures Value() == Translate(old(Value()), Input(old(pkt.Value()), from, arrival))
      ensures pkt.Value() == Emitted(Value(), Input(old(pkt.Value()), from, arrival))
      ensures reset <==> old(initialized) && from != old(source)
    {
      if !initialized {
        initialized, source := true, from;
        lastInputSequence, lastInputTimestamp := pkt.sequenceNumber, pkt.timestamp;
        lastOutputSequence, lastOutputTimestamp := pkt.sequenceNumber, pkt.timestamp;
        nominalSamples, lastArrival := DEFAULT_FRAME_SAMPLES, arrival;
        return false;
      }
      if from != source {
        var timestampStep := TimestampStep(arrival);
        RebaseOnto(pkt, from, arrival, timestampStep);
        return true;
      }
      Continue(pkt, arrival);
      return false;
    }
  }

  class SequenceUnwrapper {
    var initialized: bool
    var highestExt: int

    constructor ()
      ensures Value() == None
    {
      initialized, highestExt := false, 0;
    }

    function Value(): Unwrapper
      reads this
    {
      if initialized then Some(highestExt) else None
    }

    /** The result is the one number congruent to `seq` in the half-open window of
        2^16 numbers centred on the highest so far. */
    method Unwrap(seq16: u16) returns (ext: int)
      modifies this
      ensures ext % 0x1_0000 == seq16
      ensures old(initialized) ==> old(highestExt) - 0x8000 <= ext < old(highestExt) + 0x8000
      ensures !old(initialized) ==> ext == seq16
      ensures initialized && highestExt == (if old(initialized) && ext < old(highestExt) then old(highestExt) else ext)
      ensures ext == Extend(old(Value()), seq16) && Value() == Some(Highest(old(Value()), seq16))
    {
      if !initialized {
        initialized, highestExt := true, seq16;
        return highestExt;
      }
      ext := highestExt + Signed16(Wrap16(seq16 - Wrap16(highestExt)));
      if ext > highestExt {
        highestExt := ext;
      }
    }
  }

  // ------------------------------------------------------------- whole streams

  /** The worker's numbering state: translator and unwrapper side by side. */
  datatype Numbering = Numbering(translator: Translator, unwrapper: Unwrapper)

  /** Numbering one received item. */
  function Prepare(n: Numbering, x: Input): Numbering {
    var t := Translate(n.translator, x);
    Numbering(t, Some(Highest(n.unwrapper, Emitted(t, x).sequence)))
  }

  /** The same on the worker's own objects: the packet is rewritten in place. */
  method PrepareForwardItem(pkt: RtpPacket, source: Source, arrival: Arrival,
                            translator: RtpForwardTranslator, unwrapper: SequenceUnwrapper) returns (extSeq: int)
    requires !translator.initialized ==> translator.sequenceOffset == 0 && translator.timestampOffset == 0
    modifies pkt, translator, unwrapper
    ensures translator.initialized
    ensures Numbering(translator.Value(), unwrapper.Value())
         == Prepare(old(Numbering(translator.Value(), unwrapper.Value())), Input(old(pkt.Value()), source, arrival))
    ensures extSeq == Extend(old(unwrapper.Value()), pkt.Value().sequence)
    ensures pkt.Value() == Emitted(translator.Value(), Input(old(pkt.Value()), source, arrival))
  {
    var reset := translator.TranslateAt(pkt, source, arrival);
    extSeq := unwrapper.Unwrap(pkt.sequenceNumber);
  }

  /** The numbering after the first `n` inputs. */
  function After(inputs: seq<Input>, n: nat): Numbering
    requires n <= |inputs|
  {
    if n == 0 then Numbering(Fresh, None) else Prepare(After(inputs, n - 1), inputs[n - 1])
  }

  function Output(inputs: seq<Input>, k: nat): Packet
    requires k < |inputs|
  {
    Emitted(After(inputs, k + 1).translator, inputs[k])
  }

  /** The extended sequence number under which input `k` enters the reorder window. */
  function Extended(inputs: seq<Input>, k: nat): int
    requires k < |inputs|
  {
    Extend(After(inputs, k).unwrapper, Output(inputs, k).sequence)
  }

  /** The two halves agree, and the nominal frame is plausible. */
  predicate Aligned(n: Numbering) {
    match n.translator
    case Fresh => n.unwrapper.None?
    case Attached(_, sequenceOffset, timestampOffset, lastInput, lastOutput, nominal, _) =>
      && n.unwrapper.Some? && n.unwrapper.value >= 0
      && Wrap16(n.unwrapper.value) == lastOutput.sequence
      && lastOutput == Shift(lastInput, sequenceOffset, timestampOffset)
      && 1 <= nominal <= MAX_NOMINAL_SAMPLES
  }

  /** Shifting both ends keeps a difference. */
  lemma ShiftKeepsDifference(p: Packet, q: Packet, sequenceOffset: int, timestampOffset: int)
    ensures var p', q' := Shift(p, sequenceOffset, timestampOffset), Shift(q, sequenceOffset, timestampOffset);
      && Wrap16(q'.sequence - p'.sequence) == Wrap16(q.sequence - p.sequence)
      && Wrap32(q'.timestamp - p'.timestamp) == Wrap32(q.timestamp - p.timestamp)
  {
    ModOfDifference(q.sequence + sequenceOffset, p.sequence + sequenceOffset, 0x1_0000);
    ModOfDifference(q.timestamp + timestampOffset, p.timestamp + timestampOffset, 0x1_0000_0000);
  }

  /** An extended number is congruent to the sequence number it extends. */
  lemma ExtendIsCongruent(u: Unwrapper, sequence: u16)
    requires u.Some? ==> u.value >= 0
    ensures Wrap16(Extend(u, sequence)) == sequence
    ensures Highest(u, sequence) >= 0
  {
  }

  /** An offset computed to reach `target` reaches it. */
  lemma OffsetReaches(target: int, x: int)
    ensures Wrap16(x + Wrap16(target - x)) == Wrap16(target)
    ensures Wrap32(x + Wrap32(target - x)) == Wrap32(target)
  {
    ModOfSum(x, target - x, 0x1_0000);
    ModOfSum(x, target - x, 0x1_0000_0000);
  }

  lemma RebaseGoesToNext(t: Translator, x: Input, step: u32)
    requires t.Attached?
    ensures var r := Rebase(t, x, step);
      && r.lastInput == x.packet
      && r.lastOutput == Emitted(r, x)
      && r.lastOutput == Packet(Wrap16(t.lastOutput.sequence + 1), Wrap32(t.lastOutput.timestamp + step))
  {
    var r := Rebase(t, x, step);
    ShiftUndone(x.packet, r.sequenceOffset, r.timestampOffset);
    OffsetReaches(t.lastOutput.sequence + 1, x.packet.sequence);
    OffsetReaches(t.lastOutput.timestamp + step, x.packet.timestamp);
  }

  lemma NextExtends(n: Numbering)
    requires Aligned(n) && n.translator.Attached?
    ensures Extend(n.unwrapper, Wrap16(n.translator.lastOutput.sequence + 1)) == n.unwrapper.value + 1
    ensures Wrap16(n.unwrapper.value + 1) == Wrap16(n.translator.lastOutput.sequence + 1)
  {
  }

  lemma RebaseAligned(n: Numbering, x: Input, step: u32)
    requires Aligned(n) && n.translator.Attached?
    ensures var r := Rebase(n.translator, x, step);
      && Extend(n.unwrapper, Emitted(r, x).sequence) == n.unwrapper.value + 1
      && Aligned(Numbering(r, Some(Highest(n.unwrapper, Emitted(r, x).sequence))))
  {
    RebaseGoesToNext(n.translator, x, step);
    NextExtends(n);
    var r := Rebase(n.translator, x, step);
    var next := n.unwrapper.value + 1;
    assert Highest(n.unwrapper, r.lastOutput.sequence) == next;
    assert r.lastOutput == Shift(r.lastInput, r.sequenceOffset, r.timestampOffset);
  }

  lemma AlignedStep(n: Numbering, x: Input)
    requires Aligned(n)
    ensures Aligned(Prepare(n, x))
  {
    var t := n.translator;
    if t.Attached? && x.source != t.source {
      RebaseAligned(n, x, StepOf(t, x.arrival));
    } else if t.Attached? {
      FollowAligned(n, x);
    }
  }

  lemma FollowAligned(n: Numbering, x: Input)
    requires Aligned(n) && n.translator.Attached? && x.source == n.translator.source
    ensures Aligned(Prepare(n, x))
  {
    var t := n.translator;
    ShiftKeepsDifference(t.lastInput, x.packet, t.sequenceOffset, t.timestampOffset);
    ExtendIsCongruent(n.unwrapper, Shift(x.packet, t.sequenceOffset, t.timestampOffset).sequence);
  }

  /** The attached source is always that of the last input. */
  lemma {:induction false} SourceIsLast(inputs: seq<Input>, n: nat)
    requires n <= |inputs|
    ensures After(inputs, n).translator.Attached? <==> n > 0
    ensures n > 0 ==> After(inputs, n).translator.source == inputs[n - 1].source
  {
    if n > 0 { SourceIsLast(inputs, n - 1); }
  }

  /** For every stream and every pattern of source switches, the translator's last
      output stays congruent to the unwrapper's highest number. */
  lemma {:induction false} NumberingStaysAligned(inputs: seq<Input>, n: nat)
    requires n <= |inputs|
    ensures Aligned(After(inputs, n))
  {
    if n > 0 {
      NumberingStaysAligned(inputs, n - 1);
      AlignedStep(After(inputs, n - 1), inputs[n - 1]);
    }
  }

  // --------------------------------------------------- what the translator remembers

  /** How many frames `q` lies ahead of `p`, on 16 bits. */
  function FramesAhead(p: Packet, q: Packet): int {
    Signed16(Wrap16(q.sequence - p.sequence))
  }

  /** Input `k` opens a new attachment. */
  predicate Opens(inputs: seq<Input>, k: nat)
    requires k < |inputs|
  {
    k == 0 || inputs[k].source != inputs[k - 1].source
  }

  /** The newest of the first `n` inputs: the last one that opened an attachment or lay ahead of
      the newest before it. */
  function NewestOf(inputs: seq<Input>, n: nat): (m: nat)
    requires 0 < n <= |inputs|
    ensures m < n
  {
    if Opens(inputs, n - 1) || FramesAhead(inputs[NewestOf(inputs, n - 1)].packet, inputs[n - 1].packet) > 0 then n - 1
    else NewestOf(inputs, n - 1)
  }

  /** Samples per frame between two packets, if that is a plausible number. */
  function Plausible(p: Packet, q: Packet): Option<u32> {
    var frames, samples := FramesAhead(p, q), Signed32(Wrap32(q.timestamp - p.timestamp));
    if frames > 0 && samples > 0 && 1 <= samples / frames <= MAX_NOMINAL_SAMPLES then Some(samples / frames) else None
  }

  /** The last plausible number of samples per frame between two successive newest inputs of one
      attachment, or 960 if there is none. */
  function FrameOf(inputs: seq<Input>, n: nat): (frame: u32)
    requires n <= |inputs|
    ensures 1 <= frame <= MAX_NOMINAL_SAMPLES
  {
    if n == 0 then DEFAULT_FRAME_SAMPLES
    else if Opens(inputs, n - 1) then FrameOf(inputs, n - 1)
    else
      var measured := Plausible(inputs[NewestOf(inputs, n - 1)].packet, inputs[n - 1].packet);
      if measured.Some? then measured.value else FrameOf(inputs, n - 1)
  }

  lemma RemembersStep(t: Translator, x: Input)
    requires t.Attached?
    ensures var t' := Translate(t, x);
      && t'.Attached?
      && (x.source != t.source ==>
            t'.lastInput == x.packet && t'.lastArrival == x.arrival && t'.nominal == t.nominal && t'.lastOutput == Emitted(t', x))
      && (x.source == t.source && FramesAhead(t.lastInput, x.packet) > 0 ==>
            && t'.lastInput == x.packet && t'.lastArrival == x.arrival && t'.lastOutput == Emitted(t', x)
            && t'.nominal == if Plausible(t.lastInput, x.packet).Some? then Plausible(t.lastInput, x.packet).value else t.nominal)
      && (x.source == t.source && FramesAhead(t.lastInput, x.packet) <= 0 ==> t' == t)
  {
    if x.source != t.source {
      RebaseGoesToNext(t, x, StepOf(t, x.arrival));
    }
  }

  /** From the inputs alone: the translator remembers the newest input, its arrival and what was
      sent for it, and measures frames between successive newest inputs. */
  lemma {:induction false} RemembersNewest(inputs: seq<Input>, n: nat)
    requires 0 < n <= |inputs|
    ensures var t, m := After(inputs, n).translator, NewestOf(inputs, n);
      && t.Attached? && t.source == inputs[n - 1].source
      && t.lastInput == inputs[m].packet && t.lastArrival == inputs[m].arrival
      && t.lastOutput == Output(inputs, m) && t.nominal == FrameOf(inputs, n)
  {
    SourceIsLast(inputs, n);
    if n == 1 {
      assert After(inputs, 0).translator == Fresh;
      assert FrameOf(inputs, 1) == FrameOf(inputs, 0);
    } else {
      RemembersNewest(inputs, n - 1);
      RemembersStep(After(inputs, n - 1).translator, inputs[n - 1]);
    }
  }

  /** The first packet of a new attachment takes exactly the next free number, and moves
      the timestamp by a positive multiple of a frame of 1 to 4800 samples. */
  lemma AttachmentStartsAtNext(inputs: seq<Input>, k: nat)
    requires 0 < k < |inputs| && inputs[k].source != inputs[k - 1].source
    ensures Aligned(After(inputs, k)) && After(inputs, k).translator.Attached?
    ensures Extended(inputs, k) == After(inputs, k).unwrapper.value + 1
    ensures var m, frame := NewestOf(inputs, k), FrameOf(inputs, k);
      var elapsed := Between(inputs[m].arrival, inputs[k].arrival);
      var step := RebaseStep(frame, elapsed);
      && Output(inputs, k).timestamp == Wrap32(Output(inputs, m).timestamp + step)
      && step >= frame && step % frame == 0
      && (!ProductWraps(elapsed) ==> step == IdealStep(frame, elapsed))
  {
    NumberingStaysAligned(inputs, k);
    RemembersNewest(inputs, k);
    var before := After(inputs, k);
    var t := before.translator;
    RebaseGoesToNext(t, inputs[k], StepOf(t, inputs[k].arrival));
    RebaseAligned(before, inputs[k], StepOf(t, inputs[k].arrival));
    StepIsPositiveMultiple(t.nominal, Between(t.lastArrival, inputs[k].arrival));
    StepFollowsElapsedTime(t.nominal, Between(t.lastArrival, inputs[k].arrival));
  }

  /** The step from a packet that arrived at `from` to one that arrived at `to`: the multiple `q`
      of the frame nearest to the time in between, if that is more than one frame and the product
      does not wrap, and one frame if the time is unknown or did not advance. */
  predicate FollowsArrivals(step: int, frame: u32, from: Arrival, to: Arrival, q: int)
    requires frame > 0
  {
    && (from.None? || to.None? || to.value <= from.value ==> step == frame)
    && (from.Some? && to.Some? && 0 < to.value - from.value <= MAX_DURATION && !ProductWraps(to.value - from.value)
        && Nearest(q, (to.value - from.value) * SAMPLE_RATE_HZ / SECOND_NS, frame) ==>
          step == if frame < q <= MAX_U32 then q else frame)
  }

  lemma StepFollowsArrivals(frame: u32, from: Arrival, to: Arrival, q: int)
    requires frame > 0
    ensures FollowsArrivals(RebaseStep(frame, Between(from, to)), frame, from, to, q)
  {
    if from.Some? && to.Some? && 0 < to.value - from.value <= MAX_DURATION && !ProductWraps(to.value - from.value)
       && Nearest(q, (to.value - from.value) * SAMPLE_RATE_HZ / SECOND_NS, frame) {
      StepIsNearest(frame, to.value - from.value, q);
    }
  }

  /** The timing of a new attachment, from the arrivals of the inputs alone. */
  lemma AttachmentFollowsArrivals(inputs: seq<Input>, k: nat, q: int) returns (step: int)
    requires 0 < k < |inputs| && inputs[k].source != inputs[k - 1].source
    ensures Output(inputs, k).timestamp == Wrap32(Output(inputs, NewestOf(inputs, k)).timestamp + step)
    ensures FollowsArrivals(step, FrameOf(inputs, k), inputs[NewestOf(inputs, k)].arrival, inputs[k].arrival, q)
  {
    AttachmentStartsAtNext(inputs, k);
    var from, to := inputs[NewestOf(inputs, k)].arrival, inputs[k].arrival;
    step := RebaseStep(FrameOf(inputs, k), Between(from, to));
    StepFollowsArrivals(FrameOf(inputs, k), from, to, q);
  }

  predicate Uninterrupted(inputs: seq<Input>, i: nat, j: nat)
    requires i <= j < |inputs|
  {
    forall k :: i <= k <= j ==> inputs[k].source == inputs[i].source
  }

  lemma SameSourceKeepsOffsets(t: Translator, x: Input)
    requires t.Attached? && x.source == t.source
    ensures var t' := Translate(t, x);
      t'.Attached? && t'.sequenceOffset == t.sequenceOffset && t'.timestampOffset == t.timestampOffset
  {
  }

  lemma {:induction false} OffsetsKept(inputs: seq<Input>, i: nat, j: nat)
    requires i <= j < |inputs| && Uninterrupted(inputs, i, j)
    ensures After(inputs, i + 1).translator.Attached? && After(inputs, j + 1).translator.Attached?
    ensures After(inputs, j + 1).translator.sequenceOffset == After(inputs, i + 1).translator.sequenceOffset
    ensures After(inputs, j + 1).translator.timestampOffset == After(inputs, i + 1).translator.timestampOffset
  {
    SourceIsLast(inputs, i + 1);
    if i < j {
      OffsetsKept(inputs, i, j - 1);
      SourceIsLast(inputs, j);
      SameSourceKeepsOffsets(After(inputs, j).translator, inputs[j]);
    }
  }

  /** Within an uninterrupted attachment, differences are those of the source, so real
      gaps and late repairs keep their sequence numbers. */
  lemma DifferencesPreserved(inputs: seq<Input>, i: nat, j: nat)
    requires i <= j < |inputs| && Uninterrupted(inputs, i, j)
    ensures Wrap16(Output(inputs, j).sequence - Output(inputs, i).sequence)
         == Wrap16(inputs[j].packet.sequence - inputs[i].packet.sequence)
    ensures Wrap32(Output(inputs, j).timestamp - Output(inputs, i).timestamp)
         == Wrap32(inputs[j].packet.timestamp - inputs[i].packet.timestamp)
  {
    OffsetsKept(inputs, i, j);
    var t := After(inputs, i + 1).translator;
    ShiftKeepsDifference(inputs[i].packet, inputs[j].packet, t.sequenceOffset, t.timestampOffset);
  }

  lemma StartsUnshifted(inputs: seq<Input>)
    requires inputs != []
    ensures var t := After(inputs, 1).translator; t.Attached? && t.sequenceOffset == 0 && t.timestampOffset == 0
  {
    assert After(inputs, 0).translator == Fresh;
  }

  lemma NoShift(p: Packet)
    ensures Shift(p, 0, 0) == p
  {
  }

  /** Before the first switch of source every packet goes out as it came in. */
  lemma FirstAttachmentIsUntouched(inputs: seq<Input>, k: nat)
    requires k < |inputs| && Uninterrupted(inputs, 0, k)
    ensures Output(inputs, k) == inputs[k].packet
  {
    OffsetsKept(inputs, 0, k);
    StartsUnshifted(inputs);
    NoShift(inputs[k].packet);
  }

  /** Extended numbers are never above the highest, which one of them attains. */
  lemma {:induction false} HighestIsMaximum(inputs: seq<Input>, n: nat) returns (at: nat)
    requires 0 < n <= |inputs|
    ensures After(inputs, n).unwrapper.Some?
    ensures forall k :: 0 <= k < n ==> Extended(inputs, k) <= After(inputs, n).unwrapper.value
    ensures at < n && Extended(inputs, at) == After(inputs, n).unwrapper.value
  {
    at := n - 1;
    if n > 1 {
      var earlier := HighestIsMaximum(inputs, n - 1);
      if Extended(inputs, n - 1) < After(inputs, n - 1).unwrapper.value { at := earlier; }
    }
  }

  /** Inputs `0..k` lose and reorder nothing within any attachment. */
  predicate Lossless(inputs: seq<Input>, k: nat)
    requires k < |inputs|
  {
    forall m :: 0 < m <= k && inputs[m].source == inputs[m - 1].source ==>
      inputs[m].packet.sequence == Wrap16(inputs[m - 1].packet.sequence + 1)
  }

  /** Then the subscriber's numbers are consecutive, across any number of reconnects and
      any number of wraps. */
  lemma {:induction false} LosslessStaysConsecutive(inputs: seq<Input>, k: nat)
    requires k < |inputs| && Lossless(inputs, k)
    ensures Extended(inputs, k) == Extended(inputs, 0) + k
    ensures After(inputs, k + 1).unwrapper == Some(Extended(inputs, k))
    ensures After(inputs, k + 1).translator.Attached? && After(inputs, k + 1).translator.lastInput == inputs[k].packet
  {
    NumberingStaysAligned(inputs, k);
    SourceIsLast(inputs, k);
    if k > 0 {
      LosslessStaysConsecutive(inputs, k - 1);
      var before := After(inputs, k);
      if inputs[k].source != inputs[k - 1].source {
        AttachmentStartsAtNext(inputs, k);
        RebaseGoesToNext(before.translator, inputs[k], StepOf(before.translator, inputs[k].arrival));
      } else {
        ConsecutiveFollows(before, inputs[k]);
      }
    }
  }

  lemma ConsecutiveFollows(n: Numbering, x: Input)
    requires Aligned(n) && n.translator.Attached? && x.source == n.translator.source
    requires x.packet.sequence == Wrap16(n.translator.lastInput.sequence + 1)
    ensures Prepare(n, x).unwrapper == Some(n.unwrapper.value + 1)
    ensures Extend(n.unwrapper, Emitted(Translate(n.translator, x), x).sequence) == n.unwrapper.value + 1
    ensures Translate(n.translator, x).lastInput == x.packet
  {
    var t := n.translator;
    ShiftKeepsDifference(t.lastInput, x.packet, t.sequenceOffset, t.timestampOffset);
    assert Wrap16(x.packet.sequence - t.lastInput.sequence) == 1;
  }
}
