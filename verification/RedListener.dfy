/** The listener-side writer that sends every frame together with a copy of the previous one. */
module RedListener {
  import opened Collections
  import opened RedPayload
  import opened RtpFields

  datatype Frame = Frame(timestamp: nat, payload: seq<Byte>)

  /** What the listener keeps: the previous frame, if there was one. */
  type Memory = Option<Frame>

  // ------------------------------------------------------------- specification

  /** RTP-clock distance from the previous frame, on 32 bits. */
  function Step(previous: Frame, frame: Frame): (d: nat)
    ensures d < CLOCK
  {
    (frame.timestamp - previous.timestamp) % CLOCK
  }

  /** Whether the previous frame is sent along. */
  predicate Carries(memory: Memory, frame: Frame) {
    memory.Some? && 0 < Step(memory.value, frame) <= MAX_TIMESTAMP_OFFSET
  }

  function Redundancy(memory: Memory, frame: Frame, pt: Byte): seq<Block> {
    if Carries(memory, frame) then [Block(pt, Step(memory.value, frame), memory.value.payload)] else []
  }

  /** Whether the packet is refused: an empty frame, or a previous frame too long to send along. */
  predicate Refused(memory: Memory, frame: Frame) {
    frame.payload == [] || (Carries(memory, frame) && |memory.value.payload| > MAX_BLOCK_LENGTH)
  }

  function After(memory: Memory, frame: Frame): Memory {
    if Refused(memory, frame) then memory else Some(frame)
  }

  function Sent(memory: Memory, frame: Frame, pt: Byte): Option<seq<Byte>> {
    if Refused(memory, frame) then None
    else Some(Encoded(Parsed(Redundancy(memory, frame, pt), pt, frame.payload)))
  }

  // --------------------------------------------------------- the imperative form

  class Listener {
    const opusPT: Byte
    var prevPayload: seq<Byte>
    var prevTimestamp: nat
    var havePrev: bool

    ghost function Remembered(): Memory
      reads this
    {
      if havePrev then Some(Frame(prevTimestamp, prevPayload)) else None
    }

    constructor (opusPT: Byte)
      ensures this.opusPT == opusPT && Remembered() == None
    {
      this.opusPT := opusPT;
      prevPayload, prevTimestamp, havePrev := [], 0, false;
    }

    /** Builds the RED payload for this frame; the caller's write to the track may still fail. */
    method WriteRTP(frame: Frame) returns (payload: Option<seq<Byte>>)
      modifies this
      ensures payload == Sent(old(Remembered()), frame, opusPT)
      ensures Remembered() == After(old(Remembered()), frame)
    {
      var redundant: seq<Block> := [];
      if havePrev {
        var offset := (frame.timestamp - prevTimestamp) % CLOCK;
        if offset > 0 && offset <= MAX_TIMESTAMP_OFFSET {
          redundant := [Block(opusPT, offset, prevPayload)];
        }
      }
      payload := Encode(opusPT, frame.payload, redundant);
      if payload.None? {
        return;
      }
      prevPayload := frame.payload;
      prevTimestamp := frame.timestamp;
      havePrev := true;
    }
  }

  // ----------------------------------------------------------------- whole streams

  /** The listener's memory before each frame of a stream. */
  ghost predicate IsRun(memories: seq<Memory>, frames: seq<Frame>) {
    && |memories| == |frames| + 1 && memories[0] == None
    && forall i {:trigger frames[i]} :: 0 <= i < |frames| ==> memories[i + 1] == After(memories[i], frames[i])
  }

  predicate Steady(a: Frame, b: Frame) {
    0 < Step(a, b) <= MAX_TIMESTAMP_OFFSET
  }

  /** Frames are not empty and follow each other within what a redundant header can express. */
  predicate Stream(frames: seq<Frame>) {
    && (forall i :: 0 <= i < |frames| ==> frames[i].payload != [] && frames[i].timestamp < CLOCK)
    && (forall i :: 0 < i < |frames| ==> Steady(frames[i - 1], frames[i]))
  }

  predicate ShortUpTo(frames: seq<Frame>, n: nat)
    requires n <= |frames|
  {
    forall i :: 0 <= i < n ==> |frames[i].payload| <= MAX_BLOCK_LENGTH
  }

  lemma {:induction false} RemembersPrevious(memories: seq<Memory>, frames: seq<Frame>, n: nat)
    requires IsRun(memories, frames) && Stream(frames) && n < |frames| && ShortUpTo(frames, n)
    ensures memories[n + 1] == Some(frames[n]) && !Refused(memories[n], frames[n])
    ensures memories[n] == if n == 0 then None else Some(frames[n - 1])
  {
    if n > 0 {
      RemembersPrevious(memories, frames, n - 1);
      assert Steady(frames[n - 1], frames[n]);
    }
    assert memories[n + 1] == After(memories[n], frames[n]);
  }

  /** What a receiver learns from one RED packet about the frame before it. */
  function Recovered(timestamp: nat, p: Parsed): Option<Frame> {
    if |p.redundant| != 1 then None
    else Some(Frame((timestamp - p.redundant[0].offset) % CLOCK, p.redundant[0].payload))
  }

  lemma RecoversTimestamp(a: Frame, b: Frame)
    requires a.timestamp < CLOCK && b.timestamp < CLOCK
    ensures (b.timestamp - Step(a, b)) % CLOCK == a.timestamp
  {
  }

  /** In a steady stream of frames of at most 1023 bytes, every packet after the first parses back
      to its own frame and, exactly, to the previous frame and its timestamp: a single lost packet
      can always be rebuilt from the next one. */
  lemma LostPacketIsRecovered(memories: seq<Memory>, frames: seq<Frame>, n: nat, pt: Byte)
    requires IsRun(memories, frames) && Stream(frames) && 0 < n < |frames| && ShortUpTo(frames, |frames|) && pt < 128
    ensures var sent := Sent(memories[n], frames[n], pt);
      && sent.Some? && Decoded(sent.value).Some?
      && Decoded(sent.value).value.primary == frames[n].payload
      && Recovered(frames[n].timestamp, Decoded(sent.value).value) == Some(frames[n - 1])
  {
    RemembersPrevious(memories, frames, n);
    assert Steady(frames[n - 1], frames[n]);
    var p := Parsed(Redundancy(memories[n], frames[n], pt), pt, frames[n].payload);
    ParseOfEncode(p);
    RecoversTimestamp(frames[n - 1], frames[n]);
  }

  /** A steady stream is sent completely if and only if all frames but the last fit a redundant block. */
  lemma SentCompletelyIff(memories: seq<Memory>, frames: seq<Frame>)
    requires IsRun(memories, frames) && Stream(frames) && |frames| > 0
    ensures (forall n :: 0 <= n < |frames| ==> !Refused(memories[n], frames[n])) <==> ShortUpTo(frames, |frames| - 1)
  {
    if ShortUpTo(frames, |frames| - 1) {
      forall n | 0 <= n < |frames|
        ensures !Refused(memories[n], frames[n])
      {
        RemembersPrevious(memories, frames, n);
      }
    } else {
      var i := FirstLong(frames, |frames| - 1);
      RemembersPrevious(memories, frames, i);
      assert Steady(frames[i], frames[i + 1]);
      assert Refused(memories[i + 1], frames[i + 1]);
    }
  }

  lemma {:induction false} FirstLong(frames: seq<Frame>, n: nat) returns (i: nat)
    requires n <= |frames| && !ShortUpTo(frames, n)
    ensures i < n && ShortUpTo(frames, i) && |frames[i].payload| > MAX_BLOCK_LENGTH
  {
    if ShortUpTo(frames, n - 1) {
      i := n - 1;
    } else {
      i := FirstLong(frames, n - 1);
    }
  }

  /** After one frame of more than 1023 bytes the listener is stuck: it refuses every packet
      within the next 16383 samples, because a refusal does not replace the long frame. */
  lemma {:induction false} LongFrameJams(memories: seq<Memory>, frames: seq<Frame>, i: nat, n: nat)
    requires IsRun(memories, frames) && i <= n < |frames|
    requires memories[i].Some? && |memories[i].value.payload| > MAX_BLOCK_LENGTH
    requires forall k :: i <= k <= n ==> Steady(memories[i].value, frames[k])
    ensures memories[n] == memories[i] && Refused(memories[n], frames[n])
    decreases n
  {
    assert Steady(memories[i].value, frames[n]);
    if i < n {
      LongFrameJams(memories, frames, i, n - 1);
      assert memories[n] == After(memories[n - 1], frames[n - 1]);
    }
  }
}
