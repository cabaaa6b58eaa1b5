/**
 The jitter buffer as it would be over unbounded sequence numbers.

 `frames` is keyed by the sender's unbounded number and `next` is the unbounded playback cursor;
 only the words a caller sees (`AudioFrame.sequence`, `PlaybackItem.sequence`) wrap at 64 bits.
 The class `JitterBuffer.JitterBuffer` works on wrapped words throughout and is proved to agree
 with these functions.
 */
module JitterModel {
  import opened AudioFrames
  import opened Words
  import opened Wrappers

  datatype BufferState = Buffering | Ready | Draining | Stopped

  datatype ConcealmentPolicy = Silence | RepeatPrevious

  datatype InsertResult = Inserted | Duplicate | Late | Overflow | Incompatible | Refused

  datatype PullStatus = Frame | Missing | NotReady | Ended

  datatype PlaybackItem =
    PlaybackItem(status: PullStatus, sequence: Word64, frame: Option<AudioFrame>, concealed: bool)

  datatype Statistics = Statistics(
    inserted: nat, reordered: nat, duplicates: nat, late: nat, overflow: nat, incompatible: nat,
    missing: nat, concealed: nat, depth: nat, maxDepth: nat)

  const NO_STATISTICS := Statistics(0, 0, 0, 0, 0, 0, 0, 0, 0, 0)

  datatype Config =
    Config(capacity: nat, prebuffer: nat, missingWait: nat, concealment: ConcealmentPolicy)
  {
    predicate IsValid() {
      0 < prebuffer <= capacity
    }
  }

  datatype Buffer = Buffer(
    frames: map<int, AudioFrame>,
    format: Option<AudioFormat>,
    duration: Option<nat>,
    previous: Option<AudioFrame>,
    next: int,
    initialized: bool,
    wait: Option<int>,  // the deadline for the frame at the cursor, once a pull has missed it
    state: BufferState,
    stats: Statistics)

  const EMPTY := Buffer(map[], None, None, None, 0, false, None, Buffering, NO_STATISTICS)

  function Max(x: nat, y: nat): nat {
    if x < y then y else x
  }

  /** Can a frame of this format and duration join the stream in `b`? */
  predicate Admissible(b: Buffer, frame: AudioFrame) {
    && FrameDuration(frame).Some?
    && FrameDuration(frame).value != 0
    && (b.format.Some? ==> b.format == Some(frame.format) && b.duration == FrameDuration(frame))
  }

  /** The first admissible frame fixes the format, the duration and the cursor. */
  function Opened(b: Buffer, u: int, frame: AudioFrame): Buffer {
    b.(format := Some(frame.format), duration := FrameDuration(frame),
       next := if b.initialized then b.next else u, initialized := true)
  }

  function Misfit(b: Buffer): Buffer {
    b.(stats := b.stats.(incompatible := b.stats.incompatible + 1))
  }

  function Store(c: Config, b: Buffer, u: int, frame: AudioFrame): Buffer {
    var frames := b.frames[u := frame];
    var outOfPlace := u - b.next != |b.frames| && |b.frames| != 0;
    b.(frames := frames,
       state := if b.state.Buffering? && |frames| >= c.prebuffer then Ready else b.state,
       stats := b.stats.(inserted := b.stats.inserted + 1,
                         reordered := b.stats.reordered + if outOfPlace then 1 else 0,
                         depth := |frames|,
                         maxDepth := Max(b.stats.maxDepth, |frames|)))
  }

  /** A frame with unbounded number `u` arrives. */
  function Insert(c: Config, b: Buffer, u: int, frame: AudioFrame): (Buffer, InsertResult) {
    if b.state.Stopped? then
      (b, Refused)
    else if !Admissible(b, frame) then
      (Misfit(b), Incompatible)
    else
      var b' := Opened(b, u, frame);
      if u < b'.next then
        (b'.(stats := b'.stats.(late := b'.stats.late + 1)), Late)
      else if u in b'.frames then
        (b'.(stats := b'.stats.(duplicates := b'.stats.duplicates + 1)), Duplicate)
      else if |b'.frames| >= c.capacity then
        (b'.(stats := b'.stats.(overflow := b'.stats.overflow + 1)), Overflow)
      else
        (Store(c, b', u, frame), Inserted)
  }

  function Refresh(c: Config, b: Buffer): Buffer {
    b.(stats := b.stats.(depth := |b.frames|),
       state := if b.state.Draining? && |b.frames| == 0 then Stopped
                else if b.state.Buffering? && |b.frames| >= c.prebuffer then Ready
                else b.state)
  }

  /** The stand-in played for number `next` after the real frame `previous`. */
  function Conceal(c: Config, previous: AudioFrame, duration: nat, next: int): AudioFrame {
    var payload := if c.concealment.Silence? then seq(|previous.payload|, _ => 0) else previous.payload;
    AudioFrame(previous.format, Wrap(next), previous.timestamp + duration, payload)
  }

  function Idle(b: Buffer, status: PullStatus): PlaybackItem {
    PlaybackItem(status, Wrap(b.next), None, false)
  }

  function PlayItem(u: int, frame: AudioFrame): PlaybackItem {
    PlaybackItem(Frame, Wrap(u), Some(frame), false)
  }

  function ConcealedItem(u: int, frame: AudioFrame): PlaybackItem {
    PlaybackItem(Missing, Wrap(u), Some(frame), true)
  }

  function PlayNext(c: Config, b: Buffer): Buffer
    requires b.next in b.frames
  {
    var rest := b.frames - {b.next};
    Refresh(c, b.(frames := rest, previous := Some(b.frames[b.next]), next := b.next + 1, wait := None,
                  stats := b.stats.(depth := |rest|)))
  }

  function SkipNext(c: Config, b: Buffer): Buffer {
    Refresh(c, b.(next := b.next + 1, wait := None,
                  stats := b.stats.(missing := b.stats.missing + 1, concealed := b.stats.concealed + 1)))
  }

  /** The player asks for the next frame at time `now`. */
  function Pop(c: Config, b: Buffer, now: int): (Buffer, PlaybackItem) {
    if b.state.Stopped? && |b.frames| == 0 then
      (b, Idle(b, Ended))
    else if !b.initialized || (b.state.Buffering? && |b.frames| < c.prebuffer) then
      (b, Idle(b, NotReady))
    else if b.next in b.frames then
      (PlayNext(c, b), PlayItem(b.next, b.frames[b.next]))
    else if b.wait.None? then
      (b.(wait := Some(now + c.missingWait)), Idle(b, NotReady))
    else if now < b.wait.value then
      (b, Idle(b, NotReady))
    else if b.previous.None? || b.duration.None? then
      (b.(state := Stopped), Idle(b, Ended))
    else
      (SkipNext(c, b), ConcealedItem(b.next, Conceal(c, b.previous.value, b.duration.value, b.next)))
  }

  function Close(c: Config, b: Buffer): Buffer {
    Refresh(c, if b.state.Stopped? then b else b.(state := Draining))
  }

  /** What holds of every buffer that can be reached. */
  ghost predicate Inv(c: Config, b: Buffer) {
    && c.IsValid()
    && (b.initialized <==> b.format.Some?)
    && (b.initialized <==> b.duration.Some?)
    && (forall u :: u in b.frames ==> b.next <= u < b.next + TWO_63)
    && (forall u :: u in b.frames ==> InStream(b, u, b.frames[u]))
    && |b.frames| <= c.capacity
    && (b.previous.Some? ==> b.initialized && OfStream(b, b.previous.value))
    && (b.initialized ==> b.duration.value > 0)
    && (b.initialized ==> b.previous.Some? || b.next in b.frames)
    && (!b.initialized ==> |b.frames| == 0)
    && (b.wait.Some? ==> b.initialized && b.previous.Some?)
    && (b.state.Buffering? ==> |b.frames| < c.prebuffer && b.previous.None?)
    && (b.state.Draining? ==> |b.frames| != 0)
    && (b.state.Ready? ==> b.initialized)
    && (b.state.Stopped? ==> |b.frames| == 0)
    && b.stats.depth == |b.frames|
    && b.stats.depth <= b.stats.maxDepth <= c.capacity
    && b.stats.missing == b.stats.concealed
  }

  /** The frame has the stream's format and duration. */
  ghost predicate OfStream(b: Buffer, frame: AudioFrame) {
    b.format == Some(frame.format) && b.duration == FrameDuration(frame)
  }

  ghost predicate InStream(b: Buffer, u: int, frame: AudioFrame) {
    frame.sequence == Wrap(u) && OfStream(b, frame)
  }

  /** The word in the frame is that of `u`, and `u` is one the buffer can tell apart. */
  predicate Arrives(b: Buffer, u: int, frame: AudioFrame) {
    frame.sequence == Wrap(u) && (b.initialized ==> InWindow(b.next, u))
  }

  lemma StoreKeepsInv(c: Config, b: Buffer, u: int, frame: AudioFrame)
    requires Inv(c, b) && Arrives(b, u, frame) && !b.state.Stopped? && Admissible(b, frame)
    requires var b' := Opened(b, u, frame); b'.next <= u && u !in b'.frames && |b'.frames| < c.capacity
    ensures Inv(c, Store(c, Opened(b, u, frame), u, frame))
  {
    hide FrameDuration;
    var b' := Store(c, Opened(b, u, frame), u, frame);
    assert |b'.frames| == |b.frames| + 1;
  }

  lemma InsertKeepsInv(c: Config, b: Buffer, u: int, frame: AudioFrame)
    requires Inv(c, b) && Arrives(b, u, frame)
    ensures Inv(c, Insert(c, b, u, frame).0)
  {
    hide FrameDuration, Wrap;
    if !b.state.Stopped? && Admissible(b, frame) {
      var b' := Opened(b, u, frame);
      if b'.next <= u && u !in b'.frames && |b'.frames| < c.capacity {
        StoreKeepsInv(c, b, u, frame);
      } else {
        assert b.initialized;
      }
    }
  }

  lemma PopKeepsInv(c: Config, b: Buffer, now: int)
    requires Inv(c, b)
    ensures Inv(c, Pop(c, b, now).0)
  {
    hide FrameDuration, Wrap, Conceal;
  }

  lemma CloseKeepsInv(c: Config, b: Buffer)
    requires Inv(c, b)
    ensures Inv(c, Close(c, b))
  {
  }
}
