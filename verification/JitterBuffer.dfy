/**
 The jitter buffer on wrapped 64-bit sequence numbers.

 The ghost field `model` is the same buffer over unbounded numbers; every method is proved to take
 the same decisions, give the same answers and reach the same state as the function of the model.
 */
module JitterBuffer {
  import opened AudioFrames
  import opened JitterModel
  import opened Words
  import opened Wrappers

  /** `wire` holds the frames of `ideal` under their 64-bit words. */
  ghost predicate Represents(wire: map<Word64, AudioFrame>, ideal: map<int, AudioFrame>, next: int) {
    && |wire| == |ideal|
    && (forall u :: u in ideal ==> next <= u < next + TWO_63)
    && (forall u :: u in ideal ==> Wrap(u) in wire && wire[Wrap(u)] == ideal[u])
    && (forall u :: u in ideal ==> ideal[u].sequence == Wrap(u))
    && (forall w :: w in wire ==> exists u :: u in ideal && Wrap(u) == w)
  }

  lemma RepresentsMember(wire: map<Word64, AudioFrame>, ideal: map<int, AudioFrame>, next: int, u: int)
    requires Represents(wire, ideal, next) && next <= u < next + TWO_63
    ensures Wrap(u) in wire <==> u in ideal
  {
    if Wrap(u) in wire {
      var v :| v in ideal && Wrap(v) == Wrap(u);
      WrapInjective(u, v);
    }
  }

  lemma RepresentsStore(wire: map<Word64, AudioFrame>, ideal: map<int, AudioFrame>, next: int, u: int,
                        frame: AudioFrame)
    requires Represents(wire, ideal, next) && next <= u < next + TWO_63 && u !in ideal
    requires frame.sequence == Wrap(u)
    ensures Represents(wire[Wrap(u) := frame], ideal[u := frame], next)
  {
    RepresentsMember(wire, ideal, next, u);
    var wire', ideal' := wire[Wrap(u) := frame], ideal[u := frame];
    forall w | w in wire'
      ensures exists v :: v in ideal' && Wrap(v) == w
    {
      if w == Wrap(u) {
        assert u in ideal';
      } else {
        var v :| v in ideal && Wrap(v) == w;
        assert v in ideal';
      }
    }
  }

  lemma RepresentsAdvance(wire: map<Word64, AudioFrame>, ideal: map<int, AudioFrame>, next: int)
    requires Represents(wire, ideal, next) && next in ideal
    ensures Represents(wire - {Wrap(next)}, ideal - {next}, next + 1)
  {
    var wire', ideal' := wire - {Wrap(next)}, ideal - {next};
    assert |wire'| == |ideal'| by {
      assert wire'.Keys == wire.Keys - {Wrap(next)} && ideal'.Keys == ideal.Keys - {next};
      assert |wire'.Keys| == |ideal'.Keys|;
    }
    forall u | u in ideal'
      ensures Wrap(u) in wire' && wire'[Wrap(u)] == ideal'[u]
    {
      if Wrap(u) == Wrap(next) {
        WrapInjective(u, next);
      }
    }
    forall w | w in wire'
      ensures exists u :: u in ideal' && Wrap(u) == w
    {
      var u :| u in ideal && Wrap(u) == w;
      assert u in ideal';
    }
  }

  lemma RepresentsSkip(wire: map<Word64, AudioFrame>, ideal: map<int, AudioFrame>, next: int)
    requires Represents(wire, ideal, next) && next !in ideal
    ensures Represents(wire, ideal, next + 1)
  {
  }

  lemma RepresentsNothing(wire: map<Word64, AudioFrame>, ideal: map<int, AudioFrame>, next: int, next': int)
    requires Represents(wire, ideal, next) && |wire| == 0
    ensures Represents(wire, ideal, next')
  {
  }

  lemma RepresentsEmpty()
    ensures Represents(map[], map[], 0)
  {
  }

  /** What `Represents` says of the frame at the cursor. */
  lemma RepresentsCursor(wire: map<Word64, AudioFrame>, ideal: map<int, AudioFrame>, next: int)
    requires Represents(wire, ideal, next)
    ensures |wire| == |ideal|
    ensures Wrap(next) in wire <==> next in ideal
    ensures next in ideal ==> wire[Wrap(next)] == ideal[next] && ideal[next].sequence == Wrap(next)
  {
    RepresentsMember(wire, ideal, next, next);
  }

  class JitterBuffer {
    const config: Config

    var frames: map<Word64, AudioFrame>
    var format: Option<AudioFormat>
    var frameDuration: Option<nat>
    var previousFrame: Option<AudioFrame>
    var nextSequence: Word64
    var sequenceInitialized: bool
    var waitingForMissing: bool
    var missingDeadline: int
    var state: BufferState
    var statistics: Statistics

    ghost var model: Buffer

    /** The fields that hold no sequence numbers are those of the model. */
    ghost predicate Agrees()
      reads this
    {
      && format == model.format
      && frameDuration == model.duration
      && previousFrame == model.previous
      && sequenceInitialized == model.initialized
      && state == model.state
      && statistics == model.stats
      && model.wait == if waitingForMissing then Some(missingDeadline) else None
    }

    /** The fields stand for the model. */
    ghost predicate Valid()
      reads this
    {
      && Agrees()
      && nextSequence == Wrap(model.next)
      && Represents(frames, model.frames, model.next)
      && (format.Some? ==> frameDuration.Some?)
      && (!sequenceInitialized ==> |frames| == 0)
    }

    constructor (config: Config)
      requires config.IsValid()
      ensures Valid() && this.config == config && model == EMPTY
    {
      this.config := config;
      frames := map[];
      format, frameDuration, previousFrame := None, None, None;
      nextSequence, sequenceInitialized := 0, false;
      waitingForMissing, missingDeadline := false, 0;
      state, statistics := Buffering, NO_STATISTICS;
      model := EMPTY;
    }

    /** The branch of `Insert` that keeps the frame. */
    method StoreFrame(frame: AudioFrame, distance: Word64, ghost u: int)
      requires Valid() && sequenceInitialized && distance < TWO_63
      requires u == model.next + distance && frame.sequence == Wrap(u) && u !in model.frames
      modifies this
      ensures Valid()
      ensures model == Store(config, old(model), u, frame)
    {
      hide Wrap, Represents;
      RepresentsCursor(frames, model.frames, model.next);
      RepresentsStore(frames, model.frames, model.next, u, frame);
      RepresentsCursor(frames[frame.sequence := frame], model.frames[u := frame], model.next);
      if distance != |frames| && |frames| != 0 {
        statistics := statistics.(reordered := statistics.reordered + 1);
      }
      frames := frames[frame.sequence := frame];
      statistics := statistics.(inserted := statistics.inserted + 1, depth := |frames|,
                                maxDepth := Max(statistics.maxDepth, |frames|));
      if state == Buffering && |frames| >= config.prebuffer {
        state := Ready;
      }
      model := Store(config, model, u, frame);
    }

    /** The first part of `Insert`: does the frame belong to the stream? */
    method Admit(frame: AudioFrame, ghost u: int) returns (admitted: bool)
      requires Valid() && frame.sequence == Wrap(u)
      modifies this
      ensures Valid() && frames == old(frames)
      ensures admitted <==> Admissible(old(model), frame)
      ensures admitted ==> sequenceInitialized && model == Opened(old(model), u, frame)
      ensures !admitted ==> model == Misfit(old(model))
    {
      hide Wrap, Represents, FrameDuration;
      var duration := FrameDuration(frame);
      if duration.None? || duration.value == 0 {
        statistics := statistics.(incompatible := statistics.incompatible + 1);
        model := Misfit(model);
        return false;
      }
      if format.None? {
        format := Some(frame.format);
        frameDuration := duration;
      } else if format.value != frame.format || frameDuration.value != duration.value {
        statistics := statistics.(incompatible := statistics.incompatible + 1);
        model := Misfit(model);
        return false;
      }
      if !sequenceInitialized {
        RepresentsNothing(frames, model.frames, model.next, u);
        nextSequence := frame.sequence;
        sequenceInitialized := true;
      }
      model := Opened(model, u, frame);
      return true;
    }

    /**
     A frame arrives whose sender counts it as `u`. Only the 64-bit word in the frame is looked at;
     by `Words.Unwrap` every word has exactly one such `u`.
     */
    method Insert(frame: AudioFrame, ghost u: int) returns (result: InsertResult)
      requires Valid() && Arrives(model, u, frame)
      modifies this
      ensures Valid()
      ensures (model, result) == JitterModel.Insert(config, old(model), u, frame)
    {
      hide Wrap, ForwardDistance, Represents, Admissible, Misfit, Store;
      if state == Stopped {
        return Refused;
      }
      var admitted := Admit(frame, u);
      if !admitted {
        return Incompatible;
      }
      DistanceExact(model.next, u);
      RepresentsCursor(frames, model.frames, model.next);
      if model.next <= u {
        RepresentsMember(frames, model.frames, model.next, u);
      }
      var distance := ForwardDistance(nextSequence, frame.sequence);
      if distance >= TWO_63 {
        statistics := statistics.(late := statistics.late + 1);
        model := model.(stats := statistics);
        return Late;
      }
      if frame.sequence in frames {
        statistics := statistics.(duplicates := statistics.duplicates + 1);
        model := model.(stats := statistics);
        return Duplicate;
      }
      if |frames| >= config.capacity {
        statistics := statistics.(overflow := statistics.overflow + 1);
        model := model.(stats := statistics);
        return Overflow;
      }
      StoreFrame(frame, distance, u);
      return Inserted;
    }

    /** The stand-in for the frame at the cursor, if there is anything to build it from. */
    method MakeConcealedFrame() returns (frame: Option<AudioFrame>)
      requires Valid()
      ensures frame ==
              if model.previous.None? || model.duration.None? then None
              else Some(Conceal(config, model.previous.value, model.duration.value, model.next))
      ensures frame.Some? ==> frame.value.sequence == nextSequence
    {
      if previousFrame.None? || frameDuration.None? {
        return None;
      }
      var payload := previousFrame.value.payload;
      if config.concealment == Silence {
        payload := seq(|payload|, _ => 0);
      }
      var timestamp := previousFrame.value.timestamp + frameDuration.value;
      return Some(AudioFrame(previousFrame.value.format, nextSequence, timestamp, payload));
    }

    method RefreshState()
      requires Valid()
      modifies this`statistics, this`state, this`model
      ensures Valid()
      ensures model == Refresh(config, old(model))
    {
      hide Wrap, Represents;
      RepresentsCursor(frames, model.frames, model.next);
      statistics := statistics.(depth := |frames|);
      if state == Draining && |frames| == 0 {
        state := Stopped;
      } else if state == Buffering && |frames| >= config.prebuffer {
        state := Ready;
      }
      model := Refresh(config, model);
    }

    /** The branch of `Pop` that plays the frame at the cursor. */
    method PlayFrame() returns (item: PlaybackItem)
      requires Valid() && sequenceInitialized && nextSequence in frames && model.next in model.frames
      modifies this
      ensures Valid()
      ensures model == PlayNext(config, old(model))
      ensures var frame := old(frames[nextSequence]); item == PlaybackItem(Frame, frame.sequence, Some(frame), false)
    {
      hide Wrap, Represents, Refresh;
      ghost var next := model.next;
      ghost var left := model.frames - {next};
      WrapNext(next);
      RepresentsCursor(frames, model.frames, next);
      RepresentsAdvance(frames, model.frames, next);
      var frame := frames[nextSequence];
      var rest := frames - {nextSequence};
      RepresentsCursor(rest, left, next + 1);
      ghost var played := model.(frames := left, previous := Some(frame), next := next + 1, wait := None,
                                 stats := model.stats.(depth := |rest|));
      assert PlayNext(config, model) == Refresh(config, played);
      frames := rest;
      previousFrame := Some(frame);
      nextSequence := Wrap(nextSequence + 1);
      waitingForMissing := false;
      statistics := statistics.(depth := |rest|);
      model := played;
      RefreshState();
      return PlaybackItem(Frame, frame.sequence, Some(frame), false);
    }

    /** The branch of `Pop` that gives up on the frame at the cursor. */
    method SkipFrame(concealed: AudioFrame) returns (item: PlaybackItem)
      requires Valid() && sequenceInitialized && model.next !in model.frames
      modifies this
      ensures Valid()
      ensures model == SkipNext(config, old(model))
      ensures item == PlaybackItem(Missing, concealed.sequence, Some(concealed), true)
    {
      hide Wrap, Represents;
      WrapNext(model.next);
      RepresentsCursor(frames, model.frames, model.next);
      RepresentsSkip(frames, model.frames, model.next);
      nextSequence := Wrap(nextSequence + 1);
      waitingForMissing := false;
      statistics := statistics.(missing := statistics.missing + 1, concealed := statistics.concealed + 1);
      model := model.(next := model.next + 1, wait := None, stats := statistics);
      RefreshState();
      return PlaybackItem(Missing, concealed.sequence, Some(concealed), true);
    }

    method Pop(now: int) returns (item: PlaybackItem)
      requires Valid()
      modifies this
      ensures Valid()
      ensures (model, item) == JitterModel.Pop(config, old(model), now)
    {
      hide Wrap, Represents, Conceal, SkipNext, PlayNext;
      RepresentsCursor(frames, model.frames, model.next);
      if state == Stopped && |frames| == 0 {
        return PlaybackItem(Ended, nextSequence, None, false);
      }
      if !sequenceInitialized || (state == Buffering && |frames| < config.prebuffer) {
        return PlaybackItem(NotReady, nextSequence, None, false);
      }
      if nextSequence in frames {
        item := PlayFrame();
        return;
      }
      if !waitingForMissing {
        waitingForMissing := true;
        missingDeadline := now + config.missingWait;
        model := model.(wait := Some(missingDeadline));
        return PlaybackItem(NotReady, nextSequence, None, false);
      }
      if now < missingDeadline {
        return PlaybackItem(NotReady, nextSequence, None, false);
      }
      var concealed := MakeConcealedFrame();
      if concealed.None? {
        state := Stopped;
        model := model.(state := Stopped);
        return PlaybackItem(Ended, nextSequence, None, false);
      }
      item := SkipFrame(concealed.value);
    }

    method Close()
      requires Valid()
      modifies this
      ensures Valid()
      ensures model == JitterModel.Close(config, old(model))
    {
      hide Represents;
      RepresentsCursor(frames, model.frames, model.next);
      if state != Stopped {
        state := Draining;
        model := model.(state := Draining);
      }
      RefreshState();
    }

    method Reset()
      requires Valid()
      modifies this
      ensures Valid() && model == EMPTY
    {
      hide Represents;
      RepresentsEmpty();
      frames := map[];
      format, frameDuration, previousFrame := None, None, None;
      nextSequence, sequenceInitialized, waitingForMissing := 0, false, false;
      state, statistics := Buffering, NO_STATISTICS;
      model := EMPTY;
    }
  }
}
