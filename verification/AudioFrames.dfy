/** PCM formats, frames and the duration of a frame. */
module AudioFrames {
  import opened Words
  import opened Wrappers

  const NANOSECONDS_PER_SECOND: nat := 1_000_000_000
  const MAX_WORD64: nat := 0xFFFF_FFFF_FFFF_FFFF
  const MAX_DURATION: nat := 0x7FFF_FFFF_FFFF_FFFF

  datatype AudioFormat = AudioFormat(sampleRate: Word32, channelCount: Word16, bitsPerSample: Word16) {
    predicate IsValid() {
      sampleRate > 0 && channelCount > 0 && bitsPerSample > 0 && bitsPerSample % 8 == 0
    }

    function BytesPerFrame(): nat {
      channelCount * (bitsPerSample / 8)
    }
  }

  datatype AudioFrame = AudioFrame(format: AudioFormat, sequence: Word64, timestamp: int, payload: seq<Byte>) {
    /** What the frame's constructor insists on. */
    predicate WellFormed() {
      format.IsValid() && format.BytesPerFrame() != 0 && |payload| % format.BytesPerFrame() == 0
    }
  }

  /** The playing time of a frame in nanoseconds, if it is representable. */
  function FrameDuration(frame: AudioFrame): Option<nat> {
    if !frame.WellFormed() then
      None
    else
      var samples := |frame.payload| / frame.format.BytesPerFrame();
      if samples > MAX_WORD64 / NANOSECONDS_PER_SECOND then
        None
      else
        var duration := samples * NANOSECONDS_PER_SECOND / frame.format.sampleRate;
        if duration > MAX_DURATION then None else Some(duration)
  }

  /** The sample rate times the duration is the number of samples, up to the fraction dropped. */
  lemma FrameDurationExact(frame: AudioFrame)
    requires FrameDuration(frame).Some?
    ensures var d, width := FrameDuration(frame).value, frame.format.channelCount * (frame.format.bitsPerSample / 8);
      && width > 0 && |frame.payload| % width == 0
      && d * frame.format.sampleRate <= |frame.payload| / width * NANOSECONDS_PER_SECOND
           < (d + 1) * frame.format.sampleRate
  {
    var samples := |frame.payload| / frame.format.BytesPerFrame();
    QuotientBounds(samples * NANOSECONDS_PER_SECOND, frame.format.sampleRate);
  }

  lemma QuotientBounds(x: nat, d: int)
    requires d > 0
    ensures x / d * d <= x < (x / d + 1) * d
  {
    assert x == x / d * d + x % d;
  }

  /** A second of audio, in whatever channels and width, lasts a second. */
  lemma OneSecond(format: AudioFormat, sequence: Word64, timestamp: int, payload: seq<Byte>)
    requires format.IsValid() && |payload| == format.sampleRate * format.BytesPerFrame()
    ensures FrameDuration(AudioFrame(format, sequence, timestamp, payload)) == Some(NANOSECONDS_PER_SECOND)
  {
    var rate, width := format.sampleRate, format.BytesPerFrame();
    QuotientOf(rate * width, width, rate);
    QuotientOf(rate * NANOSECONDS_PER_SECOND, rate, NANOSECONDS_PER_SECOND);
  }
}
