/** What a device says about itself, and whether two devices have an audio format in common. */
module Devices {
  import opened Bytes
  import opened Words
  import opened Wrappers

  datatype DeviceInfo = DeviceInfo(
    id: Id, name: seq<Byte>, protocolVersion: Word16, address: seq<Byte>,
    sampleRates: seq<Word32>, channelCounts: seq<Word16>, bitsPerSample: seq<Word16>,
    audioPort: Word16, discoveryPort: Word16)

  datatype Compatibility =
    Compatibility(sampleRate: Option<Word32>, channels: Option<Word16>, bitsPerSample: Option<Word16>)
  {
    predicate Compatible() {
      sampleRate.Some? && channels.Some? && bitsPerSample.Some?
    }
  }

  /** The first of `xs`, in the order of `xs`, that is also among `ys`. */
  function FirstCommon<T(==)>(xs: seq<T>, ys: seq<T>): (common: Option<T>)
    ensures common.Some? ==> exists i ::
      && 0 <= i < |xs| && xs[i] == common.value && xs[i] in ys
      && forall j :: 0 <= j < i ==> xs[j] !in ys
    ensures common.None? ==> forall i :: 0 <= i < |xs| ==> xs[i] !in ys
  {
    if xs == [] then None
    else if xs[0] in ys then Some(xs[0])
    else
      var common := FirstCommon(xs[1..], ys);
      assert forall i :: 0 < i < |xs| ==> xs[i] == xs[1..][i - 1];
      assert common.Some? ==> exists i ::
        && 0 < i < |xs| && xs[i] == common.value && xs[i] in ys
        && forall j :: 0 <= j < i ==> xs[j] !in ys by {
        if common.Some? {
          var i :| 0 <= i < |xs[1..]| && xs[1..][i] == common.value && xs[1..][i] in ys
            && forall j :: 0 <= j < i ==> xs[1..][j] !in ys;
          assert xs[i + 1] == common.value;
        }
      }
      common
  }

  function CheckCompatibility(first: DeviceInfo, second: DeviceInfo): Compatibility {
    Compatibility(FirstCommon(first.sampleRates, second.sampleRates),
                  FirstCommon(first.channelCounts, second.channelCounts),
                  FirstCommon(first.bitsPerSample, second.bitsPerSample))
  }

  lemma {:induction false} FirstCommonAt<T>(xs: seq<T>, ys: seq<T>, i: nat)
    requires i <= |xs| && forall j :: 0 <= j < i ==> xs[j] !in ys
    ensures FirstCommon(xs, ys) == FirstCommon(xs[i..], ys)
  {
    if i == 0 {
      assert xs[0..] == xs;
    } else {
      FirstCommonAt(xs[1..], ys, i - 1);
      assert xs[1..][i - 1..] == xs[i..];
    }
  }

  method FindFirstCommon<T(==)>(xs: seq<T>, ys: seq<T>) returns (common: Option<T>)
    ensures common == FirstCommon(xs, ys)
  {
    for i := 0 to |xs|
      invariant forall j :: 0 <= j < i ==> xs[j] !in ys
    {
      if xs[i] in ys {
        FirstCommonAt(xs, ys, i);
        return Some(xs[i]);
      }
    }
    return None;
  }

  method FindCompatibility(first: DeviceInfo, second: DeviceInfo) returns (result: Compatibility)
    ensures result == CheckCompatibility(first, second)
  {
    var rate := FindFirstCommon(first.sampleRates, second.sampleRates);
    var channels := FindFirstCommon(first.channelCounts, second.channelCounts);
    var bits := FindFirstCommon(first.bitsPerSample, second.bitsPerSample);
    return Compatibility(rate, channels, bits);
  }
}
