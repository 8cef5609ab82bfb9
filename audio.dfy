/// The capture side of the pipeline (src/audio.rs): the two sample buffers
/// shared with the tick, and the body of the input-stream callback that
/// de-interleaves one hardware buffer into them. Device lookup, stream set-up,
/// the capture thread and the mutex are not modelled.
module Audio {

  /** Multiplying a natural-number inequality by a natural number keeps it. */
  lemma MulMonotone(x: nat, y: nat, c: nat)
    requires x <= y
    ensures x * c <= y * c
  {
  }

  /** One more copy of `c`. */
  lemma MulSucc(x: nat, c: nat)
    ensures (x + 1) * c == x * c + c
  {
  }

  /** Quotient and remainder are the unique pair that rebuilds the dividend. */
  lemma DivModUnique(a: nat, d: nat, q: nat, r: nat)
    requires d > 0 && r < d && a == q * d + r
    ensures a / d == q && a % d == r
  {
    var q', r' := a / d, a % d;
    assert a == q' * d + r';
    if q' < q {
      MulSucc(q', d);
      MulMonotone(q' + 1, q, d);
    } else if q < q' {
      MulSucc(q, d);
      MulMonotone(q + 1, q', d);
    }
  }

  /** Where frame `i` starts in an interleaved buffer (`i * channels`). */
  function FrameStart(i: nat, channels: nat): nat
  {
    i * channels
  }

  /** Frame `i` of a buffer of two or more channels has its left sample but is
      cut before its right one: reading `data[idx + 1]` then fails. */
  predicate TruncatedFrameAt(data: seq<real>, channels: nat, i: nat)
  {
    channels >= 2 && FrameStart(i, channels) < |data| <= FrameStart(i, channels) + 1
  }

  /** The callback indexes `data[idx + 1]` after checking only `idx < data.len()`,
      so it panics exactly when the last sample of `data` starts one of the first
      `fftSize` frames of a buffer with two or more channels. */
  predicate CallbackPanics(data: seq<real>, channels: nat, fftSize: nat)
  {
    channels >= 2 && |data| > 0 && (|data| - 1) % channels == 0 && (|data| - 1) / channels < fftSize
  }

  /** `CallbackPanics` holds exactly when one of the first `fftSize` frames is cut. */
  lemma CallbackPanicsIffTruncatedFrame(data: seq<real>, channels: nat, fftSize: nat)
    ensures CallbackPanics(data, channels, fftSize) <==>
      exists i :: 0 <= i < fftSize && TruncatedFrameAt(data, channels, i)
  {
    if CallbackPanics(data, channels, fftSize) {
      var i := (|data| - 1) / channels;
      DivModUnique(|data| - 1, channels, i, (|data| - 1) % channels);
      assert TruncatedFrameAt(data, channels, i);
    }
    if i :| 0 <= i < fftSize && TruncatedFrameAt(data, channels, i) {
      DivModUnique(|data| - 1, channels, i, 0);
    }
  }

  /** Outside the panicking case every frame the callback reads is complete. */
  lemma CompleteFrames(data: seq<real>, channels: nat, fftSize: nat)
    requires !CallbackPanics(data, channels, fftSize)
    ensures forall i :: 0 <= i < fftSize && channels >= 2 && FrameStart(i, channels) < |data| ==>
      FrameStart(i, channels) + 1 < |data|
  {
    forall i | 0 <= i < fftSize && channels >= 2 && FrameStart(i, channels) < |data|
      ensures FrameStart(i, channels) + 1 < |data|
    {
      if FrameStart(i, channels) + 1 >= |data| {
        DivModUnique(|data| - 1, channels, i, 0);
      }
    }
  }

  /** A buffer made of whole frames, as the audio system delivers them, never
      makes the callback panic. */
  lemma WholeFramesNeverPanic(data: seq<real>, channels: nat, fftSize: nat)
    requires channels >= 1 && |data| % channels == 0
    ensures !CallbackPanics(data, channels, fftSize)
  {
    if channels >= 2 && |data| > 0 {
      var k := |data| / channels;
      assert |data| == k * channels;
      assert k >= 1;
      assert |data| - 1 == (k - 1) * channels + (channels - 1);
      DivModUnique(|data| - 1, channels, k - 1, channels - 1);
    }
  }

  /** A buffer holding at least `fftSize` whole frames never makes the callback
      panic, whatever follows them. */
  lemma LongBufferNeverPanics(data: seq<real>, channels: nat, fftSize: nat)
    requires |data| >= fftSize * channels
    ensures !CallbackPanics(data, channels, fftSize)
  {
    if CallbackPanics(data, channels, fftSize) {
      var i := (|data| - 1) / channels;
      DivModUnique(|data| - 1, channels, i, 0);
      MulSucc(i, channels);
      MulMonotone(i + 1, fftSize, channels);
    }
  }

  /** One stereo frame cut in half within the first two frames: the callback
      would index past the end of `data`. */
  lemma HalfFramePanics()
    ensures CallbackPanics([0.25, 0.5, 0.75], 2, 2)
  {
  }

  /** The value the callback leaves in `left_buffer[i]`, given the value
      `previous` it held before. With no channels at all neither branch of the
      callback writes, so the old value stays. */
  function LeftSample(data: seq<real>, channels: nat, i: nat, previous: real): real
  {
    var idx := FrameStart(i, channels);
    if idx < |data| then
      if channels == 1 then data[idx]
      else if channels >= 2 then data[idx]
      else previous
    else
      0.0
  }

  /** The value the callback leaves in `right_buffer[i]`. */
  function RightSample(data: seq<real>, channels: nat, i: nat, previous: real): real
    requires channels >= 2 && FrameStart(i, channels) < |data| ==> FrameStart(i, channels) + 1 < |data|
  {
    var idx := FrameStart(i, channels);
    if idx < |data| then
      if channels == 1 then data[idx]
      else if channels >= 2 then data[idx + 1]
      else previous
    else
      0.0
  }

  /** The left buffer after one callback: the first `fftSize` entries are
      rewritten, the rest of the buffer is left as it was. */
  function CapturedLeft(data: seq<real>, channels: nat, fftSize: nat, previous: seq<real>): (s: seq<real>)
    requires fftSize <= |previous|
    ensures |s| == |previous|
    ensures forall i :: fftSize <= i < |previous| ==> s[i] == previous[i]
  {
    seq(|previous|, i requires 0 <= i < |previous| =>
      if i < fftSize then LeftSample(data, channels, i, previous[i]) else previous[i])
  }

  /** The right buffer after one callback. */
  function CapturedRight(data: seq<real>, channels: nat, fftSize: nat, previous: seq<real>): (s: seq<real>)
    requires fftSize <= |previous| && !CallbackPanics(data, channels, fftSize)
    ensures |s| == |previous|
    ensures forall i :: fftSize <= i < |previous| ==> s[i] == previous[i]
  {
    CompleteFrames(data, channels, fftSize);
    seq(|previous|, i requires 0 <= i < |previous| =>
      if i < fftSize then RightSample(data, channels, i, previous[i]) else previous[i])
  }

  /** Mono input is copied to both channels. */
  lemma MonoDuplicates(data: seq<real>, fftSize: nat, left: seq<real>, right: seq<real>)
    requires fftSize <= |left| && fftSize <= |right|
    ensures !CallbackPanics(data, 1, fftSize)
    ensures forall i :: 0 <= i < fftSize ==>
      CapturedLeft(data, 1, fftSize, left)[i] == CapturedRight(data, 1, fftSize, right)[i]
    ensures forall i :: 0 <= i < fftSize && i < |data| ==>
      CapturedLeft(data, 1, fftSize, left)[i] == data[i] && CapturedRight(data, 1, fftSize, right)[i] == data[i]
  {
  }

  /** With two or more channels, frame `i` splits into its first two samples,
      both inside `data`. */
  lemma StereoSplits(data: seq<real>, channels: nat, fftSize: nat, left: seq<real>, right: seq<real>)
    requires channels >= 2 && fftSize <= |left| && fftSize <= |right|
    requires !CallbackPanics(data, channels, fftSize)
    ensures forall i :: 0 <= i < fftSize && FrameStart(i, channels) < |data| ==>
      FrameStart(i, channels) + 1 < |data| &&
      CapturedLeft(data, channels, fftSize, left)[i] == data[FrameStart(i, channels)] &&
      CapturedRight(data, channels, fftSize, right)[i] == data[FrameStart(i, channels) + 1]
  {
    CompleteFrames(data, channels, fftSize);
  }

  /** Frames the hardware did not deliver read as silence on both channels. */
  lemma ShortBufferZeroFills(data: seq<real>, channels: nat, fftSize: nat, left: seq<real>, right: seq<real>)
    requires fftSize <= |left| && fftSize <= |right|
    requires !CallbackPanics(data, channels, fftSize)
    ensures forall i :: 0 <= i < fftSize && FrameStart(i, channels) >= |data| ==>
      CapturedLeft(data, channels, fftSize, left)[i] == 0.0 &&
      CapturedRight(data, channels, fftSize, right)[i] == 0.0
  {
  }

  /** With at least one channel, silence fills a suffix: once frame `i` is
      missing, every later frame up to `fftSize` is zero too. */
  lemma ZeroFillIsSuffix(data: seq<real>, channels: nat, fftSize: nat, left: seq<real>, right: seq<real>, i: nat)
    requires channels >= 1 && fftSize <= |left| && fftSize <= |right|
    requires !CallbackPanics(data, channels, fftSize)
    requires i < fftSize && FrameStart(i, channels) >= |data|
    ensures forall j :: i <= j < fftSize ==>
      CapturedLeft(data, channels, fftSize, left)[j] == 0.0 &&
      CapturedRight(data, channels, fftSize, right)[j] == 0.0
  {
    forall j | i <= j < fftSize
      ensures CapturedLeft(data, channels, fftSize, left)[j] == 0.0
      ensures CapturedRight(data, channels, fftSize, right)[j] == 0.0
    {
      MulMonotone(i, j, channels);
    }
  }

  /** Samples past the first `fftSize` frames are never read: two buffers that
      agree on those frames give the same captured buffers. */
  lemma LaterFramesIgnored(data: seq<real>, data': seq<real>, channels: nat, fftSize: nat, left: seq<real>, right: seq<real>)
    requires channels >= 1 && fftSize <= |left| && fftSize <= |right|
    requires |data| >= fftSize * channels && |data'| >= fftSize * channels
    requires data[..fftSize * channels] == data'[..fftSize * channels]
    ensures !CallbackPanics(data, channels, fftSize) && !CallbackPanics(data', channels, fftSize)
    ensures CapturedLeft(data, channels, fftSize, left) == CapturedLeft(data', channels, fftSize, left)
    ensures CapturedRight(data, channels, fftSize, right) == CapturedRight(data', channels, fftSize, right)
  {
    LongBufferNeverPanics(data, channels, fftSize);
    LongBufferNeverPanics(data', channels, fftSize);
    var m := fftSize * channels;
    forall i | 0 <= i < fftSize
      ensures FrameStart(i, channels) < m
      ensures channels >= 2 ==> FrameStart(i, channels) + 1 < m
    {
      MulSucc(i, channels);
      MulMonotone(i + 1, fftSize, channels);
    }
    forall k | 0 <= k < m ensures data[k] == data'[k] {
      assert data[..m][k] == data'[..m][k];
    }
  }

  /** With a channel count of zero and a non-empty buffer neither branch of the
      callback fires: both buffers keep their contents. */
  lemma ZeroChannelsKeepBuffers(data: seq<real>, fftSize: nat, left: seq<real>, right: seq<real>)
    requires |data| > 0 && fftSize <= |left| && fftSize <= |right|
    ensures CapturedLeft(data, 0, fftSize, left) == left
    ensures CapturedRight(data, 0, fftSize, right) == right
  {
  }

  /** A mono buffer of three samples fills three-sample buffers on both sides. */
  lemma MonoScenario(left: seq<real>, right: seq<real>)
    requires |left| == 3 && |right| == 3
    ensures CapturedLeft([0.5, 0.5, 0.5], 1, 3, left) == [0.5, 0.5, 0.5]
    ensures CapturedRight([0.5, 0.5, 0.5], 1, 3, right) == [0.5, 0.5, 0.5]
  {
  }

  /** `AudioData`: the left and right sample buffers shared between the capture
      callback and the tick. They are allocated once and never reallocated. */
  class AudioData {
    const leftBuffer: array<real>
    const rightBuffer: array<real>

    /** The two buffers are distinct and equally long. */
    ghost predicate Valid()
    {
      leftBuffer != rightBuffer && leftBuffer.Length == rightBuffer.Length
    }

    /** `AudioData::new`: two zero-filled buffers of `fftSize` samples. */
    constructor (fftSize: nat)
      ensures Valid() && fresh(leftBuffer) && fresh(rightBuffer)
      ensures leftBuffer.Length == fftSize && rightBuffer.Length == fftSize
      ensures forall i :: 0 <= i < fftSize ==> leftBuffer[i] == 0.0 && rightBuffer[i] == 0.0
    {
      leftBuffer := new real[fftSize](_ => 0.0);
      rightBuffer := new real[fftSize](_ => 0.0);
    }

    /** The body of the input callback: de-interleaves one hardware buffer
        `data` of `channels` channels into the first `fftSize` entries of both
        buffers; it writes nothing else. */
    method Callback(fftSize: nat, data: seq<real>, channels: nat)
      requires Valid() && fftSize <= leftBuffer.Length
      requires !CallbackPanics(data, channels, fftSize)
      modifies leftBuffer, rightBuffer
      ensures leftBuffer[..] == CapturedLeft(data, channels, fftSize, old(leftBuffer[..]))
      ensures rightBuffer[..] == CapturedRight(data, channels, fftSize, old(rightBuffer[..]))
    {
      CompleteFrames(data, channels, fftSize);
      for i := 0 to fftSize
        invariant forall k :: 0 <= k < i ==>
          leftBuffer[k] == LeftSample(data, channels, k, old(leftBuffer[k])) &&
          rightBuffer[k] == RightSample(data, channels, k, old(rightBuffer[k]))
        invariant forall k :: i <= k < leftBuffer.Length ==>
          leftBuffer[k] == old(leftBuffer[k]) && rightBuffer[k] == old(rightBuffer[k])
      {
        var idx := FrameStart(i, channels);
        if idx < |data| {
          if channels == 1 {
            leftBuffer[i] := data[idx];
            rightBuffer[i] := data[idx];
          } else if channels >= 2 {
            leftBuffer[i] := data[idx];
            rightBuffer[i] := data[idx + 1];
          }
        } else {
          leftBuffer[i] := 0.0;
          rightBuffer[i] := 0.0;
        }
      }
    }
  }
}
