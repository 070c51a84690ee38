/**
 * Volume: the gain the user controls (relative steps clamped to [0, 2] and a
 * mute toggle), and the scaling of decoded audio samples by that gain, with
 * saturation for 16-bit integer samples. Floating-point values are modelled
 * as exact reals.
 */
module Gain {
  import opened Media

  const Int16Min: int := -32768
  const Int16Max: int := 32767
  const Int32Min: int := -0x8000_0000
  const Int32Max: int := 0x7FFF_FFFF

  /** Largest gain the volume control allows. */
  const MaxVolume: real := 2.0

  // ---------------------------------------------------------------- volume

  /** The relative volume step: the sum clamped to [0, MaxVolume]. */
  function ClampVolume(v: real): (r: real)
    ensures 0.0 <= r <= MaxVolume
    ensures 0.0 <= v <= MaxVolume ==> r == v
    ensures v < 0.0 ==> r == 0.0
    ensures v > MaxVolume ==> r == MaxVolume
  {
    if v < 0.0 then 0.0 else if v > MaxVolume then MaxVolume else v
  }

  /** The mute toggle: unity gain goes to silence, anything else to unity gain. */
  function ToggleVolume(v: real): (r: real)
    ensures r == 0.0 || r == 1.0
    ensures r == 0.0 <==> v == 1.0
  {
    if v == 1.0 then 0.0 else 1.0
  }

  /** Toggling twice gives back the starting volume exactly when it was 0 or 1. */
  lemma ToggleTwiceRestores(v: real)
    ensures ToggleVolume(ToggleVolume(v)) == v <==> v == 0.0 || v == 1.0
  {
  }

  /** From the initial volume MaxVolume, two toggles end in silence. */
  lemma ToggleTwiceFromInitialVolume()
    ensures ToggleVolume(ToggleVolume(MaxVolume)) == 0.0
  {
  }

  /** Volume after a series of relative steps, applied left to right. Whatever
      the steps, it ends in [0, MaxVolume] once a step was taken, and stays in
      it when it started there. */
  function VolumeAfterSteps(v: real, deltas: seq<real>): (r: real)
    ensures 0.0 <= v <= MaxVolume || deltas != [] ==> 0.0 <= r <= MaxVolume
    decreases |deltas|
  {
    if deltas == [] then v
    else VolumeAfterSteps(ClampVolume(v + deltas[0]), deltas[1..])
  }

  /** A relative step never lowers the volume when the delta is non-negative,
      and never raises it when the delta is non-positive. */
  lemma StepIsMonotone(v: real, d: real)
    requires 0.0 <= v <= MaxVolume
    ensures d >= 0.0 ==> ClampVolume(v + d) >= v
    ensures d <= 0.0 ==> ClampVolume(v + d) <= v
  {
  }

  /** Steps up from the maximum stay at the maximum; steps down from silence
      stay silent. */
  lemma {:induction false} StepsSaturate(v: real, deltas: seq<real>)
    requires v == MaxVolume ==> forall i :: 0 <= i < |deltas| ==> deltas[i] >= 0.0
    requires v == 0.0 ==> forall i :: 0 <= i < |deltas| ==> deltas[i] <= 0.0
    requires v == MaxVolume || v == 0.0
    ensures VolumeAfterSteps(v, deltas) == v
    decreases |deltas|
  {
    if deltas != [] {
      StepsSaturate(ClampVolume(v + deltas[0]), deltas[1..]);
    }
  }

  /** One more step after a series is one more relative volume change: the
      series is the volume control called once per step, in order. */
  lemma {:induction false} StepsAppend(v: real, deltas: seq<real>, d: real)
    ensures VolumeAfterSteps(v, deltas + [d]) == ClampVolume(VolumeAfterSteps(v, deltas) + d)
    decreases |deltas|
  {
    if deltas == [] {
      assert [] + [d] == [d];
    } else {
      assert (deltas + [d])[1..] == deltas[1..] + [d];
      StepsAppend(ClampVolume(v + deltas[0]), deltas[1..], d);
    }
  }

  // ---------------------------------------------------------------- samples

  /** Conversion of a floating value to an integer in C++: truncation toward zero. */
  function Trunc(x: real): (n: int)
    ensures 0.0 <= x ==> 0 <= n && n as real <= x < n as real + 1.0
    ensures x < 0.0 ==> n <= 0 && n as real - 1.0 < x <= n as real
  {
    if x >= 0.0 then x.Floor else -((-x).Floor)
  }

  /** One 16-bit sample scaled by the gain, truncated and saturated to 16 bits. */
  function ScaleSample(s: int, gain: real): (r: int)
    ensures IsInt16(r)
    ensures IsInt16(Trunc(s as real * gain)) ==> r == Trunc(s as real * gain)
    ensures Trunc(s as real * gain) > Int16Max ==> r == Int16Max
    ensures Trunc(s as real * gain) < Int16Min ==> r == Int16Min
  {
    Saturate16(Trunc(s as real * gain))
  }

  /** Clamping of a 32-bit intermediate to the 16-bit range. */
  function Saturate16(v: int): (r: int)
    ensures IsInt16(r)
    ensures IsInt16(v) ==> r == v
  {
    if v > Int16Max then Int16Max else if v < Int16Min then Int16Min else v
  }

  /** The 32-bit intermediate of the scaling cannot overflow: for a 16-bit sample
      and a gain in [0, MaxVolume] the truncated product stays within 2^16. */
  lemma ProductFitsInt32(s: int, gain: real)
    requires IsInt16(s) && 0.0 <= gain <= MaxVolume
    ensures -65536 <= Trunc(s as real * gain) <= 65536
    ensures Int32Min <= Trunc(s as real * gain) <= Int32Max
  {
    var p := s as real * gain;
    if s >= 0 {
      assert 0.0 <= p <= s as real * MaxVolume;
    } else {
      assert s as real * MaxVolume <= p <= 0.0;
    }
  }

  /** At unity gain a 16-bit sample is unchanged. */
  lemma UnityGainKeepsSample(s: int)
    requires IsInt16(s)
    ensures ScaleSample(s, 1.0) == s
  {
  }

  /** A buffer of 16-bit samples scaled sample by sample. */
  function ScaleS16(s: seq<int>, gain: real): (r: seq<int>)
    ensures |r| == |s|
    ensures forall i :: 0 <= i < |r| ==> IsInt16(r[i])
  {
    seq(|s|, i requires 0 <= i < |s| => ScaleSample(s[i], gain))
  }

  /** At unity gain a 16-bit buffer is unchanged. */
  lemma UnityGainKeepsBuffer(s: seq<int>)
    requires forall i :: 0 <= i < |s| ==> IsInt16(s[i])
    ensures ScaleS16(s, 1.0) == s
  {
    forall i | 0 <= i < |s| ensures ScaleS16(s, 1.0)[i] == s[i] {
      UnityGainKeepsSample(s[i]);
    }
  }

  /** The S16 branch of the audio path: rewrites the buffer in place, each sample
      multiplied by the gain into a 32-bit integer and clamped to 16 bits. The
      counter is an `int` here; see ShortCounterAfter for the `short` one. */
  method ScaleS16InPlace(a: array<int>, gain: real)
    requires 0.0 <= gain <= MaxVolume
    requires forall k :: 0 <= k < a.Length ==> IsInt16(a[k])
    modifies a
    ensures a[..] == ScaleS16(old(a[..]), gain)
  {
    var i := 0;
    while i < a.Length
      invariant 0 <= i <= a.Length
      invariant forall k :: 0 <= k < i ==> a[k] == ScaleSample(old(a[k]), gain)
      invariant forall k :: i <= k < a.Length ==> a[k] == old(a[k])
    {
      ProductFitsInt32(a[i], gain);
      a[i] := ScaleSample(a[i], gain);
      i := i + 1;
    }
  }

  /** A buffer of float samples scaled by the gain (exact reals, no rounding). */
  function ScaleFlt(v: seq<real>, gain: real): (r: seq<real>)
    ensures |r| == |v|
    ensures forall i :: 0 <= i < |r| ==> r[i] == v[i] * gain
  {
    seq(|v|, i requires 0 <= i < |v| => v[i] * gain)
  }

  /** At unity gain a float buffer is unchanged, and at gain 0 it is silent. */
  lemma UnityGainKeepsFltBuffer(v: seq<real>)
    ensures ScaleFlt(v, 1.0) == v
    ensures forall i :: 0 <= i < |v| ==> ScaleFlt(v, 0.0)[i] == 0.0
  {
  }

  /** The FLT branch of the audio path: multiplies every sample by the gain in place. */
  method ScaleFltInPlace(a: array<real>, gain: real)
    modifies a
    ensures a[..] == ScaleFlt(old(a[..]), gain)
  {
    var i := 0;
    while i < a.Length
      invariant 0 <= i <= a.Length
      invariant forall k :: 0 <= k < i ==> a[k] == old(a[k]) * gain
      invariant forall k :: i <= k < a.Length ==> a[k] == old(a[k])
    {
      a[i] := a[i] * gain;
      i := i + 1;
    }
    assert forall k :: 0 <= k < a.Length ==> a[..][k] == ScaleFlt(old(a[..]), gain)[k];
  }

  // ------------------------------------------- the loop counter of the S16 loop

  /** `i++` on a C++ `short`: the sum is converted back to 16 bits, so the
      step after 32767 is -32768. */
  function ShortIncrement(i: int): (j: int)
    requires IsInt16(i)
    ensures IsInt16(j)
    ensures i < Int16Max ==> j == i + 1
    ensures i == Int16Max ==> j == Int16Min
  {
    if i == Int16Max then Int16Min else i + 1
  }

  /** The value of the S16 loop's `short` counter after k increments from 0. */
  function ShortCounterAfter(k: nat): (i: int)
    ensures IsInt16(i)
  {
    if k == 0 then 0 else ShortIncrement(ShortCounterAfter(k - 1))
  }

  /** Up to 32767 samples the `short` counter walks 0, 1, 2, ... exactly like an
      `int` counter, so the loop as written scales such a buffer correctly. */
  lemma {:induction false} ShortCounterAgreesBelowBound(k: nat)
    requires k <= Int16Max
    ensures ShortCounterAfter(k) == k
  {
    if k > 0 {
      ShortCounterAgreesBelowBound(k - 1);
    }
  }

  /** With more than 32767 samples the `short` counter never reaches the sample
      count, and after 32768 increments it indexes the buffer at -32768: the loop
      as written does not terminate and writes outside the buffer. */
  lemma ShortCounterWrapsPastBound(numSamples: int, k: nat)
    requires numSamples > Int16Max
    ensures ShortCounterAfter(k) < numSamples
    ensures ShortCounterAfter(Int16Max + 1) == Int16Min
  {
    ShortCounterAgreesBelowBound(Int16Max);
  }
}
