/** The frame-rate fallback applied once when the video is opened. */
module FrameRate {

  /** Frame rate substituted when the container reports none. */
  const DefaultFps: real := 30.0

  /** A frame rate usable as a divisor. */
  type Fps = r: real | r != 0.0 witness DefaultFps

  /** The rate the analysis uses: the reported one, or the default when the
      reported rate is zero. */
  function EffectiveFps(reported: real): (r: Fps)
    ensures reported == 0.0 ==> r == DefaultFps
    ensures reported != 0.0 ==> r == reported
    ensures r > 0.0 <==> reported >= 0.0
  {
    if reported == 0.0 then DefaultFps else reported
  }

  /** Applying the fallback to a rate it produced changes nothing. */
  lemma EffectiveFpsIdempotent(reported: real)
    ensures EffectiveFps(EffectiveFps(reported)) == EffectiveFps(reported)
  {
  }
}
