/** The decisions of the on-screen panel (lines 119-138): whether each metric
    is shown as a value or as the "--" placeholder, and which colour it gets.
    The drawing itself is not modelled. */
module Hud {
  import opened JumpSpec
  import JumpProperties

  /** What a panel line shows. */
  datatype Display = Placeholder | Centimetres(cm: real) | Degrees(deg: int)

  /** Highest minimum knee angle shown as a measured dip. */
  const DipShownBelow: real := 179.0
  const DipGoodLow: real := 80.0
  const DipGoodHigh: real := 110.0
  const ExtensionGoodAbove: real := 165.0

  /** Python's `int()` on a float: truncation toward zero. */
  function Truncate(x: real): (k: int)
    ensures x >= 0.0 ==> 0 <= k && k as real <= x < k as real + 1.0
    ensures x < 0.0 ==> k <= 0 && k as real - 1.0 < x <= k as real
  {
    if x >= 0.0 then x.Floor else -((-x).Floor)
  }

  /** Line 121. */
  function HeightText(heightCm: real): (d: Display)
  {
    if heightCm > 0.0 then Centimetres(heightCm) else Placeholder
  }

  /** Line 126. */
  function DipText(minKneeAngle: real): (d: Display)
    ensures d == Placeholder || d == Degrees(Truncate(minKneeAngle))
    ensures d == Placeholder <==> minKneeAngle >= DipShownBelow
    ensures d != Placeholder && minKneeAngle >= 0.0 ==>
      0 <= d.deg < 179 && d.deg as real <= minKneeAngle < d.deg as real + 1.0
  {
    if minKneeAngle < DipShownBelow then Degrees(Truncate(minKneeAngle)) else Placeholder
  }

  /** Line 127: the dip is drawn in the "good" colour inside [80, 110]. */
  predicate DipInTargetRange(minKneeAngle: real)
    ensures DipInTargetRange(minKneeAngle) ==>
      && DipText(minKneeAngle) == Degrees(Truncate(minKneeAngle))
      && DipGoodLow <= Truncate(minKneeAngle) as real <= DipGoodHigh
  {
    DipGoodLow <= minKneeAngle <= DipGoodHigh
  }

  /** Line 132. */
  function ExtensionText(maxExtension: real): (d: Display)
    ensures d == Placeholder || d == Degrees(Truncate(maxExtension))
    ensures d == Placeholder <==> maxExtension <= 0.0
    ensures d != Placeholder ==> d.deg >= 0 && d.deg as real <= maxExtension < d.deg as real + 1.0
  {
    if maxExtension > 0.0 then Degrees(Truncate(maxExtension)) else Placeholder
  }

  /** Line 133: the extension is drawn in the "good" colour above 165. */
  predicate ExtensionInTargetRange(maxExtension: real)
    ensures ExtensionInTargetRange(maxExtension) ==>
      && ExtensionText(maxExtension) == Degrees(Truncate(maxExtension))
      && Truncate(maxExtension) as real > ExtensionGoodAbove - 1.0
  {
    maxExtension > ExtensionGoodAbove
  }

  /** Line 137: the rhythm line is drawn only for a positive contraction time. */
  predicate ShowsRhythm(contractionTime: real)
  {
    contractionTime > 0.0
  }

  /** A height computed from an airborne count is shown as a value exactly
      when at least one airborne frame was counted. */
  lemma HeightShownIffFlight(cfg: Config, airborneFrames: nat)
    ensures HeightText(JumpHeight(cfg, airborneFrames)) != Placeholder <==> airborneFrames > 0
  {
  }

  /** With a positive frame rate, the rhythm of a recorded dip onset and a
      takeoff frame is drawn exactly when the onset strictly precedes the
      takeoff. */
  lemma RhythmShownIffDipPrecedesTakeoff(cfg: Config, dipOnsetFrame: nat, takeoffFrame: nat)
    requires cfg.fps > 0.0
    ensures ShowsRhythm(ContractionTime(cfg, dipOnsetFrame, takeoffFrame)) <==>
      0 < dipOnsetFrame < takeoffFrame
  {
  }

  /** At the start every metric is shown as a placeholder and no rhythm is
      drawn. */
  lemma InitialPanelIsEmpty()
    ensures HeightText(Initial().jumpHeightCm) == Placeholder
    ensures DipText(Initial().minKneeAngle) == Placeholder
    ensures ExtensionText(Initial().maxExtension) == Placeholder
    ensures !ShowsRhythm(Initial().contractionTime)
  {
  }

  /** A height is shown exactly when the jump has landed. */
  lemma {:induction false} HeightShownIffLanded(cfg: Config, obs: seq<Option<Pose>>)
    requires Run(cfg, Initial(), obs).Ok?
    ensures var t := Run(cfg, Initial(), obs).value;
      HeightText(t.jumpHeightCm) != Placeholder <==> t.phase == Landed
  {
    JumpProperties.FinalMetrics(cfg, obs);
  }

  /** A dip is shown exactly when some post-calibration ground frame had a
      knee angle below 179 degrees. */
  lemma {:induction false} DipShownIffDeepFrame(cfg: Config, obs: seq<Option<Pose>>)
    requires Run(cfg, Initial(), obs).Ok?
    ensures var t := Run(cfg, Initial(), obs).value;
      DipText(t.minKneeAngle) != Placeholder <==>
        exists j :: JumpProperties.GroundPoseFrame(obs, t, j) && obs[j].value.kneeAngle < DipShownBelow
  {
    JumpProperties.MinKneeAngleIsMinimum(cfg, obs);
  }

  /** While the subject is still on the ground no height, extension or
      rhythm is shown. */
  lemma {:induction false} NothingAfterTakeoffShownOnGround(cfg: Config, obs: seq<Option<Pose>>)
    requires Run(cfg, Initial(), obs).Ok?
    requires Run(cfg, Initial(), obs).value.phase == Ground
    ensures var t := Run(cfg, Initial(), obs).value;
      && HeightText(t.jumpHeightCm) == Placeholder
      && ExtensionText(t.maxExtension) == Placeholder
      && !ShowsRhythm(t.contractionTime)
  {
    JumpProperties.RunInv(cfg, obs);
  }

  /** With a positive frame rate, the rhythm is shown exactly when a dip
      onset was recorded strictly before the takeoff frame. */
  lemma {:induction false} RhythmShownIffDipBeforeTakeoff(cfg: Config, obs: seq<Option<Pose>>)
    requires cfg.fps > 0.0
    requires Run(cfg, Initial(), obs).Ok?
    ensures var t := Run(cfg, Initial(), obs).value;
      ShowsRhythm(t.contractionTime) <==>
        t.phase != Ground && 0 < t.dipOnsetFrame < t.takeoffFrame
  {
    JumpProperties.RunInv(cfg, obs);
  }
}
