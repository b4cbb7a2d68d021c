/** Value-level specification of the per-frame jump-event state machine of
    `analisar_hud_completo` (app.py). A frame is either "no pose" or a pose
    reduced to its knee angle and foot height in pixels (larger = lower on
    screen). `Next` is one iteration of the frame loop, including the frame
    counter; `Run` folds it over a video. */
module JumpSpec {
  import opened FrameRate

  datatype Option<T> = None | Some(value: T)

  /** What pose estimation yields for one frame. */
  datatype Pose = Pose(kneeAngle: real, footY: real)

  /** `CHAO`, `NO AR`, `POUSOU`. */
  datatype Phase = Ground | Airborne | Landed

  /** `max(lista_y_chao)` on an empty list: no pose during calibration. */
  datatype Error = EmptyCalibration

  datatype Result<T> = Ok(value: T) | Err(error: Error)

  /** Video geometry fixed for the whole analysis. */
  datatype Config = Config(frameHeight: nat, fps: Fps)

  const CalibrationFrames: nat := 30
  const DipOnsetAngle: real := 170.0
  const TakeoffMargin: real := 0.03
  const LandingMargin: real := 0.01
  const ExtensionWindow: nat := 10
  const HeightPerSquareSecond: real := 122.6
  const NoDipAngle: real := 180.0

  /** The locals of the analysis loop. `dipOnsetFrame` and `takeoffFrame` use
      0 for "unset", as the source does. */
  datatype State = State(
    phase: Phase,
    groundY: real,
    samples: seq<real>,
    minKneeAngle: real,
    maxExtension: real,
    airborneFrames: nat,
    dipOnsetFrame: nat,
    takeoffFrame: nat,
    contractionTime: real,
    jumpHeightCm: real,
    frameIdx: nat)

  /** The values the analysis starts from (lines 40-53): they satisfy the
      invariant of every reachable state, whatever the video's geometry. */
  function Initial(): (s: State)
    ensures forall cfg :: Inv(cfg, s)
  {
    State(Ground, 0.0, [], NoDipAngle, 0.0, 0, 0, 0, 0.0, 0.0, 0)
  }

  /** Largest element: the ground level among the calibration samples. */
  function Max(s: seq<real>): (m: real)
    requires |s| > 0
    ensures m in s
    ensures forall x :: x in s ==> x <= m
  {
    if |s| == 1 then s[0]
    else
      var rest := Max(s[1..]);
      assert forall x :: x in s ==> x == s[0] || x in s[1..];
      if s[0] >= rest then s[0] else rest
  }

  /** Foot heights above this line (smaller y) mean the subject took off. */
  function TakeoffLine(cfg: Config, groundY: real): (line: real)
    ensures line <= LandingLine(cfg, groundY) <= groundY
    ensures cfg.frameHeight > 0 ==> line < LandingLine(cfg, groundY)
  {
    groundY - cfg.frameHeight as real * TakeoffMargin
  }

  /** Foot heights at or below this line mean the subject landed. */
  function LandingLine(cfg: Config, groundY: real): (line: real)
    ensures line <= groundY
    ensures line == groundY <==> cfg.frameHeight == 0
  {
    groundY - cfg.frameHeight as real * LandingMargin
  }

  /** Seconds from dip onset to takeoff, or 0 when no dip was recorded. */
  function ContractionTime(cfg: Config, dipOnsetFrame: nat, takeoffFrame: nat): (r: real)
    ensures dipOnsetFrame == 0 ==> r == 0.0
    ensures cfg.fps > 0.0 && dipOnsetFrame > 0 ==>
              (r > 0.0 <==> dipOnsetFrame < takeoffFrame)
  {
    if dipOnsetFrame > 0 then (takeoffFrame - dipOnsetFrame) as real / cfg.fps else 0.0
  }

  /** Jump height in centimetres from the number of airborne frames:
      122.6 times the squared flight time in seconds. */
  function JumpHeight(cfg: Config, airborneFrames: nat): (r: real)
    ensures r >= 0.0
    ensures r == 0.0 <==> airborneFrames == 0
  {
    var flight := airborneFrames as real / cfg.fps;
    assert airborneFrames > 0 ==> flight * flight > 0.0 by {
      if airborneFrames > 0 {
        assert flight * cfg.fps == airborneFrames as real;
        if flight < 0.0 {
          assert (-flight) * (-flight) > 0.0;
        }
      }
    }
    HeightPerSquareSecond * (flight * flight)
  }

  /** Squaring is monotone on magnitudes. */
  lemma SquareMonotone(x: real, y: real)
    requires 0.0 <= x <= y
    ensures x * x <= y * y
  {
    assert x * x <= x * y;
    assert x * y <= y * y;
  }

  /** More airborne frames never give a lower jump. */
  lemma JumpHeightMonotone(cfg: Config, n: nat, m: nat)
    requires n <= m
    ensures JumpHeight(cfg, n) <= JumpHeight(cfg, m)
  {
    var f := cfg.fps;
    var a := n as real / f;
    var b := m as real / f;
    assert b - a == (m - n) as real / f;
    if f > 0.0 {
      assert 0.0 <= a <= b;
      SquareMonotone(a, b);
    } else {
      assert b <= a <= 0.0;
      SquareMonotone(-a, -b);
      assert (-a) * (-a) == a * a && (-b) * (-b) == b * b;
    }
    assert a * a <= b * b;
  }

  /** Fifteen airborne frames at 30 frames per second is half a second of
      flight, about 30.65 cm. */
  lemma JumpHeightHalfSecond()
    ensures JumpHeight(Config(0, 30.0), 15) == 30.65
  {
    assert 15 as real / 30.0 == 0.5;
  }

  /** Lines 89-103: a post-calibration pose frame on the ground, once the
      ground level is fixed. */
  function TrackGround(cfg: Config, s: State, p: Pose): (t: State)
    requires s.phase == Ground && s.frameIdx >= CalibrationFrames
    ensures t.minKneeAngle <= s.minKneeAngle && t.minKneeAngle <= p.kneeAngle
    ensures t.minKneeAngle == s.minKneeAngle || t.minKneeAngle == p.kneeAngle
    ensures t.dipOnsetFrame != s.dipOnsetFrame <==> s.dipOnsetFrame == 0 && p.kneeAngle < DipOnsetAngle
    ensures t.dipOnsetFrame != s.dipOnsetFrame ==> t.dipOnsetFrame == s.frameIdx
    ensures t.phase == Airborne <==> p.footY < TakeoffLine(cfg, s.groundY)
    ensures t.phase != Airborne ==> t.phase == Ground && t.takeoffFrame == s.takeoffFrame
    ensures t.phase == Airborne ==> t.takeoffFrame == s.frameIdx
    ensures t.phase == Airborne ==>
              t.contractionTime == (if t.dipOnsetFrame > 0 then ContractionTime(cfg, t.dipOnsetFrame, s.frameIdx)
                                    else s.contractionTime)
    ensures t.phase == Ground ==> t.contractionTime == s.contractionTime
    ensures t.groundY == s.groundY && t.samples == s.samples && t.frameIdx == s.frameIdx
    ensures t.airborneFrames == s.airborneFrames && t.maxExtension == s.maxExtension
    ensures t.jumpHeightCm == s.jumpHeightCm
  {
    var minAngle := if p.kneeAngle < s.minKneeAngle then p.kneeAngle else s.minKneeAngle;
    var dip := if p.kneeAngle < DipOnsetAngle && s.dipOnsetFrame == 0 then s.frameIdx else s.dipOnsetFrame;
    var t := s.(minKneeAngle := minAngle, dipOnsetFrame := dip);
    if p.footY < TakeoffLine(cfg, s.groundY) then
      t.(phase := Airborne, takeoffFrame := s.frameIdx,
         contractionTime := if dip > 0 then ContractionTime(cfg, dip, s.frameIdx) else s.contractionTime)
    else
      t
  }

  /** Lines 81-116: the effect of a frame in which a pose was found. */
  function Observe(cfg: Config, s: State, p: Pose): (r: Result<State>)
    ensures r.Err? <==>
      s.phase == Ground && s.frameIdx >= CalibrationFrames && s.groundY == 0.0 && |s.samples| == 0
    ensures r.Ok? ==> r.value.frameIdx == s.frameIdx
    ensures r.Ok? && s.frameIdx < CalibrationFrames && s.phase == Ground ==>
      r.value == s.(samples := s.samples + [p.footY])
    ensures r.Ok? && (s.frameIdx >= CalibrationFrames || s.phase != Ground) ==> r.value.samples == s.samples
    ensures s.phase == Landed ==> r == Ok(s)
  {
    match s.phase
    case Ground =>
      if s.frameIdx < CalibrationFrames then
        Ok(s.(samples := s.samples + [p.footY]))
      else if s.groundY == 0.0 && |s.samples| == 0 then
        Err(EmptyCalibration)
      else
        var groundY := if s.groundY == 0.0 then Max(s.samples) else s.groundY;
        Ok(TrackGround(cfg, s.(groundY := groundY), p))
    case Airborne =>
      var n := s.airborneFrames + 1;
      var ext := if n < ExtensionWindow && p.kneeAngle > s.maxExtension then p.kneeAngle else s.maxExtension;
      var t := s.(airborneFrames := n, maxExtension := ext);
      if p.footY >= LandingLine(cfg, s.groundY) then
        Ok(t.(phase := Landed, jumpHeightCm := JumpHeight(cfg, n)))
      else
        Ok(t)
    case Landed =>
      Ok(s)
  }

  /** One iteration of the frame loop: the pose logic when a pose was found,
      then the frame counter (line 143) in every case. */
  function Next(cfg: Config, s: State, obs: Option<Pose>): (r: Result<State>)
    ensures r.Ok? ==> r.value.frameIdx == s.frameIdx + 1
    ensures r.Err? ==> obs.Some?
  {
    match obs
    case None => Ok(s.(frameIdx := s.frameIdx + 1))
    case Some(p) =>
      match Observe(cfg, s, p)
      case Err(e) => Err(e)
      case Ok(t) => Ok(t.(frameIdx := s.frameIdx + 1))
  }

  /** The frames of a video fed one by one; the first error aborts. */
  function Run(cfg: Config, s: State, obs: seq<Option<Pose>>): (r: Result<State>)
    ensures r.Ok? ==> r.value.frameIdx == s.frameIdx + |obs|
  {
    if obs == [] then Ok(s)
    else
      match Run(cfg, s, obs[..|obs| - 1])
      case Err(e) => Err(e)
      case Ok(t) => Next(cfg, t, obs[|obs| - 1])
  }

  function Rank(p: Phase): (rank: nat)
  {
    match p
    case Ground => 0
    case Airborne => 1
    case Landed => 2
  }

  /** The foot samples the first `CalibrationFrames` frames of a video
      contribute: one per frame with a pose, in order. */
  function CalibrationSamples(obs: seq<Option<Pose>>): (samples: seq<real>)
  {
    if obs == [] then []
    else
      var k := |obs| - 1;
      CalibrationSamples(obs[..k])
        + (if k < CalibrationFrames && obs[k].Some? then [obs[k].value.footY] else [])
  }

  /** What holds of every state reached from `Initial()`. */
  ghost predicate Inv(cfg: Config, s: State)
  {
    && |s.samples| <= CalibrationFrames
    && |s.samples| <= s.frameIdx
    && (s.frameIdx <= CalibrationFrames ==>
          s.phase == Ground && s.groundY == 0.0 && s.minKneeAngle == NoDipAngle && s.dipOnsetFrame == 0)
    && (s.groundY != 0.0 ==> |s.samples| > 0 && s.groundY == Max(s.samples))
    && (s.phase != Ground ==> |s.samples| > 0 && s.groundY == Max(s.samples))
    && s.minKneeAngle <= NoDipAngle
    && s.maxExtension >= 0.0
    && (s.dipOnsetFrame != 0 ==> CalibrationFrames <= s.dipOnsetFrame < s.frameIdx)
    && (s.phase == Ground ==>
          && s.takeoffFrame == 0 && s.airborneFrames == 0 && s.maxExtension == 0.0
          && s.contractionTime == 0.0)
    && (s.phase != Ground ==>
          && CalibrationFrames <= s.takeoffFrame < s.frameIdx
          && s.dipOnsetFrame <= s.takeoffFrame
          && s.airborneFrames < s.frameIdx - s.takeoffFrame
          && s.contractionTime == ContractionTime(cfg, s.dipOnsetFrame, s.takeoffFrame))
    && (s.phase != Landed ==> s.jumpHeightCm == 0.0)
    && (s.phase == Landed ==> s.airborneFrames >= 1 && s.jumpHeightCm == JumpHeight(cfg, s.airborneFrames))
  }

  /** How a later state relates to an earlier one: the phase only advances,
      the extrema only move one way, and what is written once stays. */
  ghost predicate Follows(s: State, t: State)
  {
    && Rank(s.phase) <= Rank(t.phase)
    && s.frameIdx <= t.frameIdx
    && t.minKneeAngle <= s.minKneeAngle
    && t.maxExtension >= s.maxExtension
    && t.airborneFrames >= s.airborneFrames
    && (s.dipOnsetFrame != 0 ==> t.dipOnsetFrame == s.dipOnsetFrame)
    && (s.groundY != 0.0 ==> t.groundY == s.groundY)
    && (s.frameIdx >= CalibrationFrames ==> t.samples == s.samples)
    && (s.phase != Ground ==>
          && t.groundY == s.groundY && t.takeoffFrame == s.takeoffFrame
          && t.dipOnsetFrame == s.dipOnsetFrame && t.minKneeAngle == s.minKneeAngle
          && t.contractionTime == s.contractionTime)
    && (s.phase == Landed ==> t == s.(frameIdx := t.frameIdx))
  }
}
