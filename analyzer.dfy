/** The analysis loop of `analisar_hud_completo` as it is written: mutable
    locals become the fields of `JumpAnalyzer`, one loop iteration becomes
    `Step`, and `Analyze` is the loop over the frames of a video. */
module Analyzer {
  import opened FrameRate
  import opened JumpSpec
  import JumpProperties

  /** The figures reported when the video ends. */
  datatype Report = Report(jumpHeightCm: real, minKneeAngle: real, maxExtension: real, contractionTime: real)

  function ReportOf(s: State): (r: Report)
  {
    Report(s.jumpHeightCm, s.minKneeAngle, s.maxExtension, s.contractionTime)
  }

  class JumpAnalyzer {
    const frameHeight: nat
    const fps: Fps

    var phase: Phase
    var groundY: real
    var groundSamples: seq<real>
    var minKneeAngle: real
    var maxExtension: real
    var airborneFrames: nat
    var dipOnsetFrame: nat
    var takeoffFrame: nat
    var contractionTime: real
    var jumpHeightCm: real
    var frameIdx: nat

    function Cfg(): (cfg: Config)
    {
      Config(frameHeight, fps)
    }

    /** The value the fields currently stand for. */
    function Snapshot(): (s: State)
      reads this
    {
      State(phase, groundY, groundSamples, minKneeAngle, maxExtension, airborneFrames,
            dipOnsetFrame, takeoffFrame, contractionTime, jumpHeightCm, frameIdx)
    }

    /** Opens the analysis for a video of the given height and reported rate. */
    constructor (frameHeight: nat, reportedFps: real)
      ensures Cfg() == Config(frameHeight, EffectiveFps(reportedFps))
      ensures Snapshot() == Initial()
    {
      this.frameHeight := frameHeight;
      this.fps := EffectiveFps(reportedFps);
      phase := Ground;
      groundY := 0.0;
      groundSamples := [];
      minKneeAngle := NoDipAngle;
      maxExtension := 0.0;
      airborneFrames := 0;
      dipOnsetFrame := 0;
      takeoffFrame := 0;
      contractionTime := 0.0;
      jumpHeightCm := 0.0;
      frameIdx := 0;
    }

    /** Processes one frame. `ok` is false when the ground level has to be
        fixed but no calibration sample exists; the state is then left as it
        was. */
    method Step(obs: Option<Pose>) returns (ok: bool)
      modifies this
      ensures ok == Next(Cfg(), old(Snapshot()), obs).Ok?
      ensures ok ==> Snapshot() == Next(Cfg(), old(Snapshot()), obs).value
      ensures !ok ==> Snapshot() == old(Snapshot())
      ensures old(phase) == Landed ==> Snapshot() == old(Snapshot()).(frameIdx := old(frameIdx) + 1)
    {
      ok := true;
      if obs.Some? {
        if phase == Ground {
          ok := GroundFrame(obs.value);
          if !ok {
            return;
          }
        } else if phase == Airborne {
          AirborneFrame(obs.value);
        }
      }
      frameIdx := frameIdx + 1;
    }

    /** Lines 82-103: a pose frame on the ground. */
    method GroundFrame(p: Pose) returns (ok: bool)
      requires phase == Ground
      modifies this
      ensures ok == Observe(Cfg(), old(Snapshot()), p).Ok?
      ensures ok ==> Snapshot() == Observe(Cfg(), old(Snapshot()), p).value
      ensures !ok ==> Snapshot() == old(Snapshot())
    {
      if frameIdx < CalibrationFrames {
        groundSamples := groundSamples + [p.footY];
        return true;
      }
      if groundY == 0.0 {
        if |groundSamples| == 0 {
          return false;
        }
        groundY := Max(groundSamples);
      }
      TrackGround(p);
      ok := true;
    }

    /** Lines 89-103: the ground branch once the ground level is fixed. */
    method TrackGround(p: Pose)
      requires phase == Ground && frameIdx >= CalibrationFrames
      modifies this
      ensures Snapshot() == JumpSpec.TrackGround(Cfg(), old(Snapshot()), p)
    {
      if p.kneeAngle < minKneeAngle {
        minKneeAngle := p.kneeAngle;
      }
      if p.kneeAngle < DipOnsetAngle && dipOnsetFrame == 0 {
        dipOnsetFrame := frameIdx;
      }
      if p.footY < TakeoffLine(Cfg(), groundY) {
        phase := Airborne;
        takeoffFrame := frameIdx;
        if dipOnsetFrame > 0 {
          contractionTime := (takeoffFrame - dipOnsetFrame) as real / fps;
        }
      }
    }

    /** Lines 106-116: a pose frame in the air. */
    method AirborneFrame(p: Pose)
      requires phase == Airborne
      modifies this
      ensures Observe(Cfg(), old(Snapshot()), p) == Ok(Snapshot())
    {
      airborneFrames := airborneFrames + 1;
      if airborneFrames < ExtensionWindow {
        if p.kneeAngle > maxExtension {
          maxExtension := p.kneeAngle;
        }
      }
      if p.footY >= LandingLine(Cfg(), groundY) {
        phase := Landed;
        var flight := airborneFrames as real / fps;
        jumpHeightCm := HeightPerSquareSecond * (flight * flight);
        assert jumpHeightCm == JumpHeight(Cfg(), airborneFrames);
      }
    }
  }

  /** Analyses a whole video, given per frame the pose found in it, if any.
      The result is the report of the state machine run over all frames, or
      the calibration error. */
  method Analyze(frameHeight: nat, reportedFps: real, frames: seq<Option<Pose>>) returns (r: Result<Report>)
    ensures var run := Run(Config(frameHeight, EffectiveFps(reportedFps)), Initial(), frames);
      && (r.Err? <==> run.Err?)
      && (r.Ok? ==> r.value == ReportOf(run.value))
    ensures r.Ok? ==> r.value.jumpHeightCm >= 0.0 && r.value.minKneeAngle <= NoDipAngle
  {
    var analyzer := new JumpAnalyzer(frameHeight, reportedFps);
    ghost var cfg := analyzer.Cfg();
    var i := 0;
    while i < |frames|
      invariant 0 <= i <= |frames|
      invariant analyzer.Cfg() == cfg
      invariant Run(cfg, Initial(), frames[..i]) == Ok(analyzer.Snapshot())
    {
      assert frames[..i + 1][..i] == frames[..i];
      var ok := analyzer.Step(frames[i]);
      if !ok {
        JumpProperties.RunErrExtends(cfg, Initial(), frames, i + 1);
        return Err(EmptyCalibration);
      }
      i := i + 1;
    }
    assert frames[..i] == frames;
    JumpProperties.FinalMetrics(cfg, frames);
    r := Ok(ReportOf(analyzer.Snapshot()));
  }
}
