/** Properties of the jump-event state machine: per-frame facts about `Next`,
    the invariant of every reachable state, and facts about whole videos. */
module JumpProperties {
  import opened FrameRate
  import opened JumpSpec

  // ---------------------------------------------------------------------------
  // One frame

  /** A frame without a pose changes nothing but the frame counter, whatever
      the phase (so a missing pose in the air is not counted as airborne). */
  lemma MissingPoseIsNoOp(cfg: Config, s: State)
    ensures Next(cfg, s, None) == Ok(s.(frameIdx := s.frameIdx + 1))
  {
  }

  /** During calibration a pose frame only appends its foot height to the
      samples. */
  lemma CalibrationStep(cfg: Config, s: State, p: Pose)
    requires Inv(cfg, s) && s.frameIdx < CalibrationFrames
    ensures Next(cfg, s, Some(p)) == Ok(s.(samples := s.samples + [p.footY], frameIdx := s.frameIdx + 1))
  {
  }

  /** After calibration, on the ground: the minimum knee angle becomes the
      smaller of the old one and the new angle, and the dip onset is recorded
      exactly when it was unset and the angle is below the threshold. */
  lemma GroundStep(cfg: Config, s: State, p: Pose)
    requires Inv(cfg, s) && s.phase == Ground && s.frameIdx >= CalibrationFrames
    requires Next(cfg, s, Some(p)).Ok?
    ensures var t := Next(cfg, s, Some(p)).value;
      && t.minKneeAngle <= s.minKneeAngle && t.minKneeAngle <= p.kneeAngle
      && (t.minKneeAngle == s.minKneeAngle || t.minKneeAngle == p.kneeAngle)
      && (t.dipOnsetFrame != s.dipOnsetFrame <==> s.dipOnsetFrame == 0 && p.kneeAngle < DipOnsetAngle)
      && (t.dipOnsetFrame != s.dipOnsetFrame ==> t.dipOnsetFrame == s.frameIdx)
      && |s.samples| > 0 && t.groundY == Max(s.samples)
  {
  }

  /** Takeoff happens exactly on a post-calibration ground frame whose foot is
      above the takeoff line of the calibrated ground level; it records the
      frame and the contraction time since the dip onset, if any. */
  lemma TakeoffStep(cfg: Config, s: State, obs: Option<Pose>)
    requires Inv(cfg, s) && s.phase == Ground
    requires Next(cfg, s, obs).Ok?
    ensures var t := Next(cfg, s, obs).value;
      && (t.phase == Airborne <==>
            && s.frameIdx >= CalibrationFrames && obs.Some?
            && obs.value.footY < TakeoffLine(cfg, Max(s.samples)))
      && (t.phase == Airborne ==>
            && t.takeoffFrame == s.frameIdx
            && t.contractionTime == ContractionTime(cfg, t.dipOnsetFrame, s.frameIdx))
      && t.phase != Landed
  {
  }

  /** A pose frame in the air counts one more airborne frame; the maximum
      extension only grows, and only within the extension window. */
  lemma AirborneStep(cfg: Config, s: State, p: Pose)
    requires s.phase == Airborne
    ensures Next(cfg, s, Some(p)).Ok?
    ensures var t := Next(cfg, s, Some(p)).value;
      && t.airborneFrames == s.airborneFrames + 1
      && t.maxExtension >= s.maxExtension
      && (t.airborneFrames < ExtensionWindow ==> t.maxExtension >= p.kneeAngle)
      && (t.maxExtension != s.maxExtension ==> t.airborneFrames < ExtensionWindow && t.maxExtension == p.kneeAngle)
      && (s.airborneFrames + 1 >= ExtensionWindow ==> t.maxExtension == s.maxExtension)
  {
  }

  /** Landing happens exactly on an airborne pose frame whose foot is at or
      below the landing line, and sets the height from the airborne frames,
      the landing frame included. */
  lemma LandingStep(cfg: Config, s: State, obs: Option<Pose>)
    requires s.phase == Airborne
    ensures Next(cfg, s, obs).Ok?
    ensures var t := Next(cfg, s, obs).value;
      && (t.phase == Landed <==> obs.Some? && obs.value.footY >= LandingLine(cfg, s.groundY))
      && (t.phase == Landed ==> t.jumpHeightCm == JumpHeight(cfg, s.airborneFrames + 1))
      && (t.phase != Landed ==> t.phase == Airborne && t.jumpHeightCm == s.jumpHeightCm)
  {
  }

  /** The phase moves at most one place forward: ground to air, air to landed. */
  lemma PhaseStep(cfg: Config, s: State, obs: Option<Pose>)
    requires Next(cfg, s, obs).Ok?
    ensures var t := Next(cfg, s, obs).value;
      t.phase == s.phase
      || (s.phase == Ground && t.phase == Airborne)
      || (s.phase == Airborne && t.phase == Landed)
  {
  }

  /** Every frame moves the state forward in the sense of `Follows`. */
  lemma StepFollows(cfg: Config, s: State, obs: Option<Pose>)
    requires Next(cfg, s, obs).Ok?
    ensures Follows(s, Next(cfg, s, obs).value)
  {
  }

  lemma FollowsTransitive(s: State, t: State, u: State)
    requires Follows(s, t) && Follows(t, u)
    ensures Follows(s, u)
  {
  }

  /** A pose frame on the ground preserves the invariant. */
  lemma GroundPoseInv(cfg: Config, s: State, p: Pose)
    requires Inv(cfg, s) && s.phase == Ground
    requires Next(cfg, s, Some(p)).Ok?
    ensures Inv(cfg, Next(cfg, s, Some(p)).value)
  {
    if s.frameIdx >= CalibrationFrames {
      assert |s.samples| > 0;
      assert Next(cfg, s, Some(p)).value.groundY == Max(s.samples);
    }
  }

  /** A pose frame in the air preserves the invariant. */
  lemma AirbornePoseInv(cfg: Config, s: State, p: Pose)
    requires Inv(cfg, s) && s.phase == Airborne
    ensures Next(cfg, s, Some(p)).Ok?
    ensures Inv(cfg, Next(cfg, s, Some(p)).value)
  {
    var n := s.airborneFrames + 1;
    var ext := if n < ExtensionWindow && p.kneeAngle > s.maxExtension then p.kneeAngle else s.maxExtension;
    var landed := p.footY >= LandingLine(cfg, s.groundY);
    var t := s.(airborneFrames := n, maxExtension := ext, frameIdx := s.frameIdx + 1,
                phase := if landed then Landed else Airborne,
                jumpHeightCm := if landed then JumpHeight(cfg, n) else s.jumpHeightCm);
    assert Next(cfg, s, Some(p)) == Ok(t);
    assert t.airborneFrames < t.frameIdx - t.takeoffFrame;
  }

  /** Every frame preserves the invariant. */
  lemma StepInv(cfg: Config, s: State, obs: Option<Pose>)
    requires Inv(cfg, s)
    requires Next(cfg, s, obs).Ok?
    ensures Inv(cfg, Next(cfg, s, obs).value)
  {
    if obs.Some? {
      match s.phase
      case Ground => GroundPoseInv(cfg, s, obs.value);
      case Airborne => AirbornePoseInv(cfg, s, obs.value);
      case Landed =>
    }
  }

  // ---------------------------------------------------------------------------
  // Whole videos

  /** A video ending in an error has every longer video ending in it too. */
  lemma {:induction false} RunErrExtends(cfg: Config, s: State, obs: seq<Option<Pose>>, i: nat)
    requires i <= |obs|
    requires Run(cfg, s, obs[..i]).Err?
    ensures Run(cfg, s, obs).Err?
    decreases |obs| - i
  {
    if i < |obs| {
      assert obs[..i + 1][..i] == obs[..i];
      RunErrExtends(cfg, s, obs, i + 1);
    } else {
      assert obs[..i] == obs;
    }
  }

  /** Later states follow earlier ones: the phase never goes back, the
      minimum knee angle never increases, the maximum extension never
      decreases, and the dip onset, takeoff frame, ground level and
      contraction time are never overwritten once set. */
  lemma {:induction false} RunFollows(cfg: Config, s: State, obs: seq<Option<Pose>>)
    requires Run(cfg, s, obs).Ok?
    ensures Follows(s, Run(cfg, s, obs).value)
  {
    if obs != [] {
      var prefix := obs[..|obs| - 1];
      RunFollows(cfg, s, prefix);
      var p := Run(cfg, s, prefix).value;
      StepFollows(cfg, p, obs[|obs| - 1]);
      FollowsTransitive(s, p, Run(cfg, s, obs).value);
    }
  }

  /** Once landed, later frames only advance the frame counter. */
  lemma {:induction false} LandedIsTerminal(cfg: Config, s: State, obs: seq<Option<Pose>>)
    requires s.phase == Landed
    ensures Run(cfg, s, obs) == Ok(s.(frameIdx := s.frameIdx + |obs|))
  {
    if obs != [] {
      LandedIsTerminal(cfg, s, obs[..|obs| - 1]);
    }
  }

  /** Every state reached from the start satisfies the invariant and has
      counted every frame. */
  lemma {:induction false} RunInv(cfg: Config, obs: seq<Option<Pose>>)
    requires Run(cfg, Initial(), obs).Ok?
    ensures Inv(cfg, Run(cfg, Initial(), obs).value)
    ensures Run(cfg, Initial(), obs).value.frameIdx == |obs|
  {
    if obs == [] {
    } else {
      var prefix := obs[..|obs| - 1];
      RunInv(cfg, prefix);
      StepInv(cfg, Run(cfg, Initial(), prefix).value, obs[|obs| - 1]);
    }
  }

  /** The samples are the foot heights of the pose frames among the first
      `CalibrationFrames` frames, in order; later frames add none. */
  lemma {:induction false} RunSamples(cfg: Config, obs: seq<Option<Pose>>)
    requires Run(cfg, Initial(), obs).Ok?
    ensures Run(cfg, Initial(), obs).value.samples == CalibrationSamples(obs)
  {
    if obs != [] {
      var k := |obs| - 1;
      var prefix := obs[..k];
      RunSamples(cfg, prefix);
      RunInv(cfg, prefix);
      StepFollows(cfg, Run(cfg, Initial(), prefix).value, obs[k]);
    }
  }

  /** Once the subject has left the ground, the ground level is the largest
      calibration sample. */
  lemma {:induction false} GroundLevelIsMaxSample(cfg: Config, obs: seq<Option<Pose>>)
    requires Run(cfg, Initial(), obs).Ok?
    requires Run(cfg, Initial(), obs).value.phase != Ground
    ensures |CalibrationSamples(obs)| > 0
    ensures Run(cfg, Initial(), obs).value.groundY == Max(CalibrationSamples(obs))
    ensures forall x :: x in CalibrationSamples(obs) ==> x <= Run(cfg, Initial(), obs).value.groundY
  {
    RunInv(cfg, obs);
    RunSamples(cfg, obs);
  }

  /** The ground level cannot be fixed: no pose in the calibration frames,
      and a pose after them. */
  ghost predicate CalibrationFails(obs: seq<Option<Pose>>)
  {
    CalibrationSamples(obs) == [] && exists i :: CalibrationFrames <= i < |obs| && obs[i].Some?
  }

  /** The analysis fails exactly when the ground level cannot be fixed. */
  lemma {:induction false} RunErrIff(cfg: Config, obs: seq<Option<Pose>>)
    ensures Run(cfg, Initial(), obs).Err? <==> CalibrationFails(obs)
  {
    if obs != [] {
      var k := |obs| - 1;
      var prefix := obs[..k];
      RunErrIff(cfg, prefix);
      assert forall i :: 0 <= i < k ==> prefix[i] == obs[i];
      if Run(cfg, Initial(), prefix).Err? {
        assert CalibrationFails(prefix);
        var i :| CalibrationFrames <= i < |prefix| && prefix[i].Some?;
        assert k >= CalibrationFrames;
        assert obs[i].Some?;
      } else {
        var p := Run(cfg, Initial(), prefix).value;
        RunInv(cfg, prefix);
        RunSamples(cfg, prefix);
        if CalibrationFails(obs) {
          var i :| CalibrationFrames <= i < |obs| && obs[i].Some?;
          assert Next(cfg, p, obs[k]).Err?;
        }
      }
    }
  }

  /** Where the dip onset could still have been recorded: up to the dip
      itself, up to and including the takeoff frame, or up to the present. */
  function DipSearchEnd(t: State): (end: nat)
  {
    if t.dipOnsetFrame != 0 then t.dipOnsetFrame
    else if t.phase != Ground then t.takeoffFrame + 1
    else t.frameIdx
  }

  /** `t.dipOnsetFrame`, when set, is a qualifying frame of `obs`, and no
      post-calibration pose frame before `DipSearchEnd(t)` qualified. */
  ghost predicate IsFirstDip(obs: seq<Option<Pose>>, t: State)
  {
    && DipSearchEnd(t) <= |obs|
    && (t.dipOnsetFrame != 0 ==>
          && CalibrationFrames <= t.dipOnsetFrame < |obs|
          && obs[t.dipOnsetFrame].Some?
          && obs[t.dipOnsetFrame].value.kneeAngle < DipOnsetAngle)
    && forall j :: CalibrationFrames <= j < DipSearchEnd(t) && j < |obs| && obs[j].Some? ==>
          obs[j].value.kneeAngle >= DipOnsetAngle
  }

  /** How one frame moves the dip onset and the end of the search. */
  lemma DipSearchStep(cfg: Config, p: State, o: Option<Pose>)
    requires Inv(cfg, p)
    requires Next(cfg, p, o).Ok?
    ensures var t := Next(cfg, p, o).value;
      && DipSearchEnd(p) <= p.frameIdx && DipSearchEnd(t) <= p.frameIdx + 1
      && (p.phase != Ground || p.dipOnsetFrame != 0 ==>
            t.dipOnsetFrame == p.dipOnsetFrame && DipSearchEnd(t) == DipSearchEnd(p))
      && (p.phase == Ground && p.dipOnsetFrame == 0 ==>
            && DipSearchEnd(p) == p.frameIdx
            && (t.dipOnsetFrame != 0 <==>
                  o.Some? && p.frameIdx >= CalibrationFrames && o.value.kneeAngle < DipOnsetAngle)
            && (t.dipOnsetFrame != 0 ==> t.dipOnsetFrame == p.frameIdx && DipSearchEnd(t) == p.frameIdx)
            && (t.dipOnsetFrame == 0 ==> DipSearchEnd(t) == p.frameIdx + 1))
  {
  }

  /** One more frame keeps `IsFirstDip`. */
  lemma FirstDipStep(cfg: Config, obs: seq<Option<Pose>>, p: State, t: State)
    requires |obs| > 0 && p.frameIdx == |obs| - 1
    requires Inv(cfg, p) && IsFirstDip(obs[..|obs| - 1], p)
    requires Next(cfg, p, obs[|obs| - 1]) == Ok(t)
    ensures IsFirstDip(obs, t)
  {
    var k := |obs| - 1;
    var prefix := obs[..k];
    DipSearchStep(cfg, p, obs[k]);
    assert forall i :: 0 <= i < k ==> prefix[i] == obs[i];
  }

  /** The dip onset is the FIRST post-calibration pose frame on the ground
      with a knee angle below the threshold: that frame qualifies, and no
      earlier one did. */
  lemma {:induction false} DipOnsetIsFirst(cfg: Config, obs: seq<Option<Pose>>)
    requires Run(cfg, Initial(), obs).Ok?
    ensures IsFirstDip(obs, Run(cfg, Initial(), obs).value)
  {
    if obs != [] {
      var prefix := obs[..|obs| - 1];
      DipOnsetIsFirst(cfg, prefix);
      RunInv(cfg, prefix);
      FirstDipStep(cfg, obs, Run(cfg, Initial(), prefix).value, Run(cfg, Initial(), obs).value);
    }
  }

  /** End of the frames the ground branch handled: up to and including the
      takeoff frame, or up to the present while still on the ground. */
  function GroundEnd(t: State): (end: nat)
  {
    if t.phase != Ground then t.takeoffFrame + 1 else t.frameIdx
  }

  /** A post-calibration pose frame handled on the ground. */
  ghost predicate GroundPoseFrame(obs: seq<Option<Pose>>, t: State, j: int)
  {
    CalibrationFrames <= j < GroundEnd(t) && j < |obs| && obs[j].Some?
  }

  /** How one frame moves the end of the ground frames and the minimum. */
  lemma GroundEndStep(cfg: Config, p: State, o: Option<Pose>)
    requires Inv(cfg, p)
    requires Next(cfg, p, o).Ok?
    ensures var t := Next(cfg, p, o).value;
      && (p.phase != Ground ==> GroundEnd(t) == GroundEnd(p) && t.minKneeAngle == p.minKneeAngle)
      && (p.phase == Ground ==>
            && GroundEnd(p) == p.frameIdx && GroundEnd(t) == p.frameIdx + 1
            && t.minKneeAngle ==
                 if o.Some? && p.frameIdx >= CalibrationFrames && o.value.kneeAngle < p.minKneeAngle
                 then o.value.kneeAngle else p.minKneeAngle)
  {
  }

  /** `t.minKneeAngle` is the least knee angle of the post-calibration
      ground frames of `obs`, or the 180-degree sentinel when none was smaller. */
  ghost predicate IsGroundMinimum(obs: seq<Option<Pose>>, t: State)
  {
    && GroundEnd(t) <= |obs|
    && (forall j :: GroundPoseFrame(obs, t, j) ==> t.minKneeAngle <= obs[j].value.kneeAngle)
    && (t.minKneeAngle == NoDipAngle
        || exists j :: GroundPoseFrame(obs, t, j) && obs[j].value.kneeAngle == t.minKneeAngle)
  }

  /** One more frame keeps `IsGroundMinimum`. */
  lemma GroundMinimumStep(cfg: Config, obs: seq<Option<Pose>>, p: State, t: State)
    requires |obs| > 0 && p.frameIdx == |obs| - 1
    requires Inv(cfg, p) && IsGroundMinimum(obs[..|obs| - 1], p)
    requires Next(cfg, p, obs[|obs| - 1]) == Ok(t)
    ensures IsGroundMinimum(obs, t)
  {
    var k := |obs| - 1;
    var prefix := obs[..k];
    GroundEndStep(cfg, p, obs[k]);
    forall j | GroundPoseFrame(obs, t, j) && j < k
      ensures GroundPoseFrame(prefix, p, j) && prefix[j] == obs[j]
    {
    }
    if t.minKneeAngle != NoDipAngle && t.minKneeAngle != p.minKneeAngle {
      assert GroundPoseFrame(obs, t, k);
    } else if t.minKneeAngle != NoDipAngle {
      var j :| GroundPoseFrame(prefix, p, j) && prefix[j].value.kneeAngle == p.minKneeAngle;
      assert GroundPoseFrame(obs, t, j);
    }
  }

  /** The minimum knee angle is the least knee angle of the post-calibration
      ground frames, or the 180-degree sentinel when none was smaller. */
  lemma {:induction false} MinKneeAngleIsMinimum(cfg: Config, obs: seq<Option<Pose>>)
    requires Run(cfg, Initial(), obs).Ok?
    ensures IsGroundMinimum(obs, Run(cfg, Initial(), obs).value)
  {
    if obs != [] {
      var prefix := obs[..|obs| - 1];
      MinKneeAngleIsMinimum(cfg, prefix);
      RunInv(cfg, prefix);
      GroundMinimumStep(cfg, obs, Run(cfg, Initial(), prefix).value, Run(cfg, Initial(), obs).value);
    }
  }

  /** Knee angles of the frames with a pose among frames `lo` to `hi - 1`,
      in order. */
  function AirAngles(obs: seq<Option<Pose>>, lo: nat, hi: nat): (angles: seq<real>)
    requires hi <= |obs|
    ensures |angles| <= if lo <= hi then hi - lo else 0
    decreases hi
  {
    if hi <= lo then []
    else AirAngles(obs, lo, hi - 1) + (if obs[hi - 1].Some? then [obs[hi - 1].value.kneeAngle] else [])
  }

  /** The largest of 0 and the given angles. */
  function Peak(angles: seq<real>): (m: real)
    ensures m >= 0.0
    ensures forall a :: a in angles ==> a <= m
    ensures m == 0.0 || m in angles
  {
    if angles == [] then 0.0
    else
      var last := angles[|angles| - 1];
      var rest := Peak(angles[..|angles| - 1]);
      assert forall a :: a in angles ==> a == last || a in angles[..|angles| - 1];
      if last > rest then last else rest
  }

  /** The first `ExtensionWindow - 1` airborne pose frames: those whose count,
      after the increment, is still below `ExtensionWindow`. */
  function Window(angles: seq<real>): (w: seq<real>)
  {
    if |angles| < ExtensionWindow - 1 then angles else angles[..ExtensionWindow - 1]
  }

  /** Looking at a prefix of the video gives the same angles. */
  lemma {:induction false} AirAnglesPrefix(obs: seq<Option<Pose>>, k: nat, lo: nat, hi: nat)
    requires hi <= k <= |obs|
    ensures AirAngles(obs[..k], lo, hi) == AirAngles(obs, lo, hi)
    decreases hi
  {
    if hi > lo {
      AirAnglesPrefix(obs, k, lo, hi - 1);
    }
  }

  /** The airborne count and the maximum extension of `t` are those of the
      pose frames after the takeoff and before frame `to`. */
  ghost predicate TracksFlight(obs: seq<Option<Pose>>, t: State, to: nat)
    requires to <= |obs|
  {
    && t.airborneFrames == |AirAngles(obs, t.takeoffFrame + 1, to)|
    && t.maxExtension == Peak(Window(AirAngles(obs, t.takeoffFrame + 1, to)))
  }

  /** One more frame in the air extends `TracksFlight` by that frame. */
  lemma FlightStep(cfg: Config, obs: seq<Option<Pose>>, p: State, t: State)
    requires |obs| > 0 && p.phase == Airborne && p.takeoffFrame < |obs| - 1
    requires TracksFlight(obs, p, |obs| - 1)
    requires Next(cfg, p, obs[|obs| - 1]) == Ok(t)
    ensures t.takeoffFrame == p.takeoffFrame
    ensures TracksFlight(obs, t, |obs|)
  {
    var k := |obs| - 1;
    var before := AirAngles(obs, p.takeoffFrame + 1, k);
    var after := AirAngles(obs, p.takeoffFrame + 1, k + 1);
    if obs[k].Some? {
      var a := obs[k].value.kneeAngle;
      assert after == before + [a];
      if |before| < ExtensionWindow - 1 {
        assert Window(after) == Window(before) + [a];
        assert Window(after)[..|Window(after)| - 1] == Window(before);
      } else {
        assert Window(after) == Window(before);
      }
    } else {
      assert after == before;
    }
  }

  /** The takeoff frame starts an empty flight. */
  lemma TakeoffStartsFlight(cfg: Config, obs: seq<Option<Pose>>, p: State, t: State)
    requires |obs| > 0 && p.frameIdx == |obs| - 1
    requires Inv(cfg, p) && p.phase == Ground
    requires Next(cfg, p, obs[|obs| - 1]) == Ok(t) && t.phase == Airborne
    ensures t.takeoffFrame == |obs| - 1
    ensures TracksFlight(obs, t, |obs|)
  {
    TakeoffStep(cfg, p, obs[|obs| - 1]);
  }

  /** One more airborne frame of a flight already tracked. */
  lemma FlightContinues(cfg: Config, obs: seq<Option<Pose>>, p: State, t: State)
    requires |obs| > 0 && p.frameIdx == |obs| - 1
    requires Inv(cfg, p) && p.phase == Airborne
    requires TracksFlight(obs[..|obs| - 1], p, |obs| - 1)
    requires Next(cfg, p, obs[|obs| - 1]) == Ok(t)
    ensures t.takeoffFrame == p.takeoffFrame < |obs| - 1
    ensures TracksFlight(obs, t, |obs|)
  {
    AirAnglesPrefix(obs, |obs| - 1, p.takeoffFrame + 1, |obs| - 1);
    FlightStep(cfg, obs, p, t);
  }

  /** In the air, the airborne count is the number of frames with a pose
      since the takeoff frame (frames without a pose are not counted), and the
      maximum extension is the largest of 0 and the knee angles of the first
      nine of those frames. */
  lemma {:induction false} AirborneTracksFlight(cfg: Config, obs: seq<Option<Pose>>)
    requires Run(cfg, Initial(), obs).Ok?
    requires Run(cfg, Initial(), obs).value.phase == Airborne
    ensures Run(cfg, Initial(), obs).value.takeoffFrame < |obs|
    ensures TracksFlight(obs, Run(cfg, Initial(), obs).value, |obs|)
  {
    assert obs != [];
    var k := |obs| - 1;
    var prefix := obs[..k];
    var p := Run(cfg, Initial(), prefix).value;
    var t := Run(cfg, Initial(), obs).value;
    assert Next(cfg, p, obs[k]) == Ok(t);
    RunInv(cfg, prefix);
    PhaseStep(cfg, p, obs[k]);
    if p.phase == Ground {
      TakeoffStartsFlight(cfg, obs, p, t);
    } else {
      AirborneTracksFlight(cfg, prefix);
      FlightContinues(cfg, obs, p, t);
    }
  }

  /** The landing frame `l` of `t`: the first frame whose foot is back on the
      landing line, with the flight tracked up to and including it. */
  ghost predicate LandedAt(cfg: Config, obs: seq<Option<Pose>>, t: State, l: nat)
  {
    && t.takeoffFrame < l < |obs|
    && Run(cfg, Initial(), obs[..l]).Ok?
    && Run(cfg, Initial(), obs[..l]).value.phase == Airborne
    && obs[l].Some? && obs[l].value.footY >= LandingLine(cfg, t.groundY)
    && TracksFlight(obs, t, l + 1)
    && t.jumpHeightCm == JumpHeight(cfg, |AirAngles(obs, t.takeoffFrame + 1, l + 1)|)
  }

  /** A landing frame stays the landing frame as the video goes on. */
  lemma LandedAtExtends(cfg: Config, obs: seq<Option<Pose>>, p: State, t: State, l: nat)
    requires |obs| > 0 && LandedAt(cfg, obs[..|obs| - 1], p, l)
    requires p.phase == Landed && t == p.(frameIdx := t.frameIdx)
    ensures LandedAt(cfg, obs, t, l)
  {
    var k := |obs| - 1;
    assert obs[..k][..l] == obs[..l];
    AirAnglesPrefix(obs, k, p.takeoffFrame + 1, l + 1);
  }

  /** The frame that lands a tracked flight is its landing frame. */
  lemma LandingFrame(cfg: Config, obs: seq<Option<Pose>>, p: State, t: State)
    requires |obs| > 0 && p.frameIdx == |obs| - 1
    requires Inv(cfg, p) && p.phase == Airborne
    requires Run(cfg, Initial(), obs[..|obs| - 1]) == Ok(p)
    requires TracksFlight(obs[..|obs| - 1], p, |obs| - 1)
    requires Next(cfg, p, obs[|obs| - 1]) == Ok(t) && t.phase == Landed
    ensures LandedAt(cfg, obs, t, |obs| - 1)
  {
    FlightContinues(cfg, obs, p, t);
    LandingStep(cfg, p, obs[|obs| - 1]);
  }

  /** After landing, the airborne count, the maximum extension and the height
      come from the frames with a pose from the one after the takeoff up to
      the landing frame. */
  lemma {:induction false} LandedTracksFlight(cfg: Config, obs: seq<Option<Pose>>)
    requires Run(cfg, Initial(), obs).Ok?
    requires Run(cfg, Initial(), obs).value.phase == Landed
    ensures exists l :: LandedAt(cfg, obs, Run(cfg, Initial(), obs).value, l)
  {
    assert obs != [];
    var k := |obs| - 1;
    var prefix := obs[..k];
    var p := Run(cfg, Initial(), prefix).value;
    var t := Run(cfg, Initial(), obs).value;
    assert Next(cfg, p, obs[k]) == Ok(t);
    RunInv(cfg, prefix);
    PhaseStep(cfg, p, obs[k]);
    if p.phase == Landed {
      LandedTracksFlight(cfg, prefix);
      var l :| LandedAt(cfg, prefix, p, l);
      LandedAtExtends(cfg, obs, p, t, l);
    } else {
      AirborneTracksFlight(cfg, prefix);
      LandingFrame(cfg, obs, p, t);
    }
  }

  /** No video skips the airborne phase: a run from the ground that ends
      landed passed through a state in the air. */
  lemma {:induction false} NoPhaseSkipped(cfg: Config, s: State, obs: seq<Option<Pose>>)
    requires s.phase == Ground
    requires Run(cfg, s, obs).Ok? && Run(cfg, s, obs).value.phase == Landed
    ensures exists k :: 0 < k < |obs| && Run(cfg, s, obs[..k]).Ok? && Run(cfg, s, obs[..k]).value.phase == Airborne
  {
    var n := |obs|;
    assert n > 0;
    var prefix := obs[..n - 1];
    var p := Run(cfg, s, prefix).value;
    PhaseStep(cfg, p, obs[n - 1]);
    if p.phase == Landed {
      NoPhaseSkipped(cfg, s, prefix);
      var k :| 0 < k < |prefix| && Run(cfg, s, prefix[..k]).Ok? && Run(cfg, s, prefix[..k]).value.phase == Airborne;
      assert prefix[..k] == obs[..k];
    } else {
      assert p.phase == Airborne;
      assert n - 1 > 0;
    }
  }

  /** The final metrics: a height is reported exactly when the subject
      landed (an unfinished jump reports 0), and the extrema keep to their
      starting values' sides. */
  lemma {:induction false} FinalMetrics(cfg: Config, obs: seq<Option<Pose>>)
    requires Run(cfg, Initial(), obs).Ok?
    ensures var t := Run(cfg, Initial(), obs).value;
      && t.jumpHeightCm >= 0.0
      && (t.jumpHeightCm > 0.0 <==> t.phase == Landed)
      && t.minKneeAngle <= NoDipAngle
      && t.maxExtension >= 0.0
      && (t.phase == Ground ==> t.contractionTime == 0.0)
  {
    RunInv(cfg, obs);
    var t := Run(cfg, Initial(), obs).value;
  }
}
