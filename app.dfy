/**
  `AppUI` without its widgets: the instance fields the frame loop and the
  buttons update in place, with one method per handler. Each method's new state
  is tied to the functions of `Verification` and `Enrollment`, where the
  properties of those steps are proved.
 */
module App {
  import opened Wrappers
  import opened FaceCore
  import opened Challenges
  import opened Verification
  import opened Enrollment

  class AttendanceApp {
    // Verification state
    var currentUserId: Option<int>
    var lastPunchTime: map<int, int>
    var livenessConfirmed: bool
    var activeChallenge: seq<Challenge>
    var livenessExitCounter: int
    /** Whether the PUNCH IN / PUNCH OUT buttons are enabled. */
    var gateOpen: bool

    // Registration state
    var isRegistering: bool
    var regSamples: seq<Image>
    var regUserId: Option<int>
    var regUserName: string
    var regCount: int
    var isTraining: bool

    /** The rows `log_attendance` has written, oldest first. */
    var attendanceLog: seq<Punch>

    ghost function SessionState(): Session
      reads this
    {
      Session(livenessConfirmed, currentUserId, livenessExitCounter, activeChallenge, gateOpen)
    }

    ghost function EnrollState(): Enroll
      reads this
    {
      Enroll(isRegistering, regUserId, regUserName, regSamples, regCount, isTraining)
    }

    ghost predicate Valid()
      reads this
    {
      Inv(SessionState()) && EnrollInv(EnrollState())
    }

    /** The state fields as `__init__` sets them. */
    constructor ()
      ensures Valid()
      ensures SessionState() == Initial && EnrollState() == Idle
      ensures lastPunchTime == map[] && attendanceLog == []
    {
      currentUserId := None;
      lastPunchTime := map[];
      livenessConfirmed := false;
      activeChallenge := [];
      isRegistering := false;
      regSamples := [];
      regUserId := None;
      regUserName := "";
      regCount := 0;
      livenessExitCounter := 0;
      gateOpen := false;
      isTraining := false;
      attendanceLog := [];
    }

    /**
      `update_video` for one captured frame: the detector's box, the
      recognizer's `predict`, the liveness signals, the pair `random.sample`
      would draw and the current time are the frame's observations. Returns
      whether a training run was started.
     */
    method OnFrame(frame: Image, detection: Option<Rect>, predict: Image -> Prediction,
                   sig: Signals, draw: seq<Challenge>, now: int) returns (startedTraining: bool)
      requires Valid() && WellFormed(frame) && IsDraw(draw)
      modifies this
      ensures Valid()
      ensures lastPunchTime == old(lastPunchTime) && attendanceLog == old(attendanceLog)
      ensures old(isRegistering) ==>
        (EnrollState(), startedTraining) == Capture(old(EnrollState()), GetFaceCrop(frame, detection)) &&
        SessionState() == old(SessionState())
      ensures !old(isRegistering) ==>
        SessionState() == Frame(old(SessionState()), RecognizeFace(frame, detection, predict), sig, draw,
                                old(lastPunchTime), now) &&
        EnrollState() == old(EnrollState()) && !startedTraining
    {
      startedTraining := false;
      if isRegistering {
        var crop := GetFaceCrop(frame, detection);
        startedTraining := CaptureFrame(crop);
      } else {
        var rec := RecognizeFace(frame, detection, predict);
        RecognitionFrame(rec, sig, draw, now);
      }
    }

    /** The registration branch of `update_video`, given what `get_face_crop` returned. */
    method CaptureFrame(crop: Option<FaceCrop>) returns (startedTraining: bool)
      requires Valid() && isRegistering
      modifies this
      ensures Valid()
      ensures (EnrollState(), startedTraining) == Capture(old(EnrollState()), crop)
      ensures SessionState() == old(SessionState())
      ensures lastPunchTime == old(lastPunchTime) && attendanceLog == old(attendanceLog)
    {
      startedTraining := false;
      if crop.Some? {
        regSamples := regSamples + [crop.value.image];
        regCount := regCount + 1;
        if regCount >= MaxSamples {
          startedTraining := FinishRegistration();
        }
      }
    }

    /** The recognition branch of `update_video`, given what `recognize_face` returned. */
    method RecognitionFrame(rec: Recognition, sig: Signals, draw: seq<Challenge>, now: int)
      requires Valid() && IsDraw(draw)
      modifies this
      ensures Valid()
      ensures SessionState() == Frame(old(SessionState()), rec, sig, draw, old(lastPunchTime), now)
      ensures EnrollState() == old(EnrollState())
      ensures lastPunchTime == old(lastPunchTime) && attendanceLog == old(attendanceLog)
    {
      if rec.rect.Some? {
        if rec.conf < AcceptThreshold && rec.userId.Some? {
          var userId := rec.userId.value;
          if !livenessConfirmed {
            ChallengeStep(userId, sig, draw, now);
          } else {
            VerifiedStep(userId);
          }
        } else {
          LoseFrame();
        }
      } else {
        LoseFrame();
      }
    }

    /** An accepted face while not verified: draw a queue if there is none and test its head. */
    method ChallengeStep(userId: int, sig: Signals, draw: seq<Challenge>, now: int)
      requires IsDraw(draw)
      modifies this
      ensures SessionState() == ChallengeFrame(old(SessionState()), userId, sig, draw, old(lastPunchTime), now)
      ensures EnrollState() == old(EnrollState())
      ensures lastPunchTime == old(lastPunchTime) && attendanceLog == old(attendanceLog)
    {
      if activeChallenge == [] {
        activeChallenge := draw;
      }
      var target := activeChallenge[0];
      var passed := false;
      match target {
        case Blink => passed := sig.blinking;
        case Smile => passed := sig.smiling;
        case TurnLeft => passed := sig.orientation == Left;
        case TurnRight => passed := sig.orientation == Right;
      }
      if passed {
        activeChallenge := activeChallenge[1..];
        if activeChallenge == [] {
          livenessConfirmed := true;
          currentUserId := Some(userId);
          livenessExitCounter := ExitFrames;
          var last := LastPunch(lastPunchTime, userId);
          if now - last >= CooldownSeconds {
            gateOpen := true;
          }
          activeChallenge := [];
        }
      }
    }

    /** An accepted face while verified: the verified user refills the budget, anyone else spends one frame. */
    method VerifiedStep(userId: int)
      requires livenessConfirmed
      modifies this
      ensures SessionState() == VerifiedFrame(old(SessionState()), userId)
      ensures EnrollState() == old(EnrollState())
      ensures lastPunchTime == old(lastPunchTime) && attendanceLog == old(attendanceLog)
    {
      if currentUserId == Some(userId) {
        livenessExitCounter := ExitFrames;
      } else {
        livenessExitCounter := livenessExitCounter - 1;
      }
      if livenessExitCounter <= 0 {
        livenessConfirmed := false;
        activeChallenge := [];
        gateOpen := false;
      }
    }

    /** The shared tail of the no-face and unrecognised branches: spend one frame of the budget while verified. */
    method LoseFrame()
      modifies this
      ensures SessionState() == MissFrame(old(SessionState()))
      ensures EnrollState() == old(EnrollState())
      ensures lastPunchTime == old(lastPunchTime) && attendanceLog == old(attendanceLog)
    {
      if livenessConfirmed {
        livenessExitCounter := livenessExitCounter - 1;
        if livenessExitCounter <= 0 {
          livenessConfirmed := false;
          activeChallenge := [];
          gateOpen := false;
        }
      }
    }

    /**
      `manual_punch`, reached only through the PUNCH IN / PUNCH OUT buttons and
      so only while they are enabled: ignored without a (truthy) current user,
      refused during the user's cooldown (changing nothing), otherwise logged,
      stamped in `last_punch_time` and followed by clearing the verification.
     */
    method ManualPunch(kind: PunchKind, now: int) returns (result: PunchResult)
      requires Valid() && gateOpen
      modifies this
      ensures Valid()
      ensures result.Committed? ==>
        old(livenessConfirmed) && old(currentUserId) == Some(result.punch.user)
      ensures result == PunchDecision(old(SessionState()), old(lastPunchTime), kind, now)
      ensures !result.Committed? ==>
        SessionState() == old(SessionState()) && EnrollState() == old(EnrollState()) &&
        lastPunchTime == old(lastPunchTime) && attendanceLog == old(attendanceLog)
      ensures result.Committed? ==>
        SessionState() == AfterPunch(old(SessionState())) && EnrollState() == old(EnrollState()) &&
        lastPunchTime == old(lastPunchTime)[result.punch.user := now] &&
        attendanceLog == old(attendanceLog) + [result.punch]
    {
      if currentUserId.None? || currentUserId.value == 0 {
        return Ignored;
      }
      var uid := currentUserId.value;
      var last := LastPunch(lastPunchTime, uid);
      if now - last < CooldownSeconds {
        return Cooldown(CooldownSeconds - (now - last));
      }
      attendanceLog := attendanceLog + [Punch(uid, kind, now)];
      lastPunchTime := lastPunchTime[uid := now];
      livenessConfirmed := false;
      activeChallenge := [];
      currentUserId := None;
      gateOpen := false;
      result := Committed(Punch(uid, kind, now));
    }

    /**
      `register_user_btn` with the name typed in (empty when cancelled) and the
      id `add_user` returned (`None` when it raised): ignored while registering;
      a new registration disables the punch buttons.
     */
    method RegisterUserBtn(name: string, newId: Option<int>)
      requires Valid()
      modifies this
      ensures Valid()
      ensures EnrollState() == Start(old(EnrollState()), name, newId)
      ensures SessionState() ==
        if !old(isRegistering) && name != "" && newId.Some? then old(SessionState()).(gateOpen := false)
        else old(SessionState())
      ensures lastPunchTime == old(lastPunchTime) && attendanceLog == old(attendanceLog)
    {
      if isRegistering {
        return;
      }
      if name != "" {
        match newId {
          case None =>
          case Some(uid) =>
            regUserId := Some(uid);
            regUserName := name;
            regSamples := [];
            regCount := 0;
            isRegistering := true;
            gateOpen := false;
        }
      }
    }

    /** `finish_registration`: start training unless it is already running. */
    method FinishRegistration() returns (started: bool)
      modifies this
      ensures started <==> !old(isTraining)
      ensures EnrollState() == old(EnrollState()).(training := true)
      ensures SessionState() == old(SessionState())
      ensures lastPunchTime == old(lastPunchTime) && attendanceLog == old(attendanceLog)
    {
      if isTraining {
        return false;
      }
      isTraining := true;
      started := true;
    }

    /** `registration_complete`, run once training has finished. */
    method RegistrationComplete()
      requires Valid()
      modifies this
      ensures Valid()
      ensures EnrollState() == Complete(old(EnrollState()))
      ensures SessionState() == old(SessionState())
      ensures lastPunchTime == old(lastPunchTime) && attendanceLog == old(attendanceLog)
    {
      isTraining := false;
      isRegistering := false;
    }
  }

  /**
    Identity 7 matches at distance 40; the drawn queue is SMILE then TURN_LEFT.
    A smile advances the queue, a left turn completes it and enables the
    buttons; PUNCH IN is logged, after which the session is cleared and the
    buttons are disabled, so no second punch can follow without a new
    challenge.
   */
  method SmileThenTurnScenario()
  {
    var app := new AttendanceApp();
    var frame: Image := [[5]];
    var box := Some(Rect(0, 0, 1, 1));
    var predict := (img: Image) => Predicted(7, 40.0);
    var draw := [Smile, TurnLeft];
    var t := 1000;
    var started := app.OnFrame(frame, box, predict, Signals(false, true, Center), draw, t);
    assert app.activeChallenge == [TurnLeft] && !app.livenessConfirmed;
    started := app.OnFrame(frame, box, predict, Signals(false, false, Left), draw, t + 1);
    assert app.livenessConfirmed && app.currentUserId == Some(7) && app.gateOpen;
    var r := app.ManualPunch(In, t + 2);
    assert r == Committed(Punch(7, In, t + 2));
    assert !app.gateOpen && !app.livenessConfirmed && app.currentUserId.None?;
    assert app.attendanceLog == [Punch(7, In, t + 2)];
  }
}
