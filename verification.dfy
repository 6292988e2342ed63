/**
  The verification state machine of `AppUI.update_video` (recognition branch)
  and the attendance gate of `AppUI.manual_punch`, as functions from the old
  session to the new one. Button enablement is the `gateOpen` flag.
 */
module Verification {
  import opened Wrappers
  import opened FaceCore
  import opened Challenges

  /** A recognition is accepted when its distance is below this. */
  const AcceptThreshold: real := 100.0

  /** `LIVENESS_THRESHOLD_FRAMES`: frames a verified state survives without its user. */
  const ExitFrames: int := 30

  /** Seconds between two punches of the same user. */
  const CooldownSeconds: int := 30

  /**
    The verification fields of `AppUI`: `liveness_confirmed`, `current_user_id`,
    `liveness_exit_counter`, `active_challenge` (empty for `None`) and whether
    the punch buttons are enabled.
   */
  datatype Session = Session(confirmed: bool, user: Option<int>, exitCounter: int, queue: seq<Challenge>, gateOpen: bool)

  /** The session as `__init__` leaves it. */
  const Initial: Session := Session(false, None, 0, [], false)

  /**
    What every reachable session satisfies: the queue is a suffix of a draw,
    the buttons are enabled only while verified, and a verified session has a
    user, no queue and a budget between 1 and 30 frames.
   */
  predicate Inv(s: Session) {
    WellFormedQueue(s.queue) &&
    (s.gateOpen ==> s.confirmed) &&
    (s.confirmed ==> s.queue == [] && s.user.Some? && 0 < s.exitCounter <= ExitFrames)
  }

  /** `conf < 100 and user_id is not None`. */
  predicate Accepted(rec: Recognition) {
    rec.conf < AcceptThreshold && rec.userId.Some?
  }

  /** `last_punch_time.get(uid, 0)`. */
  function LastPunch(ledger: map<int, int>, uid: int): int {
    if uid in ledger then ledger[uid] else 0
  }

  predicate CoolingDown(ledger: map<int, int>, uid: int, now: int) {
    now - LastPunch(ledger, uid) < CooldownSeconds
  }

  /** `int(30 - (now - last))`; with whole seconds the truncation is exact. */
  function Remaining(ledger: map<int, int>, uid: int, now: int): int {
    CooldownSeconds - (now - LastPunch(ledger, uid))
  }

  // ---------------------------------------------------------------------------
  // One frame

  /**
    A frame that does not show the verified user (no face, an unaccepted face,
    or another accepted user): only a verified session reacts, by spending one
    frame of its budget and reverting when the budget is used up.
   */
  function MissFrame(s: Session): (r: Session)
    ensures !s.confirmed ==> r == s
    ensures s.confirmed ==> r.exitCounter == s.exitCounter - 1 && (r.confirmed <==> r.exitCounter > 0)
    ensures r.confirmed ==> r == s.(exitCounter := s.exitCounter - 1)
    ensures s.confirmed && !r.confirmed ==> !r.gateOpen && r.queue == [] && r.user == s.user
    ensures Inv(s) ==> Inv(r)
  {
    if !s.confirmed then s
    else
      var c := s.exitCounter - 1;
      if c <= 0 then s.(confirmed := false, exitCounter := c, queue := [], gateOpen := false)
      else s.(exitCounter := c)
  }

  /** An accepted frame while verified: the verified user refills the budget, anyone else is a miss. */
  function VerifiedFrame(s: Session, uid: int): (r: Session)
    requires s.confirmed
    ensures s.user == Some(uid) ==> r == s.(exitCounter := ExitFrames)
    ensures s.user != Some(uid) ==> r == MissFrame(s)
  {
    var c := if s.user == Some(uid) then ExitFrames else s.exitCounter - 1;
    if c <= 0 then s.(confirmed := false, exitCounter := c, queue := [], gateOpen := false)
    else s.(exitCounter := c)
  }

  /**
    An accepted frame while not verified: a queue is drawn if there is none,
    its head alone is tested, and the session becomes verified for this
    frame's user on the frame the queue empties. The buttons are enabled then
    only if the user is out of cooldown; otherwise they keep their state.
   */
  function ChallengeFrame(s: Session, uid: int, sig: Signals, draw: seq<Challenge>,
                          ledger: map<int, int>, now: int): (r: Session)
    requires IsDraw(draw)
    ensures var q := Advance(ActiveQueue(s.queue, draw), sig);
      if q == [] then
        r.confirmed && r.user == Some(uid) && r.exitCounter == ExitFrames && r.queue == [] &&
        r.gateOpen == (s.gateOpen || !CoolingDown(ledger, uid, now))
      else
        r == s.(queue := q)
  {
    var q := Advance(ActiveQueue(s.queue, draw), sig);
    if q == [] then
      Session(true, Some(uid), ExitFrames, [], if CoolingDown(ledger, uid, now) then s.gateOpen else true)
    else
      s.(queue := q)
  }

  /** The recognition branch of `update_video` for one frame. */
  function Frame(s: Session, rec: Recognition, sig: Signals, draw: seq<Challenge>,
                 ledger: map<int, int>, now: int): (r: Session)
    requires IsDraw(draw)
    ensures Inv(s) ==> Inv(r)
  {
    if rec.rect.None? then MissFrame(s)
    else if Accepted(rec) then
      if s.confirmed then VerifiedFrame(s, rec.userId.value)
      else ChallengeFrame(s, rec.userId.value, sig, draw, ledger, now)
    else MissFrame(s)
  }

  // ---------------------------------------------------------------------------
  // Properties of one frame

  /**
    Without an accepted face nothing is gained: the frame is a miss, it never
    verifies and never enables the buttons, and an unverified session
    (including its challenge queue) is left exactly as it was.
   */
  lemma UnacceptedFrameIsMiss(s: Session, rec: Recognition, sig: Signals, draw: seq<Challenge>,
                              ledger: map<int, int>, now: int)
    requires IsDraw(draw)
    requires rec.rect.None? || !Accepted(rec)
    ensures Frame(s, rec, sig, draw, ledger, now) == MissFrame(s)
    ensures Frame(s, rec, sig, draw, ledger, now).gateOpen ==> s.gateOpen
    ensures Frame(s, rec, sig, draw, ledger, now).confirmed ==> s.confirmed
    ensures !s.confirmed ==> Frame(s, rec, sig, draw, ledger, now) == s
  {
  }

  /**
    While verified, hysteresis is uniform: the verified user refills the budget
    to 30, and another accepted user counts as a miss, like a missing face.
   */
  lemma VerifiedFrameRule(s: Session, rec: Recognition, sig: Signals, draw: seq<Challenge>,
                          ledger: map<int, int>, now: int)
    requires IsDraw(draw) && s.confirmed && rec.rect.Some? && Accepted(rec)
    ensures rec.userId == s.user ==> Frame(s, rec, sig, draw, ledger, now) == s.(exitCounter := ExitFrames)
    ensures rec.userId != s.user ==> Frame(s, rec, sig, draw, ledger, now) == MissFrame(s)
  {
  }

  /** An existing queue is never replaced: the draw matters only when there is no queue. */
  lemma QueueNotReplaced(s: Session, rec: Recognition, sig: Signals, d1: seq<Challenge>, d2: seq<Challenge>,
                         ledger: map<int, int>, now: int)
    requires IsDraw(d1) && IsDraw(d2) && s.queue != []
    ensures Frame(s, rec, sig, d1, ledger, now) == Frame(s, rec, sig, d2, ledger, now)
  {
  }

  /**
    A challenging frame tests only the head of the queue: the new queue is the
    old one advanced by at most one challenge, and the session is verified
    exactly when that advance empties it.
   */
  lemma OneChallengePerFrame(s: Session, rec: Recognition, sig: Signals, draw: seq<Challenge>,
                             ledger: map<int, int>, now: int)
    requires IsDraw(draw) && !s.confirmed && rec.rect.Some? && Accepted(rec)
    ensures var q := ActiveQueue(s.queue, draw);
      var r := Frame(s, rec, sig, draw, ledger, now);
      (r.confirmed <==> Advance(q, sig) == []) &&
      (!r.confirmed ==> r.queue == Advance(q, sig)) &&
      |q| - 1 <= |r.queue| <= |q|
  {
  }

  /**
    The session becomes verified only on a frame that passes the last
    remaining challenge of an existing queue (a fresh draw of two cannot
    complete in one frame). That frame's user is credited, the budget is full,
    the queue is gone, and the buttons are enabled exactly when that user is
    out of cooldown.
   */
  lemma CompletionCreditsFrameUser(s: Session, rec: Recognition, sig: Signals, draw: seq<Challenge>,
                                   ledger: map<int, int>, now: int)
    requires IsDraw(draw) && Inv(s)
    requires !s.confirmed && Frame(s, rec, sig, draw, ledger, now).confirmed
    ensures rec.rect.Some? && Accepted(rec)
    ensures |s.queue| == 1 && Passes(s.queue[0], sig)
    ensures var r := Frame(s, rec, sig, draw, ledger, now);
      r.user == rec.userId && r.exitCounter == ExitFrames && r.queue == [] &&
      (r.gateOpen <==> !CoolingDown(ledger, rec.userId.value, now))
  {
    if rec.rect.None? || !Accepted(rec) {
      UnacceptedFrameIsMiss(s, rec, sig, draw, ledger, now);
    }
  }

  /**
    The buttons become enabled only on the frame that completes the challenge
    queue, and only for a user out of cooldown. In particular a verified
    session whose buttons stayed disabled (cooldown at completion) keeps them
    disabled until it reverts and is challenged again.
   */
  lemma GateOpensOnlyOnCompletion(s: Session, rec: Recognition, sig: Signals, draw: seq<Challenge>,
                                  ledger: map<int, int>, now: int)
    requires IsDraw(draw) && Inv(s)
    requires !s.gateOpen && Frame(s, rec, sig, draw, ledger, now).gateOpen
    ensures !s.confirmed && rec.rect.Some? && Accepted(rec)
    ensures !CoolingDown(ledger, rec.userId.value, now)
    ensures Frame(s, rec, sig, draw, ledger, now).user == rec.userId
  {
    if rec.rect.None? || !Accepted(rec) {
      UnacceptedFrameIsMiss(s, rec, sig, draw, ledger, now);
    } else if s.confirmed {
      VerifiedFrameRule(s, rec, sig, draw, ledger, now);
    }
  }

  // ---------------------------------------------------------------------------
  // Hysteresis over several frames

  /** The session after `k` missed frames in a row. */
  function Misses(s: Session, k: nat): Session {
    if k == 0 then s else MissFrame(Misses(s, k - 1))
  }

  /**
    A verified session survives fewer missed frames than its budget, with the
    budget reduced by one per frame and nothing else changed; the frame that
    uses up the budget reverts it and disables the buttons.
   */
  lemma {:induction false} MissesCountDown(s: Session, k: nat)
    requires Inv(s) && s.confirmed && k <= s.exitCounter
    ensures k < s.exitCounter ==> Misses(s, k) == s.(exitCounter := s.exitCounter - k)
    ensures k == s.exitCounter ==>
      !Misses(s, k).confirmed && !Misses(s, k).gateOpen && Misses(s, k).queue == [] &&
      Misses(s, k).user == s.user
  {
    if k > 0 {
      MissesCountDown(s, k - 1);
    }
  }

  /** From a full budget, 29 missed frames keep the session verified and the 30th reverts it. */
  lemma ThirtyFrameBudget(s: Session)
    requires Inv(s) && s.confirmed && s.exitCounter == ExitFrames
    ensures Misses(s, 29).confirmed && Misses(s, 29).gateOpen == s.gateOpen
    ensures !Misses(s, 30).confirmed && !Misses(s, 30).gateOpen
  {
    MissesCountDown(s, 29);
    MissesCountDown(s, 30);
  }

  // ---------------------------------------------------------------------------
  // Runs of recognition frames

  /** What one recognition frame observes: the recognition, the liveness signals, the pair drawn and the time. */
  datatype Observation = Observation(rec: Recognition, sig: Signals, draw: seq<Challenge>, now: int)

  /** Every frame's pair is a possible draw. */
  predicate Draws(obs: seq<Observation>) {
    forall i :: 0 <= i < |obs| ==> IsDraw(obs[i].draw)
  }

  /** A frame that reaches the challenge test: a face, accepted. */
  predicate Counts(o: Observation) {
    o.rec.rect.Some? && Accepted(o.rec)
  }

  function Step(s: Session, o: Observation, ledger: map<int, int>): Session
    requires IsDraw(o.draw)
  {
    Frame(s, o.rec, o.sig, o.draw, ledger, o.now)
  }

  /** The session after a run of frames (the punch ledger does not change during frames). */
  function Run(s: Session, obs: seq<Observation>, ledger: map<int, int>): Session
    requires Draws(obs)
    decreases |obs|
  {
    if obs == [] then s else Run(Step(s, obs[0], ledger), obs[1..], ledger)
  }

  /** The session is verified at the start or after some frame of the run. */
  predicate EverVerified(s: Session, obs: seq<Observation>, ledger: map<int, int>)
    requires Draws(obs)
    decreases |obs|
  {
    s.confirmed || (obs != [] && EverVerified(Step(s, obs[0], ledger), obs[1..], ledger))
  }

  /** The liveness signals of the accepted frames of a run, in order, whoever they show. */
  function AcceptedSignals(obs: seq<Observation>): seq<Signals> {
    if obs == [] then [] else (if Counts(obs[0]) then [obs[0].sig] else []) + AcceptedSignals(obs[1..])
  }

  /**
    The queue a run works through while unverified: the existing queue, or the
    pair drawn on the run's first accepted frame; empty only when there is no
    queue and no frame is accepted.
   */
  function RunQueue(q: seq<Challenge>, obs: seq<Observation>): (r: seq<Challenge>)
    requires Draws(obs)
    ensures q != [] ==> r == q
    ensures q == [] ==> (r == [] <==> AcceptedSignals(obs) == [])
    ensures q == [] && r != [] ==> IsDraw(r)
  {
    if q != [] || obs == [] then q
    else if Counts(obs[0]) then obs[0].draw
    else RunQueue(q, obs[1..])
  }

  /**
    An unverified session becomes verified during a run exactly when the
    accepted frames of the run, taken in order, drain its queue: unaccepted
    frames are skipped, each accepted frame tests only the head, and the queue
    is drawn once and never replaced.
   */
  lemma {:induction false} VerifiedIffDrained(s: Session, obs: seq<Observation>, ledger: map<int, int>)
    requires Inv(s) && !s.confirmed && Draws(obs)
    ensures EverVerified(s, obs, ledger) <==>
      AcceptedSignals(obs) != [] && Drain(RunQueue(s.queue, obs), AcceptedSignals(obs)) == []
    decreases |obs|
  {
    if obs != [] {
      var o, rest := obs[0], obs[1..];
      var s' := Step(s, o, ledger);
      if !Counts(o) {
        UnacceptedFrameIsMiss(s, o.rec, o.sig, o.draw, ledger, o.now);
        assert s' == s;
        assert AcceptedSignals(obs) == AcceptedSignals(rest);
        assert RunQueue(s.queue, obs) == RunQueue(s.queue, rest);
        VerifiedIffDrained(s, rest, ledger);
      } else {
        var q := Advance(ActiveQueue(s.queue, o.draw), o.sig);
        assert AcceptedSignals(obs) == [o.sig] + AcceptedSignals(rest);
        if q != [] {
          assert s' == s.(queue := q);
          VerifiedIffDrained(s', rest, ledger);
        }
      }
    }
  }

  /**
    With the two challenges `a` then `b` to do, an unverified session is
    verified during a run exactly when an accepted frame passes `a` and a
    later accepted frame passes `b`.
   */
  lemma VerifiedIffPassedInOrder(s: Session, obs: seq<Observation>, ledger: map<int, int>,
                                 a: Challenge, b: Challenge)
    requires Inv(s) && !s.confirmed && Draws(obs)
    requires RunQueue(s.queue, obs) == [a, b]
    ensures EverVerified(s, obs, ledger) <==> PassedInOrder(a, b, AcceptedSignals(obs))
  {
    VerifiedIffDrained(s, obs, ledger);
    DrainPair(a, b, AcceptedSignals(obs));
  }

  /**
    The buttons are enabled at the end of a run that starts unverified only if
    the session was verified at some frame of it.
   */
  lemma {:induction false} GateNeedsVerification(s: Session, obs: seq<Observation>, ledger: map<int, int>)
    requires Inv(s) && !s.confirmed && Draws(obs)
    ensures Run(s, obs, ledger).gateOpen ==> EverVerified(s, obs, ledger)
    decreases |obs|
  {
    if obs != [] {
      var s' := Step(s, obs[0], ledger);
      if !s'.confirmed {
        GateNeedsVerification(s', obs[1..], ledger);
      }
    }
  }

  // ---------------------------------------------------------------------------
  // The attendance gate

  datatype PunchKind = In | Out

  /** One row of the attendance log. */
  datatype Punch = Punch(user: int, kind: PunchKind, at: int)

  /** What `manual_punch` does: nothing, a cooldown warning, or a logged punch. */
  datatype PunchResult = Ignored | Cooldown(remaining: int) | Committed(punch: Punch)

  /** Python truthiness of `current_user_id`: `None` and `0` are false. */
  predicate Truthy(u: Option<int>) {
    u.Some? && u.value != 0
  }

  /**
    `manual_punch`'s decision: ignored without a current user, refused with the
    seconds left while that user cools down, committed otherwise.
   */
  function PunchDecision(s: Session, ledger: map<int, int>, kind: PunchKind, now: int): (r: PunchResult)
    ensures r.Ignored? <==> !Truthy(s.user)
    ensures r.Cooldown? <==> Truthy(s.user) && CoolingDown(ledger, s.user.value, now)
    ensures r.Cooldown? ==> 0 < r.remaining && r.remaining == Remaining(ledger, s.user.value, now)
    ensures r.Cooldown? && now >= LastPunch(ledger, s.user.value) ==> r.remaining <= CooldownSeconds
    ensures r.Committed? ==> r.punch == Punch(s.user.value, kind, now) && now - LastPunch(ledger, r.punch.user) >= CooldownSeconds
  {
    if !Truthy(s.user) then Ignored
    else if CoolingDown(ledger, s.user.value, now) then Cooldown(Remaining(ledger, s.user.value, now))
    else Committed(Punch(s.user.value, kind, now))
  }

  /** The session after a committed punch: verification, queue and user are cleared. */
  function AfterPunch(s: Session): (r: Session)
    ensures !r.confirmed && !r.gateOpen && r.user.None? && r.queue == []
    ensures Inv(s) ==> Inv(r)
  {
    s.(confirmed := false, queue := [], user := None, gateOpen := false)
  }

  /** A committed punch forces a new challenge: a second punch without one is ignored, at any time. */
  lemma SecondPunchIgnored(s: Session, ledger: map<int, int>, kind: PunchKind, now: int,
                           kind2: PunchKind, later: int)
    requires PunchDecision(s, ledger, kind, now).Committed?
    ensures PunchDecision(AfterPunch(s), ledger[s.user.value := now], kind2, later) == Ignored
  {
  }

  /** A punch right after a punch of the same user is refused for the rest of the 30 seconds. */
  lemma CooldownAfterCommit(s: Session, ledger: map<int, int>, kind: PunchKind, now: int,
                            s2: Session, kind2: PunchKind, later: int)
    requires PunchDecision(s, ledger, kind, now).Committed?
    requires s2.user == s.user && now <= later < now + CooldownSeconds
    ensures PunchDecision(s2, ledger[s.user.value := now], kind2, later) ==
            Cooldown(CooldownSeconds - (later - now))
  {
  }

  /**
    Buttons enabled by a completing frame mean a punch by that user at that
    time or later is committed, provided no punch came in between and the id
    is truthy.
   */
  lemma OpenGateCommits(s: Session, rec: Recognition, sig: Signals, draw: seq<Challenge>,
                        ledger: map<int, int>, now: int, kind: PunchKind, later: int)
    requires IsDraw(draw) && Inv(s)
    requires !s.gateOpen && Frame(s, rec, sig, draw, ledger, now).gateOpen
    requires later >= now && Truthy(rec.userId)
    ensures PunchDecision(Frame(s, rec, sig, draw, ledger, now), ledger, kind, later) ==
            Committed(Punch(rec.userId.value, kind, later))
  {
    GateOpensOnlyOnCompletion(s, rec, sig, draw, ledger, now);
  }

  // ---------------------------------------------------------------------------
  // Recognition results as the state machine reads them

  /**
    An accepted recognition always comes from a real crop and a successful
    prediction under the threshold; no face (`(None, 0, None)`) and a failed
    prediction (`(None, 100, rect)`) are never accepted.
   */
  lemma AcceptedMeansPredicted(frame: Image, detection: Option<Rect>, predict: Image -> Prediction)
    requires WellFormed(frame)
    requires Accepted(RecognizeFace(frame, detection, predict))
    ensures GetFaceCrop(frame, detection).Some?
    ensures var p := predict(GetFaceCrop(frame, detection).value.image);
      p.Predicted? && p.distance < AcceptThreshold &&
      RecognizeFace(frame, detection, predict).userId == Some(p.id)
  {
  }
}
