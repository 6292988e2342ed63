/**
  The registration fields of `AppUI` (`is_registering`, `reg_user_id`,
  `reg_user_name`, `reg_samples`, `reg_count`, `is_training`) and how
  `register_user_btn`, the registration branch of `update_video`,
  `finish_registration` and `registration_complete` change them.
 */
module Enrollment {
  import opened Wrappers
  import opened FaceCore

  /** `MAX_SAMPLES`: faces collected before training starts. */
  const MaxSamples: int := 50

  datatype Enroll = Enroll(registering: bool, userId: Option<int>, userName: string,
                           samples: seq<Image>, count: int, training: bool)

  /** The registration state as `__init__` leaves it (`is_training` does not exist yet: false). */
  const Idle: Enroll := Enroll(false, None, "", [], 0, false)

  /**
    What every reachable registration state satisfies: one sample per counted
    face, training only during a registration, and during a registration
    training has started exactly when the count has reached 50.
   */
  predicate EnrollInv(e: Enroll) {
    |e.samples| == e.count &&
    (!e.registering ==> !e.training) &&
    (e.registering ==> (e.training <==> e.count >= MaxSamples))
  }

  /**
    `register_user_btn`, given the name typed in (empty when cancelled) and the
    id `add_user` returned (`None` when it raised): ignored while registering.
   */
  function Start(e: Enroll, name: string, newId: Option<int>): (r: Enroll)
    ensures e.registering || name == "" || newId.None? ==> r == e
    ensures !e.registering && name != "" && newId.Some? ==>
      r.registering && r.userId == newId && r.userName == name && r.samples == [] && r.count == 0 &&
      r.training == e.training
    ensures EnrollInv(e) ==> EnrollInv(r)
  {
    if e.registering then e
    else if name != "" && newId.Some? then
      e.(userId := newId, userName := name, samples := [], count := 0, registering := true)
    else e
  }

  /** `finish_registration`'s guard: training is started only when it is not already running. */
  function Finish(e: Enroll): (r: (Enroll, bool))
    ensures r.1 <==> !e.training
    ensures r.0 == e.(training := true)
  {
    if e.training then (e, false) else (e.(training := true), true)
  }

  /**
    The registration branch of `update_video`: a frame with a face appends one
    sample; once the count reaches 50 the guarded training start is attempted
    on every such frame. Returns whether training was started.
   */
  function Capture(e: Enroll, crop: Option<FaceCrop>): (r: (Enroll, bool))
    ensures crop.None? ==> r == (e, false)
    ensures crop.Some? ==>
      r.0.samples == e.samples + [crop.value.image] && r.0.count == e.count + 1 &&
      r.0.registering == e.registering && r.0.userId == e.userId && r.0.userName == e.userName
    ensures r.1 <==> crop.Some? && !e.training && e.count + 1 >= MaxSamples
    ensures r.0.training <==> e.training || r.1
    ensures EnrollInv(e) && e.registering ==> EnrollInv(r.0)
  {
    if crop.None? then (e, false)
    else
      var e1 := e.(samples := e.samples + [crop.value.image], count := e.count + 1);
      if e1.count >= MaxSamples then Finish(e1) else (e1, false)
  }

  /** `registration_complete`: both flags are cleared. */
  function Complete(e: Enroll): (r: Enroll)
    ensures !r.registering && !r.training
    ensures r.samples == e.samples && r.count == e.count && r.userId == e.userId && r.userName == e.userName
    ensures EnrollInv(e) ==> EnrollInv(r)
  {
    e.(training := false, registering := false)
  }

  // ---------------------------------------------------------------------------
  // A run of registration frames

  function FaceCount(crops: seq<Option<FaceCrop>>): nat {
    if crops == [] then 0 else (if crops[0].Some? then 1 else 0) + FaceCount(crops[1..])
  }

  /** The faces of a run of frames, in order. */
  function Faces(crops: seq<Option<FaceCrop>>): seq<Image> {
    if crops == [] then []
    else (if crops[0].Some? then [crops[0].value.image] else []) + Faces(crops[1..])
  }

  /** The state after a run of registration frames, and how many times training was started. */
  function CaptureRun(e: Enroll, crops: seq<Option<FaceCrop>>): (Enroll, nat)
    decreases |crops|
  {
    if crops == [] then (e, 0)
    else
      var (e1, started) := Capture(e, crops[0]);
      var (e2, n) := CaptureRun(e1, crops[1..]);
      (e2, n + if started then 1 else 0)
  }

  /**
    Over any run of frames of one registration, every face is kept in order
    and counted, and training is started at most once: exactly once if the
    count reaches 50 during the run and it was not already running, never if
    it was.
   */
  lemma {:induction false} CaptureRunFacts(e: Enroll, crops: seq<Option<FaceCrop>>)
    requires EnrollInv(e) && e.registering
    ensures var (e', n) := CaptureRun(e, crops);
      EnrollInv(e') && e'.registering && e'.userId == e.userId &&
      e'.samples == e.samples + Faces(crops) && e'.count == e.count + FaceCount(crops) &&
      n <= 1 && (e.training ==> n == 0) &&
      (n == 1 <==> !e.training && e.count + FaceCount(crops) >= MaxSamples)
    decreases |crops|
  {
    if crops != [] {
      var (e1, started) := Capture(e, crops[0]);
      CaptureRunFacts(e1, crops[1..]);
    }
  }
}
