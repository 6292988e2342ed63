/**
  The liveness challenges of `AppUI.update_video`: the four kinds, the rule by
  which one frame's liveness signals pass a challenge, and the queue of two
  distinct challenges that a subject works through one head at a time.
 */
module Challenges {

  datatype Challenge = Blink | Smile | TurnLeft | TurnRight

  /** The head orientation the liveness detector reports. */
  datatype Orientation = Center | Left | Right

  /** The liveness signals of one frame (`is_blinking`, `is_smiling`, `orientation`). */
  datatype Signals = Signals(blinking: bool, smiling: bool, orientation: Orientation)

  /** `CHALLENGES`, the pool the queue is drawn from. */
  const AllChallenges: seq<Challenge> := [Blink, Smile, TurnLeft, TurnRight]

  /** A possible result of `random.sample(CHALLENGES, 2)`: two distinct members of the pool. */
  predicate IsDraw(d: seq<Challenge>) {
    |d| == 2 && d[0] in AllChallenges && d[1] in AllChallenges && d[0] != d[1]
  }

  /** What the queue can be at any time: a suffix of a draw, or empty (Python's `None`). */
  predicate WellFormedQueue(q: seq<Challenge>) {
    |q| <= 2 && (|q| == 2 ==> q[0] != q[1])
  }

  /** The pass test applied to the current target. */
  predicate Passes(c: Challenge, sig: Signals) {
    match c
    case Blink => sig.blinking
    case Smile => sig.smiling
    case TurnLeft => sig.orientation == Left
    case TurnRight => sig.orientation == Right
  }

  /**
    The queue tested on a frame: a new draw when there is no queue, otherwise
    the existing queue, unchanged.
   */
  function ActiveQueue(q: seq<Challenge>, draw: seq<Challenge>): (r: seq<Challenge>)
    requires IsDraw(draw)
    ensures r != []
    ensures WellFormedQueue(q) ==> WellFormedQueue(r)
    ensures q != [] ==> r == q
    ensures q == [] ==> r == draw
  {
    if q == [] then draw else q
  }

  /** One frame's evaluation: only the head is tested, and it is popped when it passes. */
  function Advance(q: seq<Challenge>, sig: Signals): (r: seq<Challenge>)
    requires q != []
    ensures Passes(q[0], sig) <==> |r| == |q| - 1
    ensures r == q || r == q[1..]
  {
    if Passes(q[0], sig) then q[1..] else q
  }

  /** The queue left after a run of frames, stopping once it is empty. */
  function Drain(q: seq<Challenge>, sigs: seq<Signals>): seq<Challenge> {
    if q == [] || sigs == [] then q else Drain(Advance(q, sigs[0]), sigs[1..])
  }

  /** Some frame passes `c`. */
  predicate SomeFramePasses(c: Challenge, sigs: seq<Signals>) {
    exists j :: 0 <= j < |sigs| && Passes(c, sigs[j])
  }

  /** Some frame passes `a` and a strictly later frame passes `b`. */
  predicate PassedInOrder(a: Challenge, b: Challenge, sigs: seq<Signals>) {
    exists i, j :: 0 <= i < j < |sigs| && Passes(a, sigs[i]) && Passes(b, sigs[j])
  }

  /** A subject doing nothing (eyes open, mouth closed, facing the camera) passes no challenge. */
  lemma NeutralPassesNothing(c: Challenge)
    ensures !Passes(c, Signals(false, false, Center))
  {
  }

  /** Every frame pops at most one challenge: a run of `n` frames shortens the queue by at most `n`. */
  lemma {:induction false} DrainAtMostOnePerFrame(q: seq<Challenge>, sigs: seq<Signals>)
    ensures |q| - |sigs| <= |Drain(q, sigs)| <= |q|
    ensures Drain(q, sigs) == q[|q| - |Drain(q, sigs)|..]
  {
    if q != [] && sigs != [] {
      var q' := Advance(q, sigs[0]);
      var d := Drain(q', sigs[1..]);
      DrainAtMostOnePerFrame(q', sigs[1..]);
      if q' != q {
        assert q'[|q'| - |d|..] == q[|q| - |d|..];
      }
    }
  }

  /** A single remaining challenge is cleared exactly when some frame passes it. */
  lemma {:induction false} DrainSingle(b: Challenge, sigs: seq<Signals>)
    ensures Drain([b], sigs) == [] <==> SomeFramePasses(b, sigs)
  {
    if sigs != [] {
      var rest := sigs[1..];
      if !Passes(b, sigs[0]) {
        DrainSingle(b, rest);
        if SomeFramePasses(b, sigs) {
          var j :| 0 <= j < |sigs| && Passes(b, sigs[j]);
          assert rest[j - 1] == sigs[j];
        }
        if SomeFramePasses(b, rest) {
          var j :| 0 <= j < |rest| && Passes(b, rest[j]);
          assert sigs[j + 1] == rest[j];
        }
      } else {
        assert Drain([b], sigs) == Drain([], rest);
        assert Passes(b, sigs[0]);
      }
    }
  }

  /**
    A queue of two challenges is drained by a run of frames exactly when the
    first is passed on some frame and the second on a later one: out of order,
    or both on one frame, does not count.
   */
  lemma {:induction false} DrainPair(a: Challenge, b: Challenge, sigs: seq<Signals>)
    ensures Drain([a, b], sigs) == [] <==> PassedInOrder(a, b, sigs)
  {
    if sigs != [] {
      var rest := sigs[1..];
      if Passes(a, sigs[0]) {
        assert [a, b][1..] == [b];
        DrainSingle(b, rest);
        if SomeFramePasses(b, rest) {
          var j :| 0 <= j < |rest| && Passes(b, rest[j]);
          assert sigs[j + 1] == rest[j];
        }
        if PassedInOrder(a, b, sigs) {
          var i, j :| 0 <= i < j < |sigs| && Passes(a, sigs[i]) && Passes(b, sigs[j]);
          assert rest[j - 1] == sigs[j];
        }
      } else {
        DrainPair(a, b, rest);
        if PassedInOrder(a, b, sigs) {
          var i, j :| 0 <= i < j < |sigs| && Passes(a, sigs[i]) && Passes(b, sigs[j]);
          assert i > 0;
          assert rest[i - 1] == sigs[i] && rest[j - 1] == sigs[j];
        }
        if PassedInOrder(a, b, rest) {
          var i, j :| 0 <= i < j < |rest| && Passes(a, rest[i]) && Passes(b, rest[j]);
          assert sigs[i + 1] == rest[i] && sigs[j + 1] == rest[j];
        }
      }
    }
  }
}
