/**
 * The pose-based state machine (StateMachineController): wave out and wave in drive either the
 * rotation or the opening of the hand; holding a co-contraction pose (FingersSpread or Fist) for
 * more than 80 ms switches between the two, once per hold.
 */
module StateMachineController {
  import opened Myo
  import DefaultPoseController

  /** The hold time after which a co-contraction switches the mode, in seconds. */
  const SwitchDelay: real := 0.080

  /** The marker for "no co-contraction under way". */
  const NoStart: real := -1.0

  /** The poses that count as co-contraction. */
  predicate Cocontraction(pose: Pose)
    ensures Cocontraction(pose) <==> !(pose == Rest || pose == WaveIn || pose == WaveOut || pose == DoubleTap || pose == Unknown)
  {
    pose == FingersSpread || pose == Fist
  }

  /** The controller's fields: the mode, whether this hold already switched it, and the hold's start. */
  datatype State = State(rotate: bool, changedState: bool, startCocontraction: real)

  /** The state before the first frame: rotating, no hold under way. */
  const Initial := State(true, false, NoStart)

  /**
   * One `_Update` at game time `time`: a co-contraction pose starts a hold when none is under
   * way, and a hold that has lasted more than 80 ms flips the mode unless it already did; any
   * other pose ends the hold.
   */
  function Step(s: State, pose: Pose, time: real): (t: State)
    ensures !Cocontraction(pose) ==> t == State(s.rotate, false, NoStart)
    ensures Cocontraction(pose) && s.startCocontraction == NoStart ==> t == s.(startCocontraction := time)
    ensures t.rotate != s.rotate <==>
              Cocontraction(pose) && s.startCocontraction != NoStart && SwitchDelay < time - s.startCocontraction && !s.changedState
    ensures t.changedState ==> Cocontraction(pose)
  {
    if Cocontraction(pose) then
      if s.startCocontraction == NoStart then s.(startCocontraction := time)
      else if SwitchDelay < time - s.startCocontraction && !s.changedState then State(!s.rotate, true, s.startCocontraction)
      else s
    else State(s.rotate, false, NoStart)
  }

  /** The states after each frame of a run of (pose, time) frames. */
  function Run(s: State, frames: seq<(Pose, real)>): State
    decreases |frames|
  {
    if |frames| == 0 then s else Step(Run(s, frames[..|frames| - 1]), frames[|frames| - 1].0, frames[|frames| - 1].1)
  }

  /** Every frame of the run shows a co-contraction pose. */
  predicate Holding(frames: seq<(Pose, real)>)
  {
    forall i :: 0 <= i < |frames| ==> Cocontraction(frames[i].0)
  }

  /**
   * However long a co-contraction is held, the mode flips at most once: after a flip the state
   * stays put until the pose changes.
   */
  lemma {:induction false} OneFlipPerHold(s: State, frames: seq<(Pose, real)>)
    requires Holding(frames) && s.changedState && s.startCocontraction != NoStart
    ensures Run(s, frames) == s
    decreases |frames|
  {
    if |frames| > 0 {
      OneFlipPerHold(s, frames[..|frames| - 1]);
    }
  }

  /** Every state a controller reaches from the initial one: a flip happens only inside a hold. */
  lemma {:induction false} ChangedOnlyWhileHolding(frames: seq<(Pose, real)>)
    requires forall i :: 0 <= i < |frames| ==> frames[i].1 != NoStart
    ensures Run(Initial, frames).changedState ==> Run(Initial, frames).startCocontraction != NoStart
    decreases |frames|
  {
    if |frames| > 0 {
      ChangedOnlyWhileHolding(frames[..|frames| - 1]);
    }
  }

  /** A hold started from rest flips the mode at most once, however many frames it lasts. */
  lemma {:induction false} HoldFlipsAtMostOnce(s: State, frames: seq<(Pose, real)>)
    requires Holding(frames) && !s.changedState
    ensures Run(s, frames).changedState ==> Run(s, frames).rotate == !s.rotate
    ensures !Run(s, frames).changedState ==> Run(s, frames).rotate == s.rotate
    decreases |frames|
  {
    if |frames| > 0 {
      HoldFlipsAtMostOnce(s, frames[..|frames| - 1]);
    }
  }

  /** `getRotationVelocity()`: WaveOut and WaveIn turn the hand only in rotation mode. */
  function RotationVelocity(rotate: bool, pose: Pose): (v: int)
    ensures v != 0 ==> rotate
    ensures rotate ==> v == DefaultPoseController.RotationVelocity(pose)
  {
    if rotate then
      if pose == WaveOut then 1 else if pose == WaveIn then -1 else 0
    else 0
  }

  /** `getOpeningVelocity()`: the same two poses open and close the hand in the other mode. */
  function OpeningVelocity(rotate: bool, pose: Pose): (v: int)
    ensures v != 0 ==> !rotate
    ensures !rotate ==> v == DefaultPoseController.RotationVelocity(pose)
  {
    if !rotate then
      if pose == WaveOut then 1 else if pose == WaveIn then -1 else 0
    else 0
  }

  /** The two velocities are never both nonzero, and each lies in {-1, 0, 1}. */
  lemma NeverBoth(rotate: bool, pose: Pose)
    ensures RotationVelocity(rotate, pose) == 0 || OpeningVelocity(rotate, pose) == 0
    ensures -1 <= RotationVelocity(rotate, pose) <= 1 && -1 <= OpeningVelocity(rotate, pose) <= 1
  {
  }

  class Controller {
    var rotate: bool
    var changedState: bool
    var startCocontraction: real

    function Current(): State
      reads this
    {
      State(rotate, changedState, startCocontraction)
    }

    constructor ()
      ensures Current() == Initial
    {
      rotate := true;
      changedState := false;
      startCocontraction := NoStart;
    }

    /** `_Update()` with the armband's pose and the game time. */
    method Update(pose: Pose, time: real)
      modifies this
      ensures Current() == Step(old(Current()), pose, time)
    {
      if pose == FingersSpread || pose == Fist {
        if startCocontraction == NoStart {
          startCocontraction := time;
        } else if SwitchDelay < time - startCocontraction {
          if !changedState {
            rotate := !rotate;
            changedState := true;
          }
        }
      } else {
        startCocontraction := NoStart;
        changedState := false;
      }
    }
  }
}
