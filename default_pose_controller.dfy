/**
 * The stateless pose controller (DefaultPoseController): wave out and wave in turn the hand,
 * spreading the fingers and making a fist open and close it.
 */
module DefaultPoseController {
  import opened Myo

  /** `getRotationVelocity()`: +1 for WaveOut, -1 for WaveIn, 0 for any other pose. */
  function RotationVelocity(pose: Pose): (v: int)
    ensures v == 1 <==> pose == WaveOut
    ensures v == -1 <==> pose == WaveIn
    ensures v == 0 <==> pose != WaveOut && pose != WaveIn
  {
    if pose == WaveOut then 1
    else if pose == WaveIn then -1
    else 0
  }

  /** `getOpeningVelocity()`: +1 for FingersSpread, -1 for Fist, 0 for any other pose. */
  function OpeningVelocity(pose: Pose): (v: int)
    ensures v == 1 <==> pose == FingersSpread
    ensures v == -1 <==> pose == Fist
    ensures v == 0 <==> pose != FingersSpread && pose != Fist
  {
    if pose == FingersSpread then 1
    else if pose == Fist then -1
    else 0
  }

  /** No pose turns and opens the hand at once, and the rest poses do neither. */
  lemma NeverBoth(pose: Pose)
    ensures RotationVelocity(pose) == 0 || OpeningVelocity(pose) == 0
    ensures pose in {Rest, DoubleTap, Unknown} ==> RotationVelocity(pose) == 0 && OpeningVelocity(pose) == 0
  {
  }
}
