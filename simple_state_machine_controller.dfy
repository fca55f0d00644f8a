/**
 * The threshold state machine (SimpleStateMachineController): two electrodes of the armband are
 * sampled into two spread filters; an electrode is active while its filter's spread reaches its
 * threshold. The two electrodes drive either the rotation or the opening of the hand, and
 * activating both within 80 ms of each other switches between the two modes.
 */
module SimpleStateMachineController {
  import opened Wrappers
  import opened Numerics
  import RmsFilter

  /** The configuration file's content. */
  datatype Config = Config(electrode1: int, electrode2: int, threshold1: real, threshold2: real,
                           electrode1Open: bool, electrode1RotateClockwise: bool)

  /** The armband has eight electrodes, 0 to 7. */
  predicate ElectrodeOk(e: int) { 0 <= e <= 7 }

  /** Thresholds compare against spreads of samples scaled to [-1, 1]. */
  predicate ThresholdOk(t: real) { 0.0 <= t <= 1.0 }

  /**
   * The checks of `SetConfiguration`, in their order: electrode1, electrode2, threshold1,
   * threshold2; the first one that fails is reported.
   */
  function Validate(c: Config): (o: Outcome)
    ensures o.Pass? <==> ElectrodeOk(c.electrode1) && ElectrodeOk(c.electrode2) && ThresholdOk(c.threshold1) && ThresholdOk(c.threshold2)
    ensures !ElectrodeOk(c.electrode1) ==> o == Fail(ElectrodeOutOfRange(1, c.electrode1))
    ensures ElectrodeOk(c.electrode1) && !ElectrodeOk(c.electrode2) ==> o == Fail(ElectrodeOutOfRange(2, c.electrode2))
    ensures ElectrodeOk(c.electrode1) && ElectrodeOk(c.electrode2) && !ThresholdOk(c.threshold1) ==>
              o == Fail(ThresholdOutOfRange(1, c.threshold1))
    ensures ElectrodeOk(c.electrode1) && ElectrodeOk(c.electrode2) && ThresholdOk(c.threshold1) && !ThresholdOk(c.threshold2) ==>
              o == Fail(ThresholdOutOfRange(2, c.threshold2))
  {
    if c.electrode1 < 0 || 7 < c.electrode1 then Fail(ElectrodeOutOfRange(1, c.electrode1))
    else if c.electrode2 < 0 || 7 < c.electrode2 then Fail(ElectrodeOutOfRange(2, c.electrode2))
    else if c.threshold1 < 0.0 || 1.0 < c.threshold1 then Fail(ThresholdOutOfRange(1, c.threshold1))
    else if c.threshold2 < 0.0 || 1.0 < c.threshold2 then Fail(ThresholdOutOfRange(2, c.threshold2))
    else Pass
  }

  /** The inspector defaults: a sample every 10 ms, filters over 150 ms. */
  const SampleTimeDifference: int := 10
  const FilterWindowLength: int := 150

  /** `(int)Mathf.Ceil(length / (float)sampleTime)`: the number of samples a filter holds. */
  function WindowSize(length: nat, sampleTime: int): (n: nat)
    requires 0 < sampleTime
    ensures (n as real) - 1.0 < length as real / sampleTime as real <= n as real
  {
    var q := length as real / sampleTime as real;
    -((-q).Floor)
  }

  /** With the defaults the filters hold 15 samples. */
  lemma DefaultWindowSize()
    ensures WindowSize(FilterWindowLength, SampleTimeDifference) == 15
  {
  }

  /** An electrode is active iff its filter's spread is at least its threshold (a NaN spread never is). */
  predicate Active(spread: Double, threshold: real)
    ensures spread.NonFinite? ==> !Active(spread, threshold)
    ensures spread.Finite? && threshold <= 0.0 && 0.0 <= spread.value ==> Active(spread, threshold)
  {
    spread.Finite? && threshold <= spread.value
  }

  /** The velocity of a pair of opposing roles: +1, -1, or 0 when both or neither are active. */
  function Velocity(plus: bool, minus: bool): (v: int)
    ensures v == 1 <==> plus && !minus
    ensures v == -1 <==> !plus && minus
    ensures v == 0 <==> plus == minus
  {
    (if plus then 1 else 0) - (if minus then 1 else 0)
  }

  /** The electrode playing the first role: electrode 1 if the flag says so, else electrode 2. */
  function Role(electrode1First: bool, e1: bool, e2: bool): bool
  {
    if electrode1First then e1 else e2
  }

  /** `getRotationVelocity()`: clockwise minus counter-clockwise, in rotation mode only. */
  function RotationVelocity(rotate: bool, c: Config, e1: bool, e2: bool): (v: int)
    ensures v != 0 ==> rotate
    ensures -1 <= v <= 1
  {
    if rotate then Velocity(Role(c.electrode1RotateClockwise, e1, e2), Role(c.electrode1RotateClockwise, e2, e1)) else 0
  }

  /** `getOpeningVelocity()`: opening minus closing, outside rotation mode only. */
  function OpeningVelocity(rotate: bool, c: Config, e1: bool, e2: bool): (v: int)
    ensures v != 0 ==> !rotate
    ensures -1 <= v <= 1
  {
    if !rotate then Velocity(Role(c.electrode1Open, e1, e2), Role(c.electrode1Open, e2, e1)) else 0
  }

  /**
   * The two velocities are never both nonzero; both electrodes active, or neither, moves
   * nothing; one active electrode moves the hand in the direction of its role.
   */
  lemma VelocityRoles(rotate: bool, c: Config, e1: bool, e2: bool)
    ensures RotationVelocity(rotate, c, e1, e2) == 0 || OpeningVelocity(rotate, c, e1, e2) == 0
    ensures e1 == e2 ==> RotationVelocity(rotate, c, e1, e2) == 0 && OpeningVelocity(rotate, c, e1, e2) == 0
    ensures rotate && e1 != e2 ==> RotationVelocity(rotate, c, e1, e2) == (if e1 == c.electrode1RotateClockwise then 1 else -1)
    ensures !rotate && e1 != e2 ==> OpeningVelocity(rotate, c, e1, e2) == (if e1 == c.electrode1Open then 1 else -1)
  {
  }

  /** Two activations at most this far apart, in seconds, are a co-contraction. */
  const CocontractionWindow: real := 0.08

  /** The fields `_Update` changes: the mode, the last activation times and the co-contraction flag. */
  datatype State = State(rotate: bool, lastElectrode1: real, lastElectrode2: real, cocontracting: bool)

  /** Rotation mode, and stamps 1 s apart so that nothing counts as co-contraction yet. */
  const Initial := State(true, -1.0, -2.0, false)

  /**
   * One `_Update` at game time `time` with the electrodes' activity: active electrodes are
   * stamped; the controller co-contracts while the stamps are less than 80 ms apart, and the
   * mode flips on entering co-contraction.
   */
  function Step(s: State, e1: bool, e2: bool, time: real): (t: State)
    ensures t.lastElectrode1 == (if e1 then time else s.lastElectrode1)
    ensures t.lastElectrode2 == (if e2 then time else s.lastElectrode2)
    ensures t.cocontracting <==> Abs(t.lastElectrode1 - t.lastElectrode2) < CocontractionWindow
    ensures t.rotate != s.rotate <==> t.cocontracting && !s.cocontracting
    ensures e1 && e2 ==> t.cocontracting
  {
    var last1 := if e1 then time else s.lastElectrode1;
    var last2 := if e2 then time else s.lastElectrode2;
    if Abs(last1 - last2) < CocontractionWindow then
      State(if s.cocontracting then s.rotate else !s.rotate, last1, last2, true)
    else
      State(s.rotate, last1, last2, false)
  }

  /** One frame of a run: the two electrodes' activity and the game time. */
  datatype Frame = Frame(e1: bool, e2: bool, time: real)

  function Run(s: State, frames: seq<Frame>): State
    decreases |frames|
  {
    if |frames| == 0 then s
    else
      var f := frames[|frames| - 1];
      Step(Run(s, frames[..|frames| - 1]), f.e1, f.e2, f.time)
  }

  /** The number of frames of a run at which the controller enters co-contraction. */
  function Entries(s: State, frames: seq<Frame>): nat
    decreases |frames|
  {
    if |frames| == 0 then 0
    else
      var before := Run(s, frames[..|frames| - 1]);
      var f := frames[|frames| - 1];
      Entries(s, frames[..|frames| - 1]) + (if Step(before, f.e1, f.e2, f.time).cocontracting && !before.cocontracting then 1 else 0)
  }

  /** The mode after a run is the starting mode flipped once per entry into co-contraction. */
  lemma {:induction false} ModeFollowsEntries(s: State, frames: seq<Frame>)
    ensures Run(s, frames).rotate == (if Entries(s, frames) % 2 == 0 then s.rotate else !s.rotate)
    decreases |frames|
  {
    if |frames| > 0 {
      ModeFollowsEntries(s, frames[..|frames| - 1]);
    }
  }

  /** Until an electrode becomes active the controller stays in its initial state. */
  lemma {:induction false} QuietRunKeepsInitial(frames: seq<Frame>)
    requires forall i :: 0 <= i < |frames| ==> !frames[i].e1 && !frames[i].e2
    ensures Run(Initial, frames) == Initial
    decreases |frames|
  {
    if |frames| > 0 {
      QuietRunKeepsInitial(frames[..|frames| - 1]);
    }
  }

  /** The spread filter of one electrode is active against a threshold: never for a filter of size 0, always for a threshold of at most 0. */
  function Electrode(sqrt: SqrtFn, filter: RmsFilter.Filter, threshold: real): (e: bool)
    reads filter, filter.buffer
    ensures filter.buffer.Length == 0 ==> !e
    ensures 0 < filter.buffer.Length && threshold <= 0.0 ==> e
  {
    Active(RmsFilter.Deviation(sqrt, filter.buffer[..]), threshold)
  }

  class Controller {
    var config: Option<Config>
    var filter1: RmsFilter.Filter
    var filter2: RmsFilter.Filter
    var rotate: bool
    var lastElectrode1: real
    var lastElectrode2: real
    var cocontracting: bool

    /** The two filters are separate objects with separate buffers, and a configuration has been checked. */
    ghost predicate Valid()
      reads this, filter1, filter2, filter1.buffer, filter2.buffer
    {
      && filter1 != filter2 && filter1.buffer != filter2.buffer
      && filter1.Valid() && filter2.Valid()
      && (config.Some? ==> Validate(config.value).Pass?)
    }

    function Current(): State
      reads this
    {
      State(rotate, lastElectrode1, lastElectrode2, cocontracting)
    }

    /** `_Awake()` with the field initialisers: two empty filters of the window size, no configuration. */
    constructor (sampleTimeDifference: int, filterWindowLength: nat)
      requires 0 < sampleTimeDifference
      ensures Valid() && config == None && Current() == Initial
      ensures fresh(filter1) && fresh(filter2) && fresh(filter1.buffer) && fresh(filter2.buffer)
      ensures filter1.buffer.Length == filter2.buffer.Length == WindowSize(filterWindowLength, sampleTimeDifference)
      ensures filter1.pushed == [] && filter2.pushed == []
    {
      var windowSize := WindowSize(filterWindowLength, sampleTimeDifference);
      config := None;
      filter1 := new RmsFilter.Filter(windowSize);
      filter2 := new RmsFilter.Filter(windowSize);
      rotate := true;
      lastElectrode1 := -1.0;
      lastElectrode2 := -2.0;
      cocontracting := false;
    }

    /**
     * `SetConfiguration(configPath)`: `read` is the parsed file, or the exception reading or
     * parsing it raised. A configuration that fails a check leaves the old one in place.
     */
    method SetConfiguration(read: Result<Config>) returns (o: Outcome)
      requires Valid()
      modifies this
      ensures Valid() && Current() == old(Current()) && filter1 == old(filter1) && filter2 == old(filter2)
      ensures read.Err? ==> o == Fail(read.error)
      ensures read.Ok? ==> o == Validate(read.value)
      ensures config == (if o.Pass? then Some(read.value) else old(config))
    {
      if read.Err? {
        return Fail(read.error);
      }
      o := Validate(read.value);
      if o.Pass? {
        config := Some(read.value);
      }
    }

    /** The timer's tick: each filter takes its electrode's sample, scaled from [-128, 127]. */
    method Sample(emg: seq<int>)
      requires Valid() && config.Some? && |emg| == 8
      requires 0 < filter1.buffer.Length && 0 < filter2.buffer.Length
      modifies filter1, filter1.buffer, filter2, filter2.buffer
      ensures Valid()
      ensures filter1.pushed == old(filter1.pushed) + [emg[config.value.electrode1] as real / 127.0]
      ensures filter2.pushed == old(filter2.pushed) + [emg[config.value.electrode2] as real / 127.0]
    {
      filter1.Push(emg[config.value.electrode1] as real / 127.0);
      filter2.Push(emg[config.value.electrode2] as real / 127.0);
    }

    /** The `electrode1` and `electrode2` properties: each recomputes its filter's spread. */
    method Electrodes(sqrt: SqrtFn) returns (e1: bool, e2: bool)
      requires config.Some?
      ensures e1 == Electrode(sqrt, filter1, config.value.threshold1)
      ensures e2 == Electrode(sqrt, filter2, config.value.threshold2)
    {
      var spread1 := filter1.Get(sqrt);
      var spread2 := filter2.Get(sqrt);
      e1 := Active(spread1, config.value.threshold1);
      e2 := Active(spread2, config.value.threshold2);
    }

    /** `_Update()` at game time `time`. */
    method Update(sqrt: SqrtFn, time: real)
      requires config.Some?
      modifies this
      ensures config == old(config) && filter1 == old(filter1) && filter2 == old(filter2)
      ensures Current() == Step(old(Current()), Electrode(sqrt, filter1, config.value.threshold1),
                                Electrode(sqrt, filter2, config.value.threshold2), time)
    {
      var e1, e2 := Electrodes(sqrt);
      if e1 {
        lastElectrode1 := time;
      }
      if e2 {
        lastElectrode2 := time;
      }
      var diff := Abs(lastElectrode1 - lastElectrode2);
      if diff < CocontractionWindow {
        if !cocontracting {
          rotate := !rotate;
        }
        cocontracting := true;
      } else {
        cocontracting := false;
      }
    }

    /** `getRotationVelocity()`. */
    method GetRotationVelocity(sqrt: SqrtFn) returns (v: int)
      requires config.Some?
      ensures v == RotationVelocity(rotate, config.value, Electrode(sqrt, filter1, config.value.threshold1),
                                    Electrode(sqrt, filter2, config.value.threshold2))
    {
      if rotate {
        var e1, e2 := Electrodes(sqrt);
        var clockwise := if config.value.electrode1RotateClockwise then e1 else e2;
        var counterClockwise := if config.value.electrode1RotateClockwise then e2 else e1;
        v := 0;
        if clockwise {
          v := v + 1;
        }
        if counterClockwise {
          v := v - 1;
        }
      } else {
        v := 0;
      }
    }

    /** `getOpeningVelocity()`. */
    method GetOpeningVelocity(sqrt: SqrtFn) returns (v: int)
      requires config.Some?
      ensures v == OpeningVelocity(rotate, config.value, Electrode(sqrt, filter1, config.value.threshold1),
                                   Electrode(sqrt, filter2, config.value.threshold2))
    {
      if !rotate {
        var e1, e2 := Electrodes(sqrt);
        var open := if config.value.electrode1Open then e1 else e2;
        var close := if config.value.electrode1Open then e2 else e1;
        v := 0;
        if open {
          v := v + 1;
        }
        if close {
          v := v - 1;
        }
      } else {
        v := 0;
      }
    }
  }
}
