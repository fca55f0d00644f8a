/**
 * The older, stateless comb filter (CombFilter of ESN_v_002): it works in place on the caller's
 * array, adding alpha times the already filtered row `delay` rows earlier to each later row.
 */
module CombFilterV002 {
  import opened Wrappers
  import opened Numerics
  import opened Grids

  /**
   * Row t, channel c of the filtered array: x[t] + alpha * y[t - delay] from row `delay` on. With
   * no delay each entry reads itself before it is overwritten, so it is x[t] + alpha * x[t].
   * Without feedback the filter passes its input through.
   */
  function Recurrence(alpha: real, delay: int, data: seq<seq<real>>, t: nat, c: nat): (r: real)
    requires 0 <= delay && t < |data| && forall k :: 0 <= k < |data| ==> c < |data[k]|
    ensures 0 < delay && alpha == 0.0 ==> r == data[t][c]
    decreases t
  {
    if delay == 0 then data[t][c] + alpha * data[t][c]
    else if t < delay then data[t][c]
    else data[t][c] + alpha * Recurrence(alpha, delay, data, t - delay, c)
  }

  /** A silent channel stays silent. */
  lemma {:induction false} SilenceStays(alpha: real, delay: int, data: seq<seq<real>>, t: nat, c: nat)
    requires 0 <= delay && t < |data| && forall k :: 0 <= k < |data| ==> c < |data[k]|
    requires forall k :: 0 <= k <= t ==> data[k][c] == 0.0
    ensures Recurrence(alpha, delay, data, t, c) == 0.0
    decreases t
  {
    if 0 < delay <= t {
      SilenceStays(alpha, delay, data, t - delay, c);
    }
  }

  /** The filtered array; with no channels a negative delay reads nothing and changes nothing. */
  function Filtered(alpha: real, delay: int, cols: nat, data: seq<seq<real>>): (out: seq<seq<real>>)
    requires (0 <= delay || cols == 0) && Shaped(data, |data|, cols)
    ensures Shaped(out, |data|, cols)
  {
    seq(|data|, t requires 0 <= t < |data| =>
      seq(cols, c requires 0 <= c < cols => Recurrence(alpha, delay, data, t, c)))
  }

  /**
   * The filter keeps no state, and a second application runs the recurrence again: for any
   * nonzero alpha, an impulse in row 0 comes out of row `delay` as alpha once and 2 * alpha twice.
   */
  lemma NotIdempotent(alpha: real, delay: nat)
    requires 0 < delay && alpha != 0.0
    ensures var impulse := seq(delay + 1, t => [if t == 0 then 1.0 else 0.0]);
            && Filtered(alpha, delay, 1, impulse)[delay][0] == alpha
            && Filtered(alpha, delay, 1, Filtered(alpha, delay, 1, impulse))[delay][0] == 2.0 * alpha
            && Filtered(alpha, delay, 1, Filtered(alpha, delay, 1, impulse)) != Filtered(alpha, delay, 1, impulse)
  {
    var impulse := seq(delay + 1, t => [if t == 0 then 1.0 else 0.0]);
    var once := Filtered(alpha, delay, 1, impulse);
    assert Recurrence(alpha, delay, impulse, 0, 0) == 1.0;
    assert once[0][0] == 1.0;
    assert once[delay][0] == alpha;
    var twice := Filtered(alpha, delay, 1, once);
    assert Recurrence(alpha, delay, once, 0, 0) == 1.0;
    assert twice[delay][0] == alpha + alpha * 1.0;
  }

  /** Math.Round(samplingFreq / filterFreq) - 1, once the sampling check has passed, is at least 1. */
  lemma DelayAtLeastOne(samplingFreq: real, filterFreq: real)
    requires 0.0 < filterFreq && 2.0 * filterFreq < samplingFreq
    ensures 1 <= RoundHalfEven(samplingFreq / filterFreq) - 1
  {
    var q := samplingFreq / filterFreq;
    assert q * filterFreq == samplingFreq;
    assert 2.0 < q;
  }

  /** A negative hum frequency passes the check with a delay of at most 1, possibly negative. */
  lemma NegativeHumDelay(samplingFreq: real, filterFreq: real)
    requires filterFreq < 0.0 && 2.0 * filterFreq < samplingFreq
    ensures RoundHalfEven(samplingFreq / filterFreq) - 1 <= 1
    ensures samplingFreq == -filterFreq ==> RoundHalfEven(samplingFreq / filterFreq) - 1 == -2
  {
    var q := samplingFreq / filterFreq;
    assert q * filterFreq == samplingFreq;
    assert q < 2.0;
    if samplingFreq == -filterFreq {
      assert q == -1.0;
    }
  }

  class Filter {
    const samplingFreq: real
    const filterFreq: real
    const delay: int
    const alpha: real

    /**
     * The constructor once its sampling-theorem check has passed. A hum frequency of 0 makes the
     * quotient infinite, and its cast to int is not defined.
     */
    constructor (samplingFreq: real, filterFreq: real, alpha: real)
      requires filterFreq != 0.0 && 2.0 * filterFreq < samplingFreq
      ensures this.samplingFreq == samplingFreq && this.filterFreq == filterFreq && this.alpha == alpha
      ensures delay == RoundHalfEven(samplingFreq / filterFreq) - 1
      ensures 0.0 < filterFreq ==> 1 <= delay
      ensures filterFreq < 0.0 ==> delay <= 1
    {
      if 0.0 < filterFreq {
        DelayAtLeastOne(samplingFreq, filterFreq);
      } else {
        NegativeHumDelay(samplingFreq, filterFreq);
      }
      this.alpha := alpha;
      this.samplingFreq := samplingFreq;
      this.filterFreq := filterFreq;
      delay := RoundHalfEven(samplingFreq / filterFreq) - 1;
    }

    /**
     * `CombFilter(samplingFreq, filterFreq, alpha)`: throws unless the hum frequency is below half
     * the sampling frequency. Nothing is allocated, so a negative hum frequency builds a filter
     * whose delay may be negative.
     */
    static method Create(samplingFreq: real, filterFreq: real, alpha: real) returns (r: Result<Filter>)
      requires filterFreq == 0.0 ==> samplingFreq <= 0.0
      ensures r.Err? <==> samplingFreq <= 2.0 * filterFreq
      ensures r.Err? ==> r.error == SamplingTheorem
      ensures r.Ok? ==> && fresh(r.value) && r.value.alpha == alpha
                        && (0.0 < filterFreq ==> 1 <= r.value.delay)
                        && r.value.delay == RoundHalfEven(samplingFreq / filterFreq) - 1
    {
      if samplingFreq <= 2.0 * filterFreq {
        return Err(SamplingTheorem);
      }
      var f := new Filter(samplingFreq, filterFreq, alpha);
      return Ok(f);
    }

    /** `CombFilter(samplingFreq, filterFreq)`: damping -0.75. */
    static method CreateDefault(samplingFreq: real, filterFreq: real) returns (r: Result<Filter>)
      requires filterFreq == 0.0 ==> samplingFreq <= 0.0
      ensures r.Err? <==> samplingFreq <= 2.0 * filterFreq
      ensures r.Ok? ==> fresh(r.value) && r.value.alpha == -0.75 && (0.0 < filterFreq ==> 1 <= r.value.delay)
    {
      r := Create(samplingFreq, filterFreq, -0.75);
    }

    /**
     * `filter(double[,] data)`: overwrites the caller's array with the recurrence and returns that
     * same array. Rows before `delay` are unchanged. A negative delay indexes row `delay` first,
     * which crashes unless there are no channels.
     */
    method Apply(data: array2<real>) returns (result: array2<real>)
      requires 0 <= delay || data.Length1 == 0
      modifies data
      ensures result == data
      ensures Rows(data) == Filtered(alpha, delay, data.Length1, old(Rows(data)))
      ensures forall t :: 0 <= t < data.Length0 && t < delay ==> Rows(data)[t] == old(Rows(data))[t]
    {
      ghost var input := Rows(data);
      ghost var goal := Filtered(alpha, delay, data.Length1, input);
      var i := delay;
      while i < data.Length0
        invariant delay <= i && (0 <= i || data.Length1 == 0)
        invariant forall t, c :: 0 <= t < data.Length0 && 0 <= c < data.Length1 ==>
                    data[t, c] == if t < i then goal[t][c] else input[t][c]
        decreases data.Length0 - i
      {
        var c := 0;
        while c < data.Length1
          invariant 0 <= c <= data.Length1
          invariant forall t, k :: 0 <= t < data.Length0 && 0 <= k < data.Length1 ==>
                      data[t, k] == if t < i || (t == i && k < c) then goal[t][k] else input[t][k]
        {
          assert goal[i][c] == Recurrence(alpha, delay, input, i, c);
          data[i, c] := data[i, c] + alpha * data[i - delay, c];
          c := c + 1;
        }
        i := i + 1;
      }
      RowsFromElements(data, goal);
      result := data;
    }
  }
}
