/**
 * The streaming comb filter against mains hum (class CombFilter, the out-of-place version with
 * memory): y[t] = x[t] - x[t - delay] + alpha * y[t - delay], where rows before the start of a
 * call are taken from the last `delay` input and output rows of the previous call.
 */
module CombFilter {
  import opened Wrappers
  import opened Numerics
  import opened Grids

  /**
   * The output at row t, channel c, of filtering `data` after memories `raw` and `filt` (the
   * previous call's last `delay` input and output rows). With no delay the second loop reads the
   * output cell it is about to write, still zero in the fresh array. Without feedback the
   * filter is the plain difference x[t] - x[t - delay].
   */
  function Output(alpha: real, delay: nat, raw: seq<seq<real>>, filt: seq<seq<real>>,
                  data: seq<seq<real>>, t: nat, c: nat): (r: real)
    requires |raw| == delay && |filt| == delay
    requires t < |data| && c < |data[t]|
    requires forall k :: 0 <= k < delay ==> c < |raw[k]| && c < |filt[k]|
    requires forall k :: 0 <= k < |data| ==> c < |data[k]|
    ensures alpha == 0.0 && 0 < delay ==> r == data[t][c] - (if t < delay then raw[t][c] else data[t - delay][c])
    decreases t
  {
    if delay == 0 then data[t][c] - data[t][c] + alpha * 0.0
    else if t < delay then data[t][c] - raw[t][c] + alpha * filt[t][c]
    else data[t][c] - data[t - delay][c] + alpha * Output(alpha, delay, raw, filt, data, t - delay, c)
  }

  /** A constant input (a DC offset), after memories of that constant and a silent output, is cancelled. */
  lemma {:induction false} ConstantCancelled(alpha: real, delay: nat, raw: seq<seq<real>>, filt: seq<seq<real>>,
                                             data: seq<seq<real>>, t: nat, c: nat)
    requires |raw| == delay && |filt| == delay
    requires t < |data| && c < |data[t]|
    requires forall k :: 0 <= k < delay ==> c < |raw[k]| && c < |filt[k]|
    requires forall k :: 0 <= k < |data| ==> c < |data[k]|
    requires forall k :: 0 <= k <= t ==> data[k][c] == data[0][c]
    requires forall k :: 0 <= k < delay ==> raw[k][c] == data[0][c] && filt[k][c] == 0.0
    ensures Output(alpha, delay, raw, filt, data, t, c) == 0.0
    decreases t
  {
    if 0 < delay <= t {
      ConstantCancelled(alpha, delay, raw, filt, data, t - delay, c);
    }
  }

  /** Valid memories and input: `delay` memory rows, every row with `channels` entries. */
  ghost predicate Fits(delay: nat, channels: nat, raw: seq<seq<real>>, filt: seq<seq<real>>,
                       data: seq<seq<real>>)
  {
    Shaped(raw, delay, channels) && Shaped(filt, delay, channels)
    && Shaped(data, |data|, channels)
  }

  /** All output rows of one call. */
  function Run(alpha: real, delay: nat, channels: nat, raw: seq<seq<real>>, filt: seq<seq<real>>,
               data: seq<seq<real>>): (out: seq<seq<real>>)
    requires Fits(delay, channels, raw, filt, data)
    ensures Shaped(out, |data|, channels)
  {
    seq(|data|, t requires 0 <= t < |data| =>
      seq(channels, c requires 0 <= c < channels => Output(alpha, delay, raw, filt, data, t, c)))
  }

  /** Rows computed from the first part of the input do not depend on what follows it. */
  lemma {:induction false} OutputPrefix(alpha: real, delay: nat, channels: nat, raw: seq<seq<real>>,
                                        filt: seq<seq<real>>, A: seq<seq<real>>, B: seq<seq<real>>,
                                        t: nat, c: nat)
    requires Fits(delay, channels, raw, filt, A) && Fits(delay, channels, raw, filt, B)
    requires t < |A| && c < channels
    ensures Fits(delay, channels, raw, filt, A + B)
    ensures Output(alpha, delay, raw, filt, A + B, t, c) == Output(alpha, delay, raw, filt, A, t, c)
    decreases t
  {
    if 0 < delay <= t {
      OutputPrefix(alpha, delay, channels, raw, filt, A, B, t - delay, c);
    }
  }

  /**
   * Streaming continuity: filtering A and then B, with the memories A leaves behind, gives the
   * same rows as filtering A ++ B in one call (A must have at least `delay` rows).
   */
  lemma {:induction false} OutputShift(alpha: real, delay: nat, channels: nat, raw: seq<seq<real>>,
                                       filt: seq<seq<real>>, A: seq<seq<real>>, B: seq<seq<real>>,
                                       t: nat, c: nat)
    requires Fits(delay, channels, raw, filt, A) && Fits(delay, channels, raw, filt, B)
    requires delay <= |A| && t < |B| && c < channels
    ensures Fits(delay, channels, raw, filt, A + B)
    ensures Fits(delay, channels, A[|A| - delay..], Run(alpha, delay, channels, raw, filt, A)[|A| - delay..], B)
    ensures Output(alpha, delay, raw, filt, A + B, |A| + t, c)
         == Output(alpha, delay, A[|A| - delay..], Run(alpha, delay, channels, raw, filt, A)[|A| - delay..], B, t, c)
    decreases t
  {
    var outA := Run(alpha, delay, channels, raw, filt, A);
    var rawB, filtB := A[|A| - delay..], outA[|A| - delay..];
    assert (A + B)[|A| + t] == B[t];
    if delay == 0 {
    } else if t < delay {
      var k := |A| - delay + t;
      OutputPrefix(alpha, delay, channels, raw, filt, A, B, k, c);
      assert (A + B)[k] == A[k] == rawB[t];
      assert filtB[t][c] == Output(alpha, delay, raw, filt, A, k, c);
    } else {
      OutputShift(alpha, delay, channels, raw, filt, A, B, t - delay, c);
      assert (A + B)[|A| + t - delay] == B[t - delay];
    }
  }

  lemma Continuity(alpha: real, delay: nat, channels: nat, raw: seq<seq<real>>, filt: seq<seq<real>>,
                   A: seq<seq<real>>, B: seq<seq<real>>)
    requires Fits(delay, channels, raw, filt, A) && Fits(delay, channels, raw, filt, B)
    requires delay <= |A|
    ensures Fits(delay, channels, raw, filt, A + B)
    ensures Fits(delay, channels, A[|A| - delay..], Run(alpha, delay, channels, raw, filt, A)[|A| - delay..], B)
    ensures Run(alpha, delay, channels, raw, filt, A + B)
         == Run(alpha, delay, channels, raw, filt, A)
          + Run(alpha, delay, channels, A[|A| - delay..], Run(alpha, delay, channels, raw, filt, A)[|A| - delay..], B)
  {
    var outA := Run(alpha, delay, channels, raw, filt, A);
    var whole := Run(alpha, delay, channels, raw, filt, A + B);
    var outB := Run(alpha, delay, channels, A[|A| - delay..], outA[|A| - delay..], B);
    forall t | 0 <= t < |A| + |B| ensures whole[t] == (outA + outB)[t] {
      if t < |A| {
        forall c | 0 <= c < channels ensures whole[t][c] == outA[t][c] {
          OutputPrefix(alpha, delay, channels, raw, filt, A, B, t, c);
        }
      } else {
        forall c | 0 <= c < channels ensures whole[t][c] == outB[t - |A|][c] {
          OutputShift(alpha, delay, channels, raw, filt, A, B, t - |A|, c);
        }
      }
    }
  }

  /** Math.Round(samplingFreq / filterFreq) once the sampling check has passed is at least 2. */
  lemma DelayAtLeastTwo(samplingFreq: real, filterFreq: real)
    requires 0.0 < filterFreq && 2.0 * filterFreq < samplingFreq
    ensures 2 <= RoundHalfEven(samplingFreq / filterFreq)
  {
    var q := samplingFreq / filterFreq;
    assert q * filterFreq == samplingFreq;
    assert 2.0 < q;
  }

  /**
   * The inputs on which the constructor passes its check and then fails: a hum frequency of 0
   * makes the quotient infinite, and its cast to int is not defined; a negative hum frequency
   * can make the rounded quotient negative, and no array of negative size can be allocated.
   */
  predicate AllocationFails(samplingFreq: real, filterFreq: real)
  {
    2.0 * filterFreq < samplingFreq && (filterFreq == 0.0 || RoundHalfEven(samplingFreq / filterFreq) < 0)
  }

  /**
   * A negative hum frequency passes the check for every sampling frequency above twice it, and
   * the delay is then at most 2; a delay of 0, 1 or 2 builds a working filter.
   */
  lemma NegativeHumDelay(samplingFreq: real, filterFreq: real)
    requires filterFreq < 0.0 && 2.0 * filterFreq < samplingFreq
    ensures RoundHalfEven(samplingFreq / filterFreq) <= 2
  {
    var q := samplingFreq / filterFreq;
    assert q * filterFreq == samplingFreq;
    assert q < 2.0;
  }

  /** A filter with no delay silences its input: every output row is zero. */
  lemma ZeroDelaySilences(alpha: real, channels: nat, data: seq<seq<real>>)
    requires Shaped(data, |data|, channels)
    ensures Run(alpha, 0, channels, [], [], data) == ZeroRows(|data|, channels)
  {
    var out := Run(alpha, 0, channels, [], [], data);
    forall t | 0 <= t < |data| ensures out[t] == ZeroRows(|data|, channels)[t] {
    }
  }

  /** Sampling and hum frequency both -1 give a filter with a delay of 1. */
  lemma NegativeHumFilter()
    ensures !AllocationFails(-1.0, -1.0) && RoundHalfEven(-1.0 / -1.0) == 1
  {
  }

  /** The default filter (200 Hz sampling, 50 Hz hum) delays by four samples. */
  lemma DefaultDelay()
    ensures RoundHalfEven(200.0 / 50.0) == 4
  {
  }

  class Filter {
    const samplingFreq: real
    const filterFreq: real
    const delay: nat
    const alpha: real
    const numChannels: nat
    var rawMemory: array2<real>
    var filteredMemory: array2<real>

    ghost predicate Valid()
      reads this
    {
      && rawMemory.Length0 == delay && rawMemory.Length1 == numChannels
      && filteredMemory.Length0 == delay && filteredMemory.Length1 == numChannels
      && rawMemory != filteredMemory
    }

    /** The constructor once its sampling-theorem check has passed. */
    constructor (samplingFreq: real, filterFreq: real, alpha: real, numChannels: nat)
      requires 2.0 * filterFreq < samplingFreq && !AllocationFails(samplingFreq, filterFreq)
      ensures Valid() && fresh(rawMemory) && fresh(filteredMemory)
      ensures this.samplingFreq == samplingFreq && this.filterFreq == filterFreq
      ensures this.alpha == alpha && this.numChannels == numChannels
      ensures delay == RoundHalfEven(samplingFreq / filterFreq)
      ensures 0.0 < filterFreq ==> 2 <= delay
      ensures Rows(rawMemory) == ZeroRows(delay, numChannels)
      ensures Rows(filteredMemory) == ZeroRows(delay, numChannels)
    {
      if 0.0 < filterFreq {
        DelayAtLeastTwo(samplingFreq, filterFreq);
      }
      var d := RoundHalfEven(samplingFreq / filterFreq);
      this.alpha := alpha;
      this.samplingFreq := samplingFreq;
      this.filterFreq := filterFreq;
      this.numChannels := numChannels;
      delay := d;
      rawMemory := new real[d, numChannels]((t, c) => 0.0);
      filteredMemory := new real[d, numChannels]((t, c) => 0.0);
      new;
      RowsFromElements(rawMemory, ZeroRows(delay, numChannels));
      RowsFromElements(filteredMemory, ZeroRows(delay, numChannels));
    }

    /**
     * `CombFilter(samplingFreq, filterFreq, alpha, numChannels)`: throws unless the hum frequency
     * is below half the sampling frequency; a positive hum frequency then delays by at least 2.
     */
    static method Create(samplingFreq: real, filterFreq: real, alpha: real, numChannels: nat)
      returns (r: Result<Filter>)
      requires !AllocationFails(samplingFreq, filterFreq)
      ensures r.Err? <==> samplingFreq <= 2.0 * filterFreq
      ensures r.Err? ==> r.error == SamplingTheorem
      ensures r.Ok? ==> && fresh(r.value) && fresh(r.value.rawMemory) && fresh(r.value.filteredMemory)
                        && r.value.Valid() && (0.0 < filterFreq ==> 2 <= r.value.delay)
                        && r.value.delay == RoundHalfEven(samplingFreq / filterFreq)
                        && r.value.alpha == alpha && r.value.numChannels == numChannels
                        && Rows(r.value.rawMemory) == ZeroRows(r.value.delay, numChannels)
                        && Rows(r.value.filteredMemory) == ZeroRows(r.value.delay, numChannels)
    {
      if samplingFreq <= 2.0 * filterFreq {
        return Err(SamplingTheorem);
      }
      var f := new Filter(samplingFreq, filterFreq, alpha, numChannels);
      return Ok(f);
    }

    /** `CombFilter(samplingFreq, filterFreq)`: damping 0.75 on eight channels. */
    static method CreateDefault(samplingFreq: real, filterFreq: real) returns (r: Result<Filter>)
      requires !AllocationFails(samplingFreq, filterFreq)
      ensures r.Err? <==> samplingFreq <= 2.0 * filterFreq
      ensures r.Ok? ==> && fresh(r.value) && r.value.Valid() && r.value.alpha == 0.75
                        && r.value.numChannels == 8
                        && r.value.delay == RoundHalfEven(samplingFreq / filterFreq)
    {
      r := Create(samplingFreq, filterFreq, 0.75, 8);
    }

    /**
     * `filter(double[,] data)`: a fresh output array of the input's shape; afterwards the memories
     * hold the last `delay` input and output rows. The loops read `delay` rows of the input and
     * `numChannels` columns of the memories, so fewer rows or a different channel count crashes.
     */
    method Apply(data: array2<real>) returns (filtered: array2<real>)
      requires Valid()
      requires data.Length0 >= delay && data.Length1 == numChannels
      requires data != rawMemory && data != filteredMemory
      modifies rawMemory, filteredMemory
      ensures Valid() && fresh(filtered)
      ensures Rows(data) == old(Rows(data))
      ensures Fits(delay, numChannels, old(Rows(rawMemory)), old(Rows(filteredMemory)), Rows(data))
      ensures Rows(filtered)
           == Run(alpha, delay, numChannels, old(Rows(rawMemory)), old(Rows(filteredMemory)), Rows(data))
      ensures Rows(rawMemory) == Rows(data)[data.Length0 - delay..]
      ensures Rows(filteredMemory) == Rows(filtered)[data.Length0 - delay..]
    {
      ghost var goal := Run(alpha, delay, numChannels, Rows(rawMemory), Rows(filteredMemory), Rows(data));
      filtered := new real[data.Length0, data.Length1]((t, c) => 0.0);
      FillFromMemory(data, filtered, goal);
      FillRecurrent(data, filtered, goal);
      RowsFromElements(filtered, goal);
      SaveMemories(data, filtered);
    }

    /** The first loop of `filter`: rows before the delay, from the memories. */
    method FillFromMemory(data: array2<real>, filtered: array2<real>, ghost goal: seq<seq<real>>)
      requires Valid()
      requires data.Length0 >= delay && data.Length1 == numChannels
      requires filtered.Length0 == data.Length0 && filtered.Length1 == numChannels
      requires filtered != rawMemory && filtered != filteredMemory && filtered != data
      requires Fits(delay, numChannels, Rows(rawMemory), Rows(filteredMemory), Rows(data))
      requires goal == Run(alpha, delay, numChannels, Rows(rawMemory), Rows(filteredMemory), Rows(data))
      modifies filtered
      ensures forall i, c :: 0 <= i < delay && 0 <= c < numChannels ==> filtered[i, c] == goal[i][c]
      ensures forall i, c :: delay <= i < filtered.Length0 && 0 <= c < numChannels ==> filtered[i, c] == old(filtered[i, c])
    {
      var t := 0;
      while t < delay
        invariant 0 <= t <= delay
        invariant forall i, c :: 0 <= i < t && 0 <= c < numChannels ==> filtered[i, c] == goal[i][c]
        invariant forall i, c :: t <= i < filtered.Length0 && 0 <= c < numChannels ==> filtered[i, c] == old(filtered[i, c])
      {
        FillFromMemoryRow(data, filtered, goal, t);
        t := t + 1;
      }
    }

    /** One row t < delay of the first loop. */
    method FillFromMemoryRow(data: array2<real>, filtered: array2<real>, ghost goal: seq<seq<real>>, t: nat)
      requires Valid()
      requires t < delay <= data.Length0 && data.Length1 == numChannels
      requires filtered.Length0 == data.Length0 && filtered.Length1 == numChannels
      requires filtered != rawMemory && filtered != filteredMemory && filtered != data
      requires Fits(delay, numChannels, Rows(rawMemory), Rows(filteredMemory), Rows(data))
      requires goal == Run(alpha, delay, numChannels, Rows(rawMemory), Rows(filteredMemory), Rows(data))
      modifies filtered
      ensures forall c :: 0 <= c < numChannels ==> filtered[t, c] == goal[t][c]
      ensures forall i, c :: 0 <= i < filtered.Length0 && i != t && 0 <= c < numChannels ==> filtered[i, c] == old(filtered[i, c])
    {
      var c := 0;
      while c < numChannels
        invariant 0 <= c <= numChannels
        invariant forall k :: 0 <= k < c ==> filtered[t, k] == goal[t][k]
        invariant forall i, k :: 0 <= i < filtered.Length0 && i != t && 0 <= k < numChannels ==> filtered[i, k] == old(filtered[i, k])
      {
        assert goal[t][c] == Output(alpha, delay, Rows(rawMemory), Rows(filteredMemory), Rows(data), t, c);
        filtered[t, c] := data[t, c] - rawMemory[t, c] + alpha * filteredMemory[t, c];
        c := c + 1;
      }
    }

    /** The second loop of `filter`: later rows, from earlier input and output rows of this call. */
    method FillRecurrent(data: array2<real>, filtered: array2<real>, ghost goal: seq<seq<real>>)
      requires Valid()
      requires data.Length0 >= delay && data.Length1 == numChannels
      requires filtered.Length0 == data.Length0 && filtered.Length1 == numChannels
      requires filtered != rawMemory && filtered != filteredMemory && filtered != data
      requires Fits(delay, numChannels, Rows(rawMemory), Rows(filteredMemory), Rows(data))
      requires goal == Run(alpha, delay, numChannels, Rows(rawMemory), Rows(filteredMemory), Rows(data))
      requires forall i, c :: 0 <= i < delay && 0 <= c < numChannels ==> filtered[i, c] == goal[i][c]
      requires forall i, c :: delay <= i < filtered.Length0 && 0 <= c < numChannels ==> filtered[i, c] == 0.0
      modifies filtered
      ensures forall i, c :: 0 <= i < data.Length0 && 0 <= c < numChannels ==> filtered[i, c] == goal[i][c]
    {
      var t := delay;
      while t < data.Length0
        invariant delay <= t <= data.Length0
        invariant forall i, c :: 0 <= i < t && 0 <= c < numChannels ==> filtered[i, c] == goal[i][c]
        invariant forall i, c :: t <= i < filtered.Length0 && 0 <= c < numChannels ==> filtered[i, c] == 0.0
      {
        FillRecurrentRow(data, filtered, goal, t);
        t := t + 1;
      }
    }

    /** One row t >= delay of the second loop; the cells it reads are already final, or still zero. */
    method FillRecurrentRow(data: array2<real>, filtered: array2<real>, ghost goal: seq<seq<real>>, t: nat)
      requires Valid()
      requires delay <= t < data.Length0 && data.Length1 == numChannels
      requires filtered.Length0 == data.Length0 && filtered.Length1 == numChannels
      requires filtered != rawMemory && filtered != filteredMemory && filtered != data
      requires Fits(delay, numChannels, Rows(rawMemory), Rows(filteredMemory), Rows(data))
      requires goal == Run(alpha, delay, numChannels, Rows(rawMemory), Rows(filteredMemory), Rows(data))
      requires forall i, c :: 0 <= i < t && 0 <= c < numChannels ==> filtered[i, c] == goal[i][c]
      requires forall c :: 0 <= c < numChannels ==> filtered[t, c] == 0.0
      modifies filtered
      ensures forall c :: 0 <= c < numChannels ==> filtered[t, c] == goal[t][c]
      ensures forall i, c :: 0 <= i < filtered.Length0 && i != t && 0 <= c < numChannels ==> filtered[i, c] == old(filtered[i, c])
    {
      var c := 0;
      while c < numChannels
        invariant 0 <= c <= numChannels
        invariant forall k :: 0 <= k < c ==> filtered[t, k] == goal[t][k]
        invariant forall k :: c <= k < numChannels ==> filtered[t, k] == 0.0
        invariant forall i, k :: 0 <= i < filtered.Length0 && i != t && 0 <= k < numChannels ==> filtered[i, k] == old(filtered[i, k])
      {
        assert goal[t][c] == Output(alpha, delay, Rows(rawMemory), Rows(filteredMemory), Rows(data), t, c);
        filtered[t, c] := data[t, c] - data[t - delay, c] + alpha * filtered[t - delay, c];
        c := c + 1;
      }
    }

    /** The third loop of `filter`: the last `delay` input and output rows become the memories. */
    method SaveMemories(data: array2<real>, filtered: array2<real>)
      requires Valid()
      requires data.Length0 >= delay && data.Length1 == numChannels
      requires filtered.Length0 == data.Length0 && filtered.Length1 == numChannels
      requires data != rawMemory && data != filteredMemory
      requires filtered != rawMemory && filtered != filteredMemory
      modifies rawMemory, filteredMemory
      ensures Rows(rawMemory) == Rows(data)[data.Length0 - delay..]
      ensures Rows(filteredMemory) == Rows(filtered)[data.Length0 - delay..]
    {
      var rows := data.Length0;
      var t := 0;
      while t < delay
        invariant 0 <= t <= delay
        invariant forall i, c :: 0 <= i < t && 0 <= c < numChannels ==>
                    rawMemory[i, c] == data[rows - delay + i, c] && filteredMemory[i, c] == filtered[rows - delay + i, c]
      {
        var c := 0;
        while c < numChannels
          invariant 0 <= c <= numChannels
          invariant forall i, k :: 0 <= i < t && 0 <= k < numChannels ==>
                      rawMemory[i, k] == data[rows - delay + i, k] && filteredMemory[i, k] == filtered[rows - delay + i, k]
          invariant forall k :: 0 <= k < c ==>
                      rawMemory[t, k] == data[rows - delay + t, k] && filteredMemory[t, k] == filtered[rows - delay + t, k]
        {
          rawMemory[t, c] := data[rows - delay + t, c];
          filteredMemory[t, c] := filtered[rows - delay + t, c];
          c := c + 1;
        }
        t := t + 1;
      }
      RowsFromElements(rawMemory, Rows(data)[rows - delay..]);
      RowsFromElements(filteredMemory, Rows(filtered)[rows - delay..]);
    }

    /** `reset()`: both memories back to zeros, as after construction. */
    method Reset()
      requires Valid()
      modifies rawMemory, filteredMemory
      ensures Valid()
      ensures Rows(rawMemory) == ZeroRows(delay, numChannels)
      ensures Rows(filteredMemory) == ZeroRows(delay, numChannels)
    {
      var t := 0;
      while t < delay
        invariant 0 <= t <= delay
        invariant forall i, c :: 0 <= i < t && 0 <= c < numChannels ==>
                    rawMemory[i, c] == 0.0 && filteredMemory[i, c] == 0.0
      {
        var c := 0;
        while c < numChannels
          invariant 0 <= c <= numChannels
          invariant forall i, k :: 0 <= i < t && 0 <= k < numChannels ==>
                      rawMemory[i, k] == 0.0 && filteredMemory[i, k] == 0.0
          invariant forall k :: 0 <= k < c ==> rawMemory[t, k] == 0.0 && filteredMemory[t, k] == 0.0
        {
          rawMemory[t, c] := 0.0;
          filteredMemory[t, c] := 0.0;
          c := c + 1;
        }
        t := t + 1;
      }
      RowsFromElements(rawMemory, ZeroRows(delay, numChannels));
      RowsFromElements(filteredMemory, ZeroRows(delay, numChannels));
    }
  }
}
