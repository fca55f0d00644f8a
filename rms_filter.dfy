/**
 * The ring buffer of EMG magnitudes the threshold controllers read (class Filter): `push`
 * overwrites the oldest slot, `get` reports the spread of the slots, their population standard
 * deviation (not a root mean square, despite the file's name).
 */
module RmsFilter {
  import opened Numerics

  /**
   * The value slot j holds after the pushes `pushed` into `size` slots: the latest value pushed
   * at an index congruent to j modulo size, or 0 when there is none.
   */
  function Slot(pushed: seq<real>, j: nat, size: nat): real
    requires 0 < size
    decreases |pushed|
  {
    if |pushed| == 0 then 0.0
    else if (|pushed| - 1) % size == j then pushed[|pushed| - 1]
    else Slot(pushed[..|pushed| - 1], j, size)
  }

  /** Slot j is 0 when no push landed on it, and otherwise the value of the latest push that did. */
  lemma {:induction false} SlotIsLatest(pushed: seq<real>, j: nat, size: nat)
    requires 0 < size
    ensures (forall i :: 0 <= i < |pushed| ==> i % size != j) ==> Slot(pushed, j, size) == 0.0
    ensures forall i :: 0 <= i < |pushed| && i % size == j && LastAt(pushed, i, j, size) ==> Slot(pushed, j, size) == pushed[i]
    decreases |pushed|
  {
    if |pushed| > 0 {
      var n := |pushed| - 1;
      var p := pushed[..n];
      SlotIsLatest(p, j, size);
      if n % size != j {
        forall i | 0 <= i < n && i % size == j && LastAt(pushed, i, j, size) ensures LastAt(p, i, j, size) {
        }
        forall i | 0 <= i < |pushed| && i % size == j ensures i < n {
        }
      } else {
        forall i | 0 <= i < |pushed| && i % size == j && LastAt(pushed, i, j, size) ensures i == n {
        }
      }
    }
  }

  /** No push after index i landed on slot j. */
  predicate LastAt(pushed: seq<real>, i: nat, j: nat, size: nat)
    requires 0 < size
  {
    forall i' :: i < i' < |pushed| ==> i' % size != j
  }

  /** The mean of all slots, unwritten zeros included; not finite for a filter of size 0. */
  function Mean(b: seq<real>): (r: Double)
    ensures r.Finite? <==> 0 < |b|
    ensures r.Finite? ==> r.value * |b| as real == Sum(b)
  {
    if |b| == 0 then NonFinite else Finite(Sum(b) / |b| as real)
  }

  /** The population variance of the slots. */
  function Variance(b: seq<real>): (r: real)
    requires 0 < |b|
    ensures 0.0 <= r
  {
    DeviationsNonnegative(b, Sum(b) / |b| as real);
    Sum(SquaredDeviations(b, Sum(b) / |b| as real)) / |b| as real
  }

  /** What `get` returns: the square root of the variance; not finite for a filter of size 0. */
  function Deviation(sqrt: SqrtFn, b: seq<real>): (r: Double)
    ensures r.Finite? <==> 0 < |b|
    ensures r.Finite? ==> 0.0 <= r.value
    ensures 0 < |b| && (forall i :: 0 <= i < |b| ==> b[i] == b[0]) ==> r == Finite(sqrt(0.0))
  {
    if |b| == 0 then NonFinite
    else
      VarianceNonnegative(b);
      Finite(sqrt(Variance(b)))
  }

  /** The variance is never negative, and a constant buffer has none. */
  lemma VarianceNonnegative(b: seq<real>)
    requires 0 < |b|
    ensures 0.0 <= Variance(b)
    ensures (forall i :: 0 <= i < |b| ==> b[i] == b[0]) ==> Variance(b) == 0.0
  {
    var m := Sum(b) / |b| as real;
    var s := SquaredDeviations(b, m);
    assert Variance(b) == Sum(s) / |b| as real;
    DeviationsNonnegative(b, m);
    QuotientNonnegative(Sum(s), |b| as real);
    if forall i :: 0 <= i < |b| ==> b[i] == b[0] {
      ConstantHasNoDeviation(b);
    }
  }

  /** Squared deviations from any centre add up to a nonnegative sum. */
  lemma DeviationsNonnegative(b: seq<real>, m: real)
    ensures 0.0 <= Sum(SquaredDeviations(b, m))
  {
    var s := SquaredDeviations(b, m);
    forall i | 0 <= i < |s| ensures 0.0 <= s[i] {
      DeviationAt(b, m, i, b[i] - m);
      SquareNonnegative(b[i] - m);
    }
    SumNonnegative(s);
  }

  /** A constant buffer is its own mean, so it deviates from it nowhere. */
  lemma ConstantHasNoDeviation(b: seq<real>)
    requires 0 < |b| && forall i :: 0 <= i < |b| ==> b[i] == b[0]
    ensures Sum(SquaredDeviations(b, Sum(b) / |b| as real)) == 0.0
  {
    var m := Sum(b) / |b| as real;
    var s := SquaredDeviations(b, m);
    SumConstant(b, b[0]);
    MeanOfConstant(Sum(b), |b| as real, b[0]);
    forall i | 0 <= i < |s| ensures s[i] == 0.0 {
      DeviationAt(b, m, i, 0.0);
    }
    SumOfZeros(s);
  }

  lemma QuotientNonnegative(a: real, n: real)
    requires 0.0 <= a && 0.0 < n
    ensures 0.0 <= a / n
  {
  }

  lemma MeanOfConstant(sum: real, n: real, a: real)
    requires 0.0 < n && sum == n * a
    ensures sum / n == a
  {
  }

  /**
   * Mean and deviation do not depend on where the ring starts: reading the slots from any
   * position k on, wrapping around, gives the same values.
   */
  lemma RotationInvariant(sqrt: SqrtFn, b: seq<real>, k: nat)
    requires k <= |b|
    ensures Mean(b[k..] + b[..k]) == Mean(b)
    ensures Deviation(sqrt, b[k..] + b[..k]) == Deviation(sqrt, b)
  {
    var r := b[k..] + b[..k];
    assert b[..k] + b[k..] == b;
    SwapHalves(b[..k], b[k..]);
    assert |r| == |b| && Sum(r) == Sum(b);
    if 0 < |b| {
      assert Variance(r) == Variance(b);
    }
  }

  /** Exchanging the two halves of the slots changes neither their sum nor their spread. */
  lemma SwapHalves(x: seq<real>, y: seq<real>)
    ensures Sum(y + x) == Sum(x + y)
    ensures 0 < |x + y| ==> Variance(y + x) == Variance(x + y)
  {
    SumConcat(y, x);
    SumConcat(x, y);
    if 0 < |x + y| {
      var m := Sum(x + y) / |x + y| as real;
      DeviationsConcat(y, x, m);
      DeviationsConcat(x, y, m);
      SumConcat(SquaredDeviations(y, m), SquaredDeviations(x, m));
      SumConcat(SquaredDeviations(x, m), SquaredDeviations(y, m));
    }
  }

  lemma DeviationsConcat(x: seq<real>, y: seq<real>, m: real)
    ensures SquaredDeviations(x + y, m) == SquaredDeviations(x, m) + SquaredDeviations(y, m)
  {
    var l, r := SquaredDeviations(x + y, m), SquaredDeviations(x, m) + SquaredDeviations(y, m);
    forall i | 0 <= i < |l| ensures l[i] == r[i] {
      var d := (x + y)[i] - m;
      DeviationAt(x + y, m, i, d);
      if i < |x| {
        DeviationAt(x, m, i, d);
      } else {
        DeviationAt(y, m, i - |x|, d);
      }
    }
  }

  class Filter {
    var buffer: array<real>
    var last: nat
    /** Every value pushed so far, oldest first. */
    ghost var pushed: seq<real>

    /** `last` is the next slot to overwrite, and every slot holds its latest value. */
    ghost predicate Valid()
      reads this, buffer
    {
      && (buffer.Length == 0 ==> last == 0 && pushed == [])
      && (0 < buffer.Length ==> last == |pushed| % buffer.Length)
      && (0 < buffer.Length ==> forall j :: 0 <= j < buffer.Length ==> buffer[j] == Slot(pushed, j, buffer.Length))
    }

    /** `Filter(size)`: size zero slots, next slot 0. */
    constructor (size: nat)
      ensures Valid() && fresh(buffer) && buffer.Length == size && pushed == []
      ensures buffer[..] == Zeros(size) && last == 0
    {
      buffer := new real[size](i => 0.0);
      last := 0;
      pushed := [];
    }

    /** `push(value)`: only slot `last` changes; a filter of size 0 has no slot to write. */
    method Push(value: real)
      requires Valid() && 0 < buffer.Length
      modifies this, buffer
      ensures Valid() && buffer == old(buffer)
      ensures pushed == old(pushed) + [value]
      ensures buffer[..] == old(buffer[..])[old(last) := value]
      ensures last == (old(last) + 1) % buffer.Length
    {
      buffer[last] := value;
      last := last + 1;
      last := last % buffer.Length;
      pushed := pushed + [value];
      NextSlot(|old(pushed)|, buffer.Length);
      forall j | 0 <= j < buffer.Length ensures buffer[j] == Slot(pushed, j, buffer.Length) {
        SlotAfterPush(old(pushed), value, j, buffer.Length);
      }
    }

    /** The private `mean()`: the sum of all slots over their count. */
    method MeanLoop() returns (m: Double)
      ensures m == Mean(buffer[..])
    {
      var res := 0.0;
      var i := 0;
      while i < buffer.Length
        invariant 0 <= i <= buffer.Length
        invariant res == Sum(buffer[..i])
      {
        SumPrefixStep(buffer[..], i);
        assert buffer[..i + 1] == buffer[..][..i + 1] && buffer[..i] == buffer[..][..i];
        res := res + buffer[i];
        i := i + 1;
      }
      assert buffer[..i] == buffer[..];
      if buffer.Length == 0 {
        return NonFinite;
      }
      return Finite(res / buffer.Length as real);
    }

    /** `get()`: the population standard deviation of the slots, never negative. */
    method Get(sqrt: SqrtFn) returns (g: Double)
      ensures g == Deviation(sqrt, buffer[..])
      ensures g.Finite? ==> 0.0 <= g.value
    {
      var mean := MeanLoop();
      if mean.NonFinite? {
        return NonFinite;
      }
      ghost var b := buffer[..];
      ghost var sq := SquaredDeviations(b, mean.value);
      var x := 0.0;
      var i := 0;
      while i < buffer.Length
        invariant 0 <= i <= buffer.Length
        invariant x == Sum(sq[..i])
      {
        SumPrefixStep(sq, i);
        var diff := buffer[i] - mean.value;
        DeviationAt(b, mean.value, i, diff);
        x := x + diff * diff;
        i := i + 1;
      }
      assert sq[..i] == sq;
      assert x / buffer.Length as real == Variance(b);
      g := Finite(sqrt(x / buffer.Length as real));
    }
  }

  /** Slot j after one more push: the pushed value on the slot the push landed on, unchanged elsewhere. */
  lemma SlotAfterPush(pushed: seq<real>, value: real, j: nat, size: nat)
    requires 0 < size
    ensures Slot(pushed + [value], j, size) == if j == |pushed| % size then value else Slot(pushed, j, size)
  {
    assert (pushed + [value])[..|pushed|] == pushed;
  }

  /** The write position advances by one, wrapping at the size. */
  lemma NextSlot(n: nat, size: nat)
    requires 0 < size
    ensures (n % size + 1) % size == (n + 1) % size
  {
    var q, r := n / size, n % size;
    if r + 1 < size {
      ModOf(n + 1, q, r + 1, size);
      ModOf(r + 1, 0, r + 1, size);
    } else {
      MulDistrib(q + 1, q, size);
      ModOf(n + 1, q + 1, 0, size);
      ModOf(r + 1, 1, 0, size);
    }
  }

  /** The remainder is the r of any decomposition a == q * size + r with 0 <= r < size. */
  lemma ModOf(a: int, q: int, r: int, size: int)
    requires 0 < size && 0 <= r < size && a == q * size + r
    ensures a % size == r
  {
    var q', r' := a / size, a % size;
    assert a == q' * size + r';
    MulDistrib(q, q', size);
    if q > q' {
      MulAtLeast(q - q', size);
    } else if q < q' {
      MulDistrib(q', q, size);
      MulAtLeast(q' - q, size);
    }
  }

  lemma MulAtLeast(k: int, size: int)
    requires 1 <= k && 0 < size
    ensures size <= k * size
  {
  }

  lemma MulDistrib(q: int, q': int, size: int)
    ensures q * size - q' * size == (q - q') * size
  {
  }

  /** Before the ring wraps, the slots are the pushed values followed by the zeros nobody overwrote yet. */
  lemma BeforeWrap(pushed: seq<real>, size: nat)
    requires 0 < size && |pushed| <= size
    ensures seq(size, j requires 0 <= j < size => Slot(pushed, j, size)) == pushed + Zeros(size - |pushed|)
  {
    forall i | 0 <= i < |pushed| ensures i % size == i {
      ModOf(i, 0, i, size);
    }
    forall j | 0 <= j < size ensures Slot(pushed, j, size) == (pushed + Zeros(size - |pushed|))[j] {
      SlotIsLatest(pushed, j, size);
      if j < |pushed| {
        assert j % size == j && LastAt(pushed, j, j, size);
      }
    }
  }

  /** So until the ring is full the mean divides the sum of the pushed values by the size, not by their count. */
  lemma MeanCountsUnwrittenSlots(pushed: seq<real>, size: nat)
    requires 0 < size && |pushed| <= size
    ensures Mean(pushed + Zeros(size - |pushed|)) == Finite(Sum(pushed) / size as real)
  {
    var z := Zeros(size - |pushed|);
    var b := pushed + z;
    SumConcat(pushed, z);
    SumOfZeros(z);
    assert |b| == size;
    assert Sum(b) == Sum(pushed);
    assert Mean(b) == Finite(Sum(b) / |b| as real);
  }
}
