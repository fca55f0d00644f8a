/**
 * The sparse reservoir weight matrix (class WeightMatrix of ESN_v_002) in compressed row storage:
 * the caller's entries are sorted by (row, column), their values and column indices stored in that
 * order, and `rowPtr[r]` marks where row r starts. The matrix never changes after construction.
 */
module WeightMatrix {
  import opened Wrappers
  import opened Numerics

  /** `SparseEntry(i, j, val)`: row i, column j, value val. */
  datatype SparseEntry = SparseEntry(i: int, j: int, val: real)

  /** `compareTo(x, y)`: lexicographic order on (row, column); the value plays no part. */
  function CompareTo(x: SparseEntry, y: SparseEntry): (r: int)
    ensures r == -1 || r == 0 || r == 1
    ensures r < 0 <==> x.i < y.i || (x.i == y.i && x.j < y.j)
    ensures r == 0 <==> x.i == y.i && x.j == y.j
  {
    if x.i < y.i then -1
    else if x.i > y.i then 1
    else if x.j < y.j then -1
    else if x.j > y.j then 1
    else 0
  }

  /** The comparison is a total preorder, so a sort by it is well defined up to equal keys. */
  lemma CompareToOrder(x: SparseEntry, y: SparseEntry, z: SparseEntry)
    ensures CompareTo(x, y) == -CompareTo(y, x)
    ensures CompareTo(x, y) <= 0 || CompareTo(y, x) <= 0
    ensures CompareTo(x, y) <= 0 && CompareTo(y, z) <= 0 ==> CompareTo(x, z) <= 0
  {
  }

  ghost predicate Sorted(s: seq<SparseEntry>)
  {
    forall p, q {:trigger CompareTo(s[p], s[q])} :: 0 <= p < q < |s| ==> CompareTo(s[p], s[q]) <= 0
  }

  /** `entries.Sort(compareTo)`, as an insertion sort of the caller's list in place. */
  method Sort(a: array<SparseEntry>)
    modifies a
    ensures Sorted(a[..])
    ensures multiset(a[..]) == multiset(old(a[..]))
  {
    var n := 0;
    while n < a.Length
      invariant 0 <= n <= a.Length
      invariant Sorted(a[..n])
      invariant multiset(a[..]) == multiset(old(a[..]))
    {
      Insert(a, n);
      n := n + 1;
    }
    assert a[..a.Length] == a[..];
  }

  /** Moves a[n] down into the sorted prefix a[..n]. */
  method Insert(a: array<SparseEntry>, n: nat)
    requires n < a.Length && Sorted(a[..n])
    modifies a
    ensures Sorted(a[..n + 1])
    ensures multiset(a[..]) == multiset(old(a[..]))
  {
    var k := n;
    InsertStart(a[..], n);
    while 0 < k && CompareTo(a[k - 1], a[k]) > 0
      invariant 0 <= k <= n
      invariant multiset(a[..]) == multiset(old(a[..]))
      invariant Sinking(a[..], k, n)
    {
      SinkOnce(a, k, n);
      k := k - 1;
    }
    InsertDone(a[..], k, n);
  }

  /** One pass of the inner loop of the insertion: the sinking entry swaps places with the one before it. */
  method SinkOnce(a: array<SparseEntry>, k: nat, n: nat)
    requires 0 < k && Sinking(a[..], k, n) && CompareTo(a[k - 1], a[k]) > 0
    modifies a
    ensures Sinking(a[..], k - 1, n)
    ensures multiset(a[..]) == multiset(old(a[..]))
  {
    ghost var before := a[..];
    Swap(a, k - 1, k);
    SinkStep(before, a[..], k, n);
  }

  /**
   * The entries 0 .. n, with the one at k still sinking: the rest are in order, the sinking entry
   * lies below everything after it, and everything before it lies below everything after it.
   */
  ghost predicate Sinking(s: seq<SparseEntry>, k: nat, n: nat)
  {
    && k <= n < |s|
    && (forall p, q :: 0 <= p < q <= n && q != k && p != k ==> CompareTo(s[p], s[q]) <= 0)
    && (forall q :: k < q <= n ==> CompareTo(s[k], s[q]) < 0)
    && (forall p, q :: 0 <= p < k < q <= n ==> CompareTo(s[p], s[q]) <= 0)
  }

  lemma InsertStart(s: seq<SparseEntry>, n: nat)
    requires n < |s| && Sorted(s[..n])
    ensures Sinking(s, n, n)
  {
    assert forall p :: 0 <= p < n ==> s[..n][p] == s[p];
  }

  lemma SinkStep(s: seq<SparseEntry>, t: seq<SparseEntry>, k: nat, n: nat)
    requires 0 < k <= n < |s| && Sinking(s, k, n) && CompareTo(s[k - 1], s[k]) > 0
    requires t == s[k - 1 := s[k]][k := s[k - 1]]
    ensures Sinking(t, k - 1, n)
  {
    forall q | k - 1 < q <= n ensures CompareTo(t[k - 1], t[q]) < 0 {
      if q > k {
        CompareToOrder(s[k], s[k], s[q]);
      }
    }
  }

  lemma InsertDone(s: seq<SparseEntry>, k: nat, n: nat)
    requires k <= n < |s| && Sinking(s, k, n)
    requires k == 0 || CompareTo(s[k - 1], s[k]) <= 0
    ensures Sorted(s[..n + 1])
  {
    forall p, q | 0 <= p < q <= n ensures CompareTo(s[p], s[q]) <= 0 {
      if p == k {
      } else if q == k && p < k - 1 {
        CompareToOrder(s[p], s[k - 1], s[k]);
      }
    }
  }

  method Swap(a: array<SparseEntry>, p: nat, q: nat)
    requires p < q < a.Length
    modifies a
    ensures a[..] == old(a[..])[p := old(a[q])][q := old(a[p])]
    ensures multiset(a[..]) == multiset(old(a[..]))
  {
    a[p], a[q] := a[q], a[p];
  }

  // ---------------------------------------------------------------------------------------------
  // Compressed row storage

  /** The number of entries whose row lies below r. */
  function CountBelow(s: seq<SparseEntry>, r: int): (c: nat)
    ensures c <= |s|
  {
    if |s| == 0 then 0
    else CountBelow(s[..|s| - 1], r) + (if s[|s| - 1].i < r then 1 else 0)
  }

  /**
   * In a sorted list the entries of rows below r come first: positions before CountBelow(s, r)
   * hold exactly those entries.
   */
  lemma {:induction false} CountBelowSplits(s: seq<SparseEntry>, r: int, p: nat)
    requires Sorted(s) && p < |s|
    ensures p < CountBelow(s, r) <==> s[p].i < r
    decreases |s|
  {
    var n := |s| - 1;
    if p < n {
      SortedPrefix(s, n);
      CountBelowSplits(s[..n], r, p);
      if s[n].i < r {
        assert CompareTo(s[n - 1], s[n]) <= 0;
        CountBelowAll(s[..n], r);
      }
    } else if s[n].i < r {
      CountBelowAll(s, r);
    }
  }

  /** A prefix of a sorted list is sorted. */
  lemma SortedPrefix(s: seq<SparseEntry>, n: nat)
    requires Sorted(s) && n <= |s|
    ensures Sorted(s[..n])
  {
    forall p, q | 0 <= p < q < n ensures CompareTo(s[..n][p], s[..n][q]) <= 0 {
      assert s[..n][p] == s[p] && s[..n][q] == s[q];
    }
  }

  /** Every entry of a sorted list lies below r once the last one does. */
  lemma {:induction false} CountBelowAll(s: seq<SparseEntry>, r: int)
    requires Sorted(s) && (|s| == 0 || s[|s| - 1].i < r)
    ensures CountBelow(s, r) == |s|
    decreases |s|
  {
    if |s| > 0 {
      var n := |s| - 1;
      if n > 0 {
        assert CompareTo(s[n - 1], s[n]) <= 0;
      }
      CountBelowAll(s[..n], r);
    }
  }

  lemma CountBelowStep(s: seq<SparseEntry>, k: nat, r: int)
    requires k < |s|
    ensures CountBelow(s[..k + 1], r) == CountBelow(s[..k], r) + if s[k].i < r then 1 else 0
  {
    assert s[..k + 1][..k] == s[..k];
  }

  /** The row starts of a sorted list: row r starts after the entries of the rows below it. */
  function RowPtr(s: seq<SparseEntry>, M: int): (ptr: seq<int>)
    requires -1 <= M
    ensures |ptr| == M + 1
  {
    seq(M + 1, r => if r == 0 then 0 else CountBelow(s, r))
  }

  datatype Csr = Csr(values: seq<real>, colIdxs: seq<int>, rowPtr: seq<int>, M: int, N: int) {
    /** The storage invariant: row r is positions rowPtr[r] .. rowPtr[r + 1] - 1. */
    ghost predicate Valid()
    {
      && |values| == |colIdxs|
      && |rowPtr| == M + 1
      && (forall r :: 0 <= r < |rowPtr| ==> 0 <= rowPtr[r] <= |values|)
      && (forall r :: 0 <= r < M ==> rowPtr[r] <= rowPtr[r + 1])
    }

    /** `NumRows()` */
    function NumRows(): int { M }

    /** `NumColumns()` */
    function NumColumns(): int { N }

    /** The terms `values[k] * state[col_idxs[k]]` of row r, in storage order. */
    function RowTerms(x: seq<real>, r: nat): (t: seq<real>)
      requires Valid() && r < M && Reads(x)
      ensures |t| == rowPtr[r + 1] - rowPtr[r]
    {
      seq(rowPtr[r + 1] - rowPtr[r], k requires 0 <= k < rowPtr[r + 1] - rowPtr[r] => Term(x, rowPtr[r] + k))
    }

    /** The term of stored position p: `values[p] * x[col_idxs[p]]`. */
    function Term(x: seq<real>, p: int): real
      requires 0 <= p < |values| == |colIdxs| && 0 <= colIdxs[p] < |x|
    {
      values[p] * x[colIdxs[p]]
    }

    /** Every stored column of a row of the matrix indexes x. */
    ghost predicate Reads(x: seq<real>)
      requires Valid()
    {
      ColumnsBelow(|x|)
    }

    /** Every stored column of a row of the matrix lies in [0, n). */
    ghost predicate ColumnsBelow(n: int)
      requires Valid()
    {
      forall r, k :: 0 <= r < M && rowPtr[r] <= k < rowPtr[r + 1] ==> 0 <= colIdxs[k] < n
    }

    /** W x as `Apply` computes it: N entries, entry r the sum of row r's terms for r < M. */
    function Product(x: seq<real>): (y: seq<real>)
      requires Valid() && Reads(x) && 0 <= N
      ensures |y| == N
    {
      seq(N, r requires 0 <= r < N => if r < M then Sum(RowTerms(x, r)) else 0.0)
    }

    /**
     * `Apply(state)`: throws unless the state has N entries; otherwise returns a fresh vector of N
     * (not M) entries. For a state of N entries, a nonempty row at or past N, or a negative stored
     * column, crashes in the source and is excluded.
     */
    method Apply(state: seq<real>) returns (r: Result<seq<real>>)
      requires Valid()
      requires |state| == N ==> forall row :: 0 <= row < M && rowPtr[row] < rowPtr[row + 1] ==> row < N
      requires |state| == N ==> forall row, k :: 0 <= row < M && rowPtr[row] <= k < rowPtr[row + 1] ==> 0 <= colIdxs[k] < N
      ensures r.Ok? <==> |state| == N
      ensures r.Err? ==> r.error == DimensionMismatch
      ensures r.Ok? ==> Reads(state) && r.value == Product(state)
    {
      if |state| != N {
        return Err(DimensionMismatch);
      }
      var newState := new real[N](i => 0.0);
      var i := 0;
      while i < M
        invariant 0 <= i <= Max0(M)
        invariant forall row :: 0 <= row < N ==> newState[row] == if row < i then Sum(RowTerms(state, row)) else 0.0
      {
        AccumulateRow(state, i, newState);
        i := i + 1;
      }
      return Ok(newState[..]);
    }

    /** The inner loop of `Apply` for row i: `newState[i] += values[k] * state[col_idxs[k]]`. */
    method AccumulateRow(state: seq<real>, i: nat, newState: array<real>)
      requires Valid() && i < M && Reads(state)
      requires rowPtr[i] < rowPtr[i + 1] ==> i < newState.Length
      modifies newState
      ensures forall row :: 0 <= row < newState.Length ==>
                newState[row] == old(newState[row]) + if row == i then Sum(RowTerms(state, i)) else 0.0
    {
      ghost var terms := RowTerms(state, i);
      assert terms[..0] == [] && Sum(terms[..0]) == 0.0;
      var k := rowPtr[i];
      assert forall row :: 0 <= row < newState.Length ==> newState[row] == old(newState[row]);
      while k < rowPtr[i + 1]
        invariant rowPtr[i] <= k <= rowPtr[i + 1]
        invariant forall row :: 0 <= row < newState.Length ==>
                    newState[row] == old(newState[row]) + if row == i then Sum(terms[..k - rowPtr[i]]) else 0.0
      {
        SumPrefixStep(terms, k - rowPtr[i]);
        newState[i] := newState[i] + Term(state, k);
        k := k + 1;
      }
      assert terms[..rowPtr[i + 1] - rowPtr[i]] == terms;
    }

    /** `Apply` is linear: the product of a sum is the sum of the products. */
    lemma ProductAdditive(x: seq<real>, y: seq<real>)
      requires Valid() && Reads(x) && |x| == |y| && 0 <= N
      ensures Reads(y) && Reads(Add(x, y))
      ensures Product(Add(x, y)) == Add(Product(x), Product(y))
    {
      forall r | 0 <= r < N && r < M ensures Product(Add(x, y))[r] == Add(Product(x), Product(y))[r] {
        RowTermsAdditive(x, y, r);
        SumAdd(RowTerms(x, r), RowTerms(y, r));
      }
    }

    lemma RowTermsAdditive(x: seq<real>, y: seq<real>, r: nat)
      requires Valid() && Reads(x) && |x| == |y| && r < M
      ensures Reads(y) && Reads(Add(x, y))
      ensures RowTerms(Add(x, y), r) == Add(RowTerms(x, r), RowTerms(y, r))
    {
      forall k | 0 <= k < rowPtr[r + 1] - rowPtr[r]
        ensures RowTerms(Add(x, y), r)[k] == Add(RowTerms(x, r), RowTerms(y, r))[k]
      {
        var p := rowPtr[r] + k;
        assert 0 <= colIdxs[p] < |x|;
        TermAdditive(x, y, p);
      }
    }

    lemma TermAdditive(x: seq<real>, y: seq<real>, p: int)
      requires 0 <= p < |values| == |colIdxs| && 0 <= colIdxs[p] < |x| == |y|
      ensures Term(Add(x, y), p) == Term(x, p) + Term(y, p)
    {
      var c := colIdxs[p];
      Distribute(values[p], x[c], y[c]);
    }

    /** `Apply` is linear: scaling the state scales the product. */
    lemma ProductHomogeneous(a: real, x: seq<real>)
      requires Valid() && Reads(x) && 0 <= N
      ensures Reads(Scale(a, x))
      ensures Product(Scale(a, x)) == Scale(a, Product(x))
    {
      forall r | 0 <= r < N && r < M ensures Product(Scale(a, x))[r] == Scale(a, Product(x))[r] {
        RowTermsHomogeneous(a, x, r);
        SumScale(a, RowTerms(x, r));
      }
    }

    lemma RowTermsHomogeneous(a: real, x: seq<real>, r: nat)
      requires Valid() && Reads(x) && r < M
      ensures Reads(Scale(a, x))
      ensures RowTerms(Scale(a, x), r) == Scale(a, RowTerms(x, r))
    {
      forall k | 0 <= k < rowPtr[r + 1] - rowPtr[r] ensures RowTerms(Scale(a, x), r)[k] == Scale(a, RowTerms(x, r))[k] {
        var p := rowPtr[r] + k;
        assert 0 <= colIdxs[p] < |x|;
        TermHomogeneous(a, x, p);
      }
    }

    lemma TermHomogeneous(a: real, x: seq<real>, p: int)
      requires 0 <= p < |values| == |colIdxs| && 0 <= colIdxs[p] < |x|
      ensures Term(Scale(a, x), p) == a * Term(x, p)
    {
      Commute(values[p], a, x[colIdxs[p]]);
    }

    /** `Apply` maps the zero state to the zero vector. */
    lemma ProductOfZero(n: nat)
      requires Valid() && Reads(Zeros(n)) && 0 <= N
      ensures Product(Zeros(n)) == Zeros(N)
    {
      forall r | 0 <= r < N && r < M ensures Sum(RowTerms(Zeros(n), r)) == 0.0 {
        forall k | 0 <= k < rowPtr[r + 1] - rowPtr[r] ensures RowTerms(Zeros(n), r)[k] == 0.0 {
          var p := rowPtr[r] + k;
          assert 0 <= colIdxs[p] < n && Zeros(n)[colIdxs[p]] == 0.0;
          assert RowTerms(Zeros(n), r)[k] == Term(Zeros(n), p) == values[p] * 0.0;
        }
        SumOfZeros(RowTerms(Zeros(n), r));
      }
    }
  }

  function Max0(n: int): nat { if n < 0 then 0 else n }

  lemma Distribute(v: real, a: real, b: real)
    ensures v * (a + b) == v * a + v * b
  {
  }

  lemma Commute(v: real, a: real, b: real)
    ensures v * (a * b) == a * (v * b)
  {
  }

  /** The matrix the constructor builds from a sorted list that passed its checks. */
  function CsrOf(s: seq<SparseEntry>, M: int, N: int): Csr
    requires -1 <= M
  {
    Csr(seq(|s|, p requires 0 <= p < |s| => s[p].val),
        seq(|s|, p requires 0 <= p < |s| => s[p].j),
        RowPtr(s, M), M, N)
  }

  /**
   * `if(entry.i > i) { i++; for(; i <= entry.i; i++) row_ptr[i] = k; i--; }`: the rows after the
   * current one up to the entry's row start at position k.
   */
  method AdvanceRows(rowPtr: array<int>, i: int, row: int, k: int) returns (i': int)
    requires 0 <= i && row < rowPtr.Length
    modifies rowPtr
    ensures i' == if row > i then row else i
    ensures forall r :: 0 <= r < rowPtr.Length ==> rowPtr[r] == if i < r <= row then k else old(rowPtr[r])
  {
    i' := i;
    if row > i' {
      i' := i' + 1;
      while i' <= row
        invariant i + 1 <= i' <= row + 1
        invariant forall r :: 0 <= r < rowPtr.Length ==> rowPtr[r] == if i < r < i' then k else old(rowPtr[r])
      {
        rowPtr[i'] := k;
        i' := i' + 1;
      }
      i' := i' - 1;
    }
  }

  /** An entry the constructor accepts: only the upper bounds are checked. */
  predicate Fits(e: SparseEntry, M: int, N: int)
  {
    e.i < M && e.j < N
  }

  /** The exception for an entry that does not fit: the row check comes first. */
  function ErrorFor(e: SparseEntry, M: int, N: int): Error
  {
    if e.i >= M then IndexOutOfRange(e.i, M) else IndexOutOfRange(e.j, N)
  }

  /**
   * The fill loop of the constructor over the already sorted entries: it throws at the first
   * entry out of range; otherwise it stores the entries in order and sets every row start.
   */
  method Fill(entries: array<SparseEntry>, M: int, N: int) returns (r: Result<Csr>)
    requires -1 <= M && Sorted(entries[..])
    ensures r.Ok? <==> forall p :: 0 <= p < entries.Length ==> Fits(entries[p], M, N)
    ensures r.Ok? ==> r.value == CsrOf(entries[..], M, N)
    ensures r.Err? ==> exists p :: 0 <= p < entries.Length && !Fits(entries[p], M, N)
                          && (forall q :: 0 <= q < p ==> Fits(entries[q], M, N))
                          && r.error == ErrorFor(entries[p], M, N)
  {
    var K := entries.Length;
    var values := new real[K];
    var colIdxs := new int[K];
    var rowPtr := new int[M + 1](r => 0);
    var failure, i := FillEntries(entries, M, N, values, colIdxs, rowPtr);
    if failure.Some? {
      return Err(failure.value);
    }
    FinishRows(entries[..], rowPtr, i);
    return Ok(Csr(values[..], colIdxs[..], rowPtr[..], M, N));
  }

  /** The `foreach` loop of the constructor. */
  method FillEntries(entries: array<SparseEntry>, M: int, N: int,
                     values: array<real>, colIdxs: array<int>, rowPtr: array<int>)
    returns (failure: Option<Error>, i: int)
    requires Sorted(entries[..]) && values.Length == colIdxs.Length == entries.Length
    requires colIdxs != rowPtr && rowPtr.Length == M + 1
    requires forall row :: 0 <= row < rowPtr.Length ==> rowPtr[row] == 0
    modifies values, colIdxs, rowPtr
    ensures failure.None? <==> forall p :: 0 <= p < entries.Length ==> Fits(entries[p], M, N)
    ensures failure.Some? ==> exists p :: 0 <= p < entries.Length && !Fits(entries[p], M, N)
                                && (forall q :: 0 <= q < p ==> Fits(entries[q], M, N))
                                && failure.value == ErrorFor(entries[p], M, N)
    ensures failure.None? ==> && values[..] == CsrOf(entries[..], M, N).values
                              && colIdxs[..] == CsrOf(entries[..], M, N).colIdxs
                              && i == (if entries.Length == 0 then 0 else Max0(entries[entries.Length - 1].i))
                              && forall row :: 0 <= row < rowPtr.Length ==>
                                   rowPtr[row] == if 1 <= row <= i then CountBelow(entries[..], row) else 0
  {
    ghost var s := entries[..];
    var K := entries.Length;
    i := 0;
    var k := 0;
    while k < K
      invariant 0 <= k <= K && 0 <= i
      invariant forall p :: 0 <= p < k ==> Fits(s[p], M, N)
      invariant i == if k == 0 then 0 else Max0(s[k - 1].i)
      invariant forall p :: 0 <= p < k ==> values[p] == s[p].val && colIdxs[p] == s[p].j
      invariant forall row :: 0 <= row < rowPtr.Length ==>
                  rowPtr[row] == if 1 <= row <= i then CountBelow(s[..k], row) else 0
    {
      var stop;
      stop, i := PlaceEntry(entries, M, N, values, colIdxs, rowPtr, k, i);
      if stop.Some? {
        assert !Fits(s[k], M, N);
        return stop, i;
      }
      k := k + 1;
    }
    assert s[..K] == s;
    return None, i;
  }

  /**
   * One pass of the `foreach` loop, for entry k: the row check, the row starts up to the
   * entry's row, the column check, and the entry's value and column.
   */
  method PlaceEntry(entries: array<SparseEntry>, M: int, N: int,
                    values: array<real>, colIdxs: array<int>, rowPtr: array<int>, k: nat, i: int)
    returns (stop: Option<Error>, i': int)
    requires Sorted(entries[..]) && values.Length == colIdxs.Length == entries.Length
    requires colIdxs != rowPtr && rowPtr.Length == M + 1
    requires k < entries.Length && 0 <= i
    requires i == if k == 0 then 0 else Max0(entries[k - 1].i)
    requires forall row :: 0 <= row < rowPtr.Length ==>
               rowPtr[row] == if 1 <= row <= i then CountBelow(entries[..k], row) else 0
    modifies values, colIdxs, rowPtr
    ensures stop.Some? <==> !Fits(entries[k], M, N)
    ensures stop.Some? ==> stop.value == ErrorFor(entries[k], M, N)
    ensures forall p :: 0 <= p < k ==> values[p] == old(values[p]) && colIdxs[p] == old(colIdxs[p])
    ensures stop.None? ==> && 0 <= i' && i' == Max0(entries[k].i)
                           && values[k] == entries[k].val && colIdxs[k] == entries[k].j
                           && forall row :: 0 <= row < rowPtr.Length ==>
                                rowPtr[row] == if 1 <= row <= i' then CountBelow(entries[..k + 1], row) else 0
  {
    i' := i;
    var entry := entries[k];
    if entry.i >= M {
      return Some(IndexOutOfRange(entry.i, M)), i';
    }
    ghost var ptrBefore := rowPtr[..];
    i' := AdvanceRows(rowPtr, i, entry.i, k);
    RowStartsStep(entries[..], k, i, i', ptrBefore, rowPtr[..]);
    if entry.j >= N {
      return Some(IndexOutOfRange(entry.j, N)), i';
    }
    colIdxs[k] := entry.j;
    values[k] := entry.val;
    stop := None;
  }

  /** After entry k the row starts of the rows up to its row count the entries 0 .. k. */
  lemma RowStartsStep(s: seq<SparseEntry>, k: nat, oldI: int, i: int, before: seq<int>, after: seq<int>)
    requires Sorted(s) && k < |s| && 0 <= oldI && |before| == |after|
    requires oldI == if k == 0 then 0 else Max0(s[k - 1].i)
    requires i == if s[k].i > oldI then s[k].i else oldI
    requires forall row :: 0 <= row < |before| ==> before[row] == if 1 <= row <= oldI then CountBelow(s[..k], row) else 0
    requires forall row :: 0 <= row < |after| ==> after[row] == if oldI < row <= s[k].i then k else before[row]
    ensures i == Max0(s[k].i)
    ensures forall row :: 0 <= row < |after| ==> after[row] == if 1 <= row <= i then CountBelow(s[..k + 1], row) else 0
  {
    if k > 0 {
      assert CompareTo(s[k - 1], s[k]) <= 0;
    }
    forall row | 0 <= row < |after|
      ensures after[row] == if 1 <= row <= i then CountBelow(s[..k + 1], row) else 0
    {
      if 1 <= row <= i {
        CountBelowStep(s, k, row);
        if oldI < row {
          CountBelowAll(s[..k], row);
        }
      }
    }
  }

  /** `i++; for(; i < M+1; i++) row_ptr[i] = entries.Count;`: the rows after the last entry's row. */
  method FinishRows(s: seq<SparseEntry>, rowPtr: array<int>, i: int)
    requires Sorted(s) && rowPtr.Length >= 0 && i == (if |s| == 0 then 0 else Max0(s[|s| - 1].i))
    requires forall row :: 0 <= row < rowPtr.Length ==> rowPtr[row] == if 1 <= row <= i then CountBelow(s, row) else 0
    modifies rowPtr
    ensures rowPtr.Length >= 1 ==> rowPtr[..] == RowPtr(s, rowPtr.Length - 1)
  {
    var r := i + 1;
    while r < rowPtr.Length
      invariant 1 <= r
      invariant forall row :: 0 <= row < rowPtr.Length ==>
                  rowPtr[row] == if 1 <= row < r then CountBelow(s, row) else 0
    {
      CountBelowAll(s, r);
      rowPtr[r] := |s|;
      r := r + 1;
    }
  }

  // ---------------------------------------------------------------------------------------------
  // What the constructor builds

  lemma {:induction false} CountBelowMonotone(s: seq<SparseEntry>, r: int, r': int)
    requires r <= r'
    ensures CountBelow(s, r) <= CountBelow(s, r')
    decreases |s|
  {
    if |s| > 0 {
      CountBelowMonotone(s[..|s| - 1], r, r');
    }
  }

  /**
   * The constructed storage is well formed: the row starts start at 0, never decrease and end
   * at the entry count (given at least one row), and every stored column is below N.
   */
  lemma CsrOfValid(s: seq<SparseEntry>, M: int, N: int)
    requires -1 <= M && Sorted(s) && forall p :: 0 <= p < |s| ==> Fits(s[p], M, N)
    ensures CsrOf(s, M, N).Valid()
    ensures 0 <= M ==> CsrOf(s, M, N).rowPtr[0] == 0
    ensures 1 <= M ==> CsrOf(s, M, N).rowPtr[M] == |s|
    ensures forall p :: 0 <= p < |s| ==> CsrOf(s, M, N).colIdxs[p] < N
  {
    var ptr := RowPtr(s, M);
    forall r, r' | 0 <= r <= r' < |ptr| ensures ptr[r] <= ptr[r'] {
      if 1 <= r {
        CountBelowMonotone(s, r, r');
      }
    }
    if 1 <= M {
      CountBelowAll(s, M);
    }
  }

  /**
   * Positions rowPtr[r] .. rowPtr[r + 1] - 1 hold exactly the entries of row r, where row 0 also
   * takes the entries of negative rows (the constructor checks no lower bound).
   */
  lemma RowHoldsItsEntries(s: seq<SparseEntry>, M: int, N: int, r: nat, p: nat)
    requires Sorted(s) && r < M && p < |s|
    ensures var ptr := RowPtr(s, M);
            ptr[r] <= p < ptr[r + 1] <==> s[p].i == r || (r == 0 && s[p].i < 0)
  {
    CountBelowSplits(s, r + 1, p);
    if 1 <= r {
      CountBelowSplits(s, r, p);
    }
  }

  /**
   * `WeightMatrix(entries, M, N)`: sorts the caller's list in place, then fills the storage; it
   * throws at the first entry (in sorted order) whose row is not below M or column not below N.
   * An array of M + 1 row starts cannot be created for M < -1.
   */
  method Create(entries: array<SparseEntry>, M: int, N: int) returns (r: Result<Csr>)
    requires -1 <= M
    modifies entries
    ensures Sorted(entries[..]) && multiset(entries[..]) == multiset(old(entries[..]))
    ensures r.Ok? <==> forall e :: e in multiset(old(entries[..])) ==> Fits(e, M, N)
    ensures r.Ok? ==> r.value == CsrOf(entries[..], M, N) && r.value.Valid()
    ensures r.Err? ==> exists p :: 0 <= p < entries.Length && !Fits(entries[p], M, N)
                          && (forall q :: 0 <= q < p ==> Fits(entries[q], M, N))
                          && r.error == ErrorFor(entries[p], M, N)
  {
    Sort(entries);
    r := Fill(entries, M, N);
    AllFit(entries[..], old(entries[..]), M, N);
    if r.Ok? {
      CsrOfValid(entries[..], M, N);
    }
  }

  lemma AllFit(s: seq<SparseEntry>, t: seq<SparseEntry>, M: int, N: int)
    requires multiset(s) == multiset(t)
    ensures (forall p :: 0 <= p < |s| ==> Fits(s[p], M, N)) <==> forall e :: e in multiset(t) ==> Fits(e, M, N)
  {
    forall e | e in multiset(t) ensures e in s {
    }
  }

  // ---------------------------------------------------------------------------------------------
  // Reading from JSON

  /** One element `[i, j, v]` of "_ArrayData_", with 1-based indices. */
  datatype Triplet = Triplet(i: int, j: int, v: real)

  /** `fromJSON(jEntries)`: every index is shifted down by one. */
  function Shifted(t: seq<Triplet>): (s: seq<SparseEntry>)
    ensures |s| == |t|
  {
    seq(|t|, k requires 0 <= k < |t| => SparseEntry(t[k].i - 1, t[k].j - 1, t[k].v))
  }

  /**
   * After the shift the constructor's checks accept a 1-based index up to M (rows) or N (columns)
   * and, since no lower bound is checked, also 0 and below.
   */
  lemma ShiftedFits(t: seq<Triplet>, M: int, N: int, k: nat)
    requires k < |t|
    ensures Fits(Shifted(t)[k], M, N) <==> t[k].i <= M && t[k].j <= N
    ensures Shifted(t)[k].i == t[k].i - 1 && Shifted(t)[k].j == t[k].j - 1 && Shifted(t)[k].val == t[k].v
  {
  }

  /**
   * `w` is what the loader builds from `triplets`: the compressed rows of some sorted arrangement
   * of the shifted entries.
   */
  ghost predicate LoadedFrom(w: Csr, triplets: seq<Triplet>, M: int, N: int)
  {
    -1 <= M && exists s :: Sorted(s) && multiset(s) == multiset(Shifted(triplets)) && w == CsrOf(s, M, N)
  }

  /** `WeightMatrix(JSONClass jW)`: the shifted triplets and the sizes M, N of "_ArraySize_". */
  method FromJson(triplets: seq<Triplet>, M: int, N: int) returns (r: Result<Csr>, ghost sorted: seq<SparseEntry>)
    requires -1 <= M
    ensures Sorted(sorted) && multiset(sorted) == multiset(Shifted(triplets))
    ensures r.Ok? <==> forall k :: 0 <= k < |triplets| ==> triplets[k].i <= M && triplets[k].j <= N
    ensures r.Ok? ==> r.value == CsrOf(sorted, M, N) && r.value.Valid()
    ensures r.Ok? ==> LoadedFrom(r.value, triplets, M, N)
    ensures r.Err? ==> r.error.IndexOutOfRange?
  {
    var shifted := Shifted(triplets);
    var entries := new SparseEntry[|triplets|](k requires 0 <= k < |triplets| => shifted[k]);
    assert entries[..] == shifted;
    r := Create(entries, M, N);
    sorted := entries[..];
    forall k | 0 <= k < |triplets| ensures Fits(shifted[k], M, N) <==> triplets[k].i <= M && triplets[k].j <= N {
      ShiftedFits(triplets, M, N, k);
    }
    assert (forall e :: e in multiset(shifted) ==> Fits(e, M, N)) <==> forall k :: 0 <= k < |shifted| ==> Fits(shifted[k], M, N);
  }
}
