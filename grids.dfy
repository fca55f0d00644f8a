/** Two-dimensional arrays (C# `double[,]`) read as sequences of rows. */
module Grids {

  /** The rows of a 2-D array as a value. */
  function Rows(a: array2<real>): (rows: seq<seq<real>>)
    reads a
    ensures |rows| == a.Length0
    ensures forall i :: 0 <= i < a.Length0 ==> |rows[i]| == a.Length1
  {
    seq(a.Length0, i requires 0 <= i < a.Length0 reads a =>
      seq(a.Length1, c requires 0 <= c < a.Length1 reads a => a[i, c]))
  }

  /** `m` has `rows` rows of `cols` entries each. */
  ghost predicate Shaped(m: seq<seq<real>>, rows: int, cols: int)
  {
    |m| == rows && forall i :: 0 <= i < |m| ==> |m[i]| == cols
  }

  lemma RowsFromElements(a: array2<real>, s: seq<seq<real>>)
    requires Shaped(s, a.Length0, a.Length1)
    requires forall i, c :: 0 <= i < a.Length0 && 0 <= c < a.Length1 ==> a[i, c] == s[i][c]
    ensures Rows(a) == s
  {
    forall i | 0 <= i < |s| ensures Rows(a)[i] == s[i] {
    }
  }

  function ZeroRows(rows: nat, cols: nat): (z: seq<seq<real>>)
    ensures Shaped(z, rows, cols)
  {
    seq(rows, i => seq(cols, c => 0.0))
  }
}
