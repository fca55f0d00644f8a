/**
 * The sliding-window frame buffer (class Buffer): frames of C channels are stored row by row until
 * the buffer holds size + 2 * overlap rows; `Retrieve` hands out a copy and rewinds the cursor.
 */
module WindowBuffer {
  import opened Wrappers
  import opened Grids

  function Reals(frame: seq<int>): seq<real>
  {
    seq(|frame|, c requires 0 <= c < |frame| => frame[c] as real)
  }

  function Max(a: int, b: int): int { if a >= b then a else b }

  class Buffer {
    const size: int
    const overlap: int
    const C: int
    var data: array2<real>
    /** the index of the next row to write */
    var b: int
    /** whether `Retrieve` has been called, and the leading rows of the first window it returned */
    ghost var retrieved: bool
    ghost var firstLead: seq<seq<real>>

    /** The number of rows `Retrieve` keeps in front, `overlap` when it is not negative. */
    function Lead(): int
    {
      Max(0, overlap)
    }

    ghost predicate Valid()
      reads this, data
    {
      && data.Length0 == size + 2 * overlap
      && data.Length1 == C
      && 0 <= b <= data.Length0
      && (retrieved ==> Lead() <= b && Rows(data)[..Lead()] == firstLead)
    }

    function Contents(): seq<seq<real>>
      reads this, data
    {
      Rows(data)
    }

    /** `Buffer(int size, int overlap, int C)`: an array of negative size cannot be created. */
    constructor (size: int, overlap: int, C: int)
      requires 0 <= size + 2 * overlap && 0 <= C
      ensures Valid() && fresh(data)
      ensures this.size == size && this.overlap == overlap && this.C == C
      ensures b == 0 && !retrieved
      ensures data.Length0 == size + 2 * overlap && data.Length1 == C
      ensures forall i, c :: 0 <= i < data.Length0 && 0 <= c < data.Length1 ==> data[i, c] == 0.0
    {
      this.size := size;
      this.overlap := overlap;
      this.C := C;
      data := new real[size + 2 * overlap, C]((i, c) => 0.0);
      b := 0;
      retrieved := false;
      firstLead := [];
    }

    /** `Buffer()`: eight frames per window, eight frames of overlap on either side, eight channels. */
    constructor Default()
      ensures Valid() && fresh(data)
      ensures size == 8 && overlap == 8 && C == 8 && b == 0 && !retrieved
      ensures data.Length0 == 24 && data.Length1 == 8
    {
      size := 8;
      overlap := 8;
      C := 8;
      data := new real[24, 8]((i, c) => 0.0);
      b := 0;
      retrieved := false;
      firstLead := [];
    }

    /** `isFull()` */
    function IsFull(): (full: bool)
      reads this, data
      ensures full <==> b == data.Length0
    {
      b == data.Length0
    }

    /** `store(double[] frame)` */
    method Store(frame: seq<real>) returns (r: Result<bool>)
      requires Valid()
      modifies this, data
      ensures Valid() && data == old(data)
      ensures retrieved == old(retrieved) && firstLead == old(firstLead)
      ensures old(IsFull()) ==> r == Err(BufferFull) && b == old(b) && Contents() == old(Contents())
      ensures !old(IsFull()) && |frame| != C ==>
                r == Err(ChannelMismatch(C, |frame|)) && b == old(b) && Contents() == old(Contents())
      ensures !old(IsFull()) && |frame| == C ==>
                && b == old(b) + 1
                && Contents() == old(Contents())[old(b) := frame]
                && r == Ok(IsFull())
    {
      if IsFull() {
        return Err(BufferFull);
      }
      if |frame| != C {
        return Err(ChannelMismatch(C, |frame|));
      }
      ghost var before := Contents();
      var c := 0;
      while c < C
        modifies data
        invariant 0 <= c <= C
        invariant forall i, k :: 0 <= i < data.Length0 && 0 <= k < data.Length1 ==>
                    data[i, k] == if i == b && k < c then frame[k] else before[i][k]
      {
        data[b, c] := frame[c];
        c := c + 1;
      }
      assert Shaped(before[b := frame], data.Length0, data.Length1);
      RowsFromElements(data, before[b := frame]);
      b := b + 1;
      if retrieved {
        assert Rows(data)[..Lead()] == before[..Lead()];
      }
      return Ok(IsFull());
    }

    /** `store(int[] frame)`: the same as `Store`, each channel converted to a double. */
    method StoreInts(frame: seq<int>) returns (r: Result<bool>)
      requires Valid()
      modifies this, data
      ensures Valid() && data == old(data)
      ensures retrieved == old(retrieved) && firstLead == old(firstLead)
      ensures old(IsFull()) ==> r == Err(BufferFull) && b == old(b) && Contents() == old(Contents())
      ensures !old(IsFull()) && |frame| != C ==>
                r == Err(ChannelMismatch(C, |frame|)) && b == old(b) && Contents() == old(Contents())
      ensures !old(IsFull()) && |frame| == C ==>
                && b == old(b) + 1
                && Contents() == old(Contents())[old(b) := Reals(frame)]
                && r == Ok(IsFull())
    {
      r := Store(Reals(frame));
    }

    /**
     * `retrieve()`: returns a fresh copy of all rows and rewinds the cursor to `overlap`. The loop
     * copies the leading `overlap` rows onto themselves, so no row changes: every later window
     * starts with the leading rows of the first one.
     */
    method Retrieve() returns (window: array2<real>)
      requires Valid()
      requires overlap <= data.Length0
      modifies this, data
      ensures Valid() && fresh(window) && data == old(data)
      ensures Rows(window) == old(Contents())
      ensures Contents() == old(Contents())
      ensures b == Lead()
      ensures retrieved
      ensures old(retrieved) ==> Rows(window)[..Lead()] == old(firstLead)
      ensures firstLead == Rows(window)[..Lead()]
    {
      ghost var before := Contents();
      window := new real[size + 2 * overlap, C];
      forall i, c | 0 <= i < data.Length0 && 0 <= c < data.Length1 {
        window[i, c] := data[i, c];
      }
      RowsFromElements(window, before);
      b := 0;
      while b < overlap
        invariant data == old(data)
        invariant 0 <= b <= Lead()
        invariant forall i, c :: 0 <= i < data.Length0 && 0 <= c < data.Length1 ==> data[i, c] == before[i][c]
        invariant Rows(window) == before
        decreases overlap - b
      {
        var c := 0;
        while c < C
          modifies data
          invariant 0 <= c <= C
          invariant forall i, k :: 0 <= i < data.Length0 && 0 <= k < data.Length1 ==> data[i, k] == before[i][k]
          invariant Rows(window) == before
        {
          assert window[b, c] == Rows(window)[b][c];
          data[b, c] := window[b, c];
          c := c + 1;
        }
        b := b + 1;
      }
      RowsFromElements(data, before);
      retrieved := true;
      firstLead := Rows(window)[..Lead()];
    }

    /** The number of stores a rewound buffer takes to fill up again: size + overlap. */
    lemma StoresAfterRetrieve()
      requires Valid() && b == Lead() && 0 <= overlap
      ensures data.Length0 - b == size + overlap
    {
    }

    /**
     * A window handed out by `Retrieve` belongs to the caller: it is not the buffer's own array,
     * so a store that follows leaves it as it was.
     */
    method RetrieveThenStore(frame: seq<real>) returns (window: array2<real>, r: Result<bool>)
      requires Valid() && overlap <= data.Length0
      modifies this, data
      ensures Valid() && window != data
      ensures Rows(window) == old(Contents())
      ensures |frame| == C && Lead() < data.Length0 ==> r.Ok? && Contents() == old(Contents())[Lead() := frame]
    {
      window := Retrieve();
      r := Store(frame);
    }
  }
}
