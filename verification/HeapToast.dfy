/** Checking the chunks of one out-of-line (TOAST) value against its pointer. */
module HeapToast {
  import opened Prelude

  /** (2032 bytes per tuple) - header 24 - chunk id 4 - sequence number 4 - length word 4. */
  const MAX_CHUNK := 1996

  datatype ChunkData = NullData | BadHeader | Bytes(size: int)
  datatype Chunk = Chunk(number: Option<int>, data: ChunkData)

  type Uint32 = x: int | 0 <= x < 0x1_0000_0000

  /** The number of bytes asked for: a size of 0 wraps around to 2^32. */
  function Asked(extsize: Uint32): int {
    if extsize == 0 then 0x1_0000_0000 else extsize
  }

  /** (extsize - 1) / MAX_CHUNK; the subtraction is unsigned, so it wraps at 0. */
  function LastChunk(extsize: Uint32): (last: nat)
    ensures last * MAX_CHUNK < Asked(extsize) <= (last + 1) * MAX_CHUNK
  {
    ((extsize - 1) % 0x1_0000_0000) / MAX_CHUNK
  }

  /** The expected size, converted to a signed 32-bit value. */
  function ExpectedSize(extsize: Uint32, number: int): (size: int)
    ensures number >= LastChunk(extsize) ==> size == Asked(extsize) - LastChunk(extsize) * MAX_CHUNK
  {
    if number < LastChunk(extsize) then MAX_CHUNK
    else
      var n := (extsize - LastChunk(extsize) * MAX_CHUNK) % 0x1_0000_0000;
      if n < 0x8000_0000 then n else n - 0x1_0000_0000
  }

  /** The chunk is what position `i` of the value calls for. */
  predicate GoodChunk(extsize: Uint32, chunks: seq<Chunk>, i: nat)
    requires i < |chunks|
  {
    && chunks[i].number == Some(i)
    && i <= LastChunk(extsize)
    && chunks[i].data == Bytes(ExpectedSize(extsize, i))
  }

  /** Exactly the chunks 0 to last, in order, all present with their sizes. */
  ghost predicate Complete(extsize: Uint32, chunks: seq<Chunk>) {
    && |chunks| == LastChunk(extsize) + 1
    && forall i :: 0 <= i < |chunks| ==> GoodChunk(extsize, chunks, i)
  }

  /** One chunk: returns the number expected next and how many problems it reported. */
  method CheckToastTuple(chunk: Chunk, expected: int, extsize: Uint32) returns (expected': int, reports: nat)
    ensures reports == 0 <==>
              && chunk.number == Some(expected)
              && expected <= LastChunk(extsize)
              && chunk.data == Bytes(ExpectedSize(extsize, expected))
    ensures reports == 0 ==> expected' == expected + 1
  {
    expected', reports := expected, 0;
    var last := LastChunk(extsize);
    if chunk.number.None? {
      reports := 1;
      return;
    }
    var number := chunk.number.value;
    if number != expected {
      reports := reports + 1;
    }
    expected' := number + 1;
    if !chunk.data.Bytes? {
      reports := reports + 1;
      return;
    }
    if number > last {
      reports := reports + 1;
      return;
    }
    if chunk.data.size != ExpectedSize(extsize, number) {
      reports := reports + 1;
    }
  }

  /**
   The check is exact: the scan of a value's chunks yields no report if and
   only if they are complete.
   */
  method CheckToastedAttribute(extsize: Uint32, chunks: seq<Chunk>) returns (reports: nat)
    ensures reports == 0 <==> Complete(extsize, chunks)
  {
    reports := 0;
    var expected, found := 0, false;
    for i := 0 to |chunks|
      invariant found <==> i > 0
      invariant reports == 0 ==> expected == i <= LastChunk(extsize) + 1
      invariant reports == 0 <==> forall k :: 0 <= k < i ==> GoodChunk(extsize, chunks, k)
    {
      found := true;
      var n;
      ghost var was := expected;
      expected, n := CheckToastTuple(chunks[i], expected, extsize);
      assert reports == 0 ==> (n == 0 <==> GoodChunk(extsize, chunks, i));
      reports := reports + n;
    }
    if !found {
      reports := reports + 1;
    } else if expected <= LastChunk(extsize) {
      reports := reports + 1;
    }
  }

  function TotalSize(chunks: seq<Chunk>): int {
    if chunks == [] then 0
    else
      var chunk := chunks[|chunks| - 1];
      TotalSize(chunks[..|chunks| - 1]) + if chunk.data.Bytes? then chunk.data.size else 0
  }

  lemma {:induction false} FullChunksSum(extsize: Uint32, chunks: seq<Chunk>)
    requires |chunks| <= LastChunk(extsize)
    requires forall i :: 0 <= i < |chunks| ==> GoodChunk(extsize, chunks, i)
    ensures TotalSize(chunks) == |chunks| * MAX_CHUNK
  {
    if chunks != [] {
      var front := chunks[..|chunks| - 1];
      assert forall i :: 0 <= i < |front| ==> front[i] == chunks[i] && GoodChunk(extsize, chunks, i);
      FullChunksSum(extsize, front);
      assert GoodChunk(extsize, chunks, |chunks| - 1);
    }
  }

  /** The chunks of an unreported value sum to exactly its external size. */
  lemma CompleteSizes(extsize: Uint32, chunks: seq<Chunk>)
    requires Complete(extsize, chunks)
    ensures 0 < extsize ==> TotalSize(chunks) == extsize
    ensures extsize == 0 ==> TotalSize(chunks) == 0x1_0000_0000
  {
    var last := |chunks| - 1;
    var front := chunks[..last];
    assert forall i :: 0 <= i < last ==> front[i] == chunks[i] && GoodChunk(extsize, chunks, i);
    FullChunksSum(extsize, front);
    assert GoodChunk(extsize, chunks, last);
  }
}
