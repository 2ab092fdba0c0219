/** The `/download/<bucket>/<path>` endpoint: the object is read in inclusive byte
    ranges of a fixed size and each range is yielded as it arrives, until a read
    comes back shorter than the chunk size. */
module Download {
  import opened Store

  /** The chunk size the endpoint configures: 10 MiB. */
  const ChunkSize: nat := 262144 * 4 * 10

  function Min(a: int, b: int): int {
    if a <= b then a else b
  }

  /** `download_as_string(start=first, end=last)`: the bytes at positions `first`
      through `last` inclusive, clamped to the object's end. */
  function ReadRange(obj: seq<byte>, first: nat, last: nat): (r: seq<byte>)
    requires first <= last + 1
    ensures |r| == Min(last + 1, |obj|) - Min(first, |obj|)
  {
    obj[Min(first, |obj|)..Min(last + 1, |obj|)]
  }

  /** The first position of read `k`: the first read starts at 0, read k >= 1 at kC+1. */
  function Start(k: nat): nat {
    if k == 0 then 0 else k * ChunkSize + 1
  }

  /** The last position of read `k`, inclusive: (k+1)C. */
  function Last(k: nat): nat {
    (k + 1) * ChunkSize
  }

  /** What read `k` returns. */
  function Chunk(obj: seq<byte>, k: nat): seq<byte> {
    ReadRange(obj, Start(k), Last(k))
  }

  /** The chunks in order, joined. */
  function Flatten(cs: seq<seq<byte>>): seq<byte> {
    if cs == [] then [] else Flatten(cs[..|cs| - 1]) + cs[|cs| - 1]
  }

  /** The number of reads for an object of `size` bytes: one while it is shorter than
      a chunk, two up to two chunks, then one per started chunk. */
  function ReadCount(size: nat): nat {
    if size < ChunkSize then 1
    else if size <= 2 * ChunkSize then 2
    else (size + ChunkSize - 1) / ChunkSize
  }

  /** The read count is the number of started chunks, except that an empty object
      still costs one read and an object of exactly one chunk costs two (the second
      comes back empty). */
  lemma ReadCountIsCeiling(size: nat)
    ensures 0 < size && size != ChunkSize ==> ReadCount(size) == (size + ChunkSize - 1) / ChunkSize
    ensures ReadCount(0) == 1 && ReadCount(ChunkSize) == 2
  {
  }

  /** What holds after the generator has issued `|chunks|` reads and is about to read
      from `counter`: the chunks are the reads in order and join up to the object's
      first `counter` bytes, every chunk but the last came back full, and no chunk is
      longer than C+1. */
  ghost predicate Progress(obj: seq<byte>, chunks: seq<seq<byte>>, counter: nat) {
    && |chunks| >= 1
    && counter == Last(|chunks| - 1) + 1
    && (forall k :: 0 <= k < |chunks| ==> chunks[k] == Chunk(obj, k))
    && (forall k :: 0 <= k < |chunks| - 1 ==> |chunks[k]| >= ChunkSize)
    && (forall k :: 0 <= k < |chunks| ==> |chunks[k]| <= ChunkSize + 1)
    && Flatten(chunks) == obj[..Min(counter, |obj|)]
    && (|chunks| >= 2 ==> Last(|chunks| - 2) + (if |chunks| >= 3 then 1 else 0) <= |obj|)
  }

  /** The generator: read [0, C], then [C+1, 2C], [2C+1, 3C], ... while the last read
      returned at least C bytes. The chunks are the reads in order, they join up to
      the whole object, every chunk but the last is at least C bytes, the last is
      shorter, and none exceeds C+1 bytes. */
  method Generate(obj: seq<byte>) returns (chunks: seq<seq<byte>>)
    ensures Flatten(chunks) == obj
    ensures |chunks| == ReadCount(|obj|)
    ensures forall k :: 0 <= k < |chunks| ==> chunks[k] == Chunk(obj, k)
    ensures forall k :: 0 <= k < |chunks| - 1 ==> |chunks[k]| >= ChunkSize
    ensures |chunks[|chunks| - 1]| < ChunkSize
    ensures forall k :: 0 <= k < |chunks| ==> |chunks[k]| <= ChunkSize + 1
  {
    var data := ReadRange(obj, 0, ChunkSize);
    chunks := [data];
    var counter := ChunkSize + 1;
    ProgressFirst(obj);
    while |data| >= ChunkSize
      invariant Progress(obj, chunks, counter)
      invariant data == chunks[|chunks| - 1]
      invariant counter <= |obj| + ChunkSize + 1
      decreases |obj| + ChunkSize + 1 - counter
    {
      ProgressNext(obj, chunks, counter);
      data := ReadRange(obj, counter, counter + ChunkSize - 1);
      chunks := chunks + [data];
      counter := counter + ChunkSize;
    }
    ProgressLast(obj, chunks, counter);
  }

  lemma ProgressFirst(obj: seq<byte>)
    ensures Progress(obj, [ReadRange(obj, 0, ChunkSize)], ChunkSize + 1)
  {
    var data := ReadRange(obj, 0, ChunkSize);
    FlattenOne(data);
    assert data == Chunk(obj, 0);
  }

  /** One more full-width read keeps the generator's progress, and leaves the object's
      end no earlier than where that read starts. */
  lemma ProgressNext(obj: seq<byte>, chunks: seq<seq<byte>>, counter: nat)
    requires Progress(obj, chunks, counter)
    requires |chunks[|chunks| - 1]| >= ChunkSize
    ensures counter <= |obj| + 1
    ensures Progress(obj, chunks + [ReadRange(obj, counter, counter + ChunkSize - 1)], counter + ChunkSize)
  {
    var n := |chunks|;
    StartStep(n - 1);
    var data := ReadRange(obj, counter, counter + ChunkSize - 1);
    assert data == Chunk(obj, n);
    var next := chunks + [data];
    assert forall k :: 0 <= k < n ==> next[k] == chunks[k];
    FlattenSnoc(chunks, data);
    ReadRangeExtends(obj, counter, ChunkSize);
    if n >= 2 {
      StartStep(n - 2);
    }
  }

  /** When a read comes back short the generator is done, and its chunks are what
      `Generate` promises. */
  lemma ProgressLast(obj: seq<byte>, chunks: seq<seq<byte>>, counter: nat)
    requires Progress(obj, chunks, counter)
    requires |chunks[|chunks| - 1]| < ChunkSize
    ensures Flatten(chunks) == obj
    ensures |chunks| == ReadCount(|obj|)
  {
    LastChunkShort(obj, |chunks|);
    CountFromChunks(|obj|, |chunks|);
  }

  /** Consecutive reads abut: read k+1 starts right after read k ends and is C long. */
  lemma StartStep(k: nat)
    ensures Start(k + 1) == Last(k) + 1
    ensures Last(k + 1) == Last(k) + ChunkSize
    ensures Last(0) == ChunkSize
  {
  }

  /** A read that comes back short means the object ends inside it. */
  lemma LastChunkShort(obj: seq<byte>, n: nat)
    requires n >= 1 && |Chunk(obj, n - 1)| < ChunkSize
    ensures n == 1 ==> |obj| < ChunkSize
    ensures n >= 2 ==> |obj| <= Last(n - 1)
  {
    if n >= 2 {
      StartStep(n - 2);
    }
  }

  /** The number of reads, from where the object ends. */
  lemma CountFromChunks(size: nat, n: nat)
    requires n >= 1
    requires n == 1 ==> size < ChunkSize
    requires n >= 2 ==> Last(n - 2) + (if n >= 3 then 1 else 0) <= size <= Last(n - 1)
    ensures ReadCount(size) == n
  {
    if n >= 3 {
      CeilingOfRange(size, n);
    }
  }

  lemma FlattenOne(c: seq<byte>)
    ensures Flatten([c]) == c
  {
    assert [c][..0] == [];
  }

  lemma FlattenSnoc(cs: seq<seq<byte>>, c: seq<byte>)
    ensures Flatten(cs + [c]) == Flatten(cs) + c
  {
    assert (cs + [c])[..|cs|] == cs;
  }

  /** Reading the `width` bytes after a prefix extends the prefix. */
  lemma ReadRangeExtends(obj: seq<byte>, from: nat, width: nat)
    requires width >= 1
    ensures obj[..Min(from, |obj|)] + ReadRange(obj, from, from + width - 1) == obj[..Min(from + width, |obj|)]
  {
  }

  lemma CeilingOfRange(size: nat, n: nat)
    requires n >= 1 && (n - 1) * ChunkSize < size <= n * ChunkSize
    ensures (size + ChunkSize - 1) / ChunkSize == n
  {
  }
}
