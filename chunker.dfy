/** Chunk planning of dag.go: cutting a file into 256 KiB chunks
    (splitFile) and the chunk count and tree height computed by Add. */
module Chunker {
  import opened Objects

  /** The bytes of a chunk sequence laid end to end. */
  function Concat(chunks: seq<Bytes>): Bytes {
    if chunks == [] then [] else Concat(chunks[..|chunks| - 1]) + chunks[|chunks| - 1]
  }

  /** Number of chunks of a file of `length` bytes, rounded up (`linkLen`). */
  function ChunkCount(length: nat): (r: nat)
    ensures length <= r * ChunkSize
    ensures r == 0 || (r - 1) * ChunkSize < length
  {
    (length + (ChunkSize - 1)) / ChunkSize
  }

  /** splitFile: cuts `file` into consecutive chunks of ChunkSize bytes, the
      last one possibly shorter.  An empty file gives no chunk at all. */
  method SplitFile(file: Bytes) returns (chunks: seq<Bytes>)
    ensures Concat(chunks) == file
    ensures |chunks| == ChunkCount(|file|)
    ensures forall k :: 0 <= k < |chunks| ==> 0 < |chunks[k]| <= ChunkSize
    ensures forall k :: 0 <= k < |chunks| - 1 ==> |chunks[k]| == ChunkSize
  {
    chunks := [];
    var i := 0;
    while i < |file|
      invariant i == |chunks| * ChunkSize
      invariant 0 < i ==> i - ChunkSize < |file|
      invariant Concat(chunks) == file[..Min(i, |file|)]
      invariant forall k :: 0 <= k < |chunks| ==> 0 < |chunks[k]| <= ChunkSize
      invariant i <= |file| ==> forall k :: 0 <= k < |chunks| ==> |chunks[k]| == ChunkSize
      invariant forall k :: 0 <= k < |chunks| - 1 ==> |chunks[k]| == ChunkSize
    {
      var end := i + ChunkSize;
      if end > |file| {
        end := |file|;
      }
      var chunk := file[i..end];
      assert (chunks + [chunk])[..|chunks|] == chunks;
      assert file[..end] == file[..i] + chunk;
      chunks := chunks + [chunk];
      i := i + ChunkSize;
    }
    assert file[..|file|] == file;
  }

  /** The tree height Add uses for `linkLen` chunks: the least h >= 1 with
      Fanout^h >= linkLen, found by exact integer iteration (one level per
      division of the chunk count by the fan-out, rounding up). */
  function Height(linkLen: nat): (h: nat)
    ensures 1 <= h
    ensures linkLen <= Pow(Fanout, h)
    ensures h == 1 || Pow(Fanout, h - 1) < linkLen
    decreases linkLen
  {
    if linkLen <= Fanout then 1
    else
      var parents := (linkLen + (Fanout - 1)) / Fanout;
      var g := Height(parents);
      assert linkLen <= Fanout * parents;
      MulMonotone(parents, Pow(Fanout, g), Fanout);
      assert g == 1 || Pow(Fanout, g) < linkLen by {
        if g > 1 {
          MulMonotone(Pow(Fanout, g - 1) + 1, parents, Fanout);
        }
      }
      g + 1
  }

  /** No height below Height(linkLen) can hold linkLen chunks. */
  lemma HeightIsLeast(linkLen: nat, g: nat)
    requires 1 <= g < Height(linkLen)
    ensures Pow(Fanout, g) < linkLen
  {
    PowMonotone(Fanout, g, Height(linkLen) - 1);
  }

  /** A file of n bytes fits in a tree of height Height(ChunkCount(n)). */
  lemma HeightSuffices(n: nat)
    ensures n <= Capacity(Height(ChunkCount(n)))
  {
    var h := Height(ChunkCount(n));
    assert n <= ChunkCount(n) * ChunkSize;
    MulMonotone(ChunkCount(n), Pow(Fanout, h), ChunkSize);
  }

  /** The boundaries at which one level stops sufficing. */
  lemma HeightBoundaries()
    ensures Height(2) == 1 && Height(Fanout) == 1 && Height(Fanout + 1) == 2
    ensures Height(Fanout * Fanout) == 2 && Height(Fanout * Fanout + 1) == 3
  {
    var big := Fanout * Fanout;
    assert (big + (Fanout - 1)) / Fanout == Fanout;
    assert (big + 1 + (Fanout - 1)) / Fanout == Fanout + 1;
    assert ((Fanout + 1) + (Fanout - 1)) / Fanout == 2;
  }

  /** A 600 KiB file makes three chunks, which a single level can hold. */
  lemma SixHundredKiB()
    ensures ChunkCount(600 * 1024) == 3 && Height(ChunkCount(600 * 1024)) == 1
  {
  }
}
