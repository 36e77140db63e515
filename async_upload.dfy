/** The partial GPU upload of the double-buffered renderer: the current pixel
    buffer of len elements is copied into the GPU buffer in count equal chunks,
    one chunk per frame, and the result is drawn once the last chunk is in. */
module AsyncUpload {

  /** The elements one frame copies: len / count (integer division). */
  function ChunkLength(len: nat, count: nat): nat
    requires count >= 1
  {
    len / count
  }

  /** Where the chunk of frame f begins. */
  function ChunkStart(len: nat, count: nat, f: nat): nat
    requires count >= 1
  {
    ChunkLength(len, count) * f
  }

  /** The elements the count chunks cover together: the rest, len % count
      elements at the end, is never copied. */
  lemma Coverage(len: nat, count: nat)
    requires count >= 1
    ensures ChunkLength(len, count) * count <= len
    ensures len - ChunkLength(len, count) * count == len % count
  {
  }

  lemma MulMonotone(a: nat, b: nat, c: nat)
    requires a <= b
    ensures c * a <= c * b
  {
  }

  lemma MulStep(c: nat, f: nat)
    ensures c * (f + 1) == c * f + c
  {
  }

  /** The multiple of c at or below j, and the one above it. */
  lemma Bracket(j: nat, c: nat)
    requires c > 0
    ensures c * (j / c) <= j < c * (j / c) + c
  {
  }

  /** The chunk of every frame before the count-th lies inside the buffer. */
  lemma ChunkInBounds(len: nat, count: nat, f: nat)
    requires count >= 1 && f < count
    ensures ChunkStart(len, count, f) + ChunkLength(len, count) <= len
  {
    var c := ChunkLength(len, count);
    MulStep(c, f);
    MulMonotone(f + 1, count, c);
    Coverage(len, count);
  }

  /** Chunks of different frames do not overlap: an earlier chunk ends no
      later than a later one begins. */
  lemma ChunksDisjoint(len: nat, count: nat, f: nat, g: nat)
    requires count >= 1 && f < g
    ensures ChunkStart(len, count, f) + ChunkLength(len, count) <= ChunkStart(len, count, g)
  {
    var c := ChunkLength(len, count);
    MulStep(c, f);
    MulMonotone(f + 1, g, c);
  }

  /** Every element before ChunkLength * count lies in the chunk of a frame
      below count, and no element at or after it lies in any. */
  lemma ChunksCover(len: nat, count: nat, j: nat)
    requires count >= 1
    ensures j < ChunkLength(len, count) * count <==>
              exists f :: 0 <= f < count && ChunkStart(len, count, f) <= j < ChunkStart(len, count, f) + ChunkLength(len, count)
  {
    var c := ChunkLength(len, count);
    if j < c * count {
      assert c > 0;
      var f := j / c;
      Bracket(j, c);
      if f >= count {
        MulMonotone(count, f, c);
      }
      assert ChunkStart(len, count, f) == c * f;
    }
    if exists f :: 0 <= f < count && ChunkStart(len, count, f) <= j < ChunkStart(len, count, f) + c {
      var f :| 0 <= f < count && ChunkStart(len, count, f) <= j < ChunkStart(len, count, f) + c;
      MulStep(c, f);
      MulMonotone(f + 1, count, c);
    }
  }

  /** ComputeBuffer.SetData(src, start, start, n): the n elements of src from
      start on replace the ones of dst at the same positions. */
  function CopyRange<T>(dst: seq<T>, src: seq<T>, start: nat, n: nat): (r: seq<T>)
    requires start + n <= |dst| && start + n <= |src|
    ensures |r| == |dst|
    ensures forall j :: 0 <= j < |r| ==> r[j] == (if start <= j < start + n then src[j] else dst[j])
  {
    dst[..start] + src[start..start + n] + dst[start + n..]
  }

  /** The GPU buffer after the upload step of frame f: the chunk of frame f
      while f < count, nothing from then on. */
  function UploadStep<T>(gpu: seq<T>, src: seq<T>, count: nat, f: nat): (r: seq<T>)
    requires count >= 1 && |gpu| == |src|
    ensures |r| == |gpu|
  {
    if f < count then
      ChunkInBounds(|src|, count, f);
      CopyRange(gpu, src, ChunkStart(|src|, count, f), ChunkLength(|src|, count))
    else gpu
  }

  /** The GPU buffer after the upload steps of frames 0 .. n - 1. */
  function UploadFrames<T>(gpu: seq<T>, src: seq<T>, count: nat, n: nat): (r: seq<T>)
    requires count >= 1 && |gpu| == |src|
    ensures |r| == |gpu|
    decreases n
  {
    if n == 0 then gpu else UploadStep(UploadFrames(gpu, src, count, n - 1), src, count, n - 1)
  }

  /** How much of the source the GPU buffer holds f frames into a cycle. */
  function UploadedLength(len: nat, count: nat, f: nat): nat
    requires count >= 1
  {
    ChunkLength(len, count) * (if f < count then f else count)
  }

  /** Copying a range that starts where an agreeing prefix ends extends the
      prefix, and leaves every element after the range. */
  lemma CopyExtends<T>(gpu: seq<T>, src: seq<T>, m: nat, c: nat)
    requires m + c <= |gpu| == |src|
    requires gpu[..m] == src[..m]
    ensures CopyRange(gpu, src, m, c)[..m + c] == src[..m + c]
    ensures forall j :: m + c <= j < |gpu| ==> CopyRange(gpu, src, m, c)[j] == gpu[j]
  {
    var r := CopyRange(gpu, src, m, c);
    forall j | 0 <= j < m + c
      ensures r[j] == src[j]
    {
      if j < m {
        assert gpu[..m][j] == gpu[j];
      }
    }
  }

  /** The upload step of a frame below count takes the uploaded prefix from
      that frame's chunk start to the next one's. */
  lemma UploadAdvances(len: nat, count: nat, f: nat)
    requires count >= 1 && f < count
    ensures UploadedLength(len, count, f) == ChunkStart(len, count, f)
    ensures UploadedLength(len, count, f + 1) == ChunkStart(len, count, f) + ChunkLength(len, count)
  {
    MulStep(ChunkLength(len, count), f);
  }

  /** The uploaded prefix never reaches past the count chunks. */
  lemma UploadedBound(len: nat, count: nat, n: nat)
    requires count >= 1
    ensures UploadedLength(len, count, n) <= ChunkLength(len, count) * count <= len
  {
    Coverage(len, count);
    if n < count {
      MulMonotone(n, count, ChunkLength(len, count));
    }
  }

  /** One upload step below count extends the agreeing prefix by a chunk. */
  lemma UploadStepExtends<T>(prev: seq<T>, src: seq<T>, count: nat, f: nat)
    requires count >= 1 && |prev| == |src| && f < count
    requires UploadedLength(|src|, count, f) <= |src|
    requires prev[..UploadedLength(|src|, count, f)] == src[..UploadedLength(|src|, count, f)]
    ensures UploadedLength(|src|, count, f + 1) <= |src|
    ensures UploadStep(prev, src, count, f)[..UploadedLength(|src|, count, f + 1)] == src[..UploadedLength(|src|, count, f + 1)]
  {
    ChunkInBounds(|src|, count, f);
    UploadAdvances(|src|, count, f);
    CopyExtends(prev, src, ChunkStart(|src|, count, f), ChunkLength(|src|, count));
  }

  /** An upload step leaves the elements after the count chunks alone. */
  lemma UploadStepKeepsTail<T>(prev: seq<T>, src: seq<T>, count: nat, f: nat, j: nat)
    requires count >= 1 && |prev| == |src|
    requires ChunkLength(|src|, count) * count <= j < |prev|
    ensures UploadStep(prev, src, count, f)[j] == prev[j]
  {
    if f < count {
      ChunksDisjoint(|src|, count, f, count);
    }
  }

  /** The upload steps of a cycle copy the source chunk by chunk from the
      front: after n of them the GPU buffer agrees with the source on the
      first UploadedLength(n) elements. */
  lemma {:induction false} UploadFramesPrefix<T>(gpu: seq<T>, src: seq<T>, count: nat, n: nat)
    requires count >= 1 && |gpu| == |src|
    ensures UploadedLength(|src|, count, n) <= ChunkLength(|src|, count) * count <= |src|
    ensures UploadFrames(gpu, src, count, n)[..UploadedLength(|src|, count, n)] == src[..UploadedLength(|src|, count, n)]
    decreases n
  {
    UploadedBound(|src|, count, n);
    if n > 0 {
      UploadFramesPrefix(gpu, src, count, n - 1);
      var prev := UploadFrames(gpu, src, count, n - 1);
      if n - 1 < count {
        UploadStepExtends(prev, src, count, n - 1);
      } else {
        assert UploadFrames(gpu, src, count, n) == prev;
        assert UploadedLength(|src|, count, n) == UploadedLength(|src|, count, n - 1);
      }
    }
  }

  /** The len % count elements after the count chunks are never uploaded:
      whatever the GPU buffer held there stays. */
  lemma {:induction false} UploadFramesKeepTail<T>(gpu: seq<T>, src: seq<T>, count: nat, n: nat, j: nat)
    requires count >= 1 && |gpu| == |src|
    requires ChunkLength(|src|, count) * count <= j < |gpu|
    ensures UploadFrames(gpu, src, count, n)[j] == gpu[j]
    decreases n
  {
    if n > 0 {
      UploadFramesKeepTail(gpu, src, count, n - 1, j);
      UploadStepKeepsTail(UploadFrames(gpu, src, count, n - 1), src, count, n - 1, j);
    }
  }

  /** What n upload steps leave in the GPU buffer: the source's first
      UploadedLength elements, and the old values after the count chunks. */
  lemma UploadFramesResult<T>(gpu: seq<T>, src: seq<T>, count: nat, n: nat)
    requires count >= 1 && |gpu| == |src|
    ensures UploadedLength(|src|, count, n) <= |src|
    ensures UploadFrames(gpu, src, count, n)[..UploadedLength(|src|, count, n)] == src[..UploadedLength(|src|, count, n)]
    ensures forall j :: ChunkLength(|src|, count) * count <= j < |gpu| ==> UploadFrames(gpu, src, count, n)[j] == gpu[j]
  {
    UploadFramesPrefix(gpu, src, count, n);
    forall j | ChunkLength(|src|, count) * count <= j < |gpu|
      ensures UploadFrames(gpu, src, count, n)[j] == gpu[j]
    {
      UploadFramesKeepTail(gpu, src, count, n, j);
    }
  }

  /** The number of draws among the n updates that follow a fill: the update
      that takes the frame counter from i to i + 1 draws when i + 1 == count. */
  function DrawsAfterFill(count: nat, n: nat): nat
    decreases n
  {
    if n == 0 then 0 else DrawsAfterFill(count, n - 1) + (if n == count then 1 else 0)
  }

  /** A fill cycle is drawn at most once: exactly once when at least count
      updates follow the fill, and not at all before. */
  lemma {:induction false} OneDrawPerCycle(count: nat, n: nat)
    requires count >= 1
    ensures DrawsAfterFill(count, n) == (if n >= count then 1 else 0)
    decreases n
  {
    if n > 0 {
      OneDrawPerCycle(count, n - 1);
    }
  }
}
