/** The double-buffered producer: a background thread fills the next buffer
    and exchanges it with the current one, while the main thread uploads the
    current buffer to the GPU one chunk per frame and draws it once every
    chunk is in. */
module NonBlocking {
  import opened Host
  import FrameTiming
  import opened AsyncUpload

  /** What the constructor reads of the target render texture. */
  datatype RenderTextureDesc = RenderTextureDesc(width: Size, height: Size, format: RenderTextureFormat)

  /** A Graphics.Blit of the GPU buffer into the target texture, with the
      buffer contents it draws. */
  datatype Blit = Blit(width: Size, height: Size, data: seq<UInt>)

  class NonBlockingCustomTextureRenderer {
    const textureWidth: Size
    const textureHeight: Size
    const bytesPerPixel: nat
    const targetFrameTimeMilliseconds: FrameTiming.Int32
    const asyncGPUUploadCount: nat          // 0 when construction failed
    const ctsCreated: bool                  // _cts and the render thread exist

    var disposed: bool
    var fillSet: bool                       // _updateRawTextureDataFunction != null
    var targetTextureSet: bool              // _targetTexture != null
    var currentBuffer: array?<UInt>
    var currentBufferPtr: Ptr
    var currentHandleAllocated: bool
    var nextBuffer: array?<UInt>
    var nextBufferPtr: Ptr
    var nextHandleAllocated: bool
    var computeBufferAlive: bool            // _rawTextureDataComputeBuffer != null
    var gpuData: seq<UInt>                  // the contents of _rawTextureDataComputeBuffer
    var cancelled: bool
    var asyncGPUUploadFrame: nat
    var calls: seq<ThreadCall>              // the background thread's calls, in order
    var blits: seq<Blit>                    // the main thread's draws, in order

    /** The two pinned buffers made by the constructor, and how many times
        the thread has exchanged them. */
    ghost const firstBuffer: array?<UInt>
    ghost const secondBuffer: array?<UInt>
    ghost const firstPtr: Ptr
    ghost const secondPtr: Ptr
    ghost var iterations: nat

    /** The state of a renderer that runs: two distinct pinned buffers of one
        frame each, exchanged an even or odd number of times, and a GPU
        buffer that holds the current buffer's chunks uploaded so far. */
    ghost predicate Running()
      reads this, currentBuffer, nextBuffer
    {
      && asyncGPUUploadCount >= 1
      && currentBuffer != null && nextBuffer != null && currentBuffer != nextBuffer
      && currentBuffer.Length == nextBuffer.Length == textureWidth * textureHeight == |gpuData|
      && currentHandleAllocated && nextHandleAllocated && computeBufferAlive && targetTextureSet
      && firstPtr != Null && secondPtr != Null && firstPtr != secondPtr
      && (if iterations % 2 == 0
          then currentBuffer == firstBuffer && nextBuffer == secondBuffer && currentBufferPtr == firstPtr && nextBufferPtr == secondPtr
          else currentBuffer == secondBuffer && nextBuffer == firstBuffer && currentBufferPtr == secondPtr && nextBufferPtr == firstPtr)
      && UploadedLength(|gpuData|, asyncGPUUploadCount, asyncGPUUploadFrame) <= |gpuData|
      && gpuData[..UploadedLength(|gpuData|, asyncGPUUploadCount, asyncGPUUploadFrame)] ==
           currentBuffer[..UploadedLength(|gpuData|, asyncGPUUploadCount, asyncGPUUploadFrame)]
    }

    /** The state after a Dispose that got past the buffer handles: nothing
        pinned, no callback, no texture, no GPU buffer. */
    ghost predicate Released()
      reads this
    {
      && disposed && cancelled
      && currentBuffer == null && nextBuffer == null
      && currentBufferPtr == Null && nextBufferPtr == Null
      && !currentHandleAllocated && !nextHandleAllocated
      && !fillSet && !targetTextureSet && !computeBufferAlive
    }

    ghost predicate Valid()
      reads this, currentBuffer, nextBuffer
    {
      && (!ctsCreated ==>
            && disposed && asyncGPUUploadCount == 0
            && currentBuffer == null && nextBuffer == null
            && currentBufferPtr == Null && nextBufferPtr == Null
            && !currentHandleAllocated && !nextHandleAllocated && !computeBufferAlive)
      && (ctsCreated && !disposed ==> !cancelled && Running())
      && (ctsCreated && disposed ==> Released())
    }

    /** Construction: it fails, leaving the renderer disposed with no buffers
        and no thread, when compute shaders are unsupported, the render shader
        is missing or the texture is not ARGB32. Otherwise two buffers of one
        frame each are pinned (at the distinct addresses firstAddress and
        secondAddress), the upload count is clamped to at least 1 and the
        thread starts. */
    constructor (hasCallback: bool, texture: RenderTextureDesc, targetFrameTime: FrameTiming.Int32,
                 requestedUploadCount: FrameTiming.Int32, supportsComputeShaders: bool, shaderFound: bool,
                 firstAddress: Ptr, secondAddress: Ptr)
      requires firstAddress != Null && secondAddress != Null && firstAddress != secondAddress
      requires texture.width * texture.height < 0x8000_0000
      ensures Valid() && calls == [] && blits == [] && asyncGPUUploadFrame == 0
      ensures ctsCreated <==> supportsComputeShaders && shaderFound && texture.format == ARGB32
      ensures !ctsCreated ==> disposed && currentBuffer == null && nextBuffer == null
      ensures ctsCreated ==>
                && !disposed && fillSet == hasCallback && iterations == 0
                && textureWidth == texture.width && textureHeight == texture.height && bytesPerPixel == 4
                && targetFrameTimeMilliseconds == targetFrameTime
                && asyncGPUUploadCount == (if requestedUploadCount < 1 then 1 else requestedUploadCount)
                && fresh(currentBuffer) && fresh(nextBuffer) && currentBuffer != nextBuffer
                && currentBuffer.Length == nextBuffer.Length == texture.width * texture.height
                && currentBufferPtr == firstAddress && nextBufferPtr == secondAddress
    {
      gpuData := [];
      calls := [];
      blits := [];
      asyncGPUUploadFrame := 0;
      iterations := 0;
      cancelled := false;
      if !supportsComputeShaders || !shaderFound || texture.format != ARGB32 {
        textureWidth, textureHeight, bytesPerPixel := 0, 0, 0;
        targetFrameTimeMilliseconds, asyncGPUUploadCount, ctsCreated := 0, 0, false;
        firstBuffer, secondBuffer, firstPtr, secondPtr := null, null, Null, Null;
        disposed := true;
        fillSet := false;
        targetTextureSet := false;
        currentBuffer, currentBufferPtr, currentHandleAllocated := null, Null, false;
        nextBuffer, nextBufferPtr, nextHandleAllocated := null, Null, false;
        computeBufferAlive := false;
      } else {
        disposed := false;
        fillSet := hasCallback;
        targetFrameTimeMilliseconds := targetFrameTime;
        targetTextureSet := true;
        textureWidth := texture.width;
        textureHeight := texture.height;
        bytesPerPixel := 4;
        var len := texture.width * texture.height;
        var current := new UInt[len](_ => 0);
        var next := new UInt[len](_ => 0);
        currentBuffer, currentBufferPtr, currentHandleAllocated := current, firstAddress, true;
        nextBuffer, nextBufferPtr, nextHandleAllocated := next, secondAddress, true;
        firstBuffer, secondBuffer, firstPtr, secondPtr := current, next, firstAddress, secondAddress;
        gpuData := seq(len, _ => 0);
        computeBufferAlive := true;
        asyncGPUUploadCount := if requestedUploadCount < 1 then 1 else requestedUploadCount;
        ctsCreated := true;
      }
    }

    /** The two pinned addresses are the only ones that ever circulate: the
        current and next buffers are always the constructor's two, in the
        original assignment after an even number of exchanges. */
    lemma TwoBuffersCirculate()
      requires Valid() && !disposed
      ensures {currentBufferPtr, nextBufferPtr} == {firstPtr, secondPtr}
      ensures {currentBuffer, nextBuffer} == {firstBuffer, secondBuffer}
      ensures iterations % 2 == 0 <==> currentBufferPtr == firstPtr
    {
    }

    /** One pass of the background thread's loop: unless cancellation was
        requested, the fill callback (when set) writes pixels into the next
        buffer, the buffers and their addresses are exchanged, the upload
        restarts at frame 0 and the thread sleeps for the rest of the frame
        time. elapsed is the measured duration of the pass. */
    method RenderThreadIteration(elapsed: FrameTiming.Int64, pixels: seq<UInt>) returns (ran: bool)
      requires Valid() && ctsCreated
      requires |pixels| == textureWidth * textureHeight
      modifies this`calls, this`nextBufferPtr, this`currentBufferPtr, this`nextBuffer, this`currentBuffer
      modifies this`asyncGPUUploadFrame, this`iterations, nextBuffer
      ensures Valid()
      ensures ran == !old(cancelled)
      ensures !ran ==> unchanged(this)
      ensures ran ==>
                && currentBuffer == old(nextBuffer) && nextBuffer == old(currentBuffer)
                && currentBufferPtr == old(nextBufferPtr) && nextBufferPtr == old(currentBufferPtr)
                && currentBuffer[..] == (if fillSet then pixels else old(nextBuffer[..]))
                && nextBuffer[..] == old(currentBuffer[..])
                && asyncGPUUploadFrame == 0 && iterations == old(iterations) + 1
                && calls == old(calls) + (if fillSet then [RawFill(old(nextBufferPtr), textureWidth, textureHeight, bytesPerPixel)] else [])
                               + SleepCalls(FrameTiming.SleepMilliseconds(targetFrameTimeMilliseconds, elapsed))
    {
      if cancelled {
        return false;
      }
      ran := true;
      if fillSet {
        calls := calls + [RawFill(nextBufferPtr, textureWidth, textureHeight, bytesPerPixel)];
        Fill(nextBuffer, pixels);
      }
      SwapBuffers();
      var wait := FrameTiming.SleepMilliseconds(targetFrameTimeMilliseconds, elapsed);
      calls := calls + SleepCalls(wait);
    }

    /** The exchange of the two buffers and their addresses, and the restart
        of the upload. */
    method SwapBuffers()
      modifies this`nextBufferPtr, this`currentBufferPtr, this`nextBuffer, this`currentBuffer
      modifies this`asyncGPUUploadFrame, this`iterations
      ensures currentBuffer == old(nextBuffer) && nextBuffer == old(currentBuffer)
      ensures currentBufferPtr == old(nextBufferPtr) && nextBufferPtr == old(currentBufferPtr)
      ensures asyncGPUUploadFrame == 0 && iterations == old(iterations) + 1
    {
      nextBufferPtr, currentBufferPtr := currentBufferPtr, nextBufferPtr;
      nextBuffer, currentBuffer := currentBuffer, nextBuffer;
      asyncGPUUploadFrame := 0;
      iterations := iterations + 1;
    }

    /** The upload step of one frame: while the frame counter is below the
        upload count, the counter's chunk of the current buffer is copied into
        the GPU buffer; the counter always advances. */
    method AsyncGPUUpload()
      requires Valid() && !disposed
      modifies this`gpuData, this`asyncGPUUploadFrame
      ensures Valid()
      ensures gpuData == UploadStep(old(gpuData), currentBuffer[..], asyncGPUUploadCount, old(asyncGPUUploadFrame))
      ensures asyncGPUUploadFrame == old(asyncGPUUploadFrame) + 1
    {
      ghost var len := currentBuffer.Length;
      if asyncGPUUploadFrame < asyncGPUUploadCount {
        var partialCopyLength := currentBuffer.Length / asyncGPUUploadCount;
        var startIndex := partialCopyLength * asyncGPUUploadFrame;
        ChunkInBounds(len, asyncGPUUploadCount, asyncGPUUploadFrame);
        UploadAdvances(len, asyncGPUUploadCount, asyncGPUUploadFrame);
        CopyExtends(gpuData, currentBuffer[..], startIndex, partialCopyLength);
        gpuData := gpuData[..startIndex] + currentBuffer[startIndex..startIndex + partialCopyLength]
                     + gpuData[startIndex + partialCopyLength..];
      }
      asyncGPUUploadFrame := asyncGPUUploadFrame + 1;
    }

    /** The draw: the GPU buffer is blitted into the target texture exactly
        when the frame counter equals the upload count, and then the GPU
        buffer holds every chunk of the current buffer. */
    method Render()
      requires Valid() && !disposed
      modifies this`blits
      ensures blits == old(blits) + (if asyncGPUUploadFrame == asyncGPUUploadCount then [Blit(textureWidth, textureHeight, gpuData)] else [])
      ensures asyncGPUUploadFrame == asyncGPUUploadCount ==>
                var n := ChunkLength(|gpuData|, asyncGPUUploadCount) * asyncGPUUploadCount;
                n <= |gpuData| && gpuData[..n] == currentBuffer[..n]
    {
      if asyncGPUUploadFrame == asyncGPUUploadCount {
        blits := blits + [Blit(textureWidth, textureHeight, gpuData)];
      }
    }

    /** One frame of the main thread: nothing once disposed; otherwise the
        upload step and then the draw when the last chunk has just gone in. */
    method Update()
      requires Valid()
      modifies this`gpuData, this`asyncGPUUploadFrame, this`blits
      ensures Valid()
      ensures old(disposed) ==> unchanged(this)
      ensures !old(disposed) ==>
                && gpuData == UploadStep(old(gpuData), currentBuffer[..], asyncGPUUploadCount, old(asyncGPUUploadFrame))
                && asyncGPUUploadFrame == old(asyncGPUUploadFrame) + 1
                && blits == old(blits) + (if old(asyncGPUUploadFrame) + 1 == asyncGPUUploadCount
                                         then [Blit(textureWidth, textureHeight, gpuData)] else [])
      ensures !old(disposed) && old(asyncGPUUploadFrame) + 1 == asyncGPUUploadCount ==>
                var n := ChunkLength(|gpuData|, asyncGPUUploadCount) * asyncGPUUploadCount;
                n <= |gpuData| && gpuData[..n] == currentBuffer[..n]
    {
      if disposed {
        return;
      }
      AsyncGPUUpload();
      Render();
    }

    /** Cancels the thread, then unpins and drops both buffers and the
        callback, texture and GPU buffer. It is not guarded: without a
        cancellation source (failed construction) it throws at once, and a
        second call throws when it frees the already freed handle. */
    method Dispose() returns (outcome: Outcome)
      requires Valid()
      modifies this`cancelled, this`disposed, this`currentBufferPtr, this`currentHandleAllocated
      modifies this`currentBuffer, this`nextBufferPtr, this`nextHandleAllocated, this`nextBuffer
      modifies this`fillSet, this`targetTextureSet, this`computeBufferAlive
      ensures Valid()
      ensures !ctsCreated ==> outcome == Threw(NullReference) && unchanged(this)
      ensures ctsCreated ==> Released() && outcome == (if old(disposed) then Threw(InvalidHandle) else Completed)
    {
      if !ctsCreated {
        return Threw(NullReference);
      }
      Cancel();
      if !currentHandleAllocated {
        return Threw(InvalidHandle);
      }
      if !nextHandleAllocated {
        return Threw(InvalidHandle);
      }
      ReleaseBuffers();
      return Completed;
    }

    /** Cancelling the render thread and dropping the current address. */
    method Cancel()
      modifies this`cancelled, this`disposed, this`currentBufferPtr
      ensures cancelled && disposed && currentBufferPtr == Null
    {
      cancelled := true;
      disposed := true;
      currentBufferPtr := Null;
    }

    /** Freeing both pinned buffers and dropping the callback, the texture and
        the compute buffer. */
    method ReleaseBuffers()
      modifies this`currentHandleAllocated, this`currentBuffer, this`nextBufferPtr
      modifies this`nextHandleAllocated, this`nextBuffer, this`fillSet
      modifies this`targetTextureSet, this`computeBufferAlive
      ensures !currentHandleAllocated && currentBuffer == null && nextBufferPtr == Null
      ensures !nextHandleAllocated && nextBuffer == null
      ensures !fillSet && !targetTextureSet && !computeBufferAlive
    {
      currentHandleAllocated := false;
      currentBuffer := null;
      nextBufferPtr := Null;
      nextHandleAllocated := false;
      nextBuffer := null;
      fillSet := false;
      targetTextureSet := false;
      computeBufferAlive := false;
    }
  }
  /** The state after i of the updates that follow a fill, which started
      from the GPU contents gpu0 with blits0 draws made and the current
      buffer holding src. */
  ghost predicate AfterUpdates(r: NonBlockingCustomTextureRenderer, gpu0: seq<UInt>, src: seq<UInt>, blits0: nat, i: nat)
    reads r, r.currentBuffer, r.nextBuffer
  {
    && r.Valid() && !r.disposed && r.asyncGPUUploadFrame == i
    && r.currentBuffer[..] == src && |gpu0| == |src|
    && r.gpuData == UploadFrames(gpu0, src, r.asyncGPUUploadCount, i)
    && |r.blits| == blits0 + DrawsAfterFill(r.asyncGPUUploadCount, i)
  }

  /** One more update extends AfterUpdates by one frame. */
  method UpdateOnce(r: NonBlockingCustomTextureRenderer, ghost gpu0: seq<UInt>, ghost src: seq<UInt>, ghost blits0: nat, ghost i: nat)
    requires AfterUpdates(r, gpu0, src, blits0, i)
    modifies r`gpuData, r`asyncGPUUploadFrame, r`blits
    ensures AfterUpdates(r, gpu0, src, blits0, i + 1)
  {
    r.Update();
  }

  /** The main thread's frames between two iterations of the render thread:
      n updates after a fill. The GPU buffer then holds UploadFrames of the
      current buffer, so its first UploadedLength elements are the source's
      and the len % count elements after the chunks keep their old values;
      exactly one of the updates draws when n reaches the upload count, and
      none before. */
  method UpdatesAfterFill(r: NonBlockingCustomTextureRenderer, n: nat)
    requires r.Valid() && !r.disposed && r.asyncGPUUploadFrame == 0
    modifies r`gpuData, r`asyncGPUUploadFrame, r`blits
    ensures r.Valid() && r.asyncGPUUploadFrame == n
    ensures r.gpuData == UploadFrames(old(r.gpuData), r.currentBuffer[..], r.asyncGPUUploadCount, n)
    ensures UploadedLength(|r.gpuData|, r.asyncGPUUploadCount, n) <= |r.gpuData|
    ensures r.gpuData[..UploadedLength(|r.gpuData|, r.asyncGPUUploadCount, n)] ==
              r.currentBuffer[..UploadedLength(|r.gpuData|, r.asyncGPUUploadCount, n)]
    ensures forall j :: ChunkLength(|r.gpuData|, r.asyncGPUUploadCount) * r.asyncGPUUploadCount <= j < |r.gpuData| ==>
              r.gpuData[j] == old(r.gpuData)[j]
    ensures |r.blits| == |old(r.blits)| + (if n >= r.asyncGPUUploadCount then 1 else 0)
  {
    ghost var gpu0, blits0, src := r.gpuData, |r.blits|, r.currentBuffer[..];
    var i := 0;
    while i < n
      invariant 0 <= i <= n
      invariant AfterUpdates(r, gpu0, src, blits0, i)
    {
      UpdateOnce(r, gpu0, src, blits0, i);
      i := i + 1;
    }
    UploadFramesResult(gpu0, src, r.asyncGPUUploadCount, n);
    OneDrawPerCycle(r.asyncGPUUploadCount, n);
  }
}
