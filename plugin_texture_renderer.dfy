/** The single-buffer producer that the render system polls. A background
    thread repeatedly runs the loop action (a raw fill of the pinned buffer, or
    a custom begin-event callback that supplies the buffer address) and then
    raises the `updated` flag; the main thread takes the address at most once
    per raise. */
module PluginTextureRendering {
  import opened Host
  import FrameTiming

  /** Which of the two constructors built the renderer, and so which action
      the loop runs. */
  datatype LoopAction = RawFillAction | CustomCallbackAction

  class PluginTextureRenderer {
    const loopAction: LoopAction
    const bytesPerPixel: nat := 4
    const targetFrameTimeMilliseconds: FrameTiming.Int32

    var rawCallbackSet: bool        // _rawTextureDataUpdateCallback != null
    var customCallbackSet: bool     // _customTextureUpdateCallback != null
    var targetTexture: Option<Texture>
    var disposed: bool
    var cancelled: bool             // cancellation requested on the thread's token
    var textureBufferPtr: Ptr
    var updated: bool
    var textureWidth: Size
    var textureHeight: Size
    var textureBuffer: array?<UInt> // the pinned uint[] of the raw-callback mode
    var paramsBlock: ParamsBlock?   // the native parameter block of the custom-callback mode
    var textureUpdateParams: UpdateParams
    var userData: UInt
    var calls: seq<ThreadCall>

    ghost predicate Valid()
      reads this
    {
      && (rawCallbackSet ==> loopAction == RawFillAction)
      && (customCallbackSet ==> loopAction == CustomCallbackAction)
      && (disposed <==> !rawCallbackSet && !customCallbackSet)
      && (disposed ==> cancelled && textureBufferPtr == Null && textureBuffer == null)
      && (!disposed ==> !cancelled)
      && (textureBuffer != null ==> textureBuffer.Length == textureWidth * textureHeight)
      && (rawCallbackSet ==> textureBuffer != null && textureBufferPtr != Null)
      && (customCallbackSet ==> paramsBlock != null)
    }

    /** The renderer after Dispose: no callbacks, no buffer, a null pointer and
        a cancelled thread. */
    ghost predicate IsDisposed()
      reads this
    {
      disposed && cancelled && !rawCallbackSet && !customCallbackSet &&
      targetTexture == None && textureBufferPtr == Null && textureBuffer == null
    }

    /** Construction with a raw fill callback: the buffer is created at once
        and pinned at pinnedAddress. */
    constructor WithRawCallback(width: Size, height: Size, targetFrameTime: FrameTiming.Int32, pinnedAddress: Ptr)
      requires pinnedAddress != Null
      requires width * height < 0x8000_0000
      ensures Valid() && !disposed
      ensures loopAction == RawFillAction && targetFrameTimeMilliseconds == targetFrameTime
      ensures textureWidth == width && textureHeight == height
      ensures targetTexture == Some(Texture(width, height, RGBA32))
      ensures fresh(textureBuffer) && textureBuffer.Length == width * height
      ensures forall j :: 0 <= j < textureBuffer.Length ==> textureBuffer[j] == 0
      ensures textureBufferPtr == pinnedAddress && !updated && paramsBlock == null
      ensures userData == 0 && calls == []
    {
      loopAction := RawFillAction;
      targetFrameTimeMilliseconds := targetFrameTime;
      rawCallbackSet := true;
      customCallbackSet := false;
      targetTexture := None;
      disposed := false;
      cancelled := false;
      textureBufferPtr := Null;
      updated := false;
      textureWidth := 0;
      textureHeight := 0;
      textureBuffer := null;
      paramsBlock := null;
      textureUpdateParams := UpdateParams(Null, 0, 0, 0, 0);
      userData := 0;
      calls := [];
      new;
      var _ := CreateTextureBuffer(width, height, pinnedAddress);
    }

    /** Construction with a custom event callback: a native parameter block is
        allocated; the callback itself supplies the buffer address. */
    constructor WithCustomCallback(width: Size, height: Size, targetFrameTime: FrameTiming.Int32)
      requires width * height < 0x8000_0000
      ensures Valid() && !disposed
      ensures loopAction == CustomCallbackAction && targetFrameTimeMilliseconds == targetFrameTime
      ensures textureWidth == width && textureHeight == height
      ensures targetTexture == Some(Texture(width, height, RGBA32))
      ensures textureBuffer == null && paramsBlock != null && fresh(paramsBlock)
      ensures textureBufferPtr == Null && !updated
      ensures userData == 0 && calls == []
    {
      loopAction := CustomCallbackAction;
      targetFrameTimeMilliseconds := targetFrameTime;
      rawCallbackSet := false;
      customCallbackSet := true;
      targetTexture := None;
      disposed := false;
      cancelled := false;
      textureBufferPtr := Null;
      updated := false;
      textureWidth := 0;
      textureHeight := 0;
      textureBuffer := null;
      textureUpdateParams := UpdateParams(Null, 0, 0, 0, 0);
      paramsBlock := null;
      userData := 0;
      calls := [];
      new;
      paramsBlock := new ParamsBlock(textureUpdateParams);
      var _ := CreateTextureBuffer(width, height, Null);
    }

    /** Stops the thread and releases the buffer, once; later calls return at once. */
    method Dispose()
      modifies this`cancelled, this`disposed, this`rawCallbackSet, this`customCallbackSet
      modifies this`targetTexture, this`textureBufferPtr, this`textureBuffer
      ensures old(disposed) ==> unchanged(this)
      ensures !old(disposed) ==> IsDisposed()
      ensures disposed
      ensures old(Valid()) ==> Valid()
    {
      if disposed {
        return;
      }
      cancelled := true;
      disposed := true;
      rawCallbackSet := false;
      customCallbackSet := false;
      targetTexture := None;
      textureBufferPtr := Null;
      if textureBuffer != null {
        textureBuffer := null;
      }
    }

    /** Recreates the texture and, in raw-callback mode, the pinned buffer for a
        new size. pinnedAddress is where the new buffer is pinned; it is used
        only in raw-callback mode. */
    method CreateTextureBuffer(width: Size, height: Size, pinnedAddress: Ptr) returns (p: Ptr)
      requires width * height < 0x8000_0000
      requires rawCallbackSet ==> pinnedAddress != Null
      requires rawCallbackSet ==> loopAction == RawFillAction
      requires customCallbackSet ==> loopAction == CustomCallbackAction
      requires disposed <==> !rawCallbackSet && !customCallbackSet
      requires disposed ==> cancelled
      requires !disposed ==> !cancelled
      modifies this`updated, this`textureBufferPtr, this`textureBuffer, this`targetTexture
      modifies this`textureWidth, this`textureHeight, this`paramsBlock
      ensures Valid()
      ensures !updated && textureWidth == width && textureHeight == height
      ensures targetTexture == Some(Texture(width, height, RGBA32))
      ensures rawCallbackSet ==> fresh(textureBuffer) && textureBuffer.Length == width * height && p == pinnedAddress
      ensures rawCallbackSet ==> forall j :: 0 <= j < textureBuffer.Length ==> textureBuffer[j] == 0
      ensures !rawCallbackSet ==> textureBuffer == null && p == Null
      ensures textureBufferPtr == p
      ensures customCallbackSet ==> fresh(paramsBlock)
      ensures !customCallbackSet ==> paramsBlock == old(paramsBlock)
    {
      updated := false;
      textureBufferPtr := Null;
      if textureBuffer != null {
        textureBuffer := null;
      }
      targetTexture := Some(Texture(width, height, RGBA32));
      textureWidth := width;
      textureHeight := height;
      if rawCallbackSet {
        textureBuffer := new UInt[width * height](_ => 0);
        textureBufferPtr := pinnedAddress;
      }
      if customCallbackSet {
        paramsBlock := new ParamsBlock(textureUpdateParams);
      }
      p := textureBufferPtr;
    }

    /** The read-once handshake with the main thread: the address when a fresh
        frame has been published since the last call, otherwise Null. */
    method GetTextureBufferPtr() returns (p: Ptr)
      modifies this`updated
      ensures p == (if old(updated) then textureBufferPtr else Null)
      ensures !updated
      ensures old(Valid()) ==> Valid()
    {
      if updated {
        updated := false;
        p := textureBufferPtr;
      } else {
        p := Null;
      }
    }

    method SetUserData(data: UInt)
      modifies this`userData
      ensures userData == data
      ensures old(Valid()) ==> Valid()
    {
      userData := data;
    }

    /** The raw loop action: the fill callback writes into the pinned buffer. */
    method RawTextureDataUpdate()
      modifies this`calls
      ensures calls == old(calls) + [RawFill(textureBufferPtr, textureWidth, textureHeight, bytesPerPixel)]
      ensures old(Valid()) ==> Valid()
    {
      calls := calls + [RawFill(textureBufferPtr, textureWidth, textureHeight, bytesPerPixel)];
    }

    /** The custom loop action: the parameters go to the native block, the
        callback gets the begin event, and the texData it wrote (written) becomes
        the buffer address. */
    method IssuePluginCustomTextureUpdate(written: Ptr)
      requires Valid() && customCallbackSet
      modifies this`textureUpdateParams, this`textureBufferPtr, this`calls, paramsBlock
      ensures Valid()
      ensures var sent := old(textureUpdateParams).(width := textureWidth, height := textureHeight,
                                                  bpp := bytesPerPixel, userData := userData);
              && calls == old(calls) + [CustomUpdate(UpdateTextureBeginV2, sent)]
              && textureUpdateParams == sent.(texData := written)
              && paramsBlock.value == textureUpdateParams
      ensures textureBufferPtr == written
    {
      textureUpdateParams := textureUpdateParams.(width := textureWidth, height := textureHeight,
                                                  bpp := bytesPerPixel, userData := userData);
      paramsBlock.value := textureUpdateParams;
      calls := calls + [CustomUpdate(UpdateTextureBeginV2, paramsBlock.value)];
      paramsBlock.value := paramsBlock.value.(texData := written);
      textureUpdateParams := paramsBlock.value;
      textureBufferPtr := textureUpdateParams.texData;
    }

    /** One pass of the background thread's loop: when cancellation has not
        been requested, run the loop action, publish (`updated`), then sleep for
        the rest of the frame time. elapsed is the measured duration of the pass
        and written what a custom callback stores in texData. */
    method RenderThreadIteration(elapsed: FrameTiming.Int64, written: Ptr) returns (ran: bool)
      requires Valid()
      modifies this`updated, this`textureUpdateParams, this`textureBufferPtr, this`calls, paramsBlock
      ensures Valid()
      ensures ran == !cancelled
      ensures !ran ==> unchanged(this) && (paramsBlock != null ==> unchanged(paramsBlock))
      ensures ran ==> updated
      ensures ran && loopAction == RawFillAction ==>
                && textureBufferPtr == old(textureBufferPtr)
                && textureUpdateParams == old(textureUpdateParams)
                && (paramsBlock != null ==> unchanged(paramsBlock))
                && calls == old(calls) + [RawFill(textureBufferPtr, textureWidth, textureHeight, bytesPerPixel)]
                               + SleepCalls(FrameTiming.SleepMilliseconds(targetFrameTimeMilliseconds, elapsed))
      ensures ran && loopAction == CustomCallbackAction ==>
                var sent := old(textureUpdateParams).(width := textureWidth, height := textureHeight,
                                                    bpp := bytesPerPixel, userData := userData);
                && textureBufferPtr == written
                && textureUpdateParams == sent.(texData := written)
                && calls == old(calls) + [CustomUpdate(UpdateTextureBeginV2, sent)]
                               + SleepCalls(FrameTiming.SleepMilliseconds(targetFrameTimeMilliseconds, elapsed))
    {
      if cancelled {
        return false;
      }
      ran := true;
      if loopAction == RawFillAction {
        RawTextureDataUpdate();
      } else {
        IssuePluginCustomTextureUpdate(written);
      }
      updated := true;
      var wait := FrameTiming.SleepMilliseconds(targetFrameTimeMilliseconds, elapsed);
      calls := calls + SleepCalls(wait);
    }
  }
}
