/** The direct renderer: one pinned buffer that the host's render thread fills
    and uploads in the texture-update callback of a request the main thread
    issues every frame. */
module DirectRendering {
  import opened Host

  class CustomTextureRenderer {
    const textureWidth: Size
    const textureHeight: Size
    const bytesPerPixel: nat
    ghost const pinnedAddress: Ptr      // where the runtime pins the buffer

    var disposed: bool
    var fillSet: bool                   // _updateRawTextureDataFunction != null
    var targetTexture: Option<Texture>
    var buffer: array?<UInt>
    var handleAllocated: bool           // _bufferHandle holds the pinning
    var bufferPtr: Ptr
    var requests: seq<UInt>             // the userData of every texture-update request executed
    var calls: seq<ThreadCall>          // the fill calls the callback makes on the render thread

    /** After Dispose, or after a construction that refused the format: no
        pinning, no buffer, a null address, no callback and no texture. */
    ghost predicate Released()
      reads this
    {
      disposed && !handleAllocated && buffer == null && bufferPtr == Null &&
      !fillSet && targetTexture == None
    }

    /** Until disposed, the buffer of width * height pixels is pinned at its
        address and the texture it feeds is an RGBA32 texture of that size. */
    ghost predicate Valid()
      reads this
    {
      && pinnedAddress != Null
      && (disposed ==> Released())
      && (!disposed ==>
            && handleAllocated && buffer != null && bufferPtr == pinnedAddress
            && buffer.Length == textureWidth * textureHeight
            && targetTexture == Some(Texture(textureWidth, textureHeight, RGBA32)))
    }

    /** Construction: a texture in any format but RGBA32 leaves the renderer
        disposed with nothing allocated; otherwise a zeroed buffer of
        width * height pixels is allocated and pinned at pinnedAddress. */
    constructor (hasFill: bool, texture: Texture, bytesPerPixel: nat, pinnedAddress: Ptr)
      requires pinnedAddress != Null
      requires texture.width < 0x8000_0000 && texture.height < 0x8000_0000
      requires texture.width * texture.height < 0x8000_0000
      ensures Valid() && this.pinnedAddress == pinnedAddress
      ensures disposed <==> texture.format != RGBA32
      ensures disposed ==> textureWidth == 0 && textureHeight == 0 && this.bytesPerPixel == 0
      ensures !disposed ==>
                && textureWidth == texture.width && textureHeight == texture.height
                && this.bytesPerPixel == bytesPerPixel
                && fillSet == hasFill && targetTexture == Some(texture)
                && fresh(buffer) && (forall j :: 0 <= j < buffer.Length ==> buffer[j] == 0)
                && bufferPtr == pinnedAddress
      ensures requests == [] && calls == []
    {
      this.pinnedAddress := pinnedAddress;
      requests := [];
      calls := [];
      if texture.format != RGBA32 {
        textureWidth := 0;
        textureHeight := 0;
        this.bytesPerPixel := 0;
        disposed := true;
        fillSet := false;
        targetTexture := None;
        buffer := null;
        handleAllocated := false;
        bufferPtr := Null;
      } else {
        textureWidth := texture.width;
        textureHeight := texture.height;
        this.bytesPerPixel := bytesPerPixel;
        disposed := false;
        fillSet := hasFill;
        targetTexture := Some(texture);
        buffer := new UInt[texture.width * texture.height](_ => 0);
        handleAllocated := true;
        bufferPtr := pinnedAddress;
      }
    }

    /** Dispose is not guarded: the address is cleared first, and freeing a
        handle that holds no pinning (after a refused construction or a
        previous Dispose) throws, leaving the rest as it was. */
    method Dispose() returns (outcome: Outcome)
      requires Valid()
      modifies this`disposed, this`bufferPtr, this`handleAllocated, this`buffer
      modifies this`fillSet, this`targetTexture
      ensures Valid() && Released()
      ensures outcome == (if old(disposed) then Threw(InvalidHandle) else Completed)
      ensures old(disposed) ==> unchanged(this)
    {
      disposed := true;
      bufferPtr := Null;
      if !handleAllocated {
        return Threw(InvalidHandle);
      }
      handleAllocated := false;
      buffer := null;
      fillSet := false;
      targetTexture := None;
      return Completed;
    }

    /** The per-frame request: while not disposed, one texture-update request
        with user data 0 is recorded and executed at once. */
    method Update()
      requires Valid()
      modifies this`requests
      ensures Valid()
      ensures requests == old(requests) + (if disposed then [] else [0])
    {
      if disposed {
        return;
      }
      requests := requests + [0];
    }

    /** The callback the render thread runs for a request. Nothing happens
        once the address is null. On the begin event the fill (if set) writes
        pixels into the pinned buffer and texData becomes the buffer's address;
        on the end event texData becomes null. */
    method TextureUpdateCallback(eventId: RenderingEvent, data: ParamsBlock, pixels: seq<UInt>)
      requires Valid()
      requires !disposed ==> |pixels| == buffer.Length
      modifies this`calls, data, buffer
      ensures Valid()
      ensures bufferPtr == Null || eventId.OtherEvent? ==>
                calls == old(calls) && data.value == old(data.value) && (buffer != null ==> unchanged(buffer))
      ensures bufferPtr != Null && eventId == UpdateTextureBeginV2 ==>
                && data.value == old(data.value).(texData := bufferPtr) && bufferPtr == pinnedAddress
                && calls == old(calls) + (if fillSet then [RawFill(bufferPtr, textureWidth, textureHeight, bytesPerPixel)] else [])
                && buffer[..] == (if fillSet then pixels else old(buffer[..]))
      ensures bufferPtr != Null && eventId == UpdateTextureEndV2 ==>
                calls == old(calls) && data.value == old(data.value).(texData := Null) && unchanged(buffer)
    {
      if bufferPtr == Null {
        return;
      }
      if eventId == UpdateTextureBeginV2 {
        if fillSet {
          calls := calls + [RawFill(bufferPtr, textureWidth, textureHeight, bytesPerPixel)];
          Fill(buffer, pixels);
        }
        data.value := data.value.(texData := bufferPtr);
      } else if eventId == UpdateTextureEndV2 {
        data.value := data.value.(texData := Null);
      }
    }
  }
}
