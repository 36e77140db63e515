/** Small client programs over the model, each run through one life cycle of
    a component with concrete values, with what the contracts promise about
    the outcome. */
module Scenarios {
  import opened Host
  import opened PluginTextureRendering
  import NonBlocking
  import DirectRendering
  import AsyncUpload

  /** A published frame is handed to the main thread once: the second poll
      after one iteration of the thread sees Null. */
  method ReadOnceHandshake() returns (first: Ptr, second: Ptr)
    ensures first == 0x100 && second == Null
  {
    var r := new PluginTextureRenderer.WithRawCallback(2, 2, 16, 0x100);
    var ran := r.RenderThreadIteration(5, Null);
    first := r.GetTextureBufferPtr();
    second := r.GetTextureBufferPtr();
  }

  /** The double-buffered renderer with two upload chunks: one iteration of
      the thread fills and exchanges the buffers, and the two updates that
      follow upload both halves and draw the filled frame once. */
  method FillUploadDraw(pixels: seq<UInt>) returns (blits: seq<NonBlocking.Blit>)
    requires |pixels| == 4
    ensures blits == [NonBlocking.Blit(2, 2, pixels)]
  {
    var r := new NonBlocking.NonBlockingCustomTextureRenderer(
      true, NonBlocking.RenderTextureDesc(2, 2, ARGB32), 16, 2, true, true, 0x100, 0x200);
    var ran := r.RenderThreadIteration(5, pixels);
    assert AsyncUpload.ChunkLength(4, 2) == 2;
    assert AsyncUpload.ChunkStart(4, 2, 0) == 0 && AsyncUpload.ChunkStart(4, 2, 1) == 2;
    r.Update();
    assert r.gpuData[..2] == pixels[..2];
    r.Update();
    assert r.gpuData == pixels;
    blits := r.blits;
  }

  /** The direct renderer over one request: the begin event fills the pinned
      buffer and hands out its address, the end event withdraws it; after
      Dispose the callback does nothing and a second Dispose throws. */
  method DirectRequest(pixels: seq<UInt>) returns (during: Ptr, after: Ptr, frame: seq<UInt>, second: Outcome)
    requires |pixels| == 2
    ensures during == 0x100 && after == Null && frame == pixels
    ensures second == Threw(InvalidHandle)
  {
    var r := new DirectRendering.CustomTextureRenderer(true, Texture(2, 1, RGBA32), 4, 0x100);
    r.Update();
    var block := new ParamsBlock(UpdateParams(Null, 2, 1, 4, 0));
    r.TextureUpdateCallback(UpdateTextureBeginV2, block, pixels);
    during := block.value.texData;
    frame := r.buffer[..];
    r.TextureUpdateCallback(UpdateTextureEndV2, block, pixels);
    after := block.value.texData;
    var first := r.Dispose();
    r.TextureUpdateCallback(UpdateTextureBeginV2, block, pixels);
    assert block.value.texData == Null;
    second := r.Dispose();
  }
}
