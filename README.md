# UnityCustomTextureRenderer: a verified model of the texture hand-off core

UnityCustomTextureRenderer lets native plugins fill Unity textures from
pixel buffers. A producer writes pixels into a pinned buffer and publishes
the buffer's address. A dispatcher on the main thread issues texture-update
requests. The render thread's update callback hands the address to Unity on
the begin event and takes it back on the end event.

This project models four runtime classes and proves properties about them:

- `CustomTextureRenderSystem`. The registry of `PluginTextureRenderer`s,
  keyed by a 16-bit id. Each frame it polls every renderer, dispatches the
  ones that are ready and not executing, and clears the Executing flag when
  a readback completes. Its static callback answers begin and end events.
  It is class `RenderSystem.CustomTextureRenderSystem`. One pass of its
  frame is stated as functions in module `Dispatch`.
- `PluginTextureRenderer`. The single-buffer producer: one loop iteration,
  the read-once `GetTextureBufferPtr` handshake, `CreateTextureBuffer`,
  `SetUserData`, the custom-callback update and the guarded `Dispose`
  (class `PluginTextureRendering.PluginTextureRenderer`). The sleep after
  an iteration is modelled in module `FrameTiming`.
- `NonBlockingCustomTextureRenderer`. The double-buffered producer. Each
  iteration fills the next buffer and swaps it with the current one. The
  main thread uploads the current buffer to a GPU buffer in equal chunks,
  one per frame, and blits once the last chunk is in. The class is
  `NonBlocking.NonBlockingCustomTextureRenderer`. The chunk arithmetic and
  the upload as a fold over frames are in module `AsyncUpload`.
- `CustomTextureRenderer`. The direct renderer. Its own callback fills its
  single buffer on the begin event and publishes the address (class
  `DirectRendering.CustomTextureRenderer`).

Notes on the model:

- Addresses are `nat` values, and 0 stands for `IntPtr.Zero`.
- Each loop iteration of a background thread is one method call.
- The fill callbacks are logged in the `calls` field. In
  `NonBlockingCustomTextureRenderer` and `CustomTextureRenderer` the pixels
  a fill writes are a parameter, and the model writes them into the buffer.
  In `PluginTextureRenderer` the fill is only logged: the model does not
  track what it writes into the buffer.
- The host's command buffer, blits and readbacks are logged in fields of
  type `seq`.
- The enumeration order of the renderer dictionary is a parameter of
  `SystemUpdate`. It is any list of the registered ids without
  repetitions.
- One renderer object may be registered under two ids. Only its first
  position in a pass gets its frame; the later positions poll `Null`.
- Exceptions appear as an `Outcome`. The effects made before the throw
  stay.
- Module `Scenarios` holds small client programs with concrete values. One
  shows that a frame is read only once. One runs a fill, two upload chunks
  and a single draw. One runs a full begin/end request and then two
  `Dispose` calls, the second of which throws.

Some behaviours of the code are easy to miss. The model keeps each of
them as written:

- A readback completion indexes the status table directly. So a completion
  for an id removed with `RemoveRenderer` throws `KeyNotFoundException`
  (CustomTextureRenderSystem.cs:182-183). `CompleteReadback` states this
  as a precondition: the id must still have a status entry.
- On the begin event, an id with no stored pointer leaves `texData` as it
  was. The callback does not write null (CustomTextureRenderSystem.cs:208-232).
- `SystemUpdate` polls every renderer, including the ones still executing
  (CustomTextureRenderSystem.cs:169). Such a renderer's frame is consumed
  and its stored pointer overwritten, but no request is issued for it.
- `Dispose` of `NonBlockingCustomTextureRenderer` and of
  `CustomTextureRenderer` has no guard against a second call. That call
  throws `InvalidOperationException` from `GCHandle.Free` on the freed
  handle (NonBlockingCustomTextureRenderer.cs:151,
  CustomTextureRenderer.cs:83), modelled as `Threw(InvalidHandle)`. After
  a failed construction, `NonBlockingCustomTextureRenderer.Dispose` throws
  `NullReferenceException` at `_cts.Cancel()`
  (NonBlockingCustomTextureRenderer.cs:147). The `Dispose` methods of
  `PluginTextureRenderer` and `CustomTextureRenderSystem` are guarded and
  return at once on a second call.
- The frame shared by all readbacks of a batch, under "## Findings".

## Model

| member | source | states |
|---|---|---|
| RenderSystem.CustomTextureRenderSystem.constructor | Assets/CustomTextureRenderer/Runtime/CustomTextureRenderSystem.cs:54-70 | A new system is not initialized or disposed. Its three tables and all logs are empty, and the counter is 0. |
| RenderSystem.CustomTextureRenderSystem.Initialize | Assets/CustomTextureRenderer/Runtime/CustomTextureRenderSystem.cs:90-106 | A second call changes nothing. The first creates the command buffer and the id buffer. Afterwards the system is initialized. |
| RenderSystem.CustomTextureRenderSystem.Dispose | Assets/CustomTextureRenderer/Runtime/CustomTextureRenderSystem.cs:108-133 | A second call changes nothing. The first disposes every registered renderer and empties the renderer and pointer tables. The status table survives. It throws NullReference when the system was never initialized. |
| RenderSystem.CustomTextureRenderSystem.AddRenderer | Assets/CustomTextureRenderer/Runtime/CustomTextureRenderSystem.cs:135-148 | It returns the counter value as the id, registers the renderer with an idle status and advances the counter modulo 65536. If the id is still taken (after the counter wraps), it returns -1 and changes nothing. |
| RenderSystem.CustomTextureRenderSystem.RemoveRenderer | Assets/CustomTextureRenderer/Runtime/CustomTextureRenderSystem.cs:150-155 | It deletes the id from all three tables and leaves every other entry. Removing an absent id changes nothing. |
| RenderSystem.CustomTextureRenderSystem.SystemUpdate | Assets/CustomTextureRenderer/Runtime/CustomTextureRenderSystem.cs:160-189 | Once disposed it changes nothing. Otherwise the new pointer table, flags, id buffer, executed batch and pending readbacks are the `Dispatch` functions of the pointers polled from the old state, and no renderer has an unconsumed frame left. |
| RenderSystem.CustomTextureRenderSystem.PollRenderers | Assets/CustomTextureRenderer/Runtime/CustomTextureRenderSystem.cs:164-186 | The loop over the renderers stores each polled pointer, marks each dispatched id and records its two commands. It ends in the state that `StorePointers`, `MarkExecuting`, `LastOr` and `CommandsFor` give. |
| RenderSystem.CustomTextureRenderSystem.Poll | Assets/CustomTextureRenderer/Runtime/CustomTextureRenderSystem.cs:169 | The pointer polled at a position is the published address when that renderer has a frame and this is its first position in the pass, otherwise `Null`. The poll consumes the frame. |
| RenderSystem.CustomTextureRenderSystem.StoreAndDispatch | Assets/CustomTextureRenderer/Runtime/CustomTextureRenderSystem.cs:169-184 | One iteration extends the pass by one position. It stores the pointer, and when the pointer is non-null and the id idle it writes the id buffer, sets Executing and appends the request and the readback. |
| RenderSystem.CustomTextureRenderSystem.ExecuteCommandBuffer | Assets/CustomTextureRenderer/Runtime/CustomTextureRenderSystem.cs:188-189 | The recorded batch runs with the id buffer's current value, so every readback in it reports that value. The command buffer is then cleared. |
| RenderSystem.CustomTextureRenderSystem.CompleteReadback | Assets/CustomTextureRenderer/Runtime/CustomTextureRenderSystem.cs:180-184 | The completion clears the flag of the id in the low 16 bits of the reported value and changes no other flag. The id must still have a status entry. |
| RenderSystem.CustomTextureRenderSystem.TextureUpdateCallback | Assets/CustomTextureRenderer/Runtime/CustomTextureRenderSystem.cs:208-232 | On begin, `texData` becomes the stored pointer of the id in `userData` when there is one, and stays as it was otherwise. On end it becomes null. Other events change nothing. |
| RenderSystem.EveryRendererPolled | Assets/CustomTextureRenderer/Runtime/CustomTextureRenderSystem.cs:164-169 | A pass that visits every registered id leaves no registered renderer with an unconsumed frame. |
| Dispatch.DispatchedExactly | Assets/CustomTextureRenderer/Runtime/CustomTextureRenderSystem.cs:171-172 | An id is dispatched if and only if it was polled with a non-null pointer while its flag was clear. |
| Dispatch.DispatchedIdle | Assets/CustomTextureRenderer/Runtime/CustomTextureRenderSystem.cs:171-177 | Every dispatched id was visited, is registered and was idle. An enumeration without repetitions dispatches each id at most once. |
| Dispatch.StorePointersAt | Assets/CustomTextureRenderer/Runtime/CustomTextureRenderSystem.cs:169 | Each visited id holds its freshly polled pointer, which overwrites the old one even for an executing id. Ids not visited keep theirs. |
| Dispatch.MarkExecutingAt | Assets/CustomTextureRenderer/Runtime/CustomTextureRenderSystem.cs:177 | After the pass, an id is executing exactly when it was before or was dispatched. |
| Dispatch.CommandsForCounts | Assets/CustomTextureRenderer/Runtime/CustomTextureRenderSystem.cs:179-184 | Each dispatched id records one update request tagged with it plus one readback. The batch holds two commands per dispatched id. |
| Dispatch.OnePassDispatchesReadyIdleIdsOnce | Assets/CustomTextureRenderer/Runtime/CustomTextureRenderSystem.cs:164-186 | In one pass an id gets exactly one request when it was polled ready and was idle, and none otherwise. Afterwards it is executing exactly when it was before or was polled ready. |
| Dispatch.PassStep | Assets/CustomTextureRenderer/Runtime/CustomTextureRenderSystem.cs:169-177 | Visiting one more position stores its pointer and dispatches its id exactly when the pointer is non-null and the flag was clear at the start of the pass, because no earlier position touched that flag. |
| Dispatch.ReadbackDataAsWrittenOfPass | Assets/CustomTextureRenderer/Runtime/CustomTextureRenderSystem.cs:174-184 | As written, every readback of a batch reports the single value the id buffer holds when the batch runs. |
| Dispatch.ReadbackDataOfPass | Assets/CustomTextureRenderer/Runtime/CustomTextureRenderSystem.cs:174-184 | With a tag per request, the readbacks of a batch report exactly the dispatched ids, in order. |
| Dispatch.CompleteAllAt | Assets/CustomTextureRenderer/Runtime/CustomTextureRenderSystem.cs:180-184 | After a list of completions, an id's flag is set exactly when it was set before and no completion reported it. |
| Dispatch.SubmitKeepsOneInFlight | Assets/CustomTextureRenderer/Runtime/CustomTextureRenderSystem.cs:171-184 | With a tag per request, a pass keeps the protocol. Every id has at most one outstanding readback, and it has one exactly while its flag is set. |
| Dispatch.CompleteKeepsOneInFlight | Assets/CustomTextureRenderer/Runtime/CustomTextureRenderSystem.cs:180-184 | Completing any outstanding readback of a registered id keeps that protocol. |
| Dispatch.PerRequestReadbacksClearEveryFlag | Assets/CustomTextureRenderer/Runtime/CustomTextureRenderSystem.cs:174-184 | With a tag per request, once a pass's readbacks have all completed, every dispatched id is idle again and every other flag is as before. |
| Dispatch.TwoReadyRenderersDispatched | Assets/CustomTextureRenderer/Runtime/CustomTextureRenderSystem.cs:171-177 | Two idle ids that are both ready in one frame are both dispatched and both marked executing. |
| Dispatch.TwoReadbacksReportLastId | Assets/CustomTextureRenderer/Runtime/CustomTextureRenderSystem.cs:174-184 | As written, both readbacks of those two requests report id 1. |
| Dispatch.LastIdTagsStrandFirst | Assets/CustomTextureRenderer/Runtime/CustomTextureRenderSystem.cs:180-184 | Two completions that both report id 1 break the protocol and leave id 0 executing. |
| Dispatch.SharedIdBufferStrandsEarlierRenderer | Assets/CustomTextureRenderer/Runtime/CustomTextureRenderSystem.cs:171-184 | The whole counterexample, as written: two dispatched ids, two readbacks that both report the last one, and the first id still executing once both complete. |
| FrameTiming.TruncateToInt32 | Assets/CustomTextureRenderer/Runtime/PluginTextureRenderer.cs:249 | The unchecked `(int)` of a long is congruent to it modulo 2^32. It is the identity on values in the int range. |
| FrameTiming.WaitForNextFrameMilliseconds | Assets/CustomTextureRenderer/Runtime/PluginTextureRenderer.cs:249 | The wait is target minus elapsed whenever that difference fits in an int. |
| FrameTiming.SleepMilliseconds | Assets/CustomTextureRenderer/Runtime/PluginTextureRenderer.cs:249-253 | The thread sleeps only when the wait is positive, and then for exactly the wait. Without wrap-around that means target minus elapsed when elapsed is below the target, and no sleep otherwise. |
| PluginTextureRendering.PluginTextureRenderer.WithRawCallback | Assets/CustomTextureRenderer/Runtime/PluginTextureRenderer.cs:51-73 | A raw-callback renderer starts running. Its texture has the requested size, its fresh buffer has width times height elements, it publishes at the pinned address, and it has no pending frame. |
| PluginTextureRendering.PluginTextureRenderer.WithCustomCallback | Assets/CustomTextureRenderer/Runtime/PluginTextureRenderer.cs:75-99 | A custom-callback renderer starts running with a fresh parameter block, no buffer, a null address and no pending frame. |
| PluginTextureRendering.PluginTextureRenderer.Dispose | Assets/CustomTextureRenderer/Runtime/PluginTextureRenderer.cs:101-127 | A second call changes nothing. After the first, the renderer is disposed and cancelled. Both callbacks, the texture and the buffer are gone, and the address is zero. |
| PluginTextureRendering.PluginTextureRenderer.CreateTextureBuffer | Assets/CustomTextureRenderer/Runtime/PluginTextureRenderer.cs:135-169 | It clears the pending frame and sets the new size and an RGBA32 texture. A raw-callback renderer gets a fresh buffer of width times height elements and returns its non-null address. In custom mode it returns zero. |
| PluginTextureRendering.PluginTextureRenderer.GetTextureBufferPtr | Assets/CustomTextureRenderer/Runtime/PluginTextureRenderer.cs:171-182 | With a pending frame it returns the address and clears the flag. Otherwise it returns zero. |
| PluginTextureRendering.PluginTextureRenderer.SetUserData | Assets/CustomTextureRenderer/Runtime/PluginTextureRenderer.cs:184-187 | It stores the user data and nothing else. |
| PluginTextureRendering.PluginTextureRenderer.RawTextureDataUpdate | Assets/CustomTextureRenderer/Runtime/PluginTextureRenderer.cs:192-195 | The fill callback is called once with the buffer address, the size and 4 bytes per pixel. |
| PluginTextureRendering.PluginTextureRenderer.IssuePluginCustomTextureUpdate | Assets/CustomTextureRenderer/Runtime/PluginTextureRenderer.cs:200-216 | The callback gets the begin event with the current width, height, bpp 4 and user data. The address becomes whatever `texData` the callback wrote. |
| PluginTextureRendering.PluginTextureRenderer.RenderThreadIteration | Assets/CustomTextureRenderer/Runtime/PluginTextureRenderer.cs:227-253 | Once cancelled, an iteration does nothing. Otherwise it runs the loop action, then publishes the frame, then sleeps for the rest of the frame time. |
| AsyncUpload.Coverage | Assets/CustomTextureRenderer/Runtime/NonBlockingCustomTextureRenderer.cs:184-189 | The count chunks cover `(len / count) * count` elements. The `len % count` elements after them are never copied. |
| AsyncUpload.ChunkInBounds | Assets/CustomTextureRenderer/Runtime/NonBlockingCustomTextureRenderer.cs:186-188 | The chunk of every frame below count lies inside the buffer. |
| AsyncUpload.ChunksDisjoint | Assets/CustomTextureRenderer/Runtime/NonBlockingCustomTextureRenderer.cs:186-188 | Chunks of different frames do not overlap. |
| AsyncUpload.ChunksCover | Assets/CustomTextureRenderer/Runtime/NonBlockingCustomTextureRenderer.cs:184-189 | An element lies in some frame's chunk if and only if it is below `(len / count) * count`. |
| AsyncUpload.CopyRange | Assets/CustomTextureRenderer/Runtime/NonBlockingCustomTextureRenderer.cs:188 | `SetData(src, start, start, n)` replaces exactly the elements in `[start, start + n)` with those of the source and leaves the rest. |
| AsyncUpload.UploadStepExtends | Assets/CustomTextureRenderer/Runtime/NonBlockingCustomTextureRenderer.cs:184-191 | One upload step below count extends the agreeing prefix by exactly one chunk. |
| AsyncUpload.UploadFramesPrefix | Assets/CustomTextureRenderer/Runtime/NonBlockingCustomTextureRenderer.cs:184-191 | After n frames of a cycle, the GPU buffer agrees with the source on the first `(len / count) * min(n, count)` elements. |
| AsyncUpload.UploadFramesKeepTail | Assets/CustomTextureRenderer/Runtime/NonBlockingCustomTextureRenderer.cs:184-191 | The elements from `(len / count) * count` on keep whatever the GPU buffer held before. |
| AsyncUpload.OneDrawPerCycle | Assets/CustomTextureRenderer/Runtime/NonBlockingCustomTextureRenderer.cs:198-209 | Among the n updates after a fill, exactly one draws when n is at least count, and none draws before that. |
| NonBlocking.UpdatesAfterFill | Assets/CustomTextureRenderer/Runtime/NonBlockingCustomTextureRenderer.cs:167-209 | After n updates following a fill, the GPU buffer is `UploadFrames` of the current buffer. Its first `(len / count) * min(n, count)` elements are the source's, and the elements after the count chunks keep their old values. The updates add exactly one draw when n is at least the upload count, and none before. |
| NonBlocking.NonBlockingCustomTextureRenderer.constructor | Assets/CustomTextureRenderer/Runtime/NonBlockingCustomTextureRenderer.cs:76-143 | Construction fails, leaving the renderer disposed with no buffers and no thread, exactly when compute shaders are unsupported, the shader is missing or the format is not ARGB32. Otherwise it makes two fresh, distinct buffers of width times height pinned at two distinct addresses, and clamps the upload count to at least 1. |
| NonBlocking.NonBlockingCustomTextureRenderer.TwoBuffersCirculate | Assets/CustomTextureRenderer/Runtime/NonBlockingCustomTextureRenderer.cs:230-234 | The current and next buffers and addresses are always the constructor's two. The original assignment holds exactly after an even number of iterations. |
| NonBlocking.NonBlockingCustomTextureRenderer.RenderThreadIteration | Assets/CustomTextureRenderer/Runtime/NonBlockingCustomTextureRenderer.cs:220-253 | Once cancelled, an iteration does nothing. Otherwise the fill, when set, writes the next buffer at its address. The two buffers and their addresses are then swapped, the upload restarts at frame 0, and the thread sleeps for the rest of the frame time. |
| NonBlocking.NonBlockingCustomTextureRenderer.SwapBuffers | Assets/CustomTextureRenderer/Runtime/NonBlockingCustomTextureRenderer.cs:233-237 | It swaps both pairs and resets the frame counter. |
| NonBlocking.NonBlockingCustomTextureRenderer.AsyncGPUUpload | Assets/CustomTextureRenderer/Runtime/NonBlockingCustomTextureRenderer.cs:174-196 | The GPU buffer becomes `UploadStep` of the current buffer at the frame counter, and the counter advances by one. |
| NonBlocking.NonBlockingCustomTextureRenderer.Render | Assets/CustomTextureRenderer/Runtime/NonBlockingCustomTextureRenderer.cs:198-209 | It blits exactly when the frame counter equals the upload count. The GPU buffer then holds every chunk of the current buffer. |
| NonBlocking.NonBlockingCustomTextureRenderer.Update | Assets/CustomTextureRenderer/Runtime/NonBlockingCustomTextureRenderer.cs:167-172 | Once disposed, it does nothing. Otherwise it does one upload step, and it draws when that step took the counter to the upload count. |
| NonBlocking.NonBlockingCustomTextureRenderer.Dispose | Assets/CustomTextureRenderer/Runtime/NonBlockingCustomTextureRenderer.cs:145-165 | After a failed construction it throws NullReference and changes nothing. Otherwise it cancels the thread and zeroes both addresses, and releases the buffers, callback, texture and GPU buffer. A second call throws InvalidHandle. |
| DirectRendering.CustomTextureRenderer.constructor | Assets/CustomTextureRenderer/Runtime/CustomTextureRenderer.cs:49-76 | A texture that is not RGBA32 leaves the renderer disposed with no buffer. Otherwise a fresh zeroed buffer of width times height is pinned at a non-null address. |
| DirectRendering.CustomTextureRenderer.Dispose | Assets/CustomTextureRenderer/Runtime/CustomTextureRenderer.cs:78-90 | The address becomes zero, and the buffer, callback and texture are dropped. Freeing a handle that holds no pinning throws InvalidHandle and changes nothing. That happens after a refused construction or on a second call. |
| DirectRendering.CustomTextureRenderer.Update | Assets/CustomTextureRenderer/Runtime/CustomTextureRenderer.cs:92-100 | While not disposed it issues exactly one request tagged 0, and none once disposed. |
| DirectRendering.CustomTextureRenderer.TextureUpdateCallback | Assets/CustomTextureRenderer/Runtime/CustomTextureRenderer.cs:107-131 | While the address is zero, no event changes anything. On begin the fill, when set, writes the pixels into the single buffer, and then `texData` becomes that buffer's pinned address, the same on every begin. On end `texData` becomes null. |
| Scenarios.ReadOnceHandshake | Assets/CustomTextureRenderer/Runtime/PluginTextureRenderer.cs:171-182 | After one iteration, two polls return the address and then zero. |
| Scenarios.FillUploadDraw | Assets/CustomTextureRenderer/Runtime/NonBlockingCustomTextureRenderer.cs:167-209 | With two chunks, a fill followed by two updates draws once, with exactly the filled pixels. |
| Scenarios.DirectRequest | Assets/CustomTextureRenderer/Runtime/CustomTextureRenderer.cs:78-131 | A begin/end request publishes the filled buffer and then null. After `Dispose` the callback does nothing. A second `Dispose` throws. |

## Left out

- Threads, cancellation tokens, `Stopwatch`, `Thread.Sleep` and `Interlocked.Exchange`. Each loop iteration is one atomic method call, and a sleep is logged as a `Sleep` entry. Interleavings between the threads inside an iteration are not modelled.
- The target frame time `(int)(1000.0f / rate)` involves floating point. It is a given `Int32` parameter. The elapsed milliseconds of an iteration are a given `Int64` parameter.
- NonBlocking.NonBlockingCustomTextureRenderer.Update: the `int` frame counter `_asyncGPUUploadFrame` is an unbounded `nat`. It would wrap after 2^31 updates without an iteration.
- Unity objects (`CommandBuffer`, `ComputeBuffer`, `Material`, `Texture2D`, `RenderTexture`, `Resources.Load`, `SystemInfo`) appear only as logs, boolean inputs or descriptions of size and format. `Application.quitting` and `autoDispose` are not modelled.
- `GCHandle`, `Marshal.AllocHGlobal`/`FreeHGlobal`, `StructureToPtr`/`PtrToStructure` and unsafe pointers. Pinned addresses are distinct non-zero parameters, and a handle is a boolean. A parameter block is a `ParamsBlock` object. `FreeHGlobal` of the old block in `CreateTextureBuffer` is not modelled.
- The `CustomTextureRenderSystem.Instance` singleton lookup and the `Awake`/`LateUpdate` hooks. `SystemUpdate` requires an initialized system, as `Awake` guarantees.
- The static dictionaries of `CustomTextureRenderSystem` are fields of one system object. Sharing them between several instances is not modelled.
- A `width * height` product that overflows `int`, and a negative size. Every constructor, and `PluginTextureRenderer.CreateTextureBuffer`, requires the product to be below 2^31. The source's `new uint[width * height]` would throw instead.
- A null target texture passed to a constructor, and a negative `bytesPerPixel` for `CustomTextureRenderer`.
- PluginTextureRendering.PluginTextureRenderer.WithRawCallback, PluginTextureRendering.PluginTextureRenderer.WithCustomCallback: a null callback is not modelled. Both constructors store the callback without a null check. In editor and development builds the log string then throws `NullReferenceException` inside the constructor (PluginTextureRenderer.cs:60, :84). In release builds the render thread faults on its first call (PluginTextureRenderer.cs:194). The model always has a callback set.
- PluginTextureRendering.PluginTextureRenderer.RawTextureDataUpdate: it logs the fill call but does not model the pixels written into the buffer. The render system passes on only the address, never the contents.
- NonBlocking.NonBlockingCustomTextureRenderer.constructor: `hasCallback == false` (a null fill function) models release builds only. There the renderer runs with no fill. In editor and development builds, the log message at NonBlockingCustomTextureRenderer.cs:109 reads `.Target` of the null function and throws `NullReferenceException` inside the constructor. That leaves `_disposed` false, no buffers, no cancellation source and the `Application.quitting` handler registered. The model does not capture that state.
- Logging and profiler samplers. They are kept out because they have no effect on the state, except where a log message dereferences a null callback. Those cases are listed above, under the constructors they affect.
- The native plugins (`Plugins/`) and the sample scripts.
- A scenario of the render system over concrete renderer objects. The shared-buffer counterexample is proved on the `Dispatch` functions, which `SystemUpdate` is proved equal to.

## Findings

| source | as written | input that shows it | evidently intended | confidence | as-written member | corrected member |
|---|---|---|---|---|---|---|
| Assets/CustomTextureRenderer/Runtime/CustomTextureRenderSystem.cs:174-184 | All requests of a frame share the one-element id buffer. `SetData` writes it once per dispatched id, but the readbacks run only at `ExecuteCommandBuffer`. So every readback of the frame reports the last id dispatched. | Ids 0 and 1 both publish a frame while idle. Both are dispatched and both readbacks report 1. Id 0 stays Executing for good, so it is never dispatched again. | Each readback reports the id of its own request. At most one request is then in flight per id, and each completion clears its own id. | not executed | Dispatch.SharedIdBufferStrandsEarlierRenderer | Dispatch.SubmitKeepsOneInFlight |
