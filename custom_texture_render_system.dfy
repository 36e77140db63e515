/** The registry and per-frame dispatcher: three tables keyed by a 16-bit
    renderer id (the renderers, the last polled buffer address, the Executing
    flag), a wrapping id counter, and the command buffer that carries one
    texture-update request and one id readback per dispatched renderer. */
module RenderSystem {
  import opened Host
  import opened Dispatch
  import PluginTextureRendering

  type Renderer = PluginTextureRendering.PluginTextureRenderer

  /** The renderer objects a pass over order visits, position by position
      (one object may be registered under several ids). */
  function RenderersAt(renderers: map<Id, Renderer>, order: seq<Id>): (rs: seq<Renderer>)
    requires forall k :: 0 <= k < |order| ==> order[k] in renderers
    ensures |rs| == |order|
    ensures forall k :: 0 <= k < |order| ==> rs[k] == renderers[order[k]]
  {
    seq(|order|, k requires 0 <= k < |order| => renderers[order[k]])
  }

  /** The first position of x in s. */
  function IndexOf<T(==)>(s: seq<T>, x: T): (j: nat)
    requires x in s
    ensures j < |s| && s[j] == x
  {
    if s[0] == x then 0 else 1 + IndexOf(s[1..], x)
  }

  /** No position before IndexOf(s, x) holds x. */
  lemma {:induction false} IndexOfIsFirst<T>(s: seq<T>, x: T, m: nat)
    requires m < |s| && s[m] == x
    ensures IndexOf(s, x) <= m
  {
    if s[0] != x {
      IndexOfIsFirst(s[1..], x, m - 1);
    }
  }

  /** What a renderer offers the main thread at the start of a pass: whether
      a frame has been published since the last poll, and its buffer address. */
  datatype Publication = Publication(updated: bool, ptr: Ptr)

  /** The publications of the renderers rs in the current state. */
  ghost function Publications(rs: seq<Renderer>): (ps: seq<Publication>)
    reads set r | r in rs
    ensures |ps| == |rs|
    ensures forall k :: 0 <= k < |rs| ==> ps[k] == Publication(rs[k].updated, rs[k].textureBufferPtr)
  {
    if rs == [] then [] else
      var n := |rs| - 1;
      Publications(rs[..n]) + [Publication(rs[n].updated, rs[n].textureBufferPtr)]
  }

  /** The address each position k of a pass obtains from the renderer rs[k],
      whose publication at the start of the pass is ps[k]: the address when a
      frame was published and k is the first position of that object (an
      earlier poll of the same object consumed the frame), otherwise Null. */
  function Polled(rs: seq<Renderer>, ps: seq<Publication>): (polled: seq<Ptr>)
    requires |ps| == |rs|
    ensures |polled| == |rs|
  {
    seq(|rs|, k requires 0 <= k < |rs| =>
      if ps[k].updated && IndexOf(rs, rs[k]) == k then ps[k].ptr else Null)
  }

  /** A pass that consumed the frame at every position leaves no renderer of
      the table with a pending frame. */
  lemma EveryRendererPolled(renderers: map<Id, Renderer>, order: seq<Id>, rs: seq<Renderer>)
    requires forall id :: id in renderers ==> id in order
    requires |rs| == |order|
    requires forall k :: 0 <= k < |order| ==> order[k] in renderers && rs[k] == renderers[order[k]]
    requires forall k :: 0 <= k < |order| ==> !rs[k].updated
    ensures forall r :: r in renderers.Values ==> !r.updated
  {
    forall r | r in renderers.Values
      ensures !r.updated
    {
      var id :| id in renderers && renderers[id] == r;
      var k :| 0 <= k < |order| && order[k] == id;
      assert rs[k] == r;
    }
  }

  /** Once a pass has gone past every first position, no renderer it visits
      has a pending frame. */
  lemma AllConsumed(rs: seq<Renderer>, ps: seq<Publication>)
    requires |ps| == |rs|
    requires forall k :: 0 <= k < |rs| ==> rs[k].updated == (ps[k].updated && |rs| <= IndexOf(rs, rs[k]))
    ensures forall k :: 0 <= k < |rs| ==> !rs[k].updated
  {
  }

  class CustomTextureRenderSystem {
    var initialized: bool
    var disposed: bool
    var resourcesAlive: bool                  // _commandBuffer and _rendererIdComputeBuffer are non-null
    var idComputeBuffer: UInt                  // the one element of _rendererIdComputeBuffer
    var rendererRegistrationCount: Id
    var textureRenderers: map<Id, Renderer>
    var textureBufferPtrs: map<Id, Ptr>
    var executing: map<Id, bool>               // the Executing flag of each status entry
    var commandBuffer: seq<Command>
    var executed: seq<Batch>                   // every Graphics.ExecuteCommandBuffer, in order
    var pendingReadbacks: seq<UInt>            // readbacks executed whose completion has not run, with the data each reports

    /** Every registered id has a status entry and every stored pointer a
        registered renderer; the command buffer is empty between frames; while
        not disposed, the native resources exist exactly when initialized. */
    ghost predicate Valid()
      reads this
    {
      && textureRenderers.Keys <= executing.Keys
      && textureBufferPtrs.Keys <= textureRenderers.Keys
      && commandBuffer == []
      && (!disposed ==> (resourcesAlive <==> initialized))
    }

    constructor ()
      ensures Valid() && !initialized && !disposed && !resourcesAlive
      ensures rendererRegistrationCount == 0
      ensures textureRenderers == map[] && textureBufferPtrs == map[] && executing == map[]
      ensures executed == [] && pendingReadbacks == []
    {
      initialized := false;
      disposed := false;
      resourcesAlive := false;
      idComputeBuffer := 0;
      rendererRegistrationCount := 0;
      textureRenderers := map[];
      textureBufferPtrs := map[];
      executing := map[];
      commandBuffer := [];
      executed := [];
      pendingReadbacks := [];
    }

    /** Creates the command buffer and the id buffer, once. */
    method Initialize()
      modifies this`initialized, this`resourcesAlive, this`commandBuffer
      ensures old(initialized) ==> unchanged(this)
      ensures !old(initialized) ==> resourcesAlive && commandBuffer == []
      ensures initialized
      ensures old(Valid()) ==> Valid()
    {
      if initialized {
        return;
      }
      commandBuffer := [];
      resourcesAlive := true;
      initialized := true;
    }

    /** Disposes every renderer and empties the renderer and pointer tables
        (the status table stays), then releases the native resources, which
        throws when they were never created. A second call returns at once. */
    method Dispose() returns (outcome: Outcome)
      modifies this`disposed, this`textureRenderers, this`textureBufferPtrs, this`resourcesAlive
      modifies textureRenderers.Values`cancelled, textureRenderers.Values`disposed, textureRenderers.Values`rawCallbackSet, textureRenderers.Values`customCallbackSet
      modifies textureRenderers.Values`targetTexture, textureRenderers.Values`textureBufferPtr, textureRenderers.Values`textureBuffer
      ensures old(disposed) ==> unchanged(this) && outcome == Completed
      ensures old(disposed) ==> forall r :: r in old(textureRenderers.Values) ==> unchanged(r)
      ensures !old(disposed) ==>
                && disposed && !resourcesAlive
                && textureRenderers == map[] && textureBufferPtrs == map[]
                && outcome == (if old(resourcesAlive) then Completed else Threw(NullReference))
      ensures !old(disposed) ==> forall r :: r in old(textureRenderers.Values) ==>
                r.disposed && (!old(r.disposed) ==> r.IsDisposed()) && (old(r.Valid()) ==> r.Valid())
      ensures executing == old(executing)
      ensures old(Valid()) ==> Valid()
    {
      if disposed {
        return Completed;
      }
      disposed := true;
      var remaining := textureRenderers.Values;
      while remaining != {}
        modifies textureRenderers.Values`cancelled, textureRenderers.Values`disposed, textureRenderers.Values`rawCallbackSet, textureRenderers.Values`customCallbackSet
        modifies textureRenderers.Values`targetTexture, textureRenderers.Values`textureBufferPtr, textureRenderers.Values`textureBuffer
        invariant remaining <= textureRenderers.Values
        invariant textureRenderers == old(textureRenderers)
        invariant forall r :: r in remaining ==> unchanged(r)
        invariant forall r :: r in textureRenderers.Values && r !in remaining ==>
                    r.disposed && (!old(r.disposed) ==> r.IsDisposed()) && (old(r.Valid()) ==> r.Valid())
        decreases remaining
      {
        var r :| r in remaining;
        r.Dispose();
        remaining := remaining - {r};
      }
      textureRenderers := map[];
      textureBufferPtrs := map[];
      if !resourcesAlive {
        return Threw(NullReference);
      }
      resourcesAlive := false;
      return Completed;
    }

    /** Registers renderer under the counter's value and advances the counter
        (wrapping at 65536), installing an idle status entry; when that id is
        still registered, returns -1 and changes nothing. */
    method AddRenderer(renderer: Renderer) returns (result: int)
      modifies this`textureRenderers, this`executing, this`rendererRegistrationCount
      ensures old(rendererRegistrationCount) in old(textureRenderers) ==> result == -1 && unchanged(this)
      ensures old(rendererRegistrationCount) !in old(textureRenderers) ==>
                && result == old(rendererRegistrationCount)
                && textureRenderers == old(textureRenderers)[result := renderer]
                && executing == old(executing)[result := false]
                && rendererRegistrationCount == (old(rendererRegistrationCount) + 1) % UShortModulus
      ensures old(Valid()) ==> Valid()
    {
      var rendererId := rendererRegistrationCount;
      if rendererId in textureRenderers {
        return -1;
      }
      textureRenderers := textureRenderers[rendererId := renderer];
      executing := executing[rendererId := false];
      rendererRegistrationCount := (rendererRegistrationCount + 1) % UShortModulus;
      return rendererId;
    }

    /** Deletes rendererId from all three tables; an absent id is a no-op. */
    method RemoveRenderer(rendererId: Id)
      modifies this`textureRenderers, this`textureBufferPtrs, this`executing
      ensures textureRenderers == old(textureRenderers) - {rendererId}
      ensures textureBufferPtrs == old(textureBufferPtrs) - {rendererId}
      ensures executing == old(executing) - {rendererId}
      ensures old(Valid()) ==> Valid()
    {
      textureRenderers := textureRenderers - {rendererId};
      textureBufferPtrs := textureBufferPtrs - {rendererId};
      executing := executing - {rendererId};
    }

    /** The tables, id buffer and command buffer after the first i positions
        of a pass that started from ptrs0, executing0 and idBuffer0. */
    ghost predicate PassSoFar(order: seq<Id>, i: nat, polled: seq<Ptr>, ptrs0: map<Id, Ptr>, executing0: map<Id, bool>, idBuffer0: UInt)
      reads this
      requires i <= |order| == |polled|
      requires forall k :: 0 <= k < |order| ==> order[k] in executing0
    {
      && textureBufferPtrs == StorePointers(ptrs0, order[..i], polled[..i])
      && executing == MarkExecuting(executing0, Dispatched(order[..i], polled[..i], executing0))
      && idComputeBuffer == LastOr(Dispatched(order[..i], polled[..i], executing0), idBuffer0)
      && commandBuffer == CommandsFor(Dispatched(order[..i], polled[..i], executing0))
    }

    /** The poll at position i of a pass over the renderers rs, whose
        publications at the start of the pass are ps: the address is taken from
        the renderer, which consumes its frame. */
    static method Poll(renderer: Renderer, i: nat, ghost rs: seq<Renderer>, ghost ps: seq<Publication>) returns (p: Ptr)
      requires i < |rs| == |ps|
      requires renderer == rs[i]
      requires forall k :: 0 <= k < |rs| ==> rs[k].updated == (ps[k].updated && i <= IndexOf(rs, rs[k]))
      requires renderer.textureBufferPtr == ps[i].ptr
      modifies renderer`updated
      ensures p == Polled(rs, ps)[i]
      ensures forall k :: 0 <= k < |rs| ==> rs[k].updated == (ps[k].updated && i + 1 <= IndexOf(rs, rs[k]))
    {
      p := renderer.GetTextureBufferPtr();
      forall k | 0 <= k < |rs|
        ensures rs[k].updated == (ps[k].updated && i + 1 <= IndexOf(rs, rs[k]))
      {
        if rs[k] == renderer {
          IndexOfIsFirst(rs, rs[i], i);
        } else {
          assert rs[k].updated == old(rs[k].updated);
          assert rs[IndexOf(rs, rs[k])] != rs[i];
        }
      }
    }

    /** The rest of the iteration at position i: store the address p polled
        for order[i], and dispatch that renderer when p is non-null and it is
        idle. */
    method StoreAndDispatch(order: seq<Id>, i: nat, p: Ptr, ghost polled: seq<Ptr>, ghost ptrs0: map<Id, Ptr>,
                            ghost executing0: map<Id, bool>, ghost idBuffer0: UInt)
      requires i < |order| == |polled|
      requires Distinct(order)
      requires forall k :: 0 <= k < |order| ==> order[k] in executing0
      requires PassSoFar(order, i, polled, ptrs0, executing0, idBuffer0)
      requires p == polled[i]
      modifies this`textureBufferPtrs, this`executing, this`idComputeBuffer, this`commandBuffer
      ensures PassSoFar(order, i + 1, polled, ptrs0, executing0, idBuffer0)
    {
      var rendererId := order[i];
      ghost var ds := Dispatched(order[..i], polled[..i], executing0);
      PassStep(order, polled, executing0, ptrs0, i);
      textureBufferPtrs := textureBufferPtrs[rendererId := p];
      if textureBufferPtrs[rendererId] != Null && !executing[rendererId] {
        DispatchOne(executing0, ds, rendererId, idBuffer0);
        idComputeBuffer := rendererId;
        executing := executing[rendererId := true];
        commandBuffer := commandBuffer + [IssueTextureUpdate(rendererId), RequestIdReadback];
      }
    }

    /** The addresses a pass over order obtains from the current state. */
    ghost function PassPolled(order: seq<Id>): (polled: seq<Ptr>)
      reads this, textureRenderers.Values
      requires forall k :: 0 <= k < |order| ==> order[k] in textureRenderers
      ensures |polled| == |order|
    {
      var rs := RenderersAt(textureRenderers, order);
      Polled(rs, Publications(rs))
    }

    /** The ids a pass over order dispatches from the current state. */
    ghost function PassDispatched(order: seq<Id>): seq<Id>
      reads this, textureRenderers.Values
      requires forall k :: 0 <= k < |order| ==> order[k] in textureRenderers && order[k] in executing
    {
      Dispatched(order, PassPolled(order), executing)
    }

    /** Before the first position, a pass has changed nothing. */
    lemma PassStart(order: seq<Id>, polled: seq<Ptr>)
      requires |order| == |polled|
      requires forall k :: 0 <= k < |order| ==> order[k] in executing
      requires commandBuffer == []
      ensures PassSoFar(order, 0, polled, textureBufferPtrs, executing, idComputeBuffer)
    {
      assert order[..0] == [] && polled[..0] == [];
      assert Dispatched(order[..0], polled[..0], executing) == [];
      assert textureBufferPtrs == StorePointers(textureBufferPtrs, order[..0], polled[..0]);
    }

    /** A finished pass adds no status entry and stores pointers only for
        registered ids. */
    lemma PassEnd(order: seq<Id>, polled: seq<Ptr>, ptrs0: map<Id, Ptr>, executing0: map<Id, bool>, idBuffer0: UInt)
      requires |order| == |polled|
      requires Distinct(order)
      requires forall k :: 0 <= k < |order| ==> order[k] in executing0 && order[k] in textureRenderers
      requires textureRenderers.Keys <= executing0.Keys && ptrs0.Keys <= textureRenderers.Keys
      requires PassSoFar(order, |order|, polled, ptrs0, executing0, idBuffer0)
      ensures textureRenderers.Keys <= executing.Keys && textureBufferPtrs.Keys <= textureRenderers.Keys
      ensures textureBufferPtrs == StorePointers(ptrs0, order, polled)
      ensures executing == MarkExecuting(executing0, Dispatched(order, polled, executing0))
      ensures idComputeBuffer == LastOr(Dispatched(order, polled, executing0), idBuffer0)
      ensures commandBuffer == CommandsFor(Dispatched(order, polled, executing0))
    {
      assert order[..|order|] == order && polled[..|order|] == polled;
      PassKeys(order, polled, executing0, ptrs0);
    }

    /** The enumeration of the renderer table in one frame: every renderer, in
        the order given, is polled and its pointer stored, and each one ready
        and idle is marked executing, its id written to the id buffer and an
        update request plus an id readback recorded in the command buffer. */
    method PollRenderers(order: seq<Id>, ghost rs: seq<Renderer>, ghost ps: seq<Publication>)
      requires Valid()
      requires Distinct(order)
      requires forall k :: 0 <= k < |order| ==> order[k] in textureRenderers
      requires rs == RenderersAt(textureRenderers, order)
      requires |ps| == |rs| && forall k :: 0 <= k < |rs| ==> ps[k] == Publication(rs[k].updated, rs[k].textureBufferPtr)
      modifies this`textureBufferPtrs, this`executing, this`idComputeBuffer, this`commandBuffer, rs`updated
      ensures forall k :: 0 <= k < |order| ==> order[k] in old(executing)
      ensures textureBufferPtrs == StorePointers(old(textureBufferPtrs), order, Polled(rs, ps))
      ensures executing == MarkExecuting(old(executing), Dispatched(order, Polled(rs, ps), old(executing)))
      ensures idComputeBuffer == LastOr(Dispatched(order, Polled(rs, ps), old(executing)), old(idComputeBuffer))
      ensures commandBuffer == CommandsFor(Dispatched(order, Polled(rs, ps), old(executing)))
      ensures forall k :: 0 <= k < |order| ==> !rs[k].updated
      ensures textureRenderers.Keys <= executing.Keys && textureBufferPtrs.Keys <= textureRenderers.Keys
    {
      ghost var ptrs0, executing0, idBuffer0 := textureBufferPtrs, executing, idComputeBuffer;
      ghost var polled := Polled(rs, ps);
      PassStart(order, polled);
      var i := 0;
      while i < |order|
        invariant 0 <= i <= |order|
        invariant forall k :: 0 <= k < |rs| ==> rs[k].updated == (ps[k].updated && i <= IndexOf(rs, rs[k]))
        invariant PassSoFar(order, i, polled, ptrs0, executing0, idBuffer0)
      {
        var p := Poll(textureRenderers[order[i]], i, rs, ps);
        StoreAndDispatch(order, i, p, polled, ptrs0, executing0, idBuffer0);
        i := i + 1;
      }
      AllConsumed(rs, ps);
      PassEnd(order, polled, ptrs0, executing0, idBuffer0);
    }

    /** One frame (LateUpdate): nothing once disposed; otherwise the renderers
        are polled and dispatched (PollRenderers), then the command buffer is
        executed and cleared. Unity runs Awake, which initializes the system,
        before any LateUpdate. */
    method SystemUpdate(order: seq<Id>)
      requires Valid() && initialized
      requires Distinct(order)
      requires forall k :: 0 <= k < |order| ==> order[k] in textureRenderers
      requires forall id :: id in textureRenderers ==> id in order
      modifies this`textureBufferPtrs, this`executing, this`idComputeBuffer, this`commandBuffer
      modifies this`executed, this`pendingReadbacks, textureRenderers.Values`updated
      ensures Valid()
      ensures old(disposed) ==> unchanged(this) && forall r :: r in textureRenderers.Values ==> unchanged(r)
      ensures !old(disposed) ==>
                && textureBufferPtrs == StorePointers(old(textureBufferPtrs), order, old(PassPolled(order)))
                && executing == MarkExecuting(old(executing), old(PassDispatched(order)))
                && idComputeBuffer == LastOr(old(PassDispatched(order)), old(idComputeBuffer))
                && executed == old(executed) + [Batch(CommandsFor(old(PassDispatched(order))), idComputeBuffer)]
                && pendingReadbacks == old(pendingReadbacks) + ReadbackDataAsWritten(CommandsFor(old(PassDispatched(order))), idComputeBuffer)
      ensures !old(disposed) ==> forall r :: r in textureRenderers.Values ==> !r.updated
    {
      if disposed {
        return;
      }
      ghost var rs := RenderersAt(textureRenderers, order);
      ghost var ps := Publications(rs);
      ghost var polled := PassPolled(order);
      assert polled == Polled(rs, ps);
      PollRenderers(order, rs, ps);
      EveryRendererPolled(textureRenderers, order, rs);
      ExecuteCommandBuffer();
    }

    /** Graphics.ExecuteCommandBuffer followed by Clear: the recorded batch
        runs with the id buffer's current contents, each readback in it
        reporting whatever the shared id buffer then holds. */
    method ExecuteCommandBuffer()
      modifies this`executed, this`pendingReadbacks, this`commandBuffer
      ensures executed == old(executed) + [Batch(old(commandBuffer), idComputeBuffer)]
      ensures pendingReadbacks == old(pendingReadbacks) + ReadbackDataAsWritten(old(commandBuffer), idComputeBuffer)
      ensures commandBuffer == []
    {
      executed := executed + [Batch(commandBuffer, idComputeBuffer)];
      pendingReadbacks := pendingReadbacks + ReadbackDataAsWritten(commandBuffer, idComputeBuffer);
      commandBuffer := [];
    }

    /** The readback completion for the i-th outstanding readback: the id it
        reports (the low 16 bits of the data) is no longer executing. The
        status table is indexed directly, so the id must still be registered. */
    method CompleteReadback(i: nat)
      requires i < |pendingReadbacks|
      requires ToUShort(pendingReadbacks[i]) in executing
      modifies this`executing, this`pendingReadbacks
      ensures executing == Complete(old(executing), old(pendingReadbacks)[i])
      ensures pendingReadbacks == old(pendingReadbacks)[..i] + old(pendingReadbacks)[i + 1..]
      ensures old(Valid()) ==> Valid()
    {
      var rendererId := ToUShort(pendingReadbacks[i]);
      executing := executing[rendererId := false];
      pendingReadbacks := pendingReadbacks[..i] + pendingReadbacks[i + 1..];
    }

    /** The native texture-update callback, run by the render thread for an
        update request: on begin, texData becomes the pointer stored for the id
        in userData; on end, texData becomes Null; other events do nothing. */
    method TextureUpdateCallback(eventId: RenderingEvent, data: ParamsBlock)
      modifies data
      ensures eventId == UpdateTextureBeginV2 ==>
                var id := ToUShort(old(data.value).userData);
                data.value == (if id in textureBufferPtrs then old(data.value).(texData := textureBufferPtrs[id]) else old(data.value))
      ensures eventId == UpdateTextureEndV2 ==> data.value == old(data.value).(texData := Null)
      ensures eventId.OtherEvent? ==> data.value == old(data.value)
    {
      if eventId == UpdateTextureBeginV2 {
        var rendererId := data.value.userData;
        if ToUShort(rendererId) in textureBufferPtrs {
          data.value := data.value.(texData := textureBufferPtrs[ToUShort(rendererId)]);
        }
      } else if eventId == UpdateTextureEndV2 {
        data.value := data.value.(texData := Null);
      }
    }
  }
}
