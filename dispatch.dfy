/** What one per-frame pass of the render system computes, as functions of the
    values it reads: which ids are dispatched, the new Executing flags, the stored
    pointers and the commands recorded. It also states the intended one-request-
    in-flight protocol and how the shared readback buffer breaks it. */
module Dispatch {
  import opened Host

  /** A command recorded in the system's command buffer. */
  datatype Command =
    | IssueTextureUpdate(rendererId: Id)   // IssuePluginCustomTextureUpdateV2 tagged with the id
    | RequestIdReadback                    // RequestAsyncReadback of the one-element id buffer

  /** The commands run by one Graphics.ExecuteCommandBuffer, with the value the
      one-element id buffer holds when they run. */
  datatype Batch = Batch(commands: seq<Command>, idBufferAtExecution: UInt)

  /** No element occurs twice: each one is absent from the prefix before it. */
  predicate Distinct<T(==)>(s: seq<T>)
    decreases |s|
  {
    s == [] || (Distinct(s[..|s| - 1]) && s[|s| - 1] !in s[..|s| - 1])
  }

  /** Every prefix of a duplicate-free sequence is duplicate-free, and the
      element after it does not occur in it. */
  lemma {:induction false} DistinctPrefix<T>(s: seq<T>, i: nat)
    requires Distinct(s) && i <= |s|
    ensures Distinct(s[..i])
    ensures i < |s| ==> s[i] !in s[..i]
    decreases |s| - i
  {
    if i < |s| {
      var n := |s| - 1;
      if i < n {
        DistinctPrefix(s[..n], i);
        assert s[..n][..i] == s[..i] && s[..n][i] == s[i];
      } else {
        assert s[..i] == s[..n];
      }
    } else {
      assert s[..i] == s;
    }
  }

  /** The ids one pass dispatches, in iteration order: those whose freshly
      polled pointer is non-null and that were not executing. */
  function Dispatched(order: seq<Id>, polled: seq<Ptr>, executing: map<Id, bool>): seq<Id>
    requires |polled| == |order|
    requires forall k :: 0 <= k < |order| ==> order[k] in executing
    decreases |order|
  {
    if order == [] then []
    else
      var n := |order| - 1;
      Dispatched(order[..n], polled[..n], executing)
        + (if polled[n] != Null && !executing[order[n]] then [order[n]] else [])
  }

  /** The Executing flags after the dispatched ids have been marked. */
  function MarkExecuting(executing: map<Id, bool>, dispatched: seq<Id>): map<Id, bool>
    decreases |dispatched|
  {
    if dispatched == [] then executing
    else
      var n := |dispatched| - 1;
      MarkExecuting(executing, dispatched[..n])[dispatched[n] := true]
  }

  /** The pointer table after each polled id has stored its polled pointer. */
  function StorePointers(ptrs: map<Id, Ptr>, order: seq<Id>, polled: seq<Ptr>): map<Id, Ptr>
    requires |polled| == |order|
    decreases |order|
  {
    if order == [] then ptrs
    else
      var n := |order| - 1;
      StorePointers(ptrs, order[..n], polled[..n])[order[n] := polled[n]]
  }

  /** The commands recorded for the dispatched ids: per id an update request
      and a readback of the id buffer. */
  function CommandsFor(dispatched: seq<Id>): seq<Command>
    decreases |dispatched|
  {
    if dispatched == [] then []
    else
      var n := |dispatched| - 1;
      CommandsFor(dispatched[..n]) + [IssueTextureUpdate(dispatched[n]), RequestIdReadback]
  }

  /** The id buffer after the pass: the last id written to it, if any. */
  function LastOr(dispatched: seq<Id>, before: UInt): UInt
  {
    if dispatched == [] then before else dispatched[|dispatched| - 1]
  }

  function Occurrences<T(==)>(s: seq<T>, x: T): nat
    decreases |s|
  {
    if s == [] then 0
    else Occurrences(s[..|s| - 1], x) + (if s[|s| - 1] == x then 1 else 0)
  }

  lemma {:induction false} OccurrencesAppend<T>(s: seq<T>, t: seq<T>, x: T)
    ensures Occurrences(s + t, x) == Occurrences(s, x) + Occurrences(t, x)
    decreases |t|
  {
    if t == [] {
      assert s + t == s;
    } else {
      var n := |t| - 1;
      assert (s + t)[..|s + t| - 1] == s + t[..n];
      OccurrencesAppend(s, t[..n], x);
    }
  }

  lemma OccurrencesSingleton<T>(e: T, x: T)
    ensures Occurrences([e], x) == (if e == x then 1 else 0)
  {
    assert [e][..0] == [];
  }

  lemma {:induction false} OccurrencesOfDistinct<T>(s: seq<T>, x: T)
    requires Distinct(s)
    ensures Occurrences(s, x) == (if x in s then 1 else 0)
    decreases |s|
  {
    if s != [] {
      var n := |s| - 1;
      assert s == s[..n] + [s[n]];
      OccurrencesOfDistinct(s[..n], x);
      assert x in s <==> x in s[..n] || x == s[n];
      assert s[n] !in s[..n];
    }
  }

  /** An id is dispatched exactly when it is polled with a non-null pointer
      while not executing. */
  lemma {:induction false} DispatchedExactly(order: seq<Id>, polled: seq<Ptr>, executing: map<Id, bool>)
    requires |polled| == |order|
    requires forall k :: 0 <= k < |order| ==> order[k] in executing
    ensures forall id :: id in Dispatched(order, polled, executing) <==>
              exists k :: 0 <= k < |order| && order[k] == id && polled[k] != Null && !executing[id]
    decreases |order|
  {
    if order != [] {
      var n := |order| - 1;
      var (o, f) := (order[..n], polled[..n]);
      DispatchedExactly(o, f, executing);
      var ds := Dispatched(order, polled, executing);
      forall id
        ensures id in ds <==> exists k :: 0 <= k < |order| && order[k] == id && polled[k] != Null && !executing[id]
      {
        if id in ds && id in Dispatched(o, f, executing) {
          var k :| 0 <= k < |o| && o[k] == id && f[k] != Null && !executing[id];
          assert order[k] == id && polled[k] != Null;
        }
        if exists k :: 0 <= k < |order| && order[k] == id && polled[k] != Null && !executing[id] {
          var k :| 0 <= k < |order| && order[k] == id && polled[k] != Null && !executing[id];
          if k < n {
            assert o[k] == id && f[k] != Null;
          }
        }
      }
    }
  }

  /** Ids are distinct as ushorts exactly when they are distinct as uints. */
  lemma {:induction false} DistinctAsUInt(s: seq<Id>)
    requires Distinct(s)
    ensures Distinct<UInt>(s)
    decreases |s|
  {
    if s != [] {
      DistinctAsUInt(s[..|s| - 1]);
    }
  }

  lemma DistinctSnoc<T>(s: seq<T>, e: T)
    requires Distinct(s) && e !in s
    ensures Distinct(s + [e])
  {
    assert (s + [e])[..|s|] == s;
  }

  /** Every dispatched id was polled, is registered and was idle; a
      duplicate-free enumeration dispatches each id at most once. */
  lemma {:induction false} DispatchedIdle(order: seq<Id>, polled: seq<Ptr>, executing: map<Id, bool>)
    requires |polled| == |order|
    requires forall k :: 0 <= k < |order| ==> order[k] in executing
    ensures forall id :: id in Dispatched(order, polled, executing) ==>
              id in order && id in executing && !executing[id]
    ensures Distinct(order) ==> Distinct(Dispatched(order, polled, executing))
    decreases |order|
  {
    if order != [] {
      var n := |order| - 1;
      var (o, f) := (order[..n], polled[..n]);
      DispatchedIdle(o, f, executing);
      var prev := Dispatched(o, f, executing);
      assert forall x :: x in o ==> x in order by {
        forall x | x in o
          ensures x in order
        {
          var k :| 0 <= k < |o| && o[k] == x;
          assert order[k] == x;
        }
      }
      if Distinct(order) {
        assert Distinct(o);
        if polled[n] != Null && !executing[order[n]] {
          assert order[n] !in o;
          DistinctSnoc(prev, order[n]);
        } else {
          assert Dispatched(order, polled, executing) == prev;
        }
      }
    }
  }

  lemma {:induction false} MarkExecutingAt(executing: map<Id, bool>, dispatched: seq<Id>)
    ensures MarkExecuting(executing, dispatched).Keys == executing.Keys + set id | id in dispatched
    ensures forall id :: id in MarkExecuting(executing, dispatched) ==>
              MarkExecuting(executing, dispatched)[id] == (id in dispatched || executing[id])
    decreases |dispatched|
  {
    if dispatched != [] {
      var n := |dispatched| - 1;
      MarkExecutingAt(executing, dispatched[..n]);
      assert dispatched == dispatched[..n] + [dispatched[n]];
      assert forall id :: id in dispatched <==> id in dispatched[..n] || id == dispatched[n];
    }
  }

  /** Every polled id holds its own polled pointer afterwards (overwriting what
      was stored, even when the id is executing); unpolled ids keep theirs. */
  lemma {:induction false} StorePointersAt(ptrs: map<Id, Ptr>, order: seq<Id>, polled: seq<Ptr>)
    requires |polled| == |order|
    requires Distinct(order)
    ensures StorePointers(ptrs, order, polled).Keys == ptrs.Keys + set id | id in order
    ensures forall k :: 0 <= k < |order| ==> StorePointers(ptrs, order, polled)[order[k]] == polled[k]
    ensures forall id :: id in ptrs && id !in order ==> StorePointers(ptrs, order, polled)[id] == ptrs[id]
    decreases |order|
  {
    if order != [] {
      var n := |order| - 1;
      StorePointersAt(ptrs, order[..n], polled[..n]);
      assert order == order[..n] + [order[n]];
      assert forall id :: id in order <==> id in order[..n] || id == order[n];
      forall k | 0 <= k < n
        ensures order[..n][k] != order[n]
      {
      }
    }
  }

  lemma {:induction false} CommandsForCounts(dispatched: seq<Id>, id: Id)
    ensures |CommandsFor(dispatched)| == 2 * |dispatched|
    ensures Occurrences(CommandsFor(dispatched), IssueTextureUpdate(id)) == Occurrences(dispatched, id)
    ensures Occurrences(CommandsFor(dispatched), RequestIdReadback) == |dispatched|
    decreases |dispatched|
  {
    if dispatched != [] {
      var n := |dispatched| - 1;
      CommandsForCounts(dispatched[..n], id);
      var pair := [IssueTextureUpdate(dispatched[n]), RequestIdReadback];
      OccurrencesAppend(CommandsFor(dispatched[..n]), pair, IssueTextureUpdate(id));
      OccurrencesAppend(CommandsFor(dispatched[..n]), pair, RequestIdReadback);
      assert pair == [pair[0]] + [pair[1]];
      OccurrencesAppend([pair[0]], [pair[1]], IssueTextureUpdate(id));
      OccurrencesAppend([pair[0]], [pair[1]], RequestIdReadback);
      OccurrencesSingleton(pair[0], IssueTextureUpdate(id));
      OccurrencesSingleton(pair[1], IssueTextureUpdate(id));
      OccurrencesSingleton(pair[0], RequestIdReadback);
      OccurrencesSingleton(pair[1], RequestIdReadback);
    }
  }

  /** One pass, summed up: an id gets exactly one update request (and one
      readback) when it was polled ready and idle, and none otherwise; it is
      executing afterwards exactly when it was before or was dispatched. */
  lemma OnePassDispatchesReadyIdleIdsOnce(order: seq<Id>, polled: seq<Ptr>, executing: map<Id, bool>, id: Id)
    requires |polled| == |order|
    requires Distinct(order)
    requires forall k :: 0 <= k < |order| ==> order[k] in executing
    requires id in executing
    ensures var ds := Dispatched(order, polled, executing);
            var ready := exists k :: 0 <= k < |order| && order[k] == id && polled[k] != Null;
            && Occurrences(CommandsFor(ds), IssueTextureUpdate(id)) == (if ready && !executing[id] then 1 else 0)
            && MarkExecuting(executing, ds).Keys == executing.Keys
            && MarkExecuting(executing, ds)[id] == (executing[id] || ready)
  {
    var ds := Dispatched(order, polled, executing);
    DispatchedIdle(order, polled, executing);
    MarkKeepsKeys(executing, ds);
    var ready := exists k :: 0 <= k < |order| && order[k] == id && polled[k] != Null;
    assert id in ds <==> ready && !executing[id] by {
      DispatchedExactly(order, polled, executing);
    }
    assert Occurrences(CommandsFor(ds), IssueTextureUpdate(id)) == (if id in ds then 1 else 0) by {
      CommandsForCounts(ds, id);
      OccurrencesOfDistinct(ds, id);
    }
  }

  /** Polling one more position dispatches its id exactly when its pointer is
      non-null and its flag was clear at the start of the pass. */
  lemma DispatchedSnoc(order: seq<Id>, polled: seq<Ptr>, executing: map<Id, bool>, i: nat)
    requires |polled| == |order| && i < |order|
    requires forall k :: 0 <= k < |order| ==> order[k] in executing
    ensures Dispatched(order[..i + 1], polled[..i + 1], executing) ==
              Dispatched(order[..i], polled[..i], executing) +
                (if polled[i] != Null && !executing[order[i]] then [order[i]] else [])
  {
    assert order[..i + 1][..i] == order[..i] && polled[..i + 1][..i] == polled[..i];
  }

  /** Polling one more position stores its pointer under its id. */
  lemma StorePointersSnoc(ptrs: map<Id, Ptr>, order: seq<Id>, polled: seq<Ptr>, i: nat)
    requires |polled| == |order| && i < |order|
    ensures StorePointers(ptrs, order[..i + 1], polled[..i + 1]) ==
              StorePointers(ptrs, order[..i], polled[..i])[order[i] := polled[i]]
  {
    assert order[..i + 1][..i] == order[..i] && polled[..i + 1][..i] == polled[..i];
  }

  /** An id not dispatched keeps its flag. */
  lemma {:induction false} MarkExecutingOther(executing: map<Id, bool>, ds: seq<Id>, id: Id)
    requires id in executing && id !in ds
    ensures id in MarkExecuting(executing, ds) && MarkExecuting(executing, ds)[id] == executing[id]
    decreases |ds|
  {
    if ds != [] {
      var n := |ds| - 1;
      assert ds == ds[..n] + [ds[n]];
      MarkExecutingOther(executing, ds[..n], id);
    }
  }

  /** How polling one more position extends a pass: the pointer is stored,
      and the id is dispatched when its pointer is non-null and its flag, not
      touched earlier in the pass, is clear. */
  lemma PassStep(order: seq<Id>, polled: seq<Ptr>, executing: map<Id, bool>, ptrs: map<Id, Ptr>, i: nat)
    requires |polled| == |order| && i < |order|
    requires Distinct(order)
    requires forall k :: 0 <= k < |order| ==> order[k] in executing
    ensures var ds := Dispatched(order[..i], polled[..i], executing);
            && Dispatched(order[..i + 1], polled[..i + 1], executing) ==
                 (if polled[i] != Null && !executing[order[i]] then ds + [order[i]] else ds)
            && StorePointers(ptrs, order[..i + 1], polled[..i + 1]) == StorePointers(ptrs, order[..i], polled[..i])[order[i] := polled[i]]
            && order[i] in MarkExecuting(executing, ds)
            && MarkExecuting(executing, ds)[order[i]] == executing[order[i]]
  {
    var ds := Dispatched(order[..i], polled[..i], executing);
    DispatchedSnoc(order, polled, executing, i);
    StorePointersSnoc(ptrs, order, polled, i);
    DistinctPrefix(order, i);
    DispatchedIdle(order[..i], polled[..i], executing);
    MarkExecutingOther(executing, ds, order[i]);
  }

  /** A pass adds no Executing flag, and stores pointers only for the ids it
      visits. */
  lemma PassKeys(order: seq<Id>, polled: seq<Ptr>, executing: map<Id, bool>, ptrs: map<Id, Ptr>)
    requires |polled| == |order|
    requires Distinct(order)
    requires forall k :: 0 <= k < |order| ==> order[k] in executing
    ensures MarkExecuting(executing, Dispatched(order, polled, executing)).Keys == executing.Keys
    ensures forall id :: id in StorePointers(ptrs, order, polled) ==> id in ptrs || id in order
  {
    DispatchedIdle(order, polled, executing);
    MarkKeepsKeys(executing, Dispatched(order, polled, executing));
    StorePointersAt(ptrs, order, polled);
  }

  /** Dispatching one more id marks it, records its two commands and leaves
      it in the id buffer. */
  lemma DispatchOne(executing: map<Id, bool>, ds: seq<Id>, id: Id, idBuffer: UInt)
    ensures MarkExecuting(executing, ds + [id]) == MarkExecuting(executing, ds)[id := true]
    ensures CommandsFor(ds + [id]) == CommandsFor(ds) + [IssueTextureUpdate(id), RequestIdReadback]
    ensures LastOr(ds + [id], idBuffer) == id
  {
    assert (ds + [id])[..|ds|] == ds;
  }

  // ---------------------------------------------------------------------------
  // Completion tags: what each readback of a batch reports to its callback.

  /** As written: a readback copies the shared one-element id buffer when the
      batch runs, after every SetData of the pass, so each reports the buffer's
      final value. */
  function ReadbackDataAsWritten(commands: seq<Command>, idBuffer: UInt): seq<UInt>
    decreases |commands|
  {
    if commands == [] then []
    else
      var n := |commands| - 1;
      ReadbackDataAsWritten(commands[..n], idBuffer) + (if commands[n] == RequestIdReadback then [idBuffer] else [])
  }

  /** As intended: each readback reports the id of the update request recorded
      just before it. */
  function ReadbackData(commands: seq<Command>): seq<UInt>
    decreases |commands|
  {
    if commands == [] then []
    else
      var n := |commands| - 1;
      ReadbackData(commands[..n]) +
        (if commands[n] == RequestIdReadback && n > 0 && commands[n - 1].IssueTextureUpdate?
         then [commands[n - 1].rendererId] else [])
  }

  lemma {:induction false} ReadbackDataAsWrittenOfPass(dispatched: seq<Id>, idBuffer: UInt)
    ensures ReadbackDataAsWritten(CommandsFor(dispatched), idBuffer) == seq(|dispatched|, _ => idBuffer)
    decreases |dispatched|
  {
    if dispatched != [] {
      var n := |dispatched| - 1;
      var prev := CommandsFor(dispatched[..n]);
      ReadbackDataAsWrittenOfPass(dispatched[..n], idBuffer);
      var c := prev + [IssueTextureUpdate(dispatched[n]), RequestIdReadback];
      assert c[..|c| - 1] == prev + [IssueTextureUpdate(dispatched[n])];
      assert (prev + [IssueTextureUpdate(dispatched[n])])[..|prev|] == prev;
    }
  }

  /** With per-request tags, a pass's readbacks report exactly the dispatched ids, in order. */
  lemma {:induction false} ReadbackDataOfPass(dispatched: seq<Id>)
    ensures ReadbackData(CommandsFor(dispatched)) == dispatched
    decreases |dispatched|
  {
    if dispatched != [] {
      var n := |dispatched| - 1;
      var prev := CommandsFor(dispatched[..n]);
      ReadbackDataOfPass(dispatched[..n]);
      var c := prev + [IssueTextureUpdate(dispatched[n]), RequestIdReadback];
      assert c[..|c| - 1] == prev + [IssueTextureUpdate(dispatched[n])];
      assert (prev + [IssueTextureUpdate(dispatched[n])])[..|prev|] == prev;
      assert dispatched == dispatched[..n] + [dispatched[n]];
    }
  }

  // ---------------------------------------------------------------------------
  // The one-request-in-flight protocol.

  /** For every registered id: at most one outstanding readback will clear its
      flag, and one is outstanding exactly while the flag is set. */
  ghost predicate OneInFlight(executing: map<Id, bool>, outstanding: seq<UInt>)
  {
    && (forall k :: 0 <= k < |outstanding| ==> outstanding[k] < UShortModulus)
    && (forall id :: id in executing ==>
          Occurrences(outstanding, id) <= 1 && (executing[id] <==> Occurrences(outstanding, id) == 1))
  }

  /** The completion callback for one readback: clears the flag of the id it reports. */
  function Complete(executing: map<Id, bool>, data: UInt): (after: map<Id, bool>)
    requires ToUShort(data) in executing
    ensures after.Keys == executing.Keys
  {
    executing[ToUShort(data) := false]
  }

  /** The flags after every readback in tags has completed, in order. */
  function CompleteAll(executing: map<Id, bool>, tags: seq<UInt>): (after: map<Id, bool>)
    requires forall k :: 0 <= k < |tags| ==> ToUShort(tags[k]) in executing
    ensures after.Keys == executing.Keys
    decreases |tags|
  {
    if tags == [] then executing
    else
      var n := |tags| - 1;
      Complete(CompleteAll(executing, tags[..n]), tags[n])
  }

  lemma {:induction false} CompleteAllAt(executing: map<Id, bool>, tags: seq<UInt>)
    requires forall k :: 0 <= k < |tags| ==> ToUShort(tags[k]) in executing
    ensures forall id :: id in executing ==>
              CompleteAll(executing, tags)[id] == (executing[id] && (forall k :: 0 <= k < |tags| ==> ToUShort(tags[k]) != id))
    decreases |tags|
  {
    if tags != [] {
      var n := |tags| - 1;
      CompleteAllAt(executing, tags[..n]);
      forall id | id in executing
        ensures (forall k :: 0 <= k < |tags| ==> ToUShort(tags[k]) != id) <==>
                (forall k :: 0 <= k < n ==> ToUShort(tags[..n][k]) != id) && ToUShort(tags[n]) != id
      {
      }
    }
  }

  /** Appending the readbacks of freshly dispatched, previously idle ids keeps
      the protocol, once exactly those ids are marked. */
  lemma AppendIdleKeepsOneInFlight(executing: map<Id, bool>, marked: map<Id, bool>, outstanding: seq<UInt>, ds: seq<Id>)
    requires OneInFlight(executing, outstanding)
    requires Distinct(ds)
    requires forall id :: id in ds ==> id in executing && !executing[id]
    requires marked.Keys == executing.Keys
    requires forall id :: id in marked ==> marked[id] == (id in ds || executing[id])
    ensures OneInFlight(marked, outstanding + ds)
  {
    DistinctAsUInt(ds);
    var after: seq<UInt> := outstanding + ds;
    forall k | 0 <= k < |after|
      ensures after[k] < UShortModulus
    {
      if k >= |outstanding| {
        assert after[k] == ds[k - |outstanding|];
      }
    }
    forall id | id in marked
      ensures Occurrences<UInt>(after, id) <= 1
      ensures marked[id] <==> Occurrences<UInt>(after, id) == 1
    {
      OccurrencesAppend<UInt>(outstanding, ds, id);
      OccurrencesOfDistinct<UInt>(ds, id);
    }
  }

  /** Dispatching a pass and recording per-request readbacks keeps the protocol. */
  lemma SubmitKeepsOneInFlight(order: seq<Id>, polled: seq<Ptr>, executing: map<Id, bool>, outstanding: seq<UInt>)
    requires |polled| == |order|
    requires Distinct(order)
    requires forall k :: 0 <= k < |order| ==> order[k] in executing
    requires OneInFlight(executing, outstanding)
    ensures var ds := Dispatched(order, polled, executing);
            OneInFlight(MarkExecuting(executing, ds), outstanding + ReadbackData(CommandsFor(ds)))
  {
    var ds := Dispatched(order, polled, executing);
    DispatchedIdle(order, polled, executing);
    ReadbackDataOfPass(ds);
    MarkKeepsKeys(executing, ds);
    AppendIdleKeepsOneInFlight(executing, MarkExecuting(executing, ds), outstanding, ds);
  }

  lemma MarkKeepsKeys(executing: map<Id, bool>, ds: seq<Id>)
    requires forall id :: id in ds ==> id in executing
    ensures MarkExecuting(executing, ds).Keys == executing.Keys
    ensures forall id :: id in executing ==> MarkExecuting(executing, ds)[id] == (id in ds || executing[id])
  {
    MarkExecutingAt(executing, ds);
  }

  /** A completion for an id still registered keeps the protocol. */
  lemma {:induction false} CompleteKeepsOneInFlight(executing: map<Id, bool>, outstanding: seq<UInt>, i: nat)
    requires OneInFlight(executing, outstanding)
    requires i < |outstanding|
    requires ToUShort(outstanding[i]) in executing
    ensures OneInFlight(Complete(executing, outstanding[i]), outstanding[..i] + outstanding[i + 1..])
  {
    var tag := outstanding[i];
    var rest := outstanding[..i] + outstanding[i + 1..];
    assert outstanding == (outstanding[..i] + [tag]) + outstanding[i + 1..];
    assert ToUShort(tag) == tag;
    forall id: Id
      ensures Occurrences<UInt>(outstanding, id) == Occurrences<UInt>(rest, id) + (if tag == id then 1 else 0)
    {
      OccurrencesAppend<UInt>(outstanding[..i] + [tag], outstanding[i + 1..], id);
      OccurrencesAppend<UInt>(outstanding[..i], [tag], id);
      OccurrencesAppend<UInt>(outstanding[..i], outstanding[i + 1..], id);
      assert Occurrences<UInt>([tag], id) == (if tag == id then 1 else 0) by {
        assert [tag][..0] == [];
      }
    }
    forall k | 0 <= k < |rest|
      ensures rest[k] < UShortModulus
    {
      if k < i {
        assert rest[k] == outstanding[k];
      } else {
        assert rest[k] == outstanding[k + 1];
      }
    }
  }

  /** Completing every readback of a pass, each tagged with its own id. */
  lemma CompleteOwnTags(executing: map<Id, bool>, ds: seq<Id>)
    requires forall id :: id in ds ==> id in executing
    ensures MarkExecuting(executing, ds).Keys == executing.Keys
    ensures forall j :: 0 <= j < |ds| ==> ToUShort(ds[j]) in MarkExecuting(executing, ds)
    ensures forall id :: id in executing ==> CompleteAll(MarkExecuting(executing, ds), ds)[id] == (executing[id] && id !in ds)
  {
    MarkKeepsKeys(executing, ds);
    var marked := MarkExecuting(executing, ds);
    assert forall j :: 0 <= j < |ds| ==> ToUShort(ds[j]) == ds[j];
    CompleteAllAt(marked, ds);
    forall id | id in executing
      ensures CompleteAll(marked, ds)[id] == (executing[id] && id !in ds)
    {
      if id in ds {
        var j :| 0 <= j < |ds| && ds[j] == id;
        assert ToUShort(ds[j]) == id;
      }
    }
  }

  /** With per-request tags, once every readback of a pass has completed, every
      id the pass dispatched is idle again and every other flag is as before. */
  lemma PerRequestReadbacksClearEveryFlag(order: seq<Id>, polled: seq<Ptr>, executing: map<Id, bool>)
    requires |polled| == |order|
    requires forall k :: 0 <= k < |order| ==> order[k] in executing
    ensures var ds := Dispatched(order, polled, executing);
            var tags := ReadbackData(CommandsFor(ds));
            && (forall k :: 0 <= k < |tags| ==> ToUShort(tags[k]) in MarkExecuting(executing, ds))
            && CompleteAll(MarkExecuting(executing, ds), tags).Keys == executing.Keys
            && forall id :: id in executing ==>
                 CompleteAll(MarkExecuting(executing, ds), tags)[id] == (executing[id] && id !in ds)
  {
    var ds := Dispatched(order, polled, executing);
    DispatchedIdle(order, polled, executing);
    ReadbackDataOfPass(ds);
    MarkKeepsKeys(executing, ds);
    CompleteOwnTags(executing, ds);
  }

  /** Two idle renderers (ids 0 and 1) that are both ready in the same frame
      are both dispatched and both marked executing. */
  lemma TwoReadyRenderersDispatched()
    ensures Dispatched([0, 1], [0x100, 0x200], map[0 := false, 1 := false]) == [0, 1]
    ensures MarkExecuting(map[0 := false, 1 := false], [0, 1]) == map[0 := true, 1 := true]
  {
    var order: seq<Id> := [0, 1];
    var polled: seq<Ptr> := [0x100, 0x200];
    assert order[..1] == [0] && polled[..1] == [0x100];
    assert [0][..0] == [] && [0x100][..0] == [];
    assert Dispatched([0], [0x100], map[0 := false, 1 := false]) == [0];
  }

  /** As written, both readbacks of that pass report the id written last. */
  lemma TwoReadbacksReportLastId()
    ensures ReadbackDataAsWritten(CommandsFor([0, 1]), LastOr([0, 1], 0)) == [1, 1]
  {
    ReadbackDataAsWrittenOfPass([0, 1], 1);
  }

  /** Two completions tagged 1 leave id 0 executing. */
  lemma LastIdTagsStrandFirst()
    ensures !OneInFlight(map[0 := true, 1 := true], [1, 1])
    ensures CompleteAll(map[0 := true, 1 := true], [1, 1])[0]
  {
    var tags: seq<UInt> := [1, 1];
    assert tags[..1] == [1];
    assert Occurrences<UInt>(tags, 1) == 2;
    assert CompleteAll(map[0 := true, 1 := true], [1])[0];
  }

  /** As written, two idle renderers (ids 0 and 1) that are both ready in the
      same frame are both dispatched, but both readbacks report id 1: the
      protocol breaks and, once both have completed, id 0 is still executing,
      so it is never dispatched again. */
  lemma SharedIdBufferStrandsEarlierRenderer()
    ensures Dispatched([0, 1], [0x100, 0x200], map[0 := false, 1 := false]) == [0, 1]
    ensures MarkExecuting(map[0 := false, 1 := false], [0, 1]) == map[0 := true, 1 := true]
    ensures ReadbackDataAsWritten(CommandsFor([0, 1]), LastOr([0, 1], 0)) == [1, 1]
    ensures !OneInFlight(map[0 := true, 1 := true], [1, 1])
    ensures CompleteAll(map[0 := true, 1 := true], [1, 1])[0]
  {
    TwoReadyRenderersDispatched();
    TwoReadbacksReportLastId();
    LastIdTagsStrandFirst();
  }
}
