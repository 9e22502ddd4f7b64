/**
 The ingestion half of `WorkspaceState` (crates/iroh-beekem-core/src/state.rs): the documents, the
 pending queue and its counters updated in place, proved against `IngestMachine`.
 */
module WorkspaceInbox {
  import opened Ordered
  import opened IngestMachine

  /** Keep the chunks of other documents, taking each dropped one off the running total. */
  method RetainOthers(queue: seq<Parked>, total: nat, doc: DocId) returns (kept: seq<Parked>, bytes: nat)
    requires total == Bytes(queue)
    ensures kept == Without(queue, doc) && bytes == Bytes(kept)
  {
    kept, bytes := [], total;
    assert queue[0..] == queue;
    for i := 0 to |queue|
      invariant kept == Without(queue[..i], doc)
      invariant bytes == Bytes(kept) + Bytes(queue[i..])
    {
      WithoutNext(queue, i, doc);
      var p := queue[i];
      if p.doc != doc {
        BytesPush(kept, p);
        kept := kept + [p];
      } else {
        assert kept + [] == kept;
        bytes := SaturatingSub(bytes, p.chunk.size);
      }
    }
    assert queue[..|queue|] == queue && queue[|queue|..] == [];
  }

  class WorkspaceInbox {
    var docs: Documents
    var pendingChunks: seq<Parked>
    var pendingBytes: nat
    var evictedChunks: nat
    var unreadableChunks: nat
    var corruptChunks: nat
    ghost var merged: nat

    ghost function View(effects: seq<Effect>): Inbox
      reads this
    {
      Inbox(docs, pendingChunks, pendingBytes, evictedChunks, unreadableChunks, corruptChunks, merged, effects)
    }

    ghost predicate Valid()
      reads this
    {
      Budgeted(View([]))
    }

    constructor ()
      ensures Valid() && View([]) == Inbox(map[], [], 0, 0, 0, 0, 0, [])
    {
      docs, pendingChunks, pendingBytes := map[], [], 0;
      evictedChunks, unreadableChunks, corruptChunks, merged := 0, 0, 0, 0;
    }

    /** Admit a chunk to the queue, evicting the oldest ones while it does not fit. */
    method Park(doc: DocId, chunk: Chunk)
      requires Valid()
      modifies this`pendingChunks, this`pendingBytes, this`evictedChunks
      ensures Valid() && View([]) == ParkChunk(old(View([])), doc, chunk)
    {
      ghost var before := View([]);
      ParkingStaysBudgeted(before, doc, chunk);
      while pendingChunks != []
            && (|pendingChunks| >= MAX_PENDING_CHUNKS || pendingBytes + chunk.size > MAX_PENDING_CHUNK_BYTES)
        invariant MakeRoom(View([]), chunk.size) == MakeRoom(before, chunk.size)
        decreases |pendingChunks|
      {
        ghost var here := View([]);
        var size := pendingChunks[0].chunk.size;
        pendingChunks := pendingChunks[1..];
        pendingBytes := SaturatingSub(pendingBytes, size);
        evictedChunks := evictedChunks + 1;
        assert View([]) == DropOldest(here);
      }
      assert View([]) == MakeRoom(before, chunk.size);
      pendingBytes := pendingBytes + chunk.size;
      pendingChunks := pendingChunks + [Parked(doc, chunk, 0)];
    }

    method TryApply(k: Keys, doc: DocId, chunk: Chunk) returns (verdict: ChunkVerdict)
      modifies this`docs
      ensures verdict == Judge(k, old(docs), doc, chunk)
      ensures docs == Import(old(docs), doc, chunk, verdict)
    {
      if chunk.establishedBy !in k.ops { return AwaitingKey; }
      if !k.derivable(chunk.establishedBy) { return Unreachable; }
      if !chunk.intact { return Corrupt; }
      if doc !in docs { docs := docs[doc := {}]; }
      if chunk.deps <= docs[doc] {
        docs := docs[doc := docs[doc] + chunk.atoms];
        verdict := Merged;
      } else {
        verdict := AwaitingDeps;
      }
    }

    /** What one verdict does to the queue, the counters and the effects. */
    method Settle(p: Parked, verdict: ChunkVerdict, effects: seq<Effect>) returns (out: seq<Effect>, applied: nat)
      modifies this`pendingChunks, this`pendingBytes, this`unreadableChunks, this`corruptChunks, this`merged
      ensures out == effects + Asking(p, verdict)
      ensures applied == (if verdict == Merged then 1 else 0) && merged == old(merged) + applied
      ensures unreadableChunks == old(unreadableChunks) + if verdict == Unreachable then 1 else 0
      ensures corruptChunks == old(corruptChunks) + if verdict == Corrupt then 1 else 0
      ensures var waits := verdict == AwaitingKey || verdict == AwaitingDeps;
              && pendingChunks == old(pendingChunks) + (if waits then [p.(drains := Older(p.drains))] else [])
              && pendingBytes == old(pendingBytes) + if waits then p.chunk.size else 0
    {
      out, applied := effects, 0;
      match verdict {
        case Merged =>
          applied, merged := 1, merged + 1;
          out := effects + [ChunkMerged(p.doc)];
        case AwaitingKey =>
          pendingBytes := pendingBytes + p.chunk.size;
          pendingChunks := pendingChunks + [p.(drains := Older(p.drains))];
        case AwaitingDeps =>
          var drains := Older(p.drains);
          if drains >= MAX_DEP_WAIT_DRAINS {
            out := effects + [RequestHistory(p.doc, p.chunk.epoch)];
          }
          pendingBytes := pendingBytes + p.chunk.size;
          pendingChunks := pendingChunks + [p.(drains := drains)];
        case Unreachable =>
          unreadableChunks := unreadableChunks + 1;
          out := effects + [RequestDocument(p.doc, p.chunk.epoch)];
        case Corrupt =>
          corruptChunks := corruptChunks + 1;
      }
    }

    method OnePass(k: Keys, candidates: seq<Parked>, effects: seq<Effect>) returns (out: seq<Effect>, applied: nat)
      modifies this
      ensures View(out) == Pass(k, old(View(effects)), candidates)
      ensures merged == old(merged) + applied
    {
      out, applied := effects, 0;
      ghost var start := View(effects);
      for i := 0 to |candidates|
        invariant View(out) == Pass(k, start, candidates[..i])
        invariant merged == start.merged + applied
      {
        assert candidates[..i + 1][..i] == candidates[..i];
        ghost var here := View(out);
        var p := candidates[i];
        var verdict := TryApply(k, p.doc, p.chunk);
        var more;
        out, more := Settle(p, verdict, out);
        applied := applied + more;
        assert pendingChunks + [] == pendingChunks;
        assert View(out) == Attempt(k, here, p);
      }
      assert candidates[..|candidates|] == candidates;
    }

    /** Retry everything parked, repeating while chunks are being merged. */
    method DrainPending(k: Keys) returns (effects: seq<Effect>)
      requires Valid()
      modifies this
      ensures Valid() && View(effects) == Drain(k, old(View([])))
    {
      effects := [];
      ghost var start := View([]);
      DrainAccounts(k, start);
      while true
        invariant Drain(k, View(effects)) == Drain(k, start)
        decreases |pendingChunks|
      {
        ghost var before := View(effects);
        var candidates := pendingChunks;
        pendingChunks, pendingBytes := [], 0;
        assert View(effects) == Emptied(before);
        PassCounts(k, Emptied(before), candidates);
        var applied;
        effects, applied := OnePass(k, candidates, effects);
        if applied == 0 {
          assert View(effects) == Drain(k, start);
          assert View([]) == View(effects).(effects := []);
          return;
        }
      }
    }

    method OnChunkArrived(k: Keys, doc: DocId, chunk: Chunk) returns (effects: seq<Effect>)
      requires Valid()
      modifies this
      ensures Valid() && View(effects) == OnChunk(k, old(View([])), doc, chunk)
    {
      var alreadyParked := false;
      for i := 0 to |pendingChunks|
        invariant alreadyParked <==> exists p | p in pendingChunks[..i] ::
                    p.doc == doc && p.chunk.contentRef == chunk.contentRef && p.chunk.epoch == chunk.epoch
      {
        assert pendingChunks[..i + 1] == pendingChunks[..i] + [pendingChunks[i]];
        var p := pendingChunks[i];
        if p.doc == doc && p.chunk.contentRef == chunk.contentRef && p.chunk.epoch == chunk.epoch {
          assert p in pendingChunks[..i + 1];
          alreadyParked := true;
        }
      }
      assert pendingChunks[..|pendingChunks|] == pendingChunks;
      assert alreadyParked <==> IsParked(View([]), doc, chunk);
      if !alreadyParked { Park(doc, chunk); }
      effects := DrainPending(k);
    }

    /** The queue's share of `on_delete_file`. */
    method ForgetDocument(doc: DocId)
      requires Valid()
      modifies this`docs, this`pendingChunks, this`pendingBytes
      ensures Valid() && View([]) == Forget(old(View([])), doc)
    {
      ForgettingStaysBudgeted(View([]), doc);
      docs := docs - {doc};
      pendingChunks, pendingBytes := RetainOthers(pendingChunks, pendingBytes, doc);
    }
  }
}
