/**
 The pending-chunk queue of crates/iroh-beekem-core/src/state.rs (`park_chunk`, `drain_pending`,
 `try_apply`, `on_chunk_arrived`, `on_control_op`): a chunk waits on two graphs, the group
 operations that let this node derive its key and the document operations its update builds on.

 A document is the set of its operations and a chunk carries some of them on top of the ones it
 depends on, imported all or nothing. `derivable(op)` says whether this node can derive the epoch
 an operation established; `intact` whether authentication succeeds under that key.
 */
module IngestMachine {
  import opened Ordered
  import opened MergeMachine

  datatype Chunk = Chunk(
    contentRef: Id,
    epoch: Id,
    establishedBy: Op,
    size: nat,
    deps: set<Atom>,
    atoms: set<Atom>,
    intact: bool)

  datatype Parked = Parked(doc: DocId, chunk: Chunk, drains: nat)

  datatype ChunkVerdict = Merged | AwaitingKey | AwaitingDeps | Unreachable | Corrupt

  datatype Effect =
    | ChunkMerged(doc: DocId)
    | RequestHistory(doc: DocId, epoch: Id)
    | RequestDocument(doc: DocId, epoch: Id)

  const MAX_PENDING_CHUNK_BYTES: nat := 64 * 1024 * 1024
  const MAX_PENDING_CHUNKS: nat := 4096
  const MAX_DEP_WAIT_DRAINS: nat := 8
  const MAX_DRAINS: nat := 0xffff_ffff

  type Documents = map<DocId, set<Atom>>

  /** `merged` counts the chunks ever merged; every other field is one of the node's own. */
  datatype Inbox = Inbox(
    docs: Documents,
    pending: seq<Parked>,
    pendingBytes: nat,
    evicted: nat,
    unreadable: nat,
    corrupt: nat,
    merged: nat,
    effects: seq<Effect>)

  /** What the key plane answers: the operations in hand and which epochs are derivable. */
  datatype Keys = Keys(ops: set<Op>, derivable: Op -> bool)

  function Content(docs: Documents, doc: DocId): set<Atom> {
    if doc in docs then docs[doc] else {}
  }

  function Judge(k: Keys, docs: Documents, doc: DocId, chunk: Chunk): ChunkVerdict {
    if chunk.establishedBy !in k.ops then AwaitingKey
    else if !k.derivable(chunk.establishedBy) then Unreachable
    else if !chunk.intact then Corrupt
    else if chunk.deps <= Content(docs, doc) then Merged
    else AwaitingDeps
  }

  /** Deciphering a chunk opens its document, even if the update then has to wait. */
  function Import(docs: Documents, doc: DocId, chunk: Chunk, verdict: ChunkVerdict): Documents {
    match verdict
    case Merged => docs[doc := Content(docs, doc) + chunk.atoms]
    case AwaitingDeps => docs[doc := Content(docs, doc)]
    case _ => docs
  }

  function Older(drains: nat): nat {
    if drains >= MAX_DRAINS then MAX_DRAINS else drains + 1
  }

  function Asking(p: Parked, verdict: ChunkVerdict): seq<Effect> {
    match verdict
    case Merged => [ChunkMerged(p.doc)]
    case AwaitingDeps =>
      if Older(p.drains) >= MAX_DEP_WAIT_DRAINS then [RequestHistory(p.doc, p.chunk.epoch)] else []
    case Unreachable => [RequestDocument(p.doc, p.chunk.epoch)]
    case _ => []
  }

  /** Try one chunk that was waiting. */
  function Attempt(k: Keys, s: Inbox, p: Parked): Inbox {
    var verdict := Judge(k, s.docs, p.doc, p.chunk);
    var t := s.(docs := Import(s.docs, p.doc, p.chunk, verdict), effects := s.effects + Asking(p, verdict));
    match verdict
    case Merged => t.(merged := s.merged + 1)
    case Unreachable => t.(unreadable := s.unreadable + 1)
    case Corrupt => t.(corrupt := s.corrupt + 1)
    case _ => t.(pending := s.pending + [p.(drains := Older(p.drains))],
                 pendingBytes := s.pendingBytes + p.chunk.size)
  }

  function Pass(k: Keys, s: Inbox, candidates: seq<Parked>): Inbox
    decreases |candidates|
  {
    if candidates == [] then s
    else Attempt(k, Pass(k, s, candidates[..|candidates| - 1]), candidates[|candidates| - 1])
  }

  lemma {:induction false} PassCounts(k: Keys, s: Inbox, candidates: seq<Parked>)
    ensures var r := Pass(k, s, candidates);
            && r.merged >= s.merged && r.unreadable >= s.unreadable && r.corrupt >= s.corrupt
            && r.evicted == s.evicted
            && |s.pending| + |candidates| ==
               |r.pending| + (r.merged - s.merged) + (r.unreadable - s.unreadable) + (r.corrupt - s.corrupt)
    decreases |candidates|
  {
    if candidates == [] {
    } else {
      PassCounts(k, s, candidates[..|candidates| - 1]);
    }
  }

  function Emptied(s: Inbox): Inbox {
    s.(pending := [], pendingBytes := 0)
  }

  /** Retry the queue until a pass merges nothing. */
  function Drain(k: Keys, s: Inbox): Inbox
    decreases |s.pending|
  {
    var r := Pass(k, Emptied(s), s.pending);
    if r.merged == s.merged then r else
      PassCounts(k, Emptied(s), s.pending);
      Drain(k, r)
  }

  predicate IsFull(s: Inbox, size: nat) {
    |s.pending| >= MAX_PENDING_CHUNKS || s.pendingBytes + size > MAX_PENDING_CHUNK_BYTES
  }

  function SaturatingSub(a: nat, b: nat): nat {
    if a < b then 0 else a - b
  }

  function DropOldest(s: Inbox): Inbox
    requires s.pending != []
  {
    s.(pending := s.pending[1..],
       pendingBytes := SaturatingSub(s.pendingBytes, s.pending[0].chunk.size),
       evicted := s.evicted + 1)
  }

  function MakeRoom(s: Inbox, size: nat): Inbox
    decreases |s.pending|
  {
    if s.pending != [] && IsFull(s, size) then MakeRoom(DropOldest(s), size) else s
  }

  function ParkChunk(s: Inbox, doc: DocId, chunk: Chunk): Inbox {
    var t := MakeRoom(s, chunk.size);
    t.(pending := t.pending + [Parked(doc, chunk, 0)], pendingBytes := t.pendingBytes + chunk.size)
  }

  predicate IsParked(s: Inbox, doc: DocId, chunk: Chunk) {
    exists p | p in s.pending ::
      p.doc == doc && p.chunk.contentRef == chunk.contentRef && p.chunk.epoch == chunk.epoch
  }

  function OnChunk(k: Keys, s: Inbox, doc: DocId, chunk: Chunk): Inbox {
    Drain(k, if IsParked(s, doc, chunk) then s else ParkChunk(s, doc, chunk))
  }

  function Without(pending: seq<Parked>, doc: DocId): seq<Parked>
    decreases |pending|
  {
    if pending == [] then [] else
      var last := pending[|pending| - 1];
      Without(pending[..|pending| - 1], doc) + if last.doc == doc then [] else [last]
  }

  function Bytes(pending: seq<Parked>): nat
    decreases |pending|
  {
    if pending == [] then 0 else Bytes(pending[..|pending| - 1]) + pending[|pending| - 1].chunk.size
  }

  /** Deleting a document drops what is parked for it, so it cannot come back. */
  function Forget(s: Inbox, doc: DocId): Inbox {
    var kept := Without(s.pending, doc);
    s.(docs := s.docs - {doc}, pending := kept, pendingBytes := Bytes(kept))
  }

  // ---------------------------------------------------------------- accounting

  /**
   The running total is exact; the queue is within its count, and within its byte budget unless
   one oversize chunk is alone in it.
   */
  ghost predicate Budgeted(s: Inbox) {
    && s.pendingBytes == Bytes(s.pending)
    && |s.pending| <= MAX_PENDING_CHUNKS
    && (s.pendingBytes <= MAX_PENDING_CHUNK_BYTES || |s.pending| == 1)
  }

  lemma {:induction false} BytesAppend(a: seq<Parked>, b: seq<Parked>)
    ensures Bytes(a + b) == Bytes(a) + Bytes(b)
    decreases |b|
  {
    if b == [] {
      assert a + b == a;
    } else {
      assert (a + b)[..|a + b| - 1] == a + b[..|b| - 1];
      BytesAppend(a, b[..|b| - 1]);
    }
  }

  lemma BytesOfOne(p: Parked)
    ensures Bytes([p]) == p.chunk.size
  {
    assert [p][..0] == [];
  }

  lemma BytesPush(a: seq<Parked>, p: Parked)
    ensures Bytes(a + [p]) == Bytes(a) + p.chunk.size
  {
    BytesAppend(a, [p]);
    BytesOfOne(p);
  }

  lemma BytesPop(a: seq<Parked>)
    requires a != []
    ensures Bytes(a) == a[0].chunk.size + Bytes(a[1..])
  {
    assert a == [a[0]] + a[1..];
    BytesAppend([a[0]], a[1..]);
    BytesOfOne(a[0]);
  }

  lemma {:induction false} RoomIsMade(s: Inbox, size: nat)
    requires s.pendingBytes == Bytes(s.pending)
    ensures var t := MakeRoom(s, size);
            && t.pendingBytes == Bytes(t.pending)
            && (t.pending == [] || !IsFull(t, size))
            && t.evicted - s.evicted == |s.pending| - |t.pending|
            && (exists n | 0 <= n <= |s.pending| :: t.pending == s.pending[n..])
    decreases |s.pending|
  {
    if s.pending != [] && IsFull(s, size) {
      BytesPop(s.pending);
      RoomIsMade(DropOldest(s), size);
      var t := MakeRoom(s, size);
      var n :| 0 <= n <= |s.pending[1..]| && t.pending == s.pending[1..][n..];
      assert t.pending == s.pending[n + 1..];
    } else {
      assert s.pending == s.pending[0..];
    }
  }

  lemma ParkingStaysBudgeted(s: Inbox, doc: DocId, chunk: Chunk)
    requires Budgeted(s)
    ensures Budgeted(ParkChunk(s, doc, chunk))
  {
    RoomIsMade(s, chunk.size);
    var t := MakeRoom(s, chunk.size);
    BytesPush(t.pending, Parked(doc, chunk, 0));
  }

  lemma AttemptBytes(k: Keys, s: Inbox, p: Parked)
    requires s.pendingBytes == Bytes(s.pending)
    ensures var r := Attempt(k, s, p); r.pendingBytes == Bytes(r.pending) <= s.pendingBytes + p.chunk.size
  {
    BytesPush(s.pending, p.(drains := Older(p.drains)));
  }

  lemma {:induction false} PassBytes(k: Keys, s: Inbox, candidates: seq<Parked>)
    requires s.pendingBytes == Bytes(s.pending)
    ensures var r := Pass(k, s, candidates);
            r.pendingBytes == Bytes(r.pending) <= s.pendingBytes + Bytes(candidates)
    decreases |candidates|
  {
    if candidates == [] {
    } else {
      var init, p := candidates[..|candidates| - 1], candidates[|candidates| - 1];
      PassBytes(k, s, init);
      AttemptBytes(k, Pass(k, s, init), p);
    }
  }

  lemma PassStaysBudgeted(k: Keys, s: Inbox)
    requires Budgeted(s)
    ensures Budgeted(Pass(k, Emptied(s), s.pending))
  {
    PassBytes(k, Emptied(s), s.pending);
    PassCounts(k, Emptied(s), s.pending);
  }

  /** Every drain ends within budget, and each chunk was merged, unreadable, corrupt or is left. */
  lemma {:induction false} DrainAccounts(k: Keys, s: Inbox)
    requires Budgeted(s)
    ensures Budgeted(Drain(k, s))
    ensures var r := Drain(k, s);
            && r.evicted == s.evicted
            && r.merged >= s.merged && r.unreadable >= s.unreadable && r.corrupt >= s.corrupt
            && |s.pending| ==
               (r.merged - s.merged) + (r.unreadable - s.unreadable) + (r.corrupt - s.corrupt) + |r.pending|
    decreases |s.pending|
  {
    var r := Pass(k, Emptied(s), s.pending);
    PassCounts(k, Emptied(s), s.pending);
    PassStaysBudgeted(k, s);
    if r.merged != s.merged { DrainAccounts(k, r); }
  }

  lemma {:induction false} ForgettingShrinks(pending: seq<Parked>, doc: DocId)
    ensures |Without(pending, doc)| <= |pending| && Bytes(Without(pending, doc)) <= Bytes(pending)
    ensures forall p :: p in Without(pending, doc) <==> p in pending && p.doc != doc
    decreases |pending|
  {
    if pending == [] {
    } else {
      var init, last := pending[..|pending| - 1], pending[|pending| - 1];
      assert pending == init + [last];
      ForgettingShrinks(init, doc);
      BytesPush(Without(init, doc), last);
      assert Without(init, doc) + [] == Without(init, doc);
    }
  }

  /** Deletion keeps the accounting and leaves nothing of the document in the queue. */
  lemma ForgettingStaysBudgeted(s: Inbox, doc: DocId)
    requires Budgeted(s)
    ensures Budgeted(Forget(s, doc)) && forall p | p in Forget(s, doc).pending :: p.doc != doc
  {
    ForgettingShrinks(s.pending, doc);
    var kept := Without(s.pending, doc);
    if |s.pending| == 1 && kept == [] { assert Bytes(kept) == 0; }
  }

  lemma WithoutNext(pending: seq<Parked>, i: nat, doc: DocId)
    requires i < |pending|
    ensures Without(pending[..i + 1], doc)
            == Without(pending[..i], doc) + if pending[i].doc == doc then [] else [pending[i]]
    ensures Bytes(pending[i..]) == pending[i].chunk.size + Bytes(pending[i + 1..])
  {
    assert pending[..i + 1][..i] == pending[..i];
    BytesPop(pending[i..]);
    assert pending[i..][1..] == pending[i + 1..];
  }

  /** Every arrival keeps the accounting. */
  lemma QueueIsAlwaysBudgeted(k: Keys, s: Inbox, doc: DocId, chunk: Chunk)
    requires Budgeted(s)
    ensures Budgeted(OnChunk(k, s, doc, chunk))
  {
    if !IsParked(s, doc, chunk) { ParkingStaysBudgeted(s, doc, chunk); }
    DrainAccounts(k, if IsParked(s, doc, chunk) then s else ParkChunk(s, doc, chunk));
  }
}
