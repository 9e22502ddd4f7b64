/**
 Two graphs, one pipeline: key operations and chunks may interleave in any way. The documents, the
 chunks still waiting and the key plane end the same, and at no point does a chunk wait that could
 be read and merged.
 */
module IngestConfluence {
  import opened Ordered
  import opened MergeMachine
  import opened MergeConfluence
  import opened IngestMachine

  datatype Workspace = Workspace(dag: Dag, inbox: Inbox)

  datatype Event =
    | KeyOp(authorized: AuthorizedOp)
    | ChunkArrived(doc: DocId, chunk: Chunk)

  /** The node: how it judges operations and which epochs it can derive. */
  datatype Node = Node(ok: Op -> bool, derivable: Op -> bool)

  function KeysOf(n: Node, m: Dag): Keys {
    Keys(m.applied, n.derivable)
  }

  /** An applied operation may have unlocked chunks; anything else leaves the queue alone. */
  function Handle(n: Node, w: Workspace, e: Event): Workspace {
    match e
    case KeyOp(a) =>
      var m := Deliver(n.ok, w.dag, a);
      if a.signatureOk && Verdict(n.ok, w.dag, a.op) == Applied then
        Workspace(m, Drain(KeysOf(n, m), w.inbox))
      else
        Workspace(m, w.inbox)
    case ChunkArrived(doc, chunk) =>
      w.(inbox := OnChunk(KeysOf(n, w.dag), w.inbox, doc, chunk))
  }

  function HandleAll(n: Node, w: Workspace, es: seq<Event>): Workspace
    decreases |es|
  {
    if es == [] then w else Handle(n, HandleAll(n, w, es[..|es| - 1]), es[|es| - 1])
  }

  // ---------------------------------------------------------------- nothing readable waits

  /** A waiting chunk lacks its key operation, or its open document lacks a dependency. */
  ghost predicate Waits(k: Keys, docs: Documents, p: Parked) {
    || p.chunk.establishedBy !in k.ops
    || (&& k.derivable(p.chunk.establishedBy) && p.chunk.intact
        && p.doc in docs && !(p.chunk.deps <= docs[p.doc]))
  }

  ghost predicate AllWait(k: Keys, s: Inbox) {
    forall p | p in s.pending :: Waits(k, s.docs, p)
  }

  ghost predicate DocsKept(a: Documents, b: Documents) {
    forall d | d in a :: d in b && b[d] == a[d]
  }

  lemma IdleAttemptLeavesWaiting(k: Keys, s: Inbox, p: Parked)
    requires AllWait(k, s) && Attempt(k, s, p).merged == s.merged
    ensures AllWait(k, Attempt(k, s, p)) && DocsKept(s.docs, Attempt(k, s, p).docs)
  {
  }

  lemma {:induction false} IdlePassLeavesWaiting(k: Keys, s: Inbox, cs: seq<Parked>)
    requires AllWait(k, s) && Pass(k, s, cs).merged == s.merged
    ensures AllWait(k, Pass(k, s, cs))
    decreases |cs|
  {
    if cs == [] {
    } else {
      var init, last := cs[..|cs| - 1], cs[|cs| - 1];
      PassCounts(k, s, init);
      IdlePassLeavesWaiting(k, s, init);
      IdleAttemptLeavesWaiting(k, Pass(k, s, init), last);
    }
  }

  lemma {:induction false} DrainLeavesOnlyWaiting(k: Keys, s: Inbox)
    ensures AllWait(k, Drain(k, s))
    decreases |s.pending|
  {
    var r := Pass(k, Emptied(s), s.pending);
    PassCounts(k, Emptied(s), s.pending);
    if r.merged == s.merged {
      IdlePassLeavesWaiting(k, Emptied(s), s.pending);
    } else {
      DrainLeavesOnlyWaiting(k, r);
    }
  }

  /** After every event of every run, no pending chunk is both decryptable and complete. */
  lemma {:induction false} NothingReadableWaits(n: Node, w: Workspace, es: seq<Event>)
    requires AllWait(KeysOf(n, w.dag), w.inbox)
    ensures var v := HandleAll(n, w, es); AllWait(KeysOf(n, v.dag), v.inbox)
    decreases |es|
  {
    if es == [] {
    } else {
      var v := HandleAll(n, w, es[..|es| - 1]);
      NothingReadableWaits(n, w, es[..|es| - 1]);
      match es[|es| - 1]
      case KeyOp(a) =>
        if a.signatureOk && Verdict(n.ok, v.dag, a.op) == Applied {
          DrainLeavesOnlyWaiting(KeysOf(n, Deliver(n.ok, v.dag, a)), v.inbox);
        } else {
          assert Deliver(n.ok, v.dag, a).applied == v.dag.applied;
        }
      case ChunkArrived(doc, chunk) =>
        var k := KeysOf(n, v.dag);
        DrainLeavesOnlyWaiting(k, if IsParked(v.inbox, doc, chunk) then v.inbox else ParkChunk(v.inbox, doc, chunk));
    }
  }

  // ---------------------------------------------------------------- where every chunk is

  datatype Arrival = Arrival(doc: DocId, chunk: Chunk)

  ghost predicate InQueue(s: Inbox, x: Arrival) {
    exists p | p in s.pending :: p.doc == x.doc && p.chunk == x.chunk
  }

  ghost predicate Absorbed(k: Keys, docs: Documents, x: Arrival) {
    && x.chunk.establishedBy in k.ops && k.derivable(x.chunk.establishedBy) && x.chunk.intact
    && x.doc in docs && x.chunk.deps <= docs[x.doc] && x.chunk.atoms <= docs[x.doc]
  }

  ghost predicate Dropped(k: Keys, x: Arrival) {
    x.chunk.establishedBy in k.ops && (!k.derivable(x.chunk.establishedBy) || !x.chunk.intact)
  }

  ghost predicate Tracked(k: Keys, s: Inbox, x: Arrival) {
    InQueue(s, x) || Absorbed(k, s.docs, x) || Dropped(k, x)
  }

  ghost predicate DocsBelow(a: Documents, b: Documents) {
    forall d | d in a :: d in b && a[d] <= b[d]
  }

  lemma AttemptTracks(k: Keys, s: Inbox, p: Parked, x: Arrival)
    requires Tracked(k, s, x) || x == Arrival(p.doc, p.chunk)
    ensures Tracked(k, Attempt(k, s, p), x)
    ensures DocsBelow(s.docs, Attempt(k, s, p).docs)
  {
    var t := Attempt(k, s, p);
    if InQueue(s, x) {
      var q :| q in s.pending && q.doc == x.doc && q.chunk == x.chunk;
      assert q in t.pending;
    } else if x == Arrival(p.doc, p.chunk) && Judge(k, s.docs, p.doc, p.chunk) in {AwaitingKey, AwaitingDeps} {
      var q := p.(drains := Older(p.drains));
      assert t.pending == s.pending + [q];
      assert q in t.pending;
    }
  }

  lemma {:induction false} PassTracks(k: Keys, s: Inbox, cs: seq<Parked>, x: Arrival)
    requires Tracked(k, s, x) || exists p | p in cs :: x == Arrival(p.doc, p.chunk)
    ensures Tracked(k, Pass(k, s, cs), x)
    decreases |cs|
  {
    if cs == [] {
    } else {
      var init, last := cs[..|cs| - 1], cs[|cs| - 1];
      assert cs == init + [last];
      if x != Arrival(last.doc, last.chunk) { PassTracks(k, s, init, x); }
      AttemptTracks(k, Pass(k, s, init), last, x);
    }
  }

  lemma {:induction false} DrainTracks(k: Keys, s: Inbox, x: Arrival)
    requires Tracked(k, s, x)
    ensures Tracked(k, Drain(k, s), x)
    decreases |s.pending|
  {
    var r := Pass(k, Emptied(s), s.pending);
    PassCounts(k, Emptied(s), s.pending);
    if InQueue(s, x) {
      var p :| p in s.pending && p.doc == x.doc && p.chunk == x.chunk;
      assert x == Arrival(p.doc, p.chunk);
    } else {
      assert Tracked(k, Emptied(s), x);
    }
    PassTracks(k, Emptied(s), s.pending, x);
    if r.merged != s.merged { DrainTracks(k, r, x); }
  }

  lemma {:induction false} MakingRoomOnlyEvicts(s: Inbox, size: nat)
    ensures MakeRoom(s, size).evicted >= s.evicted && MakeRoom(s, size).docs == s.docs
    ensures MakeRoom(s, size).evicted == s.evicted ==> MakeRoom(s, size) == s
    ensures forall p | p in MakeRoom(s, size).pending :: p in s.pending
    decreases |s.pending|
  {
    if s.pending != [] && IsFull(s, size) { MakingRoomOnlyEvicts(DropOldest(s), size); }
  }

  lemma {:induction false} DrainEvictsNothing(k: Keys, s: Inbox)
    ensures Drain(k, s).evicted == s.evicted
    decreases |s.pending|
  {
    var r := Pass(k, Emptied(s), s.pending);
    PassCounts(k, Emptied(s), s.pending);
    if r.merged != s.merged { DrainEvictsNothing(k, r); }
  }

  /** Chunks of one document with the same reference and epoch are the same chunk. */
  ghost predicate Identified(c: set<Arrival>) {
    forall x, y | x in c && y in c && x.doc == y.doc
                  && x.chunk.contentRef == y.chunk.contentRef && x.chunk.epoch == y.chunk.epoch :: x == y
  }

  function Queue(s: Inbox): set<Arrival> {
    set p | p in s.pending :: Arrival(p.doc, p.chunk)
  }

  lemma ArrivalTracks(k: Keys, s: Inbox, c: set<Arrival>, x: Arrival, y: Arrival)
    requires Identified(c) && Queue(s) <= c && x in c
    requires OnChunk(k, s, x.doc, x.chunk).evicted == s.evicted
    requires y == x || Tracked(k, s, y)
    ensures Tracked(k, OnChunk(k, s, x.doc, x.chunk), y)
  {
    var t := if IsParked(s, x.doc, x.chunk) then s else ParkChunk(s, x.doc, x.chunk);
    DrainEvictsNothing(k, t);
    MakingRoomOnlyEvicts(s, x.chunk.size);
    if IsParked(s, x.doc, x.chunk) {
      var p :| p in s.pending && p.doc == x.doc
               && p.chunk.contentRef == x.chunk.contentRef && p.chunk.epoch == x.chunk.epoch;
      assert Arrival(p.doc, p.chunk) in Queue(s);
      assert InQueue(s, x);
    } else {
      assert Parked(x.doc, x.chunk, 0) in t.pending;
      if InQueue(s, y) {
        var q :| q in s.pending && q.doc == y.doc && q.chunk == y.chunk;
        assert q in t.pending;
      }
    }
    DrainTracks(k, t, y);
  }

  // ---------------------------------------------------------------- documents stay below any closed family

  /** A family of documents that every readable arrival of `c` agrees with. */
  ghost predicate IsClosedUnder(k: Keys, c: set<Arrival>, t: Documents) {
    forall x | x in c && x.chunk.establishedBy in k.ops && k.derivable(x.chunk.establishedBy) && x.chunk.intact ::
      x.doc in t && (x.chunk.deps <= t[x.doc] ==> x.chunk.atoms <= t[x.doc])
  }

  ghost predicate KeysBelow(k: Keys, l: Keys) {
    k.ops <= l.ops && k.derivable == l.derivable
  }

  lemma AttemptStaysBelow(k: Keys, l: Keys, c: set<Arrival>, t: Documents, s: Inbox, p: Parked)
    requires KeysBelow(k, l) && IsClosedUnder(l, c, t) && DocsBelow(s.docs, t)
    requires Arrival(p.doc, p.chunk) in c
    ensures DocsBelow(Attempt(k, s, p).docs, t)
  {
  }

  lemma {:induction false} PassStaysBelow(k: Keys, l: Keys, c: set<Arrival>, t: Documents, s: Inbox, cs: seq<Parked>)
    requires KeysBelow(k, l) && IsClosedUnder(l, c, t) && DocsBelow(s.docs, t)
    requires Queue(s) <= c && forall p | p in cs :: Arrival(p.doc, p.chunk) in c
    ensures DocsBelow(Pass(k, s, cs).docs, t) && Queue(Pass(k, s, cs)) <= c
    decreases |cs|
  {
    if cs == [] {
    } else {
      PassStaysBelow(k, l, c, t, s, cs[..|cs| - 1]);
      AttemptStaysBelow(k, l, c, t, Pass(k, s, cs[..|cs| - 1]), cs[|cs| - 1]);
    }
  }

  lemma {:induction false} DrainStaysBelow(k: Keys, l: Keys, c: set<Arrival>, t: Documents, s: Inbox)
    requires KeysBelow(k, l) && IsClosedUnder(l, c, t) && DocsBelow(s.docs, t) && Queue(s) <= c
    ensures DocsBelow(Drain(k, s).docs, t) && Queue(Drain(k, s)) <= c
    decreases |s.pending|
  {
    var r := Pass(k, Emptied(s), s.pending);
    PassCounts(k, Emptied(s), s.pending);
    assert forall p | p in s.pending :: Arrival(p.doc, p.chunk) in Queue(s);
    PassStaysBelow(k, l, c, t, Emptied(s), s.pending);
    if r.merged != s.merged { DrainStaysBelow(k, l, c, t, r); }
  }

  lemma ArrivalStaysBelow(k: Keys, l: Keys, c: set<Arrival>, t: Documents, s: Inbox, x: Arrival)
    requires KeysBelow(k, l) && IsClosedUnder(l, c, t) && DocsBelow(s.docs, t) && Queue(s) <= c && x in c
    ensures DocsBelow(OnChunk(k, s, x.doc, x.chunk).docs, t) && Queue(OnChunk(k, s, x.doc, x.chunk)) <= c
  {
    var u := if IsParked(s, x.doc, x.chunk) then s else ParkChunk(s, x.doc, x.chunk);
    MakingRoomOnlyEvicts(s, x.chunk.size);
    assert forall p | p in s.pending :: Arrival(p.doc, p.chunk) in Queue(s);
    assert Queue(u) <= c;
    DrainStaysBelow(k, l, c, t, u);
  }

  // ---------------------------------------------------------------- runs

  function KeyOps(es: seq<Event>): seq<AuthorizedOp>
    decreases |es|
  {
    if es == [] then [] else
      var init, last := KeyOps(es[..|es| - 1]), es[|es| - 1];
      if last.KeyOp? then init + [last.authorized] else init
  }

  function Arrivals(es: seq<Event>): set<Arrival> {
    set e | e in es && e.ChunkArrived? :: Arrival(e.doc, e.chunk)
  }

  lemma {:induction false} KeyPlaneRunsAlone(n: Node, w: Workspace, es: seq<Event>)
    ensures HandleAll(n, w, es).dag == Run(n.ok, w.dag, KeyOps(es))
    decreases |es|
  {
    if es == [] {
    } else {
      KeyPlaneRunsAlone(n, w, es[..|es| - 1]);
      var last := es[|es| - 1];
      if last.KeyOp? {
        var ks := KeyOps(es[..|es| - 1]) + [last.authorized];
        assert ks[..|ks| - 1] == KeyOps(es[..|es| - 1]);
      }
    }
  }

  lemma {:induction false} InboxEvictionsGrow(n: Node, w: Workspace, es: seq<Event>)
    ensures HandleAll(n, w, es).inbox.evicted >= w.inbox.evicted
    decreases |es|
  {
    if es == [] {
    } else {
      InboxEvictionsGrow(n, w, es[..|es| - 1]);
      EvictionsGrow(n, HandleAll(n, w, es[..|es| - 1]), es[|es| - 1]);
    }
  }

  lemma EvictionsGrow(n: Node, w: Workspace, e: Event)
    ensures Handle(n, w, e).inbox.evicted >= w.inbox.evicted
  {
    match e
    case KeyOp(a) => DrainEvictsNothing(KeysOf(n, Deliver(n.ok, w.dag, a)), w.inbox);
    case ChunkArrived(doc, chunk) =>
      var u := if IsParked(w.inbox, doc, chunk) then w.inbox else ParkChunk(w.inbox, doc, chunk);
      MakingRoomOnlyEvicts(w.inbox, chunk.size);
      DrainEvictsNothing(KeysOf(n, w.dag), u);
  }

  lemma {:induction false} RunStaysBelow(n: Node, w: Workspace, es: seq<Event>, l: Keys, c: set<Arrival>, t: Documents)
    requires l.derivable == n.derivable && HandleAll(n, w, es).dag.applied <= l.ops
    requires IsClosedUnder(l, c, t) && DocsBelow(w.inbox.docs, t)
    requires Queue(w.inbox) + Arrivals(es) <= c
    ensures DocsBelow(HandleAll(n, w, es).inbox.docs, t) && Queue(HandleAll(n, w, es).inbox) <= c
    decreases |es|
  {
    if es == [] {
    } else {
      var init, last := es[..|es| - 1], es[|es| - 1];
      assert es == init + [last];
      var v := HandleAll(n, w, init);
      if last.KeyOp? { DeliverGrows(n.ok, v.dag, last.authorized); }
      RunStaysBelow(n, w, init, l, c, t);
      match last
      case KeyOp(a) => DrainStaysBelow(KeysOf(n, Deliver(n.ok, v.dag, a)), l, c, t, v.inbox);
      case ChunkArrived(doc, chunk) =>
        assert Arrival(doc, chunk) in Arrivals(es);
        ArrivalStaysBelow(KeysOf(n, v.dag), l, c, t, v.inbox, Arrival(doc, chunk));
    }
  }

  lemma TrackedSurvivesKeys(k: Keys, l: Keys, s: Inbox, x: Arrival)
    requires KeysBelow(k, l) && Tracked(k, s, x)
    ensures Tracked(l, s, x)
  {
  }

  lemma {:induction false} QueueStaysOffered(n: Node, w: Workspace, es: seq<Event>)
    ensures Queue(HandleAll(n, w, es).inbox) <= Queue(w.inbox) + Arrivals(es)
    decreases |es|
  {
    var c := Queue(w.inbox) + Arrivals(es);
    var end := HandleAll(n, w, es);
    var k := KeysOf(n, end.dag);
    var t := EveryAtom(c, w.inbox.docs);
    RunStaysBelow(n, w, es, k, c, t);
  }

  /** A family large enough to hold every document a run over `c` can produce. */
  ghost function EveryAtom(c: set<Arrival>, docs: Documents): (t: Documents)
    ensures DocsBelow(docs, t) && forall x | x in c :: x.doc in t && x.chunk.atoms <= t[x.doc]
  {
    if c == {} then docs else
      var x :| x in c;
      var t := EveryAtom(c - {x}, docs);
      t[x.doc := Content(t, x.doc) + x.chunk.atoms]
  }

  lemma {:induction false} RunTracks(n: Node, w: Workspace, es: seq<Event>, c: set<Arrival>, x: Arrival)
    requires Identified(c) && Queue(w.inbox) + Arrivals(es) <= c
    requires HandleAll(n, w, es).inbox.evicted == w.inbox.evicted
    requires x in Queue(w.inbox) + Arrivals(es)
    ensures Tracked(KeysOf(n, HandleAll(n, w, es).dag), HandleAll(n, w, es).inbox, x)
    decreases |es|
  {
    if es == [] {
      var p :| p in w.inbox.pending && x == Arrival(p.doc, p.chunk);
      assert InQueue(w.inbox, x);
    } else {
      var init, last := es[..|es| - 1], es[|es| - 1];
      assert es == init + [last];
      var v := HandleAll(n, w, init);
      InboxEvictionsGrow(n, w, init);
      EvictionsGrow(n, v, last);
      if x in Queue(w.inbox) + Arrivals(init) { RunTracks(n, w, init, c, x); }
      match last
      case KeyOp(a) =>
        DeliverGrows(n.ok, v.dag, a);
        var k := KeysOf(n, Deliver(n.ok, v.dag, a));
        TrackedSurvivesKeys(KeysOf(n, v.dag), k, v.inbox, x);
        DrainTracks(k, v.inbox, x);
      case ChunkArrived(doc, chunk) =>
        QueueStaysOffered(n, w, init);
        assert Arrival(doc, chunk) in Arrivals(es);
        ArrivalTracks(KeysOf(n, v.dag), v.inbox, c, Arrival(doc, chunk), x);
    }
  }

  // ---------------------------------------------------------------- agreement

  lemma TrackedIsClosed(k: Keys, s: Inbox, c: set<Arrival>)
    requires AllWait(k, s) && forall x | x in c :: Tracked(k, s, x)
    ensures IsClosedUnder(k, c, s.docs)
  {
    forall x | x in c && x.chunk.establishedBy in k.ops && k.derivable(x.chunk.establishedBy) && x.chunk.intact
      ensures x.doc in s.docs && (x.chunk.deps <= s.docs[x.doc] ==> x.chunk.atoms <= s.docs[x.doc])
    {
      assert Tracked(k, s, x);
      if InQueue(s, x) {
        var p :| p in s.pending && p.doc == x.doc && p.chunk == x.chunk;
        assert Waits(k, s.docs, p);
      }
    }
  }

  lemma WaitingAgrees(k: Keys, s: Inbox, t: Inbox, x: Arrival)
    requires AllWait(k, s) && s.docs == t.docs && x in Queue(s) && Tracked(k, t, x)
    ensures x in Queue(t)
  {
    var p :| p in s.pending && x == Arrival(p.doc, p.chunk);
    assert Waits(k, s.docs, p);
    if InQueue(t, x) {
      var q :| q in t.pending && q.doc == x.doc && q.chunk == x.chunk;
      assert Arrival(q.doc, q.chunk) in Queue(t);
    }
  }

  ghost predicate SameContent(v: Workspace, u: Workspace) {
    SameOutcome(v.dag, u.dag) && v.inbox.docs == u.inbox.docs && Queue(v.inbox) == Queue(u.inbox)
  }

  lemma RunStaysBelowRival(n: Node, w: Workspace, a: seq<Event>, u: Workspace, c: set<Arrival>)
    requires HandleAll(n, w, a).dag.applied == u.dag.applied
    requires c == Queue(w.inbox) + Arrivals(a) && DocsBelow(w.inbox.docs, u.inbox.docs)
    requires AllWait(KeysOf(n, u.dag), u.inbox) && forall x | x in c :: Tracked(KeysOf(n, u.dag), u.inbox, x)
    ensures DocsBelow(HandleAll(n, w, a).inbox.docs, u.inbox.docs)
  {
    TrackedIsClosed(KeysOf(n, u.dag), u.inbox, c);
    RunStaysBelow(n, w, a, KeysOf(n, u.dag), c, u.inbox.docs);
  }

  lemma {:induction false} DocsGrow(n: Node, w: Workspace, es: seq<Event>)
    ensures DocsBelow(w.inbox.docs, HandleAll(n, w, es).inbox.docs)
    decreases |es|
  {
    if es == [] {
    } else {
      var v, last := HandleAll(n, w, es[..|es| - 1]), es[|es| - 1];
      DocsGrow(n, w, es[..|es| - 1]);
      match last
      case KeyOp(a) => DrainGrowsDocs(KeysOf(n, Deliver(n.ok, v.dag, a)), v.inbox);
      case ChunkArrived(doc, chunk) =>
        MakingRoomOnlyEvicts(v.inbox, chunk.size);
        DrainGrowsDocs(KeysOf(n, v.dag),
                       if IsParked(v.inbox, doc, chunk) then v.inbox else ParkChunk(v.inbox, doc, chunk));
    }
  }

  lemma {:induction false} PassGrowsDocs(k: Keys, s: Inbox, cs: seq<Parked>)
    ensures DocsBelow(s.docs, Pass(k, s, cs).docs)
    decreases |cs|
  {
    if cs == [] {
    } else {
      PassGrowsDocs(k, s, cs[..|cs| - 1]);
    }
  }

  lemma {:induction false} DrainGrowsDocs(k: Keys, s: Inbox)
    ensures DocsBelow(s.docs, Drain(k, s).docs)
    decreases |s.pending|
  {
    var r := Pass(k, Emptied(s), s.pending);
    PassCounts(k, Emptied(s), s.pending);
    PassGrowsDocs(k, Emptied(s), s.pending);
    if r.merged != s.merged { DrainGrowsDocs(k, r); }
  }

  lemma DocsBelowIsAntisymmetric(a: Documents, b: Documents)
    requires DocsBelow(a, b) && DocsBelow(b, a)
    ensures a == b
  {
    assert a.Keys == b.Keys;
    forall d | d in a ensures a[d] == b[d] { }
  }

  /** Every chunk that was waiting or arrived is waiting still, merged, or of no use to this node. */
  ghost predicate NothingLost(n: Node, w: Workspace, es: seq<Event>) {
    var v := HandleAll(n, w, es);
    forall x | x in Queue(w.inbox) + Arrivals(es) :: Tracked(KeysOf(n, v.dag), v.inbox, x)
  }

  /** Two interleavings of the same key operations and chunks that lose nothing end the same. */
  lemma LosslessInterleavingsAgree(n: Node, w: Workspace, a: seq<Event>, b: seq<Event>)
    requires Sound(w.dag) && Settled(w.dag) && AllWait(KeysOf(n, w.dag), w.inbox)
    requires Offered(KeyOps(a)) == Offered(KeyOps(b)) && Arrivals(a) == Arrivals(b)
    requires Lossless(n.ok, w.dag, KeyOps(a)) && Lossless(n.ok, w.dag, KeyOps(b))
    requires Justified(n.ok, w.dag, ParkedOps(w.dag) + Offered(KeyOps(a)))
    requires NothingLost(n, w, a) && NothingLost(n, w, b)
    ensures SameContent(HandleAll(n, w, a), HandleAll(n, w, b))
  {
    var c := Queue(w.inbox) + Arrivals(a);
    var v, u := HandleAll(n, w, a), HandleAll(n, w, b);
    KeyPlaneRunsAlone(n, w, a);
    KeyPlaneRunsAlone(n, w, b);
    DeliveryOrderDoesNotMatter(n.ok, w.dag, KeyOps(a), KeyOps(b));
    NothingReadableWaits(n, w, a);
    NothingReadableWaits(n, w, b);
    DocsGrow(n, w, a);
    DocsGrow(n, w, b);
    RunStaysBelowRival(n, w, a, u, c);
    RunStaysBelowRival(n, w, b, v, c);
    DocsBelowIsAntisymmetric(v.inbox.docs, u.inbox.docs);
    QueuesAgree(n, w, a, b, c);
  }

  /** Without eviction, and when no two different chunks share reference and epoch, nothing is lost. */
  lemma IdentifiedChunksAreNotLost(n: Node, w: Workspace, es: seq<Event>)
    requires HandleAll(n, w, es).inbox.evicted == w.inbox.evicted && Identified(Queue(w.inbox) + Arrivals(es))
    ensures NothingLost(n, w, es)
  {
    var v := HandleAll(n, w, es);
    forall x | x in Queue(w.inbox) + Arrivals(es)
      ensures Tracked(KeysOf(n, v.dag), v.inbox, x)
    {
      RunTracks(n, w, es, Queue(w.inbox) + Arrivals(es), x);
    }
  }

  /**
   So any two interleavings of the same key operations and identified chunks, without eviction, end
   with the same key plane, the same documents and the same chunks waiting.
   */
  lemma InterleavingDoesNotMatter(n: Node, w: Workspace, a: seq<Event>, b: seq<Event>)
    requires Sound(w.dag) && Settled(w.dag) && AllWait(KeysOf(n, w.dag), w.inbox)
    requires Offered(KeyOps(a)) == Offered(KeyOps(b)) && Arrivals(a) == Arrivals(b)
    requires Lossless(n.ok, w.dag, KeyOps(a)) && Lossless(n.ok, w.dag, KeyOps(b))
    requires HandleAll(n, w, a).inbox.evicted == w.inbox.evicted == HandleAll(n, w, b).inbox.evicted
    requires Justified(n.ok, w.dag, ParkedOps(w.dag) + Offered(KeyOps(a)))
    requires Identified(Queue(w.inbox) + Arrivals(a))
    ensures SameContent(HandleAll(n, w, a), HandleAll(n, w, b))
  {
    IdentifiedChunksAreNotLost(n, w, a);
    IdentifiedChunksAreNotLost(n, w, b);
    LosslessInterleavingsAgree(n, w, a, b);
  }

  lemma QueuesAgree(n: Node, w: Workspace, a: seq<Event>, b: seq<Event>, c: set<Arrival>)
    requires var v, u := HandleAll(n, w, a), HandleAll(n, w, b);
             && v.dag.applied == u.dag.applied && v.inbox.docs == u.inbox.docs
             && AllWait(KeysOf(n, v.dag), v.inbox) && AllWait(KeysOf(n, u.dag), u.inbox)
             && (forall x | x in c :: Tracked(KeysOf(n, v.dag), v.inbox, x) && Tracked(KeysOf(n, u.dag), u.inbox, x))
    requires c == Queue(w.inbox) + Arrivals(a) == Queue(w.inbox) + Arrivals(b)
    ensures Queue(HandleAll(n, w, a).inbox) == Queue(HandleAll(n, w, b).inbox)
  {
    var v, u := HandleAll(n, w, a), HandleAll(n, w, b);
    var k := KeysOf(n, v.dag);
    QueueStaysOffered(n, w, a);
    QueueStaysOffered(n, w, b);
    forall x | x in Queue(v.inbox) ensures x in Queue(u.inbox) { WaitingAgrees(k, v.inbox, u.inbox, x); }
    forall x | x in Queue(u.inbox) ensures x in Queue(v.inbox) { WaitingAgrees(k, u.inbox, v.inbox, x); }
  }

  // ---------------------------------------------------------------- agreement is losing nothing

  /** A run that delivers exactly these operations and chunks without evicting any operation. */
  ghost predicate Interleaves(n: Node, w: Workspace, ops: set<Op>, c: set<Arrival>, es: seq<Event>) {
    Offered(KeyOps(es)) == ops && Arrivals(es) == c && Lossless(n.ok, w.dag, KeyOps(es))
  }

  ghost predicate InterleavingsAgree(n: Node, w: Workspace, ops: set<Op>, c: set<Arrival>) {
    forall a, b | Interleaves(n, w, ops, c, a) && Interleaves(n, w, ops, c, b) ::
      SameContent(HandleAll(n, w, a), HandleAll(n, w, b))
  }

  ghost predicate InterleavingsLoseNothing(n: Node, w: Workspace, ops: set<Op>, c: set<Arrival>) {
    forall es | Interleaves(n, w, ops, c, es) :: NothingLost(n, w, es)
  }

  ghost function TotalSize(c: set<Arrival>): nat {
    if c == {} then 0 else
      var x :| x in c;
      x.chunk.size + TotalSize(c - {x})
  }

  /** The chunks fit the pending budget all at once. */
  ghost predicate AllFit(c: set<Arrival>) {
    |c| <= MAX_PENDING_CHUNKS && TotalSize(c) <= MAX_PENDING_CHUNK_BYTES
  }

  lemma {:induction false} TotalSizeWithout(c: set<Arrival>, x: Arrival)
    requires x in c
    ensures TotalSize(c) == x.chunk.size + TotalSize(c - {x})
    decreases |c|
  {
    var y :| y in c && TotalSize(c) == y.chunk.size + TotalSize(c - {y});
    if y == x {
    } else {
      TotalSizeWithout(c - {y}, x);
      TotalSizeWithout(c - {x}, y);
      assert c - {y} - {x} == c - {x} - {y};
    }
  }

  lemma {:induction false} TotalSizeGrows(a: set<Arrival>, c: set<Arrival>)
    requires a <= c
    ensures TotalSize(a) <= TotalSize(c)
    decreases |c|
  {
    if a == c {
    } else {
      var x :| x in c && x !in a;
      TotalSizeWithout(c, x);
      TotalSizeGrows(a, c - {x});
    }
  }

  ghost predicate SameId(p: Parked, q: Parked) {
    p.doc == q.doc && p.chunk.contentRef == q.chunk.contentRef && p.chunk.epoch == q.chunk.epoch
  }

  ghost predicate NoTwins(pending: seq<Parked>) {
    forall i, j | 0 <= i < j < |pending| :: !SameId(pending[i], pending[j])
  }

  function QueueOf(pending: seq<Parked>): set<Arrival> {
    set p | p in pending :: Arrival(p.doc, p.chunk)
  }

  lemma QueueOfOneMore(init: seq<Parked>, last: Parked)
    requires NoTwins(init + [last])
    ensures var x := Arrival(last.doc, last.chunk);
            x !in QueueOf(init) && QueueOf(init + [last]) == QueueOf(init) + {x}
            && QueueOf(init + [last]) - {x} == QueueOf(init)
  {
    var all := init + [last];
    forall p | p in init
      ensures !SameId(p, last)
    {
      var i :| 0 <= i < |init| && init[i] == p;
      assert all[i] == p && all[|init|] == last;
    }
  }

  /** Without twins the queue is no longer than the set of what it holds, and no heavier. */
  lemma {:induction false} QueueIsItsSet(pending: seq<Parked>)
    requires NoTwins(pending)
    ensures |pending| == |QueueOf(pending)| && Bytes(pending) == TotalSize(QueueOf(pending))
    decreases |pending|
  {
    if pending == [] {
      assert QueueOf(pending) == {};
    } else {
      var init, last := pending[..|pending| - 1], pending[|pending| - 1];
      var x := Arrival(last.doc, last.chunk);
      QueueIsItsSet(init);
      assert pending == init + [last];
      QueueOfOneMore(init, last);
      TotalSizeWithout(QueueOf(pending), x);
    }
  }

  /** A pass keeps what it keeps in order, so it makes no twins. */
  lemma {:induction false} PassMakesNoTwins(k: Keys, s: Inbox, cs: seq<Parked>)
    requires NoTwins(s.pending + cs)
    ensures NoTwins(Pass(k, s, cs).pending)
    ensures forall p | p in Pass(k, s, cs).pending :: exists q | q in s.pending + cs :: SameId(p, q)
    decreases |cs|
  {
    if cs == [] {
      assert s.pending + cs == s.pending;
    } else {
      var init, last := cs[..|cs| - 1], cs[|cs| - 1];
      var all := s.pending + cs;
      assert all[..|all| - 1] == s.pending + init && all == s.pending + init + [last];
      PassMakesNoTwins(k, s, init);
      var r := Pass(k, s, init);
      forall p | p in r.pending
        ensures !SameId(p, last)
      {
        var q :| q in s.pending + init && SameId(p, q);
        var i :| 0 <= i < |s.pending + init| && (s.pending + init)[i] == q;
        assert all[i] == q && all[|all| - 1] == last;
      }
      assert Pass(k, s, cs) == Attempt(k, r, last);
      OneMoreIsNoTwin(r.pending, last);
      assert last in all;
    }
  }

  lemma OneMoreIsNoTwin(pending: seq<Parked>, p: Parked)
    requires NoTwins(pending) && forall q | q in pending :: !SameId(q, p)
    ensures forall drains :: NoTwins(pending + [p.(drains := drains)])
  {
    forall drains
      ensures NoTwins(pending + [p.(drains := drains)])
    {
      assert forall i | 0 <= i < |pending| :: pending[i] in pending;
    }
  }

  lemma {:induction false} DrainMakesNoTwins(k: Keys, s: Inbox)
    requires NoTwins(s.pending)
    ensures NoTwins(Drain(k, s).pending)
    decreases |s.pending|
  {
    var r := Pass(k, Emptied(s), s.pending);
    assert [] + s.pending == s.pending;
    PassMakesNoTwins(k, Emptied(s), s.pending);
    PassCounts(k, Emptied(s), s.pending);
    if r.merged != s.merged { DrainMakesNoTwins(k, r); }
  }

  lemma TwinlessQueueFits(c: set<Arrival>, pending: seq<Parked>)
    requires AllFit(c) && NoTwins(pending) && QueueOf(pending) <= c
    ensures |pending| <= MAX_PENDING_CHUNKS && Bytes(pending) <= MAX_PENDING_CHUNK_BYTES
  {
    QueueIsItsSet(pending);
    TotalSizeGrows(QueueOf(pending), c);
    assert c == QueueOf(pending) + (c - QueueOf(pending));
  }

  lemma ParkingMakesNoTwins(s: Inbox, x: Arrival)
    requires NoTwins(s.pending) && !IsParked(s, x.doc, x.chunk)
    ensures NoTwins(s.pending + [Parked(x.doc, x.chunk, 0)])
  {
    var p := Parked(x.doc, x.chunk, 0);
    OneMoreIsNoTwin(s.pending, p);
    assert p == p.(drains := 0);
  }

  lemma RoomForOne(s: Inbox, p: Parked)
    requires |s.pending + [p]| <= MAX_PENDING_CHUNKS && Bytes(s.pending + [p]) <= MAX_PENDING_CHUNK_BYTES
    requires s.pendingBytes == Bytes(s.pending)
    ensures MakeRoom(s, p.chunk.size) == s && Bytes(s.pending + [p]) == s.pendingBytes + p.chunk.size
  {
    BytesPush(s.pending, p);
  }

  lemma QueueOfGrows(s: Inbox, c: set<Arrival>, x: Arrival)
    requires Queue(s) <= c && x in c
    ensures QueueOf(s.pending + [Parked(x.doc, x.chunk, 0)]) <= c
  {
    forall y | y in QueueOf(s.pending + [Parked(x.doc, x.chunk, 0)])
      ensures y in c
    {
      var p :| p in s.pending + [Parked(x.doc, x.chunk, 0)] && y == Arrival(p.doc, p.chunk);
      if p in s.pending { assert y in Queue(s); }
    }
  }

  /** A queue without twins whose chunks come from a set that fits has room for one more of the set. */
  lemma ArrivalFits(s: Inbox, c: set<Arrival>, x: Arrival)
    requires AllFit(c) && NoTwins(s.pending) && s.pendingBytes == Bytes(s.pending) && Queue(s) <= c && x in c
    requires !IsParked(s, x.doc, x.chunk)
    ensures var t := ParkChunk(s, x.doc, x.chunk);
            NoTwins(t.pending) && t.evicted == s.evicted && t.pendingBytes == Bytes(t.pending)
  {
    var p := Parked(x.doc, x.chunk, 0);
    ParkingMakesNoTwins(s, x);
    QueueOfGrows(s, c, x);
    TwinlessQueueFits(c, s.pending + [p]);
    RoomForOne(s, p);
  }

  lemma {:induction false} DrainBytes(k: Keys, s: Inbox)
    requires s.pendingBytes == Bytes(s.pending)
    ensures Drain(k, s).pendingBytes == Bytes(Drain(k, s).pending)
    decreases |s.pending|
  {
    var r := Pass(k, Emptied(s), s.pending);
    PassBytes(k, Emptied(s), s.pending);
    PassCounts(k, Emptied(s), s.pending);
    if r.merged != s.merged { DrainBytes(k, r); }
  }

  /** A queue without twins and with an exact total. */
  ghost predicate Tidy(s: Inbox) {
    NoTwins(s.pending) && s.pendingBytes == Bytes(s.pending)
  }

  lemma DrainStaysTidy(k: Keys, s: Inbox)
    requires Tidy(s)
    ensures Tidy(Drain(k, s)) && Drain(k, s).evicted == s.evicted
  {
    DrainMakesNoTwins(k, s);
    DrainEvictsNothing(k, s);
    DrainBytes(k, s);
  }

  lemma FittingEventEvictsNothing(n: Node, v: Workspace, c: set<Arrival>, e: Event)
    requires AllFit(c) && Tidy(v.inbox) && Queue(v.inbox) <= c
    requires e.ChunkArrived? ==> Arrival(e.doc, e.chunk) in c
    ensures Tidy(Handle(n, v, e).inbox) && Handle(n, v, e).inbox.evicted == v.inbox.evicted
  {
    match e
    case KeyOp(a) => DrainStaysTidy(KeysOf(n, Deliver(n.ok, v.dag, a)), v.inbox);
    case ChunkArrived(doc, chunk) =>
      if !IsParked(v.inbox, doc, chunk) { ArrivalFits(v.inbox, c, Arrival(doc, chunk)); }
      DrainStaysTidy(KeysOf(n, v.dag), if IsParked(v.inbox, doc, chunk) then v.inbox
                                       else ParkChunk(v.inbox, doc, chunk));
  }

  /** From an empty queue, chunks that fit all at once are never evicted, however often they come. */
  lemma {:induction false} FittingRunsEvictNothing(n: Node, w: Workspace, c: set<Arrival>, es: seq<Event>)
    requires AllFit(c) && w.inbox.pending == [] && w.inbox.pendingBytes == 0 && Arrivals(es) <= c
    ensures Tidy(HandleAll(n, w, es).inbox) && HandleAll(n, w, es).inbox.evicted == w.inbox.evicted
    decreases |es|
  {
    if es == [] {
    } else {
      var init, last := es[..|es| - 1], es[|es| - 1];
      assert es == init + [last];
      assert Arrivals(init) <= Arrivals(es);
      FittingRunsEvictNothing(n, w, c, init);
      QueueStaysOffered(n, w, init);
      assert Queue(w.inbox) == {};
      assert last.ChunkArrived? ==> Arrival(last.doc, last.chunk) in Arrivals(es);
      FittingEventEvictsNothing(n, HandleAll(n, w, init), c, last);
    }
  }

  /** What is tracked stays tracked while nothing is evicted. */
  lemma TrackedSurvives(n: Node, v: Workspace, e: Event, x: Arrival)
    requires Tracked(KeysOf(n, v.dag), v.inbox, x) && Handle(n, v, e).inbox.evicted == v.inbox.evicted
    ensures Tracked(KeysOf(n, Handle(n, v, e).dag), Handle(n, v, e).inbox, x)
  {
    match e
    case KeyOp(a) =>
      DeliverGrows(n.ok, v.dag, a);
      var k := KeysOf(n, Deliver(n.ok, v.dag, a));
      TrackedSurvivesKeys(KeysOf(n, v.dag), k, v.inbox, x);
      DrainTracks(k, v.inbox, x);
    case ChunkArrived(doc, chunk) =>
      var k := KeysOf(n, v.dag);
      var t := if IsParked(v.inbox, doc, chunk) then v.inbox else ParkChunk(v.inbox, doc, chunk);
      DrainEvictsNothing(k, t);
      MakingRoomOnlyEvicts(v.inbox, chunk.size);
      if InQueue(v.inbox, x) {
        var q :| q in v.inbox.pending && q.doc == x.doc && q.chunk == x.chunk;
        assert q in t.pending;
      }
      DrainTracks(k, t, x);
  }

  lemma ParkedIsInQueue(s: Inbox, x: Arrival)
    requires s.pending == []
    ensures !IsParked(s, x.doc, x.chunk) && InQueue(ParkChunk(s, x.doc, x.chunk), x)
  {
    var t := ParkChunk(s, x.doc, x.chunk);
    assert t.pending == [Parked(x.doc, x.chunk, 0)];
    assert t.pending[0] in t.pending;
  }

  lemma ArrivalAloneIsTracked(n: Node, w: Workspace, x: Arrival)
    requires w.inbox.pending == []
    ensures var v := Handle(n, w, ChunkArrived(x.doc, x.chunk)); Tracked(KeysOf(n, v.dag), v.inbox, x)
  {
    ParkedIsInQueue(w.inbox, x);
    DrainTracks(KeysOf(n, w.dag), ParkChunk(w.inbox, x.doc, x.chunk), x);
  }

  /** The first chunk into an empty queue is tracked to the end of a run that evicts nothing. */
  lemma {:induction false} FirstArrivalIsTracked(n: Node, w: Workspace, c: set<Arrival>, x: Arrival, es: seq<Event>)
    requires AllFit(c) && w.inbox.pending == [] && w.inbox.pendingBytes == 0 && x in c && Arrivals(es) <= c
    ensures var v := HandleAll(n, w, [ChunkArrived(x.doc, x.chunk)] + es);
            Tracked(KeysOf(n, v.dag), v.inbox, x)
    decreases |es|
  {
    var first := [ChunkArrived(x.doc, x.chunk)];
    if es == [] {
      assert first + es == first && first[..0] == [];
      assert HandleAll(n, w, []) == w;
      ArrivalAloneIsTracked(n, w, x);
    } else {
      var init, last := es[..|es| - 1], es[|es| - 1];
      assert es == init + [last];
      FirstArrivalIsTracked(n, w, c, x, init);
      assert (first + es)[..|first + es| - 1] == first + init;
      FittingRunsEvictNothing(n, w, c, first + init);
      FittingRunsEvictNothing(n, w, c, first + es);
      TrackedSurvives(n, HandleAll(n, w, first + init), last, x);
    }
  }

  lemma {:induction false} ArrivalsBringNoKeys(x: Arrival, es: seq<Event>)
    ensures KeyOps([ChunkArrived(x.doc, x.chunk)] + es) == KeyOps(es)
    decreases |es|
  {
    var first := [ChunkArrived(x.doc, x.chunk)];
    if es == [] {
      assert first + es == first && first[..0] == [];
    } else {
      assert (first + es)[..|first + es| - 1] == first + es[..|es| - 1];
      ArrivalsBringNoKeys(x, es[..|es| - 1]);
    }
  }

  lemma ComingEarlyInterleaves(n: Node, w: Workspace, ops: set<Op>, c: set<Arrival>, x: Arrival, es: seq<Event>)
    requires Interleaves(n, w, ops, c, es) && x in c
    ensures Interleaves(n, w, ops, c, [ChunkArrived(x.doc, x.chunk)] + es)
  {
    assert Arrivals([ChunkArrived(x.doc, x.chunk)] + es) == {x} + Arrivals(es);
    ArrivalsBringNoKeys(x, es);
  }

  lemma AgreeingEndsAreSame(n: Node, w: Workspace, ops: set<Op>, c: set<Arrival>, a: seq<Event>, b: seq<Event>)
    requires InterleavingsAgree(n, w, ops, c) && Interleaves(n, w, ops, c, a) && Interleaves(n, w, ops, c, b)
    ensures SameContent(HandleAll(n, w, a), HandleAll(n, w, b))
  {
  }

  /** If all interleavings agree, each of them ends like one in which a given chunk came first. */
  lemma AgreementTracks(n: Node, w: Workspace, ops: set<Op>, c: set<Arrival>, es: seq<Event>, x: Arrival)
    requires w.inbox.pending == [] && w.inbox.pendingBytes == 0 && AllFit(c) && x in c
    requires InterleavingsAgree(n, w, ops, c) && Interleaves(n, w, ops, c, es)
    ensures Tracked(KeysOf(n, HandleAll(n, w, es).dag), HandleAll(n, w, es).inbox, x)
  {
    var early := [ChunkArrived(x.doc, x.chunk)] + es;
    ComingEarlyInterleaves(n, w, ops, c, x, es);
    FirstArrivalIsTracked(n, w, c, x, es);
    AgreeingEndsAreSame(n, w, ops, c, early, es);
    TrackedCarriesOver(n, HandleAll(n, w, early), HandleAll(n, w, es), x);
  }

  lemma AgreementLosesNothing(n: Node, w: Workspace, ops: set<Op>, c: set<Arrival>, es: seq<Event>)
    requires w.inbox.pending == [] && w.inbox.pendingBytes == 0 && AllFit(c)
    requires InterleavingsAgree(n, w, ops, c) && Interleaves(n, w, ops, c, es)
    ensures NothingLost(n, w, es)
  {
    forall x | x in Queue(w.inbox) + Arrivals(es)
      ensures Tracked(KeysOf(n, HandleAll(n, w, es).dag), HandleAll(n, w, es).inbox, x)
    {
      AgreementTracks(n, w, ops, c, es, x);
    }
  }

  lemma TrackedCarriesOver(n: Node, u: Workspace, v: Workspace, x: Arrival)
    requires SameContent(u, v) && Tracked(KeysOf(n, u.dag), u.inbox, x)
    ensures Tracked(KeysOf(n, v.dag), v.inbox, x)
  {
    if InQueue(u.inbox, x) {
      var p :| p in u.inbox.pending && p.doc == x.doc && p.chunk == x.chunk;
      assert Arrival(p.doc, p.chunk) in Queue(u.inbox);
      assert x in Queue(v.inbox);
      var q :| q in v.inbox.pending && x == Arrival(q.doc, q.chunk);
    }
  }

  /**
   From an empty queue, for chunks that fit the budget all at once: all interleavings of the same
   operations and chunks agree if and only if none of them loses a chunk.
   */
  lemma InterleavingsAgreeExactlyWhenNothingIsLost(n: Node, w: Workspace, ops: set<Op>, c: set<Arrival>)
    requires Sound(w.dag) && Settled(w.dag) && w.inbox.pending == [] && w.inbox.pendingBytes == 0 && AllFit(c)
    requires Justified(n.ok, w.dag, ParkedOps(w.dag) + ops)
    ensures InterleavingsAgree(n, w, ops, c) <==> InterleavingsLoseNothing(n, w, ops, c)
  {
    if InterleavingsAgree(n, w, ops, c) {
      forall es | Interleaves(n, w, ops, c, es)
        ensures NothingLost(n, w, es)
      {
        AgreementLosesNothing(n, w, ops, c, es);
      }
    }
    if InterleavingsLoseNothing(n, w, ops, c) {
      forall a, b | Interleaves(n, w, ops, c, a) && Interleaves(n, w, ops, c, b)
        ensures SameContent(HandleAll(n, w, a), HandleAll(n, w, b))
      {
        LosslessInterleavingsAgree(n, w, a, b);
      }
    }
  }

  // ---------------------------------------------------------------- the identity condition is needed

  lemma FirstParkedWins(n: Node, w: Workspace, doc: DocId, first: Chunk, second: Chunk)
    requires w.inbox.pending == [] && w.inbox.pendingBytes == 0
    requires first.establishedBy !in w.dag.applied && first.size <= MAX_PENDING_CHUNK_BYTES
    requires first.contentRef == second.contentRef && first.epoch == second.epoch
    ensures var v := Handle(n, Handle(n, w, ChunkArrived(doc, first)), ChunkArrived(doc, second));
            && v.dag == w.dag && v.inbox.docs == w.inbox.docs
            && |v.inbox.pending| == 1 && v.inbox.pending[0].doc == doc && v.inbox.pending[0].chunk == first
  {
    var k := KeysOf(n, w.dag);
    var v1 := Handle(n, w, ChunkArrived(doc, first));
    var p := ParkChunk(w.inbox, doc, first);
    assert p.pending == [Parked(doc, first, 0)];
    KeylessDrainWaits(k, p);
    assert v1.inbox.pending[0].doc == doc && v1.inbox.pending[0].chunk == first;
    assert v1.inbox.pending[0] in v1.inbox.pending;
    KeylessDrainWaits(k, v1.inbox);
  }

  lemma KeylessDrainWaits(k: Keys, s: Inbox)
    requires |s.pending| == 1 && s.pending[0].chunk.establishedBy !in k.ops
    ensures var r := Drain(k, s);
            && r.docs == s.docs && |r.pending| == 1
            && r.pending[0].doc == s.pending[0].doc && r.pending[0].chunk == s.pending[0].chunk
  {
    var e := Emptied(s);
    assert s.pending[..0] == [] && Pass(k, e, []) == e;
    assert Pass(k, e, s.pending) == Attempt(k, e, s.pending[0]);
  }

  /** What a chunk leaves of a document that has everything it depends on. */
  function Read(docs: Documents, doc: DocId, chunk: Chunk): Documents {
    if chunk.intact then docs[doc := Content(docs, doc) + chunk.atoms] else docs
  }

  lemma SoleChunkIsJudged(k: Keys, s: Inbox)
    requires |s.pending| == 1 && s.pending[0].chunk.establishedBy in k.ops
    requires k.derivable(s.pending[0].chunk.establishedBy)
    requires s.pending[0].chunk.deps <= Content(s.docs, s.pending[0].doc)
    ensures Drain(k, s).docs == Read(s.docs, s.pending[0].doc, s.pending[0].chunk)
  {
    var e := Emptied(s);
    assert s.pending[..0] == [] && Pass(k, e, []) == e;
    var r := Attempt(k, e, s.pending[0]);
    assert Pass(k, e, s.pending) == r && r.pending == [];
    assert Drain(k, r) == Pass(k, Emptied(r), []) == Emptied(r) || r.merged == s.merged;
  }

  /** Two chunks arrive before the operation that unlocks them. */
  function BothThenKey(n: Node, w: Workspace, doc: DocId, first: Chunk, second: Chunk, a: AuthorizedOp): Workspace {
    Handle(n, Handle(n, Handle(n, w, ChunkArrived(doc, first)), ChunkArrived(doc, second)), KeyOp(a))
  }

  /** One waiting chunk, and the operation it waits for: it is judged on its own. */
  lemma KeyUnlocksTheSole(n: Node, v: Workspace, doc: DocId, chunk: Chunk, a: AuthorizedOp)
    requires |v.inbox.pending| == 1 && v.inbox.pending[0].doc == doc && v.inbox.pending[0].chunk == chunk
    requires chunk.establishedBy == a.op && n.derivable(a.op) && chunk.deps <= Content(v.inbox.docs, doc)
    requires a.signatureOk && Verdict(n.ok, v.dag, a.op) == Applied
    ensures Handle(n, v, KeyOp(a)).inbox.docs == Read(v.inbox.docs, doc, chunk)
  {
    var m := Deliver(n.ok, v.dag, a);
    DrainGrows(n.ok, MergeVerified(n.ok, v.dag, a));
    assert a.op in m.applied;
    SoleChunkIsJudged(KeysOf(n, m), v.inbox);
  }

  lemma OnlyTheFirstIsRead(n: Node, w: Workspace, doc: DocId, first: Chunk, second: Chunk, a: AuthorizedOp)
    requires w.inbox.pending == [] && w.inbox.pendingBytes == 0
    requires first.contentRef == second.contentRef && first.epoch == second.epoch
    requires first.establishedBy == a.op && n.derivable(a.op) && first.size <= MAX_PENDING_CHUNK_BYTES
    requires first.deps <= Content(w.inbox.docs, doc)
    requires a.signatureOk && Verdict(n.ok, w.dag, a.op) == Applied
    ensures BothThenKey(n, w, doc, first, second, a).inbox.docs == Read(w.inbox.docs, doc, first)
  {
    FirstParkedWins(n, w, doc, first, second);
    KeyUnlocksTheSole(n, Handle(n, Handle(n, w, ChunkArrived(doc, first)), ChunkArrived(doc, second)), doc, first, a);
  }

  /** The operations a chunk would add to a document. */
  function News(docs: Documents, doc: DocId, chunk: Chunk): set<Atom> {
    if chunk.intact then chunk.atoms - Content(docs, doc) else {}
  }

  lemma SameReading(docs: Documents, doc: DocId, x: Chunk, y: Chunk)
    ensures Read(docs, doc, x) == Read(docs, doc, y) <==>
            (x.intact == y.intact || doc in docs) && News(docs, doc, x) == News(docs, doc, y)
  {
    var p, q := Read(docs, doc, x), Read(docs, doc, y);
    ReadingAddsNews(docs, doc, x);
    ReadingAddsNews(docs, doc, y);
    if (x.intact == y.intact || doc in docs) && News(docs, doc, x) == News(docs, doc, y) {
      assert p.Keys == q.Keys;
      assert p == q;
    }
  }

  lemma ReadingAddsNews(docs: Documents, doc: DocId, chunk: Chunk)
    ensures var r := Read(docs, doc, chunk);
            && (doc in r <==> doc in docs || chunk.intact)
            && Content(r, doc) == Content(docs, doc) + News(docs, doc, chunk)
            && News(docs, doc, chunk) == Content(r, doc) - Content(docs, doc)
            && forall d | d != doc :: (d in r <==> d in docs) && Content(r, d) == Content(docs, d)
  {
  }

  /**
   Two chunks that share reference and epoch shadow each other while both wait for their key:
   only the first is kept. The documents are the same in either order exactly when both would
   add the same operations and open the document alike; a damaged copy of a chunk does not.
   */
  lemma TwinsAgreeExactlyWhen(n: Node, w: Workspace, doc: DocId, x: Chunk, y: Chunk, a: AuthorizedOp)
    requires w.inbox.pending == [] && w.inbox.pendingBytes == 0
    requires x.contentRef == y.contentRef && x.epoch == y.epoch && x.establishedBy == a.op == y.establishedBy
    requires x.size <= MAX_PENDING_CHUNK_BYTES && y.size <= MAX_PENDING_CHUNK_BYTES
    requires x.deps + y.deps <= Content(w.inbox.docs, doc)
    requires n.derivable(a.op) && a.signatureOk && Verdict(n.ok, w.dag, a.op) == Applied
    ensures BothThenKey(n, w, doc, x, y, a).inbox.docs == BothThenKey(n, w, doc, y, x, a).inbox.docs <==>
            (x.intact == y.intact || doc in w.inbox.docs) && News(w.inbox.docs, doc, x) == News(w.inbox.docs, doc, y)
  {
    OnlyTheFirstIsRead(n, w, doc, x, y, a);
    OnlyTheFirstIsRead(n, w, doc, y, x, a);
    SameReading(w.inbox.docs, doc, x, y);
  }
}
