/**
 Exactly when the interleaving of key operations and chunks does not matter, read off the starting
 state, the chunks and the key plane: a parked chunk shadows every other chunk with its reference and
 epoch, so what has to be harmless is the loss of chunks that can be shadowed together.
 */
module IngestExactness {
  import opened Ordered
  import opened MergeMachine
  import opened MergeConfluence
  import opened IngestMachine
  import opened IngestConfluence

  ghost predicate SameIdent(x: Arrival, y: Arrival) {
    x.doc == y.doc && x.chunk.contentRef == y.chunk.contentRef && x.chunk.epoch == y.chunk.epoch
  }

  ghost predicate WaitsAt(k: Keys, docs: Documents, x: Arrival) {
    Judge(k, docs, x.doc, x.chunk) in {AwaitingKey, AwaitingDeps}
  }

  /** Each chunk of `lost` has a twin outside it that has to wait at the start. */
  ghost predicate Losable(k: Keys, docs: Documents, c: set<Arrival>, lost: set<Arrival>) {
    lost <= c && forall x | x in lost :: exists p | p in c - lost :: SameIdent(p, x) && WaitsAt(k, docs, p)
  }

  /** The chunk is of no use to this node, or the others bring everything it would. */
  ghost predicate Spared(l: Keys, docs: Documents, rest: set<Arrival>, x: Arrival) {
    || Dropped(l, x)
    || (forall t | IsClosedUnder(l, rest, t) && DocsBelow(docs, t) :: Absorbed(l, t, x))
  }

  /** Whatever can be shadowed together can be spared. `l` is the key plane in the end. */
  ghost predicate LossIsHarmless(k: Keys, l: Keys, docs: Documents, c: set<Arrival>) {
    forall lost, x | Losable(k, docs, c, lost) && x in lost :: Spared(l, docs, c - lost, x)
  }

  /** An empty queue, a settled key plane and chunks that fit the budget all at once. */
  ghost predicate Start(w: Workspace, c: set<Arrival>) {
    Sound(w.dag) && Settled(w.dag) && w.inbox.pending == [] && w.inbox.pendingBytes == 0 && AllFit(c)
  }

  // ---------------------------------------------------------------- a lost chunk was shadowed

  lemma NewArrivalIsTracked(n: Node, v: Workspace, x: Arrival)
    requires !IsParked(v.inbox, x.doc, x.chunk)
    ensures var u := Handle(n, v, ChunkArrived(x.doc, x.chunk)); Tracked(KeysOf(n, u.dag), u.inbox, x)
  {
    var t := ParkChunk(v.inbox, x.doc, x.chunk);
    assert t.pending[|t.pending| - 1] == Parked(x.doc, x.chunk, 0);
    assert t.pending[|t.pending| - 1] in t.pending;
    DrainTracks(KeysOf(n, v.dag), t, x);
  }

  /** A chunk that waits now has waited from the start. */
  lemma WaitedBefore(k: Keys, docs: Documents, l: Keys, later: Documents, p: Parked)
    requires KeysBelow(k, l) && DocsBelow(docs, later) && Waits(l, later, p)
    ensures WaitsAt(k, docs, Arrival(p.doc, p.chunk))
  {
  }

  lemma ShadowIsATwin(n: Node, w: Workspace, es: seq<Event>, x: Arrival) returns (p: Arrival)
    requires w.inbox.pending == []
    requires IsParked(HandleAll(n, w, es).inbox, x.doc, x.chunk)
    ensures p in Arrivals(es) && SameIdent(p, x) && WaitsAt(KeysOf(n, w.dag), w.inbox.docs, p)
    ensures InQueue(HandleAll(n, w, es).inbox, p)
  {
    var v := HandleAll(n, w, es);
    var q :| q in v.inbox.pending && q.doc == x.doc
             && q.chunk.contentRef == x.chunk.contentRef && q.chunk.epoch == x.chunk.epoch;
    p := Arrival(q.doc, q.chunk);
    assert p in Queue(v.inbox);
    QueueStaysOffered(n, w, es);
    assert Queue(w.inbox) == {};
    NothingReadableWaits(n, w, es);
    DocsGrow(n, w, es);
    KeysGrow(n, w, es);
    WaitedBefore(KeysOf(n, w.dag), w.inbox.docs, KeysOf(n, v.dag), v.inbox.docs, q);
  }

  lemma KeysGrow(n: Node, w: Workspace, es: seq<Event>)
    ensures KeysBelow(KeysOf(n, w.dag), KeysOf(n, HandleAll(n, w, es).dag))
  {
    KeyPlaneRunsAlone(n, w, es);
    RunGrows(n.ok, w.dag, KeyOps(es));
  }

  ghost predicate TrackedBy(n: Node, v: Workspace, x: Arrival) {
    Tracked(KeysOf(n, v.dag), v.inbox, x)
  }

  /** What became of `x` if nothing did: some twin, itself accounted for, was waiting in its place. */
  lemma {:induction false} LostWasShadowed(n: Node, w: Workspace, c: set<Arrival>, es: seq<Event>, x: Arrival)
    returns (p: Arrival)
    requires Start(w, c) && Arrivals(es) <= c && x in Arrivals(es) && !TrackedBy(n, HandleAll(n, w, es), x)
    ensures p in Arrivals(es) && SameIdent(p, x) && WaitsAt(KeysOf(n, w.dag), w.inbox.docs, p)
    ensures TrackedBy(n, HandleAll(n, w, es), p)
    decreases |es|
  {
    var init, last := es[..|es| - 1], es[|es| - 1];
    assert es == init + [last];
    assert Arrivals(init) <= Arrivals(es);
    var v := HandleAll(n, w, init);
    FittingRunsEvictNothing(n, w, c, init);
    FittingRunsEvictNothing(n, w, c, es);
    if TrackedBy(n, v, x) { TrackedSurvives(n, v, last, x); }
    if x in Arrivals(init) {
      p := LostWasShadowed(n, w, c, init, x);
    } else {
      assert last == ChunkArrived(x.doc, x.chunk);
      if !IsParked(v.inbox, x.doc, x.chunk) { NewArrivalIsTracked(n, v, x); }
      p := ShadowIsATwin(n, w, init, x);
    }
    TrackedSurvives(n, v, last, p);
  }

  /** What a run lost could be shadowed together, and the rest is accounted for. */
  lemma LostIsLosable(n: Node, w: Workspace, c: set<Arrival>, es: seq<Event>, kept: set<Arrival>)
    requires Start(w, c) && Arrivals(es) == c
    requires kept == set x | x in c && TrackedBy(n, HandleAll(n, w, es), x)
    ensures Losable(KeysOf(n, w.dag), w.inbox.docs, c, c - kept)
  {
    forall x | x in c - kept
      ensures exists p | p in c - (c - kept) :: SameIdent(p, x) && WaitsAt(KeysOf(n, w.dag), w.inbox.docs, p)
    {
      var p := LostWasShadowed(n, w, c, es, x);
      assert p in c - (c - kept);
    }
  }

  lemma SparedIsTracked(n: Node, w: Workspace, es: seq<Event>, rest: set<Arrival>, x: Arrival)
    requires AllWait(KeysOf(n, w.dag), w.inbox)
    requires forall y | y in rest :: TrackedBy(n, HandleAll(n, w, es), y)
    requires Spared(KeysOf(n, HandleAll(n, w, es).dag), w.inbox.docs, rest, x)
    ensures TrackedBy(n, HandleAll(n, w, es), x)
  {
    var v := HandleAll(n, w, es);
    NothingReadableWaits(n, w, es);
    TrackedIsClosed(KeysOf(n, v.dag), v.inbox, rest);
    DocsGrow(n, w, es);
  }

  lemma HarmlessRunTracks(n: Node, w: Workspace, c: set<Arrival>, es: seq<Event>, kept: set<Arrival>, x: Arrival)
    requires Start(w, c) && Arrivals(es) == c && x in c
    requires kept == set y | y in c && TrackedBy(n, HandleAll(n, w, es), y)
    requires LossIsHarmless(KeysOf(n, w.dag), KeysOf(n, HandleAll(n, w, es).dag), w.inbox.docs, c)
    ensures TrackedBy(n, HandleAll(n, w, es), x)
  {
    if x !in kept {
      LostIsLosable(n, w, c, es, kept);
      assert c - (c - kept) == kept;
      SparedIsTracked(n, w, es, kept, x);
    }
  }

  lemma HarmlessRunsLoseNothing(n: Node, w: Workspace, c: set<Arrival>, es: seq<Event>)
    requires Start(w, c) && Arrivals(es) == c
    requires LossIsHarmless(KeysOf(n, w.dag), KeysOf(n, HandleAll(n, w, es).dag), w.inbox.docs, c)
    ensures NothingLost(n, w, es)
  {
    var kept := set y | y in c && TrackedBy(n, HandleAll(n, w, es), y);
    assert Queue(w.inbox) == {};
    forall x | x in c
      ensures TrackedBy(n, HandleAll(n, w, es), x)
    {
      HarmlessRunTracks(n, w, c, es, kept, x);
    }
  }

  // ---------------------------------------------------------------- what can be shadowed is lost in some run

  ghost function Announce(c: set<Arrival>): (es: seq<Event>)
    ensures Arrivals(es) == c && KeyOps(es) == []
  {
    if c == {} then [] else
      var x :| x in c;
      var init := Announce(c - {x});
      var es := init + [ChunkArrived(x.doc, x.chunk)];
      assert es[..|es| - 1] == init;
      assert Arrivals(es) == Arrivals(init) + {x};
      es
  }

  function Keying(ks: seq<AuthorizedOp>): (es: seq<Event>)
    ensures |es| == |ks| && forall i | 0 <= i < |ks| :: es[i] == KeyOp(ks[i])
  {
    seq(|ks|, i requires 0 <= i < |ks| => KeyOp(ks[i]))
  }

  lemma {:induction false} KeyingKeys(ks: seq<AuthorizedOp>)
    ensures KeyOps(Keying(ks)) == ks && Arrivals(Keying(ks)) == {}
    decreases |ks|
  {
    if ks == [] {
    } else {
      var init := ks[..|ks| - 1];
      KeyingKeys(init);
      assert Keying(ks)[..|ks| - 1] == Keying(init);
      assert ks == init + [ks[|ks| - 1]];
    }
  }

  lemma {:induction false} EventsAppend(n: Node, w: Workspace, a: seq<Event>, b: seq<Event>)
    ensures HandleAll(n, w, a + b) == HandleAll(n, HandleAll(n, w, a), b)
    ensures KeyOps(a + b) == KeyOps(a) + KeyOps(b) && Arrivals(a + b) == Arrivals(a) + Arrivals(b)
    decreases |b|
  {
    if b == [] {
      assert a + b == a;
    } else {
      assert (a + b)[..|a + b| - 1] == a + b[..|b| - 1];
      EventsAppend(n, w, a, b[..|b| - 1]);
    }
  }

  /** Nothing has moved since `w`: its keys, its contents, and only chunks that had to wait then. */
  ghost predicate Idle(n: Node, w: Workspace, v: Workspace) {
    && v.dag == w.dag
    && (forall d :: Content(v.inbox.docs, d) == Content(w.inbox.docs, d))
    && (forall p | p in v.inbox.pending :: WaitsAt(KeysOf(n, w.dag), w.inbox.docs, Arrival(p.doc, p.chunk)))
  }

  ghost predicate SameContents(a: Documents, b: Documents) {
    forall d :: Content(a, d) == Content(b, d)
  }

  lemma WaitingAttempt(k: Keys, s: Inbox, p: Parked)
    requires WaitsAt(k, s.docs, Arrival(p.doc, p.chunk))
    ensures var r := Attempt(k, s, p);
            && SameContents(r.docs, s.docs) && r.merged == s.merged
            && r.pending == s.pending + [p.(drains := Older(p.drains))]
  {
  }

  /** A pass over chunks that have to wait keeps them all and moves nothing. */
  lemma {:induction false} WaitingPass(k: Keys, s: Inbox, cs: seq<Parked>)
    requires forall p | p in cs :: WaitsAt(k, s.docs, Arrival(p.doc, p.chunk))
    ensures var r := Pass(k, s, cs);
            SameContents(r.docs, s.docs) && r.merged == s.merged && Queue(r) == Queue(s) + QueueOf(cs)
    decreases |cs|
  {
    if cs == [] {
      assert QueueOf(cs) == {};
    } else {
      var init, last := cs[..|cs| - 1], cs[|cs| - 1];
      assert cs == init + [last];
      assert forall p | p in init :: p in cs;
      WaitingPass(k, s, init);
      var r := Pass(k, s, init);
      assert last in cs;
      assert WaitsAt(k, r.docs, Arrival(last.doc, last.chunk));
      WaitingAttempt(k, r, last);
      QueuesAppend(r.pending, last.(drains := Older(last.drains)));
      QueuesAppend(init, last);
      Regroup(Queue(s), QueueOf(init), {Arrival(last.doc, last.chunk)});
    }
  }

  lemma QueuesAppend(a: seq<Parked>, p: Parked)
    ensures QueueOf(a + [p]) == QueueOf(a) + {Arrival(p.doc, p.chunk)}
  {
  }

  lemma WaitingDrain(k: Keys, s: Inbox)
    requires forall p | p in s.pending :: WaitsAt(k, s.docs, Arrival(p.doc, p.chunk))
    ensures SameContents(Drain(k, s).docs, s.docs) && Queue(Drain(k, s)) == Queue(s)
  {
    WaitingPass(k, Emptied(s), s.pending);
    assert Queue(Emptied(s)) == {};
  }

  /** Draining a queue of chunks that had to wait at `w` leaves the node idle. */
  lemma IdleDrain(n: Node, w: Workspace, v: Workspace, t: Inbox)
    requires v.dag == w.dag && SameContents(t.docs, w.inbox.docs)
    requires forall p | p in t.pending :: WaitsAt(KeysOf(n, w.dag), w.inbox.docs, Arrival(p.doc, p.chunk))
    ensures var u := v.(inbox := Drain(KeysOf(n, v.dag), t)); Idle(n, w, u) && Queue(u.inbox) == Queue(t)
  {
    var k := KeysOf(n, w.dag);
    forall p | p in t.pending
      ensures WaitsAt(k, t.docs, Arrival(p.doc, p.chunk))
    {
      assert WaitsAt(k, w.inbox.docs, Arrival(p.doc, p.chunk));
    }
    WaitingDrain(k, t);
    StillWaiting(k, w.inbox.docs, t, Drain(k, t));
  }

  lemma ShadowedArrival(n: Node, w: Workspace, v: Workspace, x: Arrival)
    requires Idle(n, w, v) && IsParked(v.inbox, x.doc, x.chunk)
    ensures var u := Handle(n, v, ChunkArrived(x.doc, x.chunk)); Idle(n, w, u) && Queue(u.inbox) == Queue(v.inbox)
  {
    IdleDrain(n, w, v, v.inbox);
  }

  lemma WaitingArrival(n: Node, w: Workspace, c: set<Arrival>, v: Workspace, x: Arrival)
    requires AllFit(c) && Tidy(v.inbox) && Queue(v.inbox) <= c && x in c && Idle(n, w, v)
    requires !IsParked(v.inbox, x.doc, x.chunk) && WaitsAt(KeysOf(n, w.dag), w.inbox.docs, x)
    ensures var u := Handle(n, v, ChunkArrived(x.doc, x.chunk));
            Idle(n, w, u) && Queue(u.inbox) == Queue(v.inbox) + {x}
  {
    ParkingAppends(v.inbox, c, x);
    QueuesAppend(v.inbox.pending, Parked(x.doc, x.chunk, 0));
    IdleDrain(n, w, v, ParkChunk(v.inbox, x.doc, x.chunk));
  }

  lemma ParkingAppends(s: Inbox, c: set<Arrival>, x: Arrival)
    requires AllFit(c) && Tidy(s) && Queue(s) <= c && x in c && !IsParked(s, x.doc, x.chunk)
    ensures var t := ParkChunk(s, x.doc, x.chunk);
            t.docs == s.docs && t.pending == s.pending + [Parked(x.doc, x.chunk, 0)]
  {
    ArrivalFits(s, c, x);
    MakingRoomOnlyEvicts(s, x.chunk.size);
  }

  lemma StillWaiting(k: Keys, docs: Documents, t: Inbox, r: Inbox)
    requires Queue(r) == Queue(t) && forall p | p in t.pending :: WaitsAt(k, docs, Arrival(p.doc, p.chunk))
    ensures forall p | p in r.pending :: WaitsAt(k, docs, Arrival(p.doc, p.chunk))
  {
    forall p | p in r.pending
      ensures WaitsAt(k, docs, Arrival(p.doc, p.chunk))
    {
      assert Arrival(p.doc, p.chunk) in Queue(t);
    }
  }

  lemma ParkedByQueue(s: Inbox, x: Arrival)
    ensures IsParked(s, x.doc, x.chunk) <==> exists p | p in Queue(s) :: SameIdent(p, x)
  {
    if q :| q in s.pending && q.doc == x.doc
            && q.chunk.contentRef == x.chunk.contentRef && q.chunk.epoch == x.chunk.epoch {
      assert Arrival(q.doc, q.chunk) in Queue(s);
    }
  }

  /** Every chunk of `shadows` is in the queue, or a twin of it is. */
  ghost predicate Shadowing(v: Workspace, shadows: set<Arrival>) {
    forall x | x in shadows :: IsParked(v.inbox, x.doc, x.chunk)
  }

  lemma ShadowingGrows(v: Workspace, u: Workspace, shadows: set<Arrival>)
    requires Queue(v.inbox) <= Queue(u.inbox) && Shadowing(v, shadows)
    ensures Shadowing(u, shadows)
  {
    forall x | x in shadows
      ensures IsParked(u.inbox, x.doc, x.chunk)
    {
      ParkedByQueue(v.inbox, x);
      ParkedByQueue(u.inbox, x);
    }
  }

  /** One arrival while nothing moves, of a chunk that waits or is to be lost. */
  lemma IdleStep(n: Node, w: Workspace, c: set<Arrival>, u: Workspace, x: Arrival, lost: set<Arrival>)
    requires AllFit(c) && Tidy(u.inbox) && Queue(u.inbox) <= c - lost && Idle(n, w, u) && Shadowing(u, lost)
    requires x in c && (x in lost || WaitsAt(KeysOf(n, w.dag), w.inbox.docs, x))
    ensures var t := Handle(n, u, ChunkArrived(x.doc, x.chunk));
            && Idle(n, w, t) && Tidy(t.inbox) && Queue(u.inbox) <= Queue(t.inbox) <= c - lost
            && IsParked(t.inbox, x.doc, x.chunk)
  {
    FittingEventEvictsNothing(n, u, c, ChunkArrived(x.doc, x.chunk));
    ParkedByQueue(u.inbox, x);
    if IsParked(u.inbox, x.doc, x.chunk) {
      ShadowedArrival(n, w, u, x);
    } else {
      WaitingArrival(n, w, c, u, x);
    }
    ParkedByQueue(Handle(n, u, ChunkArrived(x.doc, x.chunk)).inbox, x);
  }

  /** Chunks that arrive while nothing moves, each waiting or shadowed: they end in the queue or lost. */
  lemma {:induction false} IdleRun(n: Node, w: Workspace, c: set<Arrival>, v: Workspace, es: seq<Event>,
                                   lost: set<Arrival>)
    requires AllFit(c) && Tidy(v.inbox) && Queue(v.inbox) <= c - lost && Idle(n, w, v) && Shadowing(v, lost)
    requires KeyOps(es) == [] && Arrivals(es) <= c
    requires forall x | x in Arrivals(es) - lost :: WaitsAt(KeysOf(n, w.dag), w.inbox.docs, x)
    ensures var u := HandleAll(n, v, es);
            && Idle(n, w, u) && Tidy(u.inbox) && Queue(v.inbox) <= Queue(u.inbox) <= c - lost
            && Shadowing(u, Arrivals(es) + lost)
    decreases |es|
  {
    if es == [] {
    } else {
      var init, last := es[..|es| - 1], es[|es| - 1];
      assert es == init + [last] && last.ChunkArrived?;
      var x := Arrival(last.doc, last.chunk);
      assert Arrivals(es) == Arrivals(init) + {x};
      IdleRun(n, w, c, v, init, lost);
      var u := HandleAll(n, v, init);
      IdleStep(n, w, c, u, x, lost);
      ShadowingGrows(u, Handle(n, u, last), Arrivals(init) + lost);
    }
  }

  ghost function Waiting(n: Node, w: Workspace, c: set<Arrival>): set<Arrival> {
    set p | p in c && WaitsAt(KeysOf(n, w.dag), w.inbox.docs, p)
  }

  /** The twins that have to wait come first, then the ones to be lost. */
  ghost function Shadowed(n: Node, w: Workspace, c: set<Arrival>, lost: set<Arrival>): seq<Event> {
    Announce(Waiting(n, w, c - lost)) + Announce(lost)
  }

  /** Then the others, and the operations. */
  ghost function Others(c: set<Arrival>, lost: set<Arrival>, ks: seq<AuthorizedOp>): seq<Event> {
    Announce(c - lost) + Keying(ks)
  }

  lemma NothingBefore<T>(a: seq<T>, s: set<Arrival>)
    ensures [] + a == a && s + {} == s
  {
  }

  lemma OthersAre(n: Node, w: Workspace, c: set<Arrival>, lost: set<Arrival>, ks: seq<AuthorizedOp>)
    ensures KeyOps(Others(c, lost, ks)) == ks && Arrivals(Others(c, lost, ks)) == c - lost
  {
    KeyingKeys(ks);
    EventsAppend(n, w, Announce(c - lost), Keying(ks));
    NothingBefore(ks, c - lost);
  }

  lemma PartsMakeUp(c: set<Arrival>, lost: set<Arrival>, part: set<Arrival>)
    requires lost <= c && part <= c - lost
    ensures part + lost + (c - lost) == c
  {
  }

  lemma ShadowedAre(n: Node, w: Workspace, c: set<Arrival>, lost: set<Arrival>)
    ensures var es := Shadowed(n, w, c, lost); KeyOps(es) == [] && Arrivals(es) == Waiting(n, w, c - lost) + lost
  {
    EventsAppend(n, w, Announce(Waiting(n, w, c - lost)), Announce(lost));
  }

  lemma LosingRunInterleaves(n: Node, w: Workspace, c: set<Arrival>, lost: set<Arrival>, ks: seq<AuthorizedOp>)
    requires lost <= c
    ensures var es := Shadowed(n, w, c, lost) + Others(c, lost, ks); KeyOps(es) == ks && Arrivals(es) == c
  {
    ShadowedAre(n, w, c, lost);
    OthersAre(n, w, c, lost, ks);
    EventsAppend(n, w, Shadowed(n, w, c, lost), Others(c, lost, ks));
    PartsMakeUp(c, lost, Waiting(n, w, c - lost));
    NothingBefore(ks, c);
  }

  lemma TwinsShadow(n: Node, w: Workspace, c: set<Arrival>, u: Workspace, lost: set<Arrival>)
    requires Losable(KeysOf(n, w.dag), w.inbox.docs, c, lost) && Shadowing(u, Waiting(n, w, c - lost))
    ensures Shadowing(u, lost)
  {
    forall x | x in lost
      ensures IsParked(u.inbox, x.doc, x.chunk)
    {
      var p :| p in c - lost && SameIdent(p, x) && WaitsAt(KeysOf(n, w.dag), w.inbox.docs, p);
      assert p in Waiting(n, w, c - lost);
      ParkedByQueue(u.inbox, p);
      ParkedByQueue(u.inbox, x);
    }
  }

  lemma FirstBatch(n: Node, w: Workspace, c: set<Arrival>, lost: set<Arrival>)
    requires Start(w, c) && Losable(KeysOf(n, w.dag), w.inbox.docs, c, lost)
    ensures var u := HandleAll(n, w, Announce(Waiting(n, w, c - lost)));
            Idle(n, w, u) && Tidy(u.inbox) && Queue(u.inbox) <= c - lost && Shadowing(u, lost)
  {
    var es := Announce(Waiting(n, w, c - lost));
    assert Queue(w.inbox) == {};
    IdleRun(n, w, c, w, es, {});
    QueueStaysOffered(n, w, es);
    TwinsShadow(n, w, c, HandleAll(n, w, es), lost);
  }

  /** After the first two batches nothing to be lost is in the queue, and nothing has moved. */
  lemma BothBatches(n: Node, w: Workspace, c: set<Arrival>, lost: set<Arrival>)
    requires Start(w, c) && Losable(KeysOf(n, w.dag), w.inbox.docs, c, lost)
    ensures var u := HandleAll(n, w, Shadowed(n, w, c, lost)); Idle(n, w, u) && Queue(u.inbox) <= c - lost
  {
    var es := Announce(Waiting(n, w, c - lost));
    FirstBatch(n, w, c, lost);
    EventsAppend(n, w, es, Announce(lost));
    IdleRun(n, w, c, HandleAll(n, w, es), Announce(lost), lost);
  }

  /** All the while the documents stay below whatever the kept chunks are closed under. */
  lemma {:induction false} IdleRunStaysBelow(n: Node, w: Workspace, c: set<Arrival>, v: Workspace, es: seq<Event>,
                                             lost: set<Arrival>, l: Keys, t: Documents)
    requires AllFit(c) && Tidy(v.inbox) && Queue(v.inbox) <= c - lost && Idle(n, w, v) && Shadowing(v, lost)
    requires KeyOps(es) == [] && Arrivals(es) <= c
    requires forall x | x in Arrivals(es) - lost :: WaitsAt(KeysOf(n, w.dag), w.inbox.docs, x)
    requires KeysBelow(KeysOf(n, w.dag), l) && IsClosedUnder(l, c - lost, t) && DocsBelow(v.inbox.docs, t)
    ensures DocsBelow(HandleAll(n, v, es).inbox.docs, t)
    decreases |es|
  {
    if es == [] {
    } else {
      var init, last := es[..|es| - 1], es[|es| - 1];
      assert es == init + [last] && last.ChunkArrived?;
      var x := Arrival(last.doc, last.chunk);
      assert Arrivals(es) == Arrivals(init) + {x};
      IdleRunStaysBelow(n, w, c, v, init, lost, l, t);
      IdleRun(n, w, c, v, init, lost);
      StepStaysBelow(n, HandleAll(n, v, init), c, lost, x, l, t);
    }
  }

  lemma StepStaysBelow(n: Node, u: Workspace, c: set<Arrival>, lost: set<Arrival>, x: Arrival, l: Keys, t: Documents)
    requires Queue(u.inbox) <= c - lost && x in c && (x in lost ==> IsParked(u.inbox, x.doc, x.chunk))
    requires KeysBelow(KeysOf(n, u.dag), l) && IsClosedUnder(l, c - lost, t) && DocsBelow(u.inbox.docs, t)
    ensures DocsBelow(Handle(n, u, ChunkArrived(x.doc, x.chunk)).inbox.docs, t)
  {
    if x in lost {
      DrainStaysBelow(KeysOf(n, u.dag), l, c - lost, t, u.inbox);
    } else {
      ArrivalStaysBelow(KeysOf(n, u.dag), l, c - lost, t, u.inbox, x);
    }
  }

  lemma BothBatchesStayBelow(n: Node, w: Workspace, c: set<Arrival>, lost: set<Arrival>, l: Keys, t: Documents)
    requires Start(w, c) && Losable(KeysOf(n, w.dag), w.inbox.docs, c, lost)
    requires KeysBelow(KeysOf(n, w.dag), l) && IsClosedUnder(l, c - lost, t) && DocsBelow(w.inbox.docs, t)
    ensures DocsBelow(HandleAll(n, w, Shadowed(n, w, c, lost)).inbox.docs, t)
  {
    var es := Announce(Waiting(n, w, c - lost));
    var u := HandleAll(n, w, es);
    FirstBatch(n, w, c, lost);
    KeyPlaneRunsAlone(n, w, es);
    assert Queue(w.inbox) == {} && Waiting(n, w, c - lost) <= c - lost;
    RunStaysBelow(n, w, es, l, c - lost, t);
    EventsAppend(n, w, es, Announce(lost));
    IdleRunStaysBelow(n, w, c, u, Announce(lost), lost, l, t);
  }

  /** The whole run: what was to be lost never enters the queue, and the documents lack it. */
  lemma LosingRunLoses(n: Node, w: Workspace, c: set<Arrival>, lost: set<Arrival>, ks: seq<AuthorizedOp>,
                       l: Keys, t: Documents)
    requires Start(w, c) && Losable(KeysOf(n, w.dag), w.inbox.docs, c, lost)
    requires l == KeysOf(n, Run(n.ok, w.dag, ks)) && IsClosedUnder(l, c - lost, t) && DocsBelow(w.inbox.docs, t)
    ensures var end := HandleAll(n, w, Shadowed(n, w, c, lost) + Others(c, lost, ks));
            KeysOf(n, end.dag) == l && Queue(end.inbox) <= c - lost && DocsBelow(end.inbox.docs, t)
  {
    var u := HandleAll(n, w, Shadowed(n, w, c, lost));
    RunGrows(n.ok, w.dag, ks);
    BothBatches(n, w, c, lost);
    BothBatchesStayBelow(n, w, c, lost, l, t);
    EventsAppend(n, w, Shadowed(n, w, c, lost), Others(c, lost, ks));
    OthersAre(n, w, c, lost, ks);
    KeyPlaneRunsAlone(n, u, Others(c, lost, ks));
    RunStaysBelow(n, u, Others(c, lost, ks), l, c - lost, t);
  }

  lemma AbsorbedGrows(l: Keys, a: Documents, b: Documents, x: Arrival)
    requires DocsBelow(a, b) && Absorbed(l, a, x)
    ensures Absorbed(l, b, x)
  {
  }

  /** If the losing run loses nothing after all, each chunk it shadowed can be spared. */
  lemma NothingLostMeansSpared(n: Node, w: Workspace, c: set<Arrival>, lost: set<Arrival>, ks: seq<AuthorizedOp>,
                               x: Arrival)
    requires Start(w, c) && Losable(KeysOf(n, w.dag), w.inbox.docs, c, lost) && x in lost
    requires NothingLost(n, w, Shadowed(n, w, c, lost) + Others(c, lost, ks))
    ensures Spared(KeysOf(n, Run(n.ok, w.dag, ks)), w.inbox.docs, c - lost, x)
  {
    var l := KeysOf(n, Run(n.ok, w.dag, ks));
    var es := Shadowed(n, w, c, lost) + Others(c, lost, ks);
    var end := HandleAll(n, w, es);
    LosingRunInterleaves(n, w, c, lost, ks);
    assert Tracked(KeysOf(n, end.dag), end.inbox, x);
    if !Dropped(l, x) {
      forall t | IsClosedUnder(l, c - lost, t) && DocsBelow(w.inbox.docs, t)
        ensures Absorbed(l, t, x)
      {
        LosingRunLoses(n, w, c, lost, ks, l, t);
        NotInQueue(end.inbox, c - lost, x);
        AbsorbedGrows(l, end.inbox.docs, t, x);
      }
    }
  }

  lemma NotInQueue(s: Inbox, rest: set<Arrival>, x: Arrival)
    requires Queue(s) <= rest && x !in rest
    ensures !InQueue(s, x)
  {
    assert InQueue(s, x) ==> x in Queue(s);
  }

  // ---------------------------------------------------------------- the exact condition

  lemma ShadowedIsSpared(n: Node, w: Workspace, ks: seq<AuthorizedOp>, c: set<Arrival>, lost: set<Arrival>, x: Arrival)
    requires Start(w, c) && Lossless(n.ok, w.dag, ks) && InterleavingsLoseNothing(n, w, Offered(ks), c)
    requires Losable(KeysOf(n, w.dag), w.inbox.docs, c, lost) && x in lost
    ensures Spared(KeysOf(n, Run(n.ok, w.dag, ks)), w.inbox.docs, c - lost, x)
  {
    LosingRunInterleaves(n, w, c, lost, ks);
    assert Interleaves(n, w, Offered(ks), c, Shadowed(n, w, c, lost) + Others(c, lost, ks));
    NothingLostMeansSpared(n, w, c, lost, ks, x);
  }

  lemma AgreementMakesLossHarmless(n: Node, w: Workspace, ks: seq<AuthorizedOp>, c: set<Arrival>)
    requires Start(w, c) && Lossless(n.ok, w.dag, ks) && InterleavingsLoseNothing(n, w, Offered(ks), c)
    ensures LossIsHarmless(KeysOf(n, w.dag), KeysOf(n, Run(n.ok, w.dag, ks)), w.inbox.docs, c)
  {
    forall lost, x | Losable(KeysOf(n, w.dag), w.inbox.docs, c, lost) && x in lost
      ensures Spared(KeysOf(n, Run(n.ok, w.dag, ks)), w.inbox.docs, c - lost, x)
    {
      ShadowedIsSpared(n, w, ks, c, lost, x);
    }
  }

  lemma HarmlessLossesLoseNothing(n: Node, w: Workspace, ks: seq<AuthorizedOp>, c: set<Arrival>, es: seq<Event>)
    requires Start(w, c) && Lossless(n.ok, w.dag, ks) && Interleaves(n, w, Offered(ks), c, es)
    requires Justified(n.ok, w.dag, ParkedOps(w.dag) + Offered(ks))
    requires LossIsHarmless(KeysOf(n, w.dag), KeysOf(n, Run(n.ok, w.dag, ks)), w.inbox.docs, c)
    ensures NothingLost(n, w, es)
  {
    KeyPlaneRunsAlone(n, w, es);
    DeliveryOrderDoesNotMatter(n.ok, w.dag, KeyOps(es), ks);
    HarmlessRunsLoseNothing(n, w, c, es);
  }

  /**
   From an empty queue, for chunks that fit the budget all at once, all interleavings of the same
   operations and chunks end the same, if and only if every set of chunks that can be shadowed
   together is harmless to lose: judged by the start, the chunks and where the key plane ends.
   */
  lemma InterleavingsAgreeExactlyWhenLossIsHarmless(n: Node, w: Workspace, ks: seq<AuthorizedOp>, c: set<Arrival>)
    requires Start(w, c) && Lossless(n.ok, w.dag, ks)
    requires Justified(n.ok, w.dag, ParkedOps(w.dag) + Offered(ks))
    ensures InterleavingsAgree(n, w, Offered(ks), c) <==>
            LossIsHarmless(KeysOf(n, w.dag), KeysOf(n, Run(n.ok, w.dag, ks)), w.inbox.docs, c)
  {
    InterleavingsAgreeExactlyWhenNothingIsLost(n, w, Offered(ks), c);
    if InterleavingsLoseNothing(n, w, Offered(ks), c) { AgreementMakesLossHarmless(n, w, ks, c); }
    if LossIsHarmless(KeysOf(n, w.dag), KeysOf(n, Run(n.ok, w.dag, ks)), w.inbox.docs, c) {
      forall es | Interleaves(n, w, Offered(ks), c, es)
        ensures NothingLost(n, w, es)
      {
        HarmlessLossesLoseNothing(n, w, ks, c, es);
      }
    }
  }
}
