/**
 What a drain tells the outside world: which chunks it asks for again, which it reports as merged,
 which it counts as corrupt, and how a chunk that waits grows old.
 */
module IngestLaws {
  import opened Ordered
  import opened MergeMachine
  import opened IngestMachine
  import opened IngestConfluence

  /** Keyed by an operation this node has and under an epoch it can never derive. */
  ghost predicate NeverReadable(k: Keys, p: Parked) {
    p.chunk.establishedBy in k.ops && !k.derivable(p.chunk.establishedBy)
  }

  /** Readable by its key, and not authentic. */
  ghost predicate Damaged(k: Keys, p: Parked) {
    p.chunk.establishedBy in k.ops && k.derivable(p.chunk.establishedBy) && !p.chunk.intact
  }

  /** The requests a queue calls for: one per chunk that can never be read, in queue order. */
  ghost function Due(k: Keys, cs: seq<Parked>): seq<Effect>
    decreases |cs|
  {
    if cs == [] then [] else
      var last := cs[|cs| - 1];
      Due(k, cs[..|cs| - 1]) + if NeverReadable(k, last) then [RequestDocument(last.doc, last.chunk.epoch)] else []
  }

  ghost function DamagedIn(k: Keys, cs: seq<Parked>): nat
    decreases |cs|
  {
    if cs == [] then 0 else DamagedIn(k, cs[..|cs| - 1]) + if Damaged(k, cs[|cs| - 1]) then 1 else 0
  }

  ghost function DocumentRequests(es: seq<Effect>): seq<Effect>
    decreases |es|
  {
    if es == [] then [] else
      var last := es[|es| - 1];
      DocumentRequests(es[..|es| - 1]) + if last.RequestDocument? then [last] else []
  }

  ghost function MergesReported(es: seq<Effect>): nat
    decreases |es|
  {
    if es == [] then 0 else MergesReported(es[..|es| - 1]) + if es[|es| - 1].ChunkMerged? then 1 else 0
  }

  lemma {:induction false} ReportsAppend(a: seq<Effect>, b: seq<Effect>)
    ensures DocumentRequests(a + b) == DocumentRequests(a) + DocumentRequests(b)
    ensures MergesReported(a + b) == MergesReported(a) + MergesReported(b)
    decreases |b|
  {
    if b == [] {
      assert a + b == a;
    } else {
      assert (a + b)[..|a + b| - 1] == a + b[..|b| - 1];
      ReportsAppend(a, b[..|b| - 1]);
    }
  }

  lemma ReportsOfOne(e: Effect)
    ensures DocumentRequests([e]) == (if e.RequestDocument? then [e] else [])
    ensures MergesReported([e]) == if e.ChunkMerged? then 1 else 0
  {
    assert [e][..0] == [];
  }

  lemma AskingReports(p: Parked, verdict: ChunkVerdict)
    ensures DocumentRequests(Asking(p, verdict))
            == if verdict == Unreachable then [RequestDocument(p.doc, p.chunk.epoch)] else []
    ensures MergesReported(Asking(p, verdict)) == if verdict == Merged then 1 else 0
  {
    var asked := Asking(p, verdict);
    if asked != [] { ReportsOfOne(asked[0]); }
  }

  lemma AttemptCounts(k: Keys, s: Inbox, p: Parked)
    ensures var r := Attempt(k, s, p);
            var verdict := Judge(k, s.docs, p.doc, p.chunk);
            && r.effects == s.effects + Asking(p, verdict)
            && r.merged == s.merged + (if verdict == Merged then 1 else 0)
            && r.unreadable == s.unreadable + (if NeverReadable(k, p) then 1 else 0)
            && r.corrupt == s.corrupt + (if Damaged(k, p) then 1 else 0)
            && (verdict == Unreachable <==> NeverReadable(k, p))
  {
  }

  /** From `s` to `r` just `due` was asked for, `damaged` counted, and every merge reported. */
  ghost predicate Reported(s: Inbox, r: Inbox, due: seq<Effect>, damaged: nat) {
    && s.effects <= r.effects
    && DocumentRequests(r.effects) == DocumentRequests(s.effects) + due
    && r.unreadable == s.unreadable + |due|
    && r.corrupt == s.corrupt + damaged
    && MergesReported(r.effects) - MergesReported(s.effects) == r.merged - s.merged
  }

  lemma ReportsAddUp(s: Inbox, m: Inbox, r: Inbox, a: seq<Effect>, b: seq<Effect>, i: nat, j: nat)
    requires Reported(s, m, a, i) && Reported(m, r, b, j)
    ensures Reported(s, r, a + b, i + j)
  {
    assert DocumentRequests(s.effects) + a + b == DocumentRequests(s.effects) + (a + b);
  }

  /** What one attempt reports, and counts. */
  lemma AttemptReports(k: Keys, s: Inbox, p: Parked)
    ensures Reported(s, Attempt(k, s, p),
                     if NeverReadable(k, p) then [RequestDocument(p.doc, p.chunk.epoch)] else [],
                     if Damaged(k, p) then 1 else 0)
  {
    var verdict := Judge(k, s.docs, p.doc, p.chunk);
    AttemptCounts(k, s, p);
    ReportsAppend(s.effects, Asking(p, verdict));
    AskingReports(p, verdict);
  }

  /** A pass reports just what the chunks it tries call for. */
  lemma {:induction false} PassReports(k: Keys, s: Inbox, cs: seq<Parked>)
    ensures Reported(s, Pass(k, s, cs), Due(k, cs), DamagedIn(k, cs))
    decreases |cs|
  {
    if cs == [] {
    } else {
      var init, last := cs[..|cs| - 1], cs[|cs| - 1];
      PassReports(k, s, init);
      AttemptReports(k, Pass(k, s, init), last);
      ReportsAddUp(s, Pass(k, s, init), Pass(k, s, cs), Due(k, init),
                   if NeverReadable(k, last) then [RequestDocument(last.doc, last.chunk.epoch)] else [],
                   DamagedIn(k, init), if Damaged(k, last) then 1 else 0);
    }
  }

  lemma {:induction false} NothingDue(k: Keys, cs: seq<Parked>)
    requires forall p | p in cs :: !NeverReadable(k, p) && !Damaged(k, p)
    ensures Due(k, cs) == [] && DamagedIn(k, cs) == 0
    decreases |cs|
  {
    if cs == [] {
    } else {
      assert cs[|cs| - 1] in cs && forall p | p in cs[..|cs| - 1] :: p in cs;
      NothingDue(k, cs[..|cs| - 1]);
    }
  }

  /** A chunk is carried through a pass exactly one drain older. */
  ghost predicate Aged(p: Parked, q: Parked) {
    p.doc == q.doc && p.chunk == q.chunk
    && (if q.drains < MAX_DRAINS then p.drains == q.drains + 1 else p.drains == MAX_DRAINS)
  }

  /** What is true of a chunk a pass puts back. */
  ghost predicate PutBack(k: Keys, effects: seq<Effect>, cs: seq<Parked>, p: Parked) {
    && !NeverReadable(k, p) && !Damaged(k, p)
    && (exists q | q in cs :: Aged(p, q))
    && (p.chunk.establishedBy in k.ops && p.drains >= MAX_DEP_WAIT_DRAINS ==>
          RequestHistory(p.doc, p.chunk.epoch) in effects)
  }

  lemma AttemptPutsBack(k: Keys, s: Inbox, q: Parked)
    ensures var r := Attempt(k, s, q);
            r.pending == s.pending
            || (|r.pending| == |s.pending| + 1 && r.pending[..|s.pending|] == s.pending
                && PutBack(k, r.effects, [q], r.pending[|s.pending|]))
  {
    var verdict := Judge(k, s.docs, q.doc, q.chunk);
    var r, p := Attempt(k, s, q), q.(drains := Older(q.drains));
    if verdict in {AwaitingKey, AwaitingDeps} {
      assert r.pending == s.pending + [p];
      assert q in [q] && Aged(p, q);
      if verdict == AwaitingDeps && p.drains >= MAX_DEP_WAIT_DRAINS {
        assert r.effects[|r.effects| - 1] == RequestHistory(p.doc, p.chunk.epoch);
      }
    }
  }

  lemma PutBackStays(k: Keys, effects: seq<Effect>, more: seq<Effect>, cs: seq<Parked>, all: seq<Parked>, p: Parked)
    requires PutBack(k, effects, cs, p) && effects <= more && forall q | q in cs :: q in all
    ensures PutBack(k, more, all, p)
  {
    assert forall e | e in effects :: e in more;
  }

  lemma {:induction false} PassPutsBack(k: Keys, s: Inbox, cs: seq<Parked>)
    requires s.pending == []
    ensures forall p | p in Pass(k, s, cs).pending :: PutBack(k, Pass(k, s, cs).effects, cs, p)
    decreases |cs|
  {
    if cs == [] {
    } else {
      var init, last := cs[..|cs| - 1], cs[|cs| - 1];
      assert cs == init + [last];
      PassPutsBack(k, s, init);
      var m, r := Pass(k, s, init), Pass(k, s, cs);
      AttemptReports(k, m, last);
      AttemptPutsBack(k, m, last);
      forall p | p in r.pending
        ensures PutBack(k, r.effects, cs, p)
      {
        if p in m.pending {
          PutBackStays(k, m.effects, r.effects, init, cs, p);
        } else {
          PutBackStays(k, r.effects, r.effects, [last], cs, p);
        }
      }
    }
  }

  // ---------------------------------------------------------------- a whole drain

  /**
   Over a whole drain: it asks again, in queue order, for exactly the chunks it can never read, and
   counts them; it counts exactly the damaged ones; and it reports as many merges as it makes.
   */
  lemma {:induction false} DrainReports(k: Keys, s: Inbox)
    ensures Reported(s, Drain(k, s), Due(k, s.pending), DamagedIn(k, s.pending))
    decreases |s.pending|
  {
    var r := Pass(k, Emptied(s), s.pending);
    PassReports(k, Emptied(s), s.pending);
    PassCounts(k, Emptied(s), s.pending);
    assert Reported(s, r, Due(k, s.pending), DamagedIn(k, s.pending));
    if r.merged != s.merged {
      PassPutsBack(k, Emptied(s), s.pending);
      NothingDue(k, r.pending);
      DrainReports(k, r);
      ReportsAddUp(s, r, Drain(k, r), Due(k, s.pending), [], DamagedIn(k, s.pending), 0);
      assert Due(k, s.pending) + [] == Due(k, s.pending);
    }
  }

  /** The effect speaks of a chunk of the queue, and of one it is true of. */
  ghost predicate SpeaksOf(k: Keys, cs: seq<Parked>, e: Effect) {
    exists q | q in cs :: Concerns(k, q, e)
  }

  ghost predicate Concerns(k: Keys, q: Parked, e: Effect) {
    && q.doc == e.doc && q.chunk.establishedBy in k.ops
    && match e
       case ChunkMerged(_) => k.derivable(q.chunk.establishedBy) && q.chunk.intact
       case RequestHistory(_, epoch) => k.derivable(q.chunk.establishedBy) && q.chunk.intact && q.chunk.epoch == epoch
       case RequestDocument(_, epoch) => !k.derivable(q.chunk.establishedBy) && q.chunk.epoch == epoch
  }

  /** One attempt speaks of its own chunk only, and asks for history only once it is old enough. */
  lemma AttemptSpeaksOf(k: Keys, s: Inbox, p: Parked)
    ensures s.effects <= Attempt(k, s, p).effects
    ensures forall e | e in Attempt(k, s, p).effects[|s.effects|..] ::
              Concerns(k, p, e) && (e.RequestHistory? ==> p.drains + 1 >= MAX_DEP_WAIT_DRAINS)
  {
    AttemptCounts(k, s, p);
    var r := Attempt(k, s, p);
    assert r.effects[|s.effects|..] == Asking(p, Judge(k, s.docs, p.doc, p.chunk));
  }

  lemma {:induction false} PassSpeaksOf(k: Keys, s: Inbox, cs: seq<Parked>)
    ensures s.effects <= Pass(k, s, cs).effects
    ensures forall e | e in Pass(k, s, cs).effects[|s.effects|..] :: SpeaksOf(k, cs, e)
    decreases |cs|
  {
    if cs == [] {
    } else {
      var init, last := cs[..|cs| - 1], cs[|cs| - 1];
      assert cs == init + [last];
      PassSpeaksOf(k, s, init);
      AttemptSpeaksOf(k, Pass(k, s, init), last);
      var m, r := Pass(k, s, init).effects, Pass(k, s, cs).effects;
      forall e | e in r[|s.effects|..]
        ensures SpeaksOf(k, cs, e)
      {
        assert r[|s.effects|..] == m[|s.effects|..] + r[|m|..];
        if e in m[|s.effects|..] {
          var q :| q in init && Concerns(k, q, e);
          assert q in cs;
        } else {
          assert last in cs;
        }
      }
    }
  }

  /** Every effect of a drain speaks of a chunk that was in the queue, and truly. */
  lemma {:induction false} DrainSpeaksOfItsChunks(k: Keys, s: Inbox)
    ensures s.effects <= Drain(k, s).effects
    ensures forall e | e in Drain(k, s).effects[|s.effects|..] :: SpeaksOf(k, s.pending, e)
    decreases |s.pending|
  {
    var r := Pass(k, Emptied(s), s.pending);
    PassSpeaksOf(k, Emptied(s), s.pending);
    PassCounts(k, Emptied(s), s.pending);
    if r.merged != s.merged {
      DrainSpeaksOfItsChunks(k, r);
      var t := Drain(k, r).effects;
      assert t[|s.effects|..] == r.effects[|s.effects|..] + t[|r.effects|..];
      forall e | e in t[|r.effects|..]
        ensures SpeaksOf(k, s.pending, e)
      {
        var q :| q in r.pending && Concerns(k, q, e);
        FreshPassPutsBack(k, s, q);
        var w :| w in s.pending && OlderThan(q, w);
        assert Concerns(k, w, e);
      }
    }
  }

  /** The chunk was in the queue before, younger unless it had reached the ceiling. */
  ghost predicate GrewFrom(cs: seq<Parked>, p: Parked) {
    exists q | q in cs :: OlderThan(p, q)
  }

  ghost predicate OlderThan(p: Parked, q: Parked) {
    p.doc == q.doc && p.chunk == q.chunk && p.drains <= MAX_DRAINS && (p.drains > q.drains || p.drains == MAX_DRAINS)
  }

  /**
   A chunk left waiting was waiting before and is older; and if its key is in hand and it has waited
   long enough, this very drain asked for the history it lacks.
   */
  lemma {:induction false} WaitingChunksAreAskedFor(k: Keys, s: Inbox, p: Parked)
    requires p in Drain(k, s).pending
    ensures GrewFrom(s.pending, p) && s.effects <= Drain(k, s).effects
    ensures p.chunk.establishedBy in k.ops && p.drains >= MAX_DEP_WAIT_DRAINS ==>
            RequestHistory(p.doc, p.chunk.epoch) in Drain(k, s).effects[|s.effects|..]
    decreases |s.pending|
  {
    var e := Emptied(s);
    var r := Pass(k, e, s.pending);
    PassCounts(k, e, s.pending);
    FreshPassPutsBack(k, s, p);
    DrainReports(k, s);
    if r.merged != s.merged {
      WaitingChunksAreAskedFor(k, r, p);
      var q :| q in r.pending && OlderThan(p, q);
      FreshPassPutsBack(k, s, q);
      var w :| w in s.pending && OlderThan(q, w);
      assert OlderThan(p, w);
      LaterEffects(k, s, r, RequestHistory(p.doc, p.chunk.epoch));
    }
  }

  /** The pass's own effects, apart from what was there before it. */
  lemma FreshPassPutsBack(k: Keys, s: Inbox, p: Parked)
    ensures var r := Pass(k, Emptied(s), s.pending);
            && s.effects <= r.effects
            && (p in r.pending ==>
                  && GrewFrom(s.pending, p)
                  && (p.chunk.establishedBy in k.ops && p.drains >= MAX_DEP_WAIT_DRAINS ==>
                        RequestHistory(p.doc, p.chunk.epoch) in r.effects[|s.effects|..]))
  {
    var e := Emptied(s);
    var silent := e.(effects := []);
    PassReports(k, e, s.pending);
    EffectsDoNotMatter(k, e, s.pending);
    PassPutsBack(k, silent, s.pending);
  }

  lemma AttemptAppends(k: Keys, s: Inbox, said: seq<Effect>, p: Parked)
    ensures var q := Attempt(k, s, p);
            Attempt(k, s.(effects := said + s.effects), p) == q.(effects := said + q.effects)
  {
    var asked := Asking(p, Judge(k, s.docs, p.doc, p.chunk));
    assert said + s.effects + asked == said + (s.effects + asked);
  }

  /** A pass does the same whatever was said before it, and appends the same. */
  lemma {:induction false} EffectsDoNotMatter(k: Keys, s: Inbox, cs: seq<Parked>)
    ensures var q := Pass(k, s.(effects := []), cs);
            Pass(k, s, cs) == q.(effects := s.effects + q.effects)
    decreases |cs|
  {
    if cs == [] {
      assert s.effects + [] == s.effects;
    } else {
      var init, last := cs[..|cs| - 1], cs[|cs| - 1];
      EffectsDoNotMatter(k, s, init);
      AttemptAppends(k, Pass(k, s.(effects := []), init), s.effects, last);
    }
  }

  lemma LaterEffects(k: Keys, s: Inbox, r: Inbox, x: Effect)
    requires s.effects <= r.effects
    ensures r.effects <= Drain(k, r).effects
    ensures x in Drain(k, r).effects[|r.effects|..] ==> x in Drain(k, r).effects[|s.effects|..]
  {
    DrainReports(k, r);
    var t := Drain(k, r).effects;
    assert t[|s.effects|..] == t[|s.effects|..|r.effects|] + t[|r.effects|..];
  }

  /** A chunk enters the queue at the end and young; whatever it displaces was in front of the rest. */
  lemma ParkingAdmitsTheChunk(s: Inbox, doc: DocId, chunk: Chunk)
    requires s.pendingBytes == Bytes(s.pending)
    ensures var t := ParkChunk(s, doc, chunk);
            && t.pending != [] && t.pending[|t.pending| - 1] == Parked(doc, chunk, 0)
            && (exists n | 0 <= n <= |s.pending| ::
                  t.pending[..|t.pending| - 1] == s.pending[n..] && t.evicted == s.evicted + n)
            && t.docs == s.docs && t.effects == s.effects
            && t.unreadable == s.unreadable && t.corrupt == s.corrupt && t.merged == s.merged
  {
    RoomIsMade(s, chunk.size);
    MakingRoomOnlyEvicts(s, chunk.size);
    RoomTouchesOnlyTheQueue(s, chunk.size);
  }

  lemma {:induction false} RoomTouchesOnlyTheQueue(s: Inbox, size: nat)
    ensures var t := MakeRoom(s, size);
            t.effects == s.effects && t.unreadable == s.unreadable && t.corrupt == s.corrupt && t.merged == s.merged
    decreases |s.pending|
  {
    if s.pending != [] && IsFull(s, size) { RoomTouchesOnlyTheQueue(DropOldest(s), size); }
  }

  /** Deleting a document drops it and its chunks, and leaves the rest as they were, in order. */
  lemma ForgettingDropsJustThat(s: Inbox, doc: DocId)
    ensures var t := Forget(s, doc);
            && doc !in t.docs && (forall d | d != doc :: (d in t.docs <==> d in s.docs))
            && (forall d | d in t.docs :: t.docs[d] == s.docs[d])
            && t.evicted == s.evicted && t.merged == s.merged && t.effects == s.effects
    ensures forall p: Parked ::
              multiset(Forget(s, doc).pending)[p] == if p.doc == doc then 0 else multiset(s.pending)[p]
  {
    forall p: Parked
      ensures multiset(Without(s.pending, doc))[p] == if p.doc == doc then 0 else multiset(s.pending)[p]
    {
      WithoutCounts(s.pending, doc, p);
    }
  }

  lemma {:induction false} WithoutCounts(pending: seq<Parked>, doc: DocId, p: Parked)
    ensures multiset(Without(pending, doc))[p] == if p.doc == doc then 0 else multiset(pending)[p]
    decreases |pending|
  {
    if pending == [] {
    } else {
      var init, last := pending[..|pending| - 1], pending[|pending| - 1];
      assert pending == init + [last];
      WithoutCounts(init, doc, p);
      assert Without(init, doc) + [] == Without(init, doc);
    }
  }
}
