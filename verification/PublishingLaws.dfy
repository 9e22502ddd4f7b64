/**
 What a document holds and what a request puts on the wire, told from the events alone: the history a
 node stands on, once restores have cut away what came after the snapshot, decides the contents; and
 each kind of event sends exactly what it should.
 */
module PublishingLaws {
  import opened Ordered
  import opened Publishing

  // ---------------------------------------------------------------- the history a node stands on

  /** The events still in force: a restore falls back to those in force at the last save. */
  ghost function InForce(es: seq<Event>): seq<Event>
    decreases |es|, 0
  {
    if es == [] then [] else
      var init, last := es[..|es| - 1], es[|es| - 1];
      if last == Restore then Kept(init) else InForce(init) + [last]
  }

  /** The events in force when the snapshot was last taken. */
  ghost function Kept(es: seq<Event>): seq<Event>
    decreases |es|, 1
  {
    if es == [] then [] else
      var init, last := es[..|es| - 1], es[|es| - 1];
      if last == Save then InForce(init) else Kept(init)
  }

  /** The event writes to the document, an edit here or a chunk from a peer. */
  ghost predicate Writes(e: Event, doc: DocId) {
    (e.Edit? && e.doc == doc) || (e.Import? && e.doc == doc)
  }

  ghost function Written(e: Event): set<Atom>
    requires e.Edit? || e.Import?
  {
    if e.Edit? then e.added else e.atoms
  }

  /** Somebody wrote to the document, and nobody deleted it since. */
  ghost predicate IsLive(h: seq<Event>, doc: DocId) {
    exists i | 0 <= i < |h| :: Writes(h[i], doc) && forall j | i < j < |h| :: h[j] != Delete(doc)
  }

  ghost predicate Brought(h: seq<Event>, doc: DocId, x: Atom) {
    exists i | 0 <= i < |h| ::
      Writes(h[i], doc) && x in Written(h[i]) && forall j | i < j < |h| :: h[j] != Delete(doc)
  }

  lemma LiveNext(h: seq<Event>, e: Event, doc: DocId)
    ensures IsLive(h + [e], doc) <==> e != Delete(doc) && (IsLive(h, doc) || Writes(e, doc))
  {
    var g := h + [e];
    if IsLive(h, doc) && e != Delete(doc) {
      var i :| 0 <= i < |h| && Writes(h[i], doc) && forall j | i < j < |h| :: h[j] != Delete(doc);
      assert Writes(g[i], doc);
    }
    if Writes(e, doc) { assert Writes(g[|h|], doc); }
    if IsLive(g, doc) {
      var i :| 0 <= i < |g| && Writes(g[i], doc) && forall j | i < j < |g| :: g[j] != Delete(doc);
      assert i < |h| ==> Writes(h[i], doc) && g[|h|] != Delete(doc);
      assert forall j | i < j < |h| :: h[j] == g[j];
    }
  }

  lemma BroughtNext(h: seq<Event>, e: Event, doc: DocId, x: Atom)
    ensures Brought(h + [e], doc, x) <==>
            e != Delete(doc) && (Brought(h, doc, x) || (Writes(e, doc) && x in Written(e)))
  {
    var g := h + [e];
    if Brought(h, doc, x) && e != Delete(doc) {
      var i :| 0 <= i < |h| && Writes(h[i], doc) && x in Written(h[i]) && forall j | i < j < |h| :: h[j] != Delete(doc);
      assert Writes(g[i], doc) && x in Written(g[i]);
    }
    if Writes(e, doc) && x in Written(e) { assert Writes(g[|h|], doc) && x in Written(g[|h|]); }
    if Brought(g, doc, x) {
      var i :| 0 <= i < |g| && Writes(g[i], doc) && x in Written(g[i]) && forall j | i < j < |g| :: g[j] != Delete(doc);
      assert i < |h| ==> Writes(h[i], doc) && x in Written(h[i]) && g[|h|] != Delete(doc);
      assert forall j | i < j < |h| :: h[j] == g[j];
    }
  }

  /** The documents hold what the history brought, and there are no others. */
  ghost predicate Holds(docs: Versions, h: seq<Event>, doc: DocId) {
    && (doc in docs <==> IsLive(h, doc))
    && (forall x :: x in Version(docs, doc) <==> Brought(h, doc, x))
  }

  /** What one event does to a document. */
  lemma EventWrites(n: Publisher, e: Event, doc: DocId)
    requires e != Restore
    ensures var m := Handle(n, e);
            && (doc in m.docs <==> e != Delete(doc) && (doc in n.docs || Writes(e, doc)))
            && (forall x :: x in Version(m.docs, doc) <==>
                  e != Delete(doc) && (x in Version(n.docs, doc) || (Writes(e, doc) && x in Written(e))))
  {
  }

  lemma EventHolds(n: Publisher, e: Event, h: seq<Event>, doc: DocId)
    requires Holds(n.docs, h, doc) && e != Restore
    ensures Holds(Handle(n, e).docs, h + [e], doc)
  {
    EventWrites(n, e, doc);
    LiveNext(h, e, doc);
    forall x
      ensures x in Version(Handle(n, e).docs, doc) <==> Brought(h + [e], doc, x)
    {
      BroughtNext(h, e, doc, x);
    }
  }

  lemma EventKeepsTheSnapshot(n: Publisher, e: Event)
    ensures Handle(n, e).saved.docs == if e == Save then n.docs else n.saved.docs
  {
  }

  lemma {:induction false} RunHolds(ns: Id, es: seq<Event>, doc: DocId)
    ensures var n := HandleAll(Fresh(ns), es);
            Holds(n.docs, InForce(es), doc) && Holds(n.saved.docs, Kept(es), doc)
    decreases |es|
  {
    if es == [] {
    } else {
      var init, last := es[..|es| - 1], es[|es| - 1];
      RunHolds(ns, init, doc);
      var n := HandleAll(Fresh(ns), init);
      EventKeepsTheSnapshot(n, last);
      if last != Restore { EventHolds(n, last, InForce(init), doc); }
    }
  }

  /**
   Over every run, a document holds exactly the operations edited or imported into it by the events
   in force and after its last deletion among them.
   */
  lemma DocumentsHoldWhatWasBrought(ns: Id, es: seq<Event>, doc: DocId, x: Atom)
    ensures var n := HandleAll(Fresh(ns), es);
            && (doc in n.docs <==> IsLive(InForce(es), doc))
            && (x in Version(n.docs, doc) <==> Brought(InForce(es), doc, x))
  {
    RunHolds(ns, es, doc);
  }

  // ---------------------------------------------------------------- what goes out

  /**
   An edit sends one chunk: a delta on the published version when one is recorded and fewer than
   `FULL_PUBLISH_EVERY` deltas went out since the last full chunk or restart, the whole otherwise.
   */
  lemma EditSends(ns: Id, es: seq<Event>, doc: DocId, added: set<Atom>)
    ensures var n := HandleAll(Fresh(ns), es);
            var m := Handle(n, Edit(doc, added));
            var now := Version(n.docs, doc) + added;
            && m.docs == n.docs[doc := now] && m.published == n.published[doc := now]
            && m.log == n.log + [if doc in n.published && Streak(n.log, doc) < FULL_PUBLISH_EVERY
                                 then Sent(n.namespace, doc, Delta, n.published[doc], now - n.published[doc])
                                 else Sent(n.namespace, doc, Full, {}, now)]
  {
    FreshIsExactAndPaced(ns);
    RunsStayExactAndPaced(Fresh(ns), es);
    var n := HandleAll(Fresh(ns), es);
    EditSendsFrom(n, doc, added);
    assert doc in n.published ==> Streak(n.log, doc) == Count(n.deltas, doc);
  }

  lemma EditSendsFrom(n: Publisher, doc: DocId, added: set<Atom>)
    ensures var m := Handle(n, Edit(doc, added));
            var now := Version(n.docs, doc) + added;
            && m.docs == n.docs[doc := now] && m.published == n.published[doc := now]
            && m.log == n.log + [if doc in n.published && Count(n.deltas, doc) < FULL_PUBLISH_EVERY
                                 then Sent(n.namespace, doc, Delta, n.published[doc], now - n.published[doc])
                                 else Sent(n.namespace, doc, Full, {}, now)]
  {
    var now := Version(n.docs, doc) + added;
    assert now - {} == now;
  }

  /** Right after an edit, a reader that is owed nothing holds it and all the document held before. */
  lemma EditReachesReaders(ns: Id, es: seq<Event>, doc: DocId, added: set<Atom>)
    ensures var n := HandleAll(Fresh(ns), es);
            var m := Handle(n, Edit(doc, added));
            (m.namespace, doc) !in m.owed ==> Version(n.docs, doc) + added <= Read(m.log, m.namespace, doc)
  {
    FreshIsExactAndPaced(ns);
    RunsStayExactAndPaced(Fresh(ns), es);
    var n := HandleAll(Fresh(ns), es);
    var m := Handle(n, Edit(doc, added));
    HandleStaysExact(n, Edit(doc, added));
    assert ExactFor(m, m.namespace, doc, m.published[doc]);
  }

  /** An import changes the document and nothing else. */
  lemma ImportSendsNothing(n: Publisher, doc: DocId, atoms: set<Atom>)
    ensures Handle(n, Import(doc, atoms)) == n.(docs := n.docs[doc := Version(n.docs, doc) + atoms])
  {
  }

  /** A resync sends the whole of a known document whose published version is not the current one. */
  lemma ResyncSends(n: Publisher, doc: DocId)
    ensures var m := Handle(n, Resync(doc));
            if doc in n.docs && !(doc in n.published && n.published[doc] == n.docs[doc])
            then && m.log == n.log + [Sent(n.namespace, doc, Full, {}, n.docs[doc])]
                 && m.published == n.published[doc := n.docs[doc]] && m.docs == n.docs
            else m == n
  {
    assert doc in n.docs ==> n.docs[doc := n.docs[doc]] == n.docs && n.docs[doc] - {} == n.docs[doc];
  }

  /** So after a resync a reader that is owed nothing holds the whole document. */
  lemma ResyncReachesReaders(ns: Id, es: seq<Event>, doc: DocId)
    requires doc in HandleAll(Fresh(ns), es).docs
    ensures var m := Handle(HandleAll(Fresh(ns), es), Resync(doc));
            (m.namespace, doc) !in m.owed ==> m.docs[doc] <= Read(m.log, m.namespace, doc)
  {
    FreshIsExactAndPaced(ns);
    RunsStayExactAndPaced(Fresh(ns), es);
    var n := HandleAll(Fresh(ns), es);
    var m := Handle(n, Resync(doc));
    HandleStaysExact(n, Resync(doc));
    ResyncSends(n, doc);
    assert ExactFor(m, m.namespace, doc, m.published[doc]);
  }

  /** A repair sends the whole of a known document, published or not. */
  lemma RepairSends(n: Publisher, doc: DocId)
    ensures var m := Handle(n, Repair(doc));
            if doc in n.docs
            then && m.log == n.log + [Sent(n.namespace, doc, Full, {}, n.docs[doc])]
                 && m.published == n.published[doc := n.docs[doc]] && m.docs == n.docs
            else m == n
  {
    assert doc in n.docs ==> n.docs[doc := n.docs[doc]] == n.docs && n.docs[doc] - {} == n.docs[doc];
  }

  /** A deletion withdraws the entry and forgets the document; a switch forgets what was published. */
  lemma DeletionAndSwitchForget(n: Publisher, doc: DocId, ns: Id)
    ensures var m := Handle(n, Delete(doc));
            && doc !in m.docs && doc !in m.published && doc !in m.deltas
            && m.log == n.log + [Withdrawn(n.namespace, doc)]
            && (forall d | d != doc :: (d in m.docs <==> d in n.docs) && (d in m.published <==> d in n.published))
            && (forall d | d in m.docs :: m.docs[d] == n.docs[d])
            && (forall d | d in m.published :: m.published[d] == n.published[d])
    ensures var m := Handle(n, SwitchNamespace(ns));
            && m.namespace == ns && m.published == map[] && m.deltas == map[]
            && m.docs == n.docs && m.log == n.log && m.saved == n.saved
  {
  }

  /** A restart brings back what the last save recorded, and sends nothing. */
  lemma SaveThenRestore(n: Publisher, es: seq<Event>)
    requires forall e | e in es :: e != Save
    ensures var m := Handle(HandleAll(Handle(n, Save), es), Restore);
            && m.docs == n.docs && m.published == n.published
            && m.namespace == n.namespace && m.deltas == map[]
  {
    SavedStays(Handle(n, Save), es);
  }

  lemma {:induction false} SavedStays(n: Publisher, es: seq<Event>)
    requires forall e | e in es :: e != Save
    ensures HandleAll(n, es).saved == n.saved
    decreases |es|
  {
    if es == [] {
    } else {
      var init, last := es[..|es| - 1], es[|es| - 1];
      assert last in es && forall e | e in init :: e in es;
      SavedStays(n, init);
    }
  }
}
