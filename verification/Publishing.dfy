/**
 Delta and full publishing: `publish`, `publish_keyed`, `on_resync`, `is_published`,
 `forget_published`, `on_delete_file`, snapshot and restore of
 crates/iroh-beekem-core/src/state.rs.

 A document version is the set of operations it contains. A chunk carries `atoms` on top of the
 version `base`; a full chunk stands alone; a deletion withdraws the document's entry. The log is
 everything this node ever did to the index.
 */
module Publishing {
  import opened Ordered

  type Versions = map<DocId, set<Atom>>

  const FULL_PUBLISH_EVERY: nat := 16

  datatype Extent = Delta | Full

  datatype Entry =
    | Sent(namespace: Id, doc: DocId, extent: Extent, base: set<Atom>, atoms: set<Atom>)
    | Withdrawn(namespace: Id, doc: DocId)
    | Restarted

  datatype Snapshot = Snapshot(docs: Versions, published: Versions, namespace: Id)

  /**
   The first four fields are the node's. Then the outside world: the snapshot on disk, and the log.
   The rest is bookkeeping over the events, for the theorems: the documents deleted since the
   snapshot was taken, what was sent of those in the snapshot's namespace since, and the documents
   of which a reader is owed a full chunk.
   */
  datatype Publisher = Publisher(
    docs: Versions,
    published: Versions,
    deltas: map<DocId, nat>,
    namespace: Id,
    saved: Snapshot,
    deleted: set<DocId>,
    resent: Versions,
    owed: set<(Id, DocId)>,
    log: seq<Entry>)

  datatype Event =
    | Edit(doc: DocId, added: set<Atom>)
    | Import(doc: DocId, atoms: set<Atom>)
    | Resync(doc: DocId)
    | Repair(doc: DocId)
    | SwitchNamespace(namespace: Id)
    | Delete(doc: DocId)
    | Save
    | Restore

  function Version(docs: Versions, doc: DocId): set<Atom> {
    if doc in docs then docs[doc] else {}
  }

  function Count(deltas: map<DocId, nat>, doc: DocId): nat {
    if doc in deltas then deltas[doc] else 0
  }

  /** Export from the published version, or the whole history, and record what was handed out. */
  function PublishKeyed(n: Publisher, doc: DocId, extent: Extent): Publisher {
    var now := Version(n.docs, doc);
    var base := if extent == Delta && doc in n.published then n.published[doc] else {};
    n.(docs := n.docs[doc := now],
       published := n.published[doc := now],
       deltas := n.deltas[doc := if extent == Delta then Count(n.deltas, doc) + 1 else 0],
       resent := if n.namespace == n.saved.namespace && doc in n.deleted then n.resent[doc := now] else n.resent,
       owed := if extent == Full then n.owed - {(n.namespace, doc)} else n.owed,
       log := n.log + [Sent(n.namespace, doc, extent, base, now - base)])
  }

  function ExtentOfEdit(n: Publisher, doc: DocId): Extent {
    if doc in n.published && Count(n.deltas, doc) < FULL_PUBLISH_EVERY then Delta else Full
  }

  function Publish(n: Publisher, doc: DocId): Publisher {
    PublishKeyed(n, doc, ExtentOfEdit(n, doc))
  }

  predicate IsPublished(n: Publisher, doc: DocId) {
    doc in n.docs && doc in n.published && n.docs[doc] == n.published[doc]
  }

  function Grow(n: Publisher, doc: DocId, atoms: set<Atom>): Publisher {
    n.(docs := n.docs[doc := Version(n.docs, doc) + atoms])
  }

  /** Forget the document and withdraw its entry from the current index. */
  function DeleteDoc(n: Publisher, doc: DocId): Publisher {
    n.(docs := n.docs - {doc}, published := n.published - {doc}, deltas := n.deltas - {doc},
       deleted := n.deleted + {doc},
       resent := if n.namespace == n.saved.namespace then n.resent[doc := {}] else n.resent,
       owed := n.owed - {(n.namespace, doc)},
       log := n.log + [Withdrawn(n.namespace, doc)])
  }

  /** What the snapshot records as published and was sent anew, after a deletion, with less in it. */
  function Shortened(n: Publisher): set<(Id, DocId)> {
    set doc | doc in n.resent && doc in n.saved.published && !(n.saved.published[doc] <= n.resent[doc]) ::
      (n.saved.namespace, doc)
  }

  function RestoreSaved(n: Publisher): Publisher {
    n.(docs := n.saved.docs, published := n.saved.published, namespace := n.saved.namespace,
       deltas := map[], deleted := {}, resent := map[], owed := n.owed + Shortened(n),
       log := n.log + [Restarted])
  }

  function Handle(n: Publisher, e: Event): Publisher {
    match e
    case Edit(doc, added) => Publish(Grow(n, doc, added), doc)
    case Import(doc, atoms) => Grow(n, doc, atoms)
    case Resync(doc) => if doc !in n.docs || IsPublished(n, doc) then n else PublishKeyed(n, doc, Full)
    case Repair(doc) => if doc in n.docs then PublishKeyed(n, doc, Full) else n
    case SwitchNamespace(ns) => n.(published := map[], deltas := map[], namespace := ns)
    case Delete(doc) => DeleteDoc(n, doc)
    case Save => n.(saved := Snapshot(n.docs, n.published, n.namespace), deleted := {}, resent := map[])
    case Restore => RestoreSaved(n)
  }

  function HandleAll(n: Publisher, es: seq<Event>): Publisher
    decreases |es|
  {
    if es == [] then n else Handle(HandleAll(n, es[..|es| - 1]), es[|es| - 1])
  }

  function Fresh(namespace: Id): Publisher {
    Publisher(map[], map[], map[], namespace, Snapshot(map[], map[], namespace), {}, map[], {}, [])
  }

  // ---------------------------------------------------------------- what a reader can rebuild

  predicate Concerns(e: Entry, ns: Id, doc: DocId) {
    !e.Restarted? && e.namespace == ns && e.doc == doc
  }

  /** What one entry leaves of a reader's copy: a delta whose base it lacks is of no use to it. */
  ghost function Absorb(copy: set<Atom>, e: Entry): set<Atom>
    requires !e.Restarted?
  {
    if e.Withdrawn? then {}
    else if e.extent == Full then e.atoms
    else if e.base <= copy then copy + e.atoms
    else copy
  }

  /** A reader of `doc` in `ns` that starts at a full chunk and imports what follows, in order. */
  ghost function Read(log: seq<Entry>, ns: Id, doc: DocId): set<Atom>
    decreases |log|
  {
    if log == [] then {} else
      var init, e := log[..|log| - 1], log[|log| - 1];
      if Concerns(e, ns, doc) then Absorb(Read(init, ns, doc), e) else Read(init, ns, doc)
  }

  /** The operations carried by the chunks of `doc` in `ns` since its last full one or withdrawal. */
  ghost function Since(log: seq<Entry>, ns: Id, doc: DocId): set<Atom>
    decreases |log|
  {
    if log == [] then {} else
      var init, e := log[..|log| - 1], log[|log| - 1];
      if !Concerns(e, ns, doc) then Since(init, ns, doc)
      else if e.Withdrawn? then {}
      else if e.extent == Full then e.atoms
      else Since(init, ns, doc) + e.atoms
  }

  lemma ReadGrows(log: seq<Entry>, e: Entry, ns: Id, doc: DocId)
    ensures Read(log + [e], ns, doc) ==
            if Concerns(e, ns, doc) then Absorb(Read(log, ns, doc), e) else Read(log, ns, doc)
  {
    assert (log + [e])[..|log|] == log;
  }

  /** A reader holds nothing but what the chunks since the last full one carried. */
  lemma {:induction false} ReadIsWithinSince(log: seq<Entry>, ns: Id, doc: DocId)
    ensures Read(log, ns, doc) <= Since(log, ns, doc)
    decreases |log|
  {
    if log == [] {
    } else {
      ReadIsWithinSince(log[..|log| - 1], ns, doc);
    }
  }

  ghost predicate VersionsBelow(a: Versions, b: Versions) {
    forall doc | doc in a :: doc in b && a[doc] <= b[doc]
  }

  /** Consecutive deltas of `doc` sent since its last full chunk or the last restart. */
  ghost function Streak(log: seq<Entry>, doc: DocId): nat
    decreases |log|
  {
    if log == [] then 0 else
      var init, e := log[..|log| - 1], log[|log| - 1];
      if e.Restarted? then 0
      else if e.doc != doc || e.Withdrawn? then Streak(init, doc)
      else if e.extent == Full then 0
      else Streak(init, doc) + 1
  }

  lemma StreakGrows(log: seq<Entry>, e: Entry, doc: DocId)
    ensures Streak(log + [e], doc) == (if e.Restarted? then 0
                                       else if e.doc != doc || e.Withdrawn? then Streak(log, doc)
                                       else if e.extent == Full then 0
                                       else Streak(log, doc) + 1)
  {
    assert (log + [e])[..|log|] == log;
  }

  ghost predicate StreaksAreBounded(log: seq<Entry>) {
    forall k, doc | 0 <= k <= |log| :: Streak(log[..k], doc) <= FULL_PUBLISH_EVERY
  }

  // ---------------------------------------------------------------- the invariant

  /** A version in `ns` is covered by what a reader holds exactly when the reader is owed nothing. */
  ghost predicate ExactFor(n: Publisher, ns: Id, doc: DocId, version: set<Atom>) {
    version <= Read(n.log, ns, doc) <==> (ns, doc) !in n.owed
  }

  /** Recorded versions are versions of live documents, unless those were deleted. */
  ghost predicate Rooted(n: Publisher) {
    && VersionsBelow(n.published, n.docs)
    && VersionsBelow(n.saved.published, n.saved.docs)
    && VersionsBelow(n.saved.docs - n.deleted, n.docs)
  }

  /** What was sent of a deleted document is what a reader holds of it, and what is published of it. */
  ghost predicate Resent(n: Publisher) {
    && (forall doc | doc in n.resent ::
          && doc in n.deleted && (n.saved.namespace, doc) !in n.owed
          && Read(n.log, n.saved.namespace, doc) == n.resent[doc])
    && (n.namespace == n.saved.namespace ==>
          forall doc | doc in n.published && doc in n.deleted :: doc in n.resent && n.resent[doc] == n.published[doc])
  }

  ghost predicate PublishedExact(n: Publisher) {
    forall doc | doc in n.published :: ExactFor(n, n.namespace, doc, n.published[doc])
  }

  ghost predicate SavedExact(n: Publisher) {
    forall doc | doc in n.saved.published && doc !in n.resent ::
      ExactFor(n, n.saved.namespace, doc, n.saved.published[doc])
  }

  ghost predicate Exact(n: Publisher) {
    Rooted(n) && Resent(n) && PublishedExact(n) && SavedExact(n)
  }

  ghost predicate Paced(n: Publisher) {
    && StreaksAreBounded(n.log)
    && (forall doc | doc in n.published :: Streak(n.log, doc) == Count(n.deltas, doc))
    && (forall doc :: Count(n.deltas, doc) <= FULL_PUBLISH_EVERY)
  }

  // ---------------------------------------------------------------- publishing

  lemma PublishStaysRooted(n: Publisher, doc: DocId, extent: Extent)
    requires Rooted(n)
    ensures Rooted(PublishKeyed(n, doc, extent))
  {
  }

  /** A chunk of another document, or in another namespace, leaves a reader's copy alone. */
  lemma PublishElsewhere(n: Publisher, doc: DocId, extent: Extent, ns: Id, d: DocId)
    requires (ns, d) != (n.namespace, doc)
    ensures var m := PublishKeyed(n, doc, extent);
            Read(m.log, ns, d) == Read(n.log, ns, d) && ((ns, d) in m.owed <==> (ns, d) in n.owed)
  {
    var m := PublishKeyed(n, doc, extent);
    ReadGrows(n.log, m.log[|n.log|], ns, d);
  }

  /** What a reader holds of a document after a chunk of it. */
  lemma PublishHere(n: Publisher, doc: DocId, extent: Extent)
    requires extent == Delta ==> doc in n.published
    ensures var m := PublishKeyed(n, doc, extent);
            var copy, now := Read(n.log, n.namespace, doc), Version(n.docs, doc);
            Read(m.log, n.namespace, doc) ==
            if extent == Full then now
            else if n.published[doc] <= copy then copy + (now - n.published[doc]) else copy
  {
    var m := PublishKeyed(n, doc, extent);
    ReadGrows(n.log, m.log[|n.log|], n.namespace, doc);
  }

  lemma PublishedStaysExact(n: Publisher, doc: DocId, extent: Extent)
    requires Rooted(n) && PublishedExact(n) && (extent == Delta ==> doc in n.published)
    ensures PublishedExact(PublishKeyed(n, doc, extent))
  {
    var m := PublishKeyed(n, doc, extent);
    forall d | d in m.published
      ensures ExactFor(m, m.namespace, d, m.published[d])
    {
      if d == doc {
        PublishHere(n, doc, extent);
        assert extent == Delta ==> ExactFor(n, n.namespace, doc, n.published[doc]);
      } else {
        PublishElsewhere(n, doc, extent, n.namespace, d);
        assert ExactFor(n, n.namespace, d, n.published[d]);
      }
    }
  }

  /** A live document that was not deleted since carries everything the snapshot had of it. */
  lemma SavedStaysExactHere(n: Publisher, doc: DocId, extent: Extent)
    requires Exact(n) && (extent == Delta ==> doc in n.published)
    requires n.namespace == n.saved.namespace && doc !in n.deleted && doc in n.saved.published
    ensures ExactFor(PublishKeyed(n, doc, extent), n.saved.namespace, doc, n.saved.published[doc])
  {
    PublishHere(n, doc, extent);
    assert doc !in n.resent;
    assert doc in n.saved.docs - n.deleted;
    assert ExactFor(n, n.saved.namespace, doc, n.saved.published[doc]);
    assert extent == Delta ==> ExactFor(n, n.namespace, doc, n.published[doc]);
  }

  lemma SavedStaysExact(n: Publisher, doc: DocId, extent: Extent)
    requires Exact(n) && (extent == Delta ==> doc in n.published)
    ensures SavedExact(PublishKeyed(n, doc, extent))
  {
    var m := PublishKeyed(n, doc, extent);
    forall d | d in m.saved.published && d !in m.resent
      ensures ExactFor(m, m.saved.namespace, d, m.saved.published[d])
    {
      assert ExactFor(n, n.saved.namespace, d, n.saved.published[d]);
      if d == doc && n.namespace == n.saved.namespace {
        SavedStaysExactHere(n, doc, extent);
      } else {
        PublishElsewhere(n, doc, extent, n.saved.namespace, d);
      }
    }
  }

  /** A deleted document sent anew in the snapshot's namespace: the reader holds just that. */
  lemma ResentStaysHere(n: Publisher, doc: DocId, extent: Extent)
    requires Exact(n) && (extent == Delta ==> doc in n.published)
    requires n.namespace == n.saved.namespace && doc in n.deleted
    ensures var m := PublishKeyed(n, doc, extent);
            && Read(m.log, m.saved.namespace, doc) == m.resent[doc] == m.published[doc]
            && (m.saved.namespace, doc) !in m.owed
  {
    PublishHere(n, doc, extent);
    if extent == Delta {
      assert doc in n.resent && n.resent[doc] == n.published[doc];
      var base, now := n.published[doc], Version(n.docs, doc);
      assert base + (now - base) == now;
    }
  }

  lemma ResentStays(n: Publisher, doc: DocId, extent: Extent)
    requires Exact(n) && (extent == Delta ==> doc in n.published)
    ensures Resent(PublishKeyed(n, doc, extent))
  {
    var m := PublishKeyed(n, doc, extent);
    if n.namespace == n.saved.namespace && doc in n.deleted { ResentStaysHere(n, doc, extent); }
    forall d | d in m.resent
      ensures d in m.deleted && (m.saved.namespace, d) !in m.owed
      ensures Read(m.log, m.saved.namespace, d) == m.resent[d]
    {
      if d != doc || n.namespace != n.saved.namespace {
        PublishElsewhere(n, doc, extent, n.saved.namespace, d);
      }
    }
  }

  lemma PublishStaysExact(n: Publisher, doc: DocId, extent: Extent)
    requires Exact(n) && (extent == Delta ==> doc in n.published)
    ensures Exact(PublishKeyed(n, doc, extent))
  {
    PublishStaysRooted(n, doc, extent);
    ResentStays(n, doc, extent);
    PublishedStaysExact(n, doc, extent);
    SavedStaysExact(n, doc, extent);
  }

  // ---------------------------------------------------------------- the other events

  lemma GrowStaysExact(n: Publisher, doc: DocId, atoms: set<Atom>)
    requires Exact(n)
    ensures Exact(Grow(n, doc, atoms))
  {
    var m := Grow(n, doc, atoms);
    assert forall ns, d, v :: ExactFor(n, ns, d, v) ==> ExactFor(m, ns, d, v);
  }

  lemma WithdrawalElsewhere(n: Publisher, doc: DocId, ns: Id, d: DocId)
    requires (ns, d) != (n.namespace, doc)
    ensures var m := DeleteDoc(n, doc);
            Read(m.log, ns, d) == Read(n.log, ns, d) && ((ns, d) in m.owed <==> (ns, d) in n.owed)
  {
    ReadGrows(n.log, Withdrawn(n.namespace, doc), ns, d);
  }

  lemma DeleteStaysExact(n: Publisher, doc: DocId)
    requires Exact(n)
    ensures Exact(DeleteDoc(n, doc))
  {
    var m := DeleteDoc(n, doc);
    ReadGrows(n.log, Withdrawn(n.namespace, doc), n.namespace, doc);
    forall d | d in m.published
      ensures ExactFor(m, m.namespace, d, m.published[d])
    {
      WithdrawalElsewhere(n, doc, n.namespace, d);
      assert ExactFor(n, n.namespace, d, n.published[d]);
    }
    forall d | d != doc || n.namespace != n.saved.namespace
      ensures Read(m.log, n.saved.namespace, d) == Read(n.log, n.saved.namespace, d)
      ensures (n.saved.namespace, d) in m.owed <==> (n.saved.namespace, d) in n.owed
    {
      WithdrawalElsewhere(n, doc, n.saved.namespace, d);
    }
    forall d | d in m.saved.published && d !in m.resent
      ensures ExactFor(m, m.saved.namespace, d, m.saved.published[d])
    {
      assert ExactFor(n, n.saved.namespace, d, n.saved.published[d]);
    }
  }

  lemma SaveStaysExact(n: Publisher)
    requires Exact(n)
    ensures Exact(Handle(n, Save))
  {
    var m := Handle(n, Save);
    assert forall ns, d, v :: ExactFor(n, ns, d, v) ==> ExactFor(m, ns, d, v);
  }

  lemma SwitchStaysExact(n: Publisher, ns: Id)
    requires Exact(n)
    ensures Exact(Handle(n, SwitchNamespace(ns)))
  {
    var m := Handle(n, SwitchNamespace(ns));
    assert forall x, d, v :: ExactFor(n, x, d, v) ==> ExactFor(m, x, d, v);
  }

  /** Falling back to the snapshot owes exactly the documents sent anew with less in them. */
  lemma RestoreIsExactFor(n: Publisher, doc: DocId)
    requires Exact(n) && doc in n.saved.published
    ensures ExactFor(RestoreSaved(n), n.saved.namespace, doc, n.saved.published[doc])
  {
    ReadGrows(n.log, Restarted, n.saved.namespace, doc);
    if doc in n.resent {
      assert (n.saved.namespace, doc) in Shortened(n) <==> !(n.saved.published[doc] <= n.resent[doc]);
    } else {
      assert ExactFor(n, n.saved.namespace, doc, n.saved.published[doc]);
    }
  }

  lemma RestoreStaysExact(n: Publisher)
    requires Exact(n)
    ensures Exact(RestoreSaved(n))
  {
    forall doc | doc in n.saved.published
      ensures ExactFor(RestoreSaved(n), n.saved.namespace, doc, n.saved.published[doc])
    {
      RestoreIsExactFor(n, doc);
    }
  }

  lemma HandleStaysExact(n: Publisher, e: Event)
    requires Exact(n)
    ensures Exact(Handle(n, e))
  {
    match e
    case Edit(doc, added) =>
      GrowStaysExact(n, doc, added);
      PublishStaysExact(Grow(n, doc, added), doc, ExtentOfEdit(Grow(n, doc, added), doc));
    case Import(doc, atoms) => GrowStaysExact(n, doc, atoms);
    case Resync(doc) => PublishStaysExact(n, doc, Full);
    case Repair(doc) => PublishStaysExact(n, doc, Full);
    case SwitchNamespace(ns) => SwitchStaysExact(n, ns);
    case Delete(doc) => DeleteStaysExact(n, doc);
    case Save => SaveStaysExact(n);
    case Restore => RestoreStaysExact(n);
  }

  lemma StreaksGrow(log: seq<Entry>, e: Entry)
    requires StreaksAreBounded(log) && forall doc :: Streak(log + [e], doc) <= FULL_PUBLISH_EVERY
    ensures StreaksAreBounded(log + [e])
  {
    var l := log + [e];
    forall k, doc | 0 <= k <= |l|
      ensures Streak(l[..k], doc) <= FULL_PUBLISH_EVERY
    {
      if k <= |log| {
        assert l[..k] == log[..k];
      } else {
        assert l[..k] == l;
      }
    }
  }

  lemma CurrentStreak(n: Publisher, doc: DocId)
    requires StreaksAreBounded(n.log)
    ensures Streak(n.log, doc) <= FULL_PUBLISH_EVERY
  {
    assert n.log[..|n.log|] == n.log;
  }

  lemma PublishStaysPaced(n: Publisher, doc: DocId, extent: Extent)
    requires Paced(n) && (extent == Delta ==> doc in n.published && Count(n.deltas, doc) < FULL_PUBLISH_EVERY)
    ensures Paced(PublishKeyed(n, doc, extent))
  {
    var m := PublishKeyed(n, doc, extent);
    var e := m.log[|n.log|];
    assert m.log == n.log + [e];
    forall d
      ensures Streak(m.log, d) <= FULL_PUBLISH_EVERY
      ensures d in m.published ==> Streak(m.log, d) == Count(m.deltas, d)
      ensures Count(m.deltas, d) <= FULL_PUBLISH_EVERY
    {
      assert Count(n.deltas, d) <= FULL_PUBLISH_EVERY;
      StreakGrows(n.log, e, d);
      CurrentStreak(n, d);
    }
    StreaksGrow(n.log, e);
  }

  lemma DeleteStaysPaced(n: Publisher, doc: DocId)
    requires Paced(n)
    ensures Paced(DeleteDoc(n, doc))
  {
    var m, e := DeleteDoc(n, doc), Withdrawn(n.namespace, doc);
    forall d
      ensures Streak(m.log, d) == Streak(n.log, d) <= FULL_PUBLISH_EVERY
      ensures d in m.published ==> d in n.published && Count(m.deltas, d) == Count(n.deltas, d)
      ensures Count(m.deltas, d) <= Count(n.deltas, d) <= FULL_PUBLISH_EVERY
    {
      StreakGrows(n.log, e, d);
      CurrentStreak(n, d);
    }
    StreaksGrow(n.log, e);
  }

  lemma HandleStaysPaced(n: Publisher, e: Event)
    requires Paced(n)
    ensures Paced(Handle(n, e))
  {
    match e
    case Edit(doc, added) =>
      var g := Grow(n, doc, added);
      PublishStaysPaced(g, doc, ExtentOfEdit(g, doc));
    case Import(_, _) =>
    case Resync(doc) => PublishStaysPaced(n, doc, Full);
    case Repair(doc) => PublishStaysPaced(n, doc, Full);
    case SwitchNamespace(_) =>
    case Delete(doc) => DeleteStaysPaced(n, doc);
    case Save =>
    case Restore =>
      forall d
        ensures Streak(n.log + [Restarted], d) == 0
      {
        StreakGrows(n.log, Restarted, d);
      }
      StreaksGrow(n.log, Restarted);
  }

  lemma {:induction false} RunsStayExactAndPaced(n: Publisher, es: seq<Event>)
    requires Exact(n) && Paced(n)
    ensures Exact(HandleAll(n, es)) && Paced(HandleAll(n, es))
    decreases |es|
  {
    if es == [] {
    } else {
      RunsStayExactAndPaced(n, es[..|es| - 1]);
      HandleStaysExact(HandleAll(n, es[..|es| - 1]), es[|es| - 1]);
      HandleStaysPaced(HandleAll(n, es[..|es| - 1]), es[|es| - 1]);
    }
  }

  lemma FreshIsExactAndPaced(ns: Id)
    ensures Exact(Fresh(ns)) && Paced(Fresh(ns))
  {
  }

  // ---------------------------------------------------------------- what a reader sees

  /**
   Over every run of edits, imports, resyncs, repairs, namespace switches, deletions, saves and
   restores: a reader that starts from a document's last full chunk ends up holding everything
   recorded as published, as if every publish had been full, if and only if it is not owed a full
   chunk of that document; and between restarts no more than `FULL_PUBLISH_EVERY` consecutive
   publishes are deltas.
   */
  lemma DeltasRefineFullPublishing(ns: Id, es: seq<Event>, doc: DocId)
    ensures var n := HandleAll(Fresh(ns), es);
            && (doc in n.published ==>
                  (n.published[doc] <= Read(n.log, n.namespace, doc) <==> (n.namespace, doc) !in n.owed))
            && StreaksAreBounded(n.log)
  {
    FreshIsExactAndPaced(ns);
    RunsStayExactAndPaced(Fresh(ns), es);
    var n := HandleAll(Fresh(ns), es);
    assert doc in n.published ==> ExactFor(n, n.namespace, doc, n.published[doc]);
  }

  /** Then the chunks since the last full one carry it too, and a reader can use the next delta. */
  lemma NextDeltaIsReadableExactlyWhen(ns: Id, es: seq<Event>, doc: DocId)
    requires doc in HandleAll(Fresh(ns), es).published
    ensures var n := HandleAll(Fresh(ns), es);
            var chunk := PublishKeyed(n, doc, Delta).log[|n.log|];
            && (chunk.base <= Read(n.log, n.namespace, doc) <==> (n.namespace, doc) !in n.owed)
            && ((n.namespace, doc) !in n.owed ==> n.published[doc] <= Since(n.log, n.namespace, doc))
  {
    var n := HandleAll(Fresh(ns), es);
    DeltasRefineFullPublishing(ns, es, doc);
    ReadIsWithinSince(n.log, n.namespace, doc);
  }

  ghost predicate NothingDeleted(n: Publisher) {
    n.owed == {} && n.deleted == {} && n.resent == map[]
  }

  lemma EventWithoutDeletion(n: Publisher, e: Event)
    requires NothingDeleted(n) && !e.Delete?
    ensures NothingDeleted(Handle(n, e))
  {
    assert Shortened(n) == {};
  }

  lemma EventWithoutRestore(n: Publisher, e: Event)
    requires n.owed == {} && e != Restore
    ensures Handle(n, e).owed == {}
  {
  }

  /** Without deletions nothing is ever owed. */
  lemma {:induction false} NothingOwedWithoutDeletions(ns: Id, es: seq<Event>)
    requires forall e | e in es :: !e.Delete?
    ensures NothingDeleted(HandleAll(Fresh(ns), es))
    decreases |es|
  {
    if es == [] {
    } else {
      var init, last := es[..|es| - 1], es[|es| - 1];
      assert last in es && forall e | e in init :: e in es;
      NothingOwedWithoutDeletions(ns, init);
      EventWithoutDeletion(HandleAll(Fresh(ns), init), last);
    }
  }

  /** Nor without restores: a debt arises only where a restore undoes a deletion. */
  lemma {:induction false} NothingOwedWithoutRestores(ns: Id, es: seq<Event>)
    requires Restore !in es
    ensures HandleAll(Fresh(ns), es).owed == {}
    decreases |es|
  {
    if es == [] {
    } else {
      var init, last := es[..|es| - 1], es[|es| - 1];
      assert last in es && forall e | e in init :: e in es;
      NothingOwedWithoutRestores(ns, init);
      EventWithoutRestore(HandleAll(Fresh(ns), init), last);
    }
  }

  // ---------------------------------------------------------------- a deletion undone

  lemma FirstEditIsFull(n: Publisher, doc: DocId, atoms: set<Atom>)
    requires doc !in n.docs && doc !in n.published
    ensures var m := Handle(n, Edit(doc, atoms));
            && m.docs[doc] == atoms && m.published[doc] == atoms && m.namespace == n.namespace && m.saved == n.saved
            && m.log == n.log + [Sent(n.namespace, doc, Full, {}, atoms)]
  {
  }

  lemma ReadsTheLastFull(log: seq<Entry>, ns: Id, doc: DocId, atoms: set<Atom>)
    ensures Read(log + [Sent(ns, doc, Full, {}, atoms)] + [Restarted], ns, doc) == atoms
  {
    ReadGrows(log, Sent(ns, doc, Full, {}, atoms), ns, doc);
    ReadGrows(log + [Sent(ns, doc, Full, {}, atoms)], Restarted, ns, doc);
  }

  /**
   Publish a document, save, delete it, publish it anew and fall back to the snapshot: what is
   recorded as published is covered if and only if the new document contains the old one.
   */
  lemma UndoneDeletion(ns: Id, doc: DocId, before: set<Atom>, after: set<Atom>)
    ensures var n1 := Handle(Handle(Fresh(ns), Edit(doc, before)), Save);
            var n2 := Handle(Handle(Handle(n1, Delete(doc)), Edit(doc, after)), Restore);
            && doc in n2.published
            && (n2.published[doc] <= Read(n2.log, n2.namespace, doc) <==> before <= after)
  {
    FirstEditIsFull(Fresh(ns), doc, before);
    var n1 := Handle(Handle(Fresh(ns), Edit(doc, before)), Save);
    var gone := Handle(n1, Delete(doc));
    FirstEditIsFull(gone, doc, after);
    ReadsTheLastFull(gone.log, ns, doc, after);
  }

  /** A repair pays the debt: whatever happened before, its full chunk carries the whole document. */
  lemma RepairPaysTheDebt(n: Publisher, doc: DocId)
    requires doc in n.docs
    ensures var m := Handle(n, Repair(doc));
            && (m.namespace, doc) !in m.owed
            && Read(m.log, m.namespace, doc) == m.published[doc] == n.docs[doc]
  {
    PublishHere(n, doc, Full);
  }

  // ---------------------------------------------------------------- what a restart does

  /** The first edit after a restart ships a full export iff the snapshot had nothing published. */
  lemma FirstEditAfterRestart(n: Publisher, doc: DocId, added: set<Atom>)
    ensures var m := Handle(Handle(n, Restore), Edit(doc, added));
            && |m.log| == |n.log| + 2
            && m.log[|n.log| + 1].Sent?
            && (m.log[|n.log| + 1].extent == Full <==> doc !in n.saved.published)
  {
  }

  /** Deltas of `doc` sent since its last full chunk, restarts notwithstanding. */
  ghost function UnbrokenDeltas(log: seq<Entry>, doc: DocId): nat
    decreases |log|
  {
    if log == [] then 0 else
      var init, e := log[..|log| - 1], log[|log| - 1];
      if e.Restarted? || e.doc != doc || e.Withdrawn? then UnbrokenDeltas(init, doc)
      else if e.extent == Full then 0
      else UnbrokenDeltas(init, doc) + 1
  }

  lemma UnbrokenGrows(log: seq<Entry>, e: Entry, doc: DocId)
    ensures UnbrokenDeltas(log + [e], doc) ==
            if e.Restarted? || e.doc != doc || e.Withdrawn? then UnbrokenDeltas(log, doc)
            else if e.extent == Full then 0
            else UnbrokenDeltas(log, doc) + 1
  {
    var l := log + [e];
    assert l[..|l| - 1] == log && l[|l| - 1] == e;
  }

  lemma RestartThenDelta(p: Publisher, doc: DocId)
    requires doc in p.saved.published
    ensures var m := Handle(Handle(p, Restore), Edit(doc, {}));
            m.saved == p.saved && UnbrokenDeltas(m.log, doc) == UnbrokenDeltas(p.log, doc) + 1
  {
    var r := Handle(p, Restore);
    var m := Handle(r, Edit(doc, {}));
    UnbrokenGrows(p.log, Restarted, doc);
    assert m.log == r.log + [m.log[|r.log|]];
    UnbrokenGrows(r.log, m.log[|r.log|], doc);
  }

  ghost function RestartsAndEdits(doc: DocId, k: nat): seq<Event> {
    if k == 0 then [] else RestartsAndEdits(doc, k - 1) + [Restore] + [Edit(doc, {})]
  }

  lemma HandleAllLast(n: Publisher, es: seq<Event>, e: Event)
    ensures HandleAll(n, es + [e]) == Handle(HandleAll(n, es), e)
  {
    assert (es + [e])[..|es|] == es;
  }

  lemma RestartAndEdit(n: Publisher, es: seq<Event>, doc: DocId)
    ensures HandleAll(n, es + [Restore] + [Edit(doc, {})])
            == Handle(Handle(HandleAll(n, es), Restore), Edit(doc, {}))
  {
    HandleAllLast(n, es, Restore);
    HandleAllLast(n, es + [Restore], Edit(doc, {}));
  }

  lemma OneMoreRestart(n: Publisher, es: seq<Event>, doc: DocId)
    requires doc in HandleAll(n, es).saved.published
    ensures var m := HandleAll(n, es + [Restore] + [Edit(doc, {})]);
            && m.saved == HandleAll(n, es).saved
            && UnbrokenDeltas(m.log, doc) == UnbrokenDeltas(HandleAll(n, es).log, doc) + 1
  {
    RestartAndEdit(n, es, doc);
    RestartThenDelta(HandleAll(n, es), doc);
  }

  ghost predicate StretchedBy(n: Publisher, m: Publisher, doc: DocId, k: nat) {
    m.saved == n.saved && UnbrokenDeltas(m.log, doc) == UnbrokenDeltas(n.log, doc) + k
  }

  /** So restarts can stretch a run of deltas without limit: the bound is per process lifetime. */
  lemma {:induction false} RestartsExtendDeltaRuns(n: Publisher, doc: DocId, k: nat)
    requires doc in n.saved.published
    ensures StretchedBy(n, HandleAll(n, RestartsAndEdits(doc, k)), doc, k)
  {
    if k == 0 {
    } else {
      RestartsExtendDeltaRuns(n, doc, k - 1);
      OneMoreRestart(n, RestartsAndEdits(doc, k - 1), doc);
    }
  }

  /** Restarts since the last full chunk of `doc`. */
  ghost function RestartsSinceFull(log: seq<Entry>, doc: DocId): nat
    decreases |log|
  {
    if log == [] then 0 else
      var init, e := log[..|log| - 1], log[|log| - 1];
      if e.Restarted? then RestartsSinceFull(init, doc) + 1
      else if e.Sent? && e.doc == doc && e.extent == Full then 0
      else RestartsSinceFull(init, doc)
  }

  lemma {:induction false} EachLifetimeAddsAStreak(log: seq<Entry>, doc: DocId)
    requires StreaksAreBounded(log)
    ensures UnbrokenDeltas(log, doc) <= FULL_PUBLISH_EVERY * RestartsSinceFull(log, doc) + Streak(log, doc)
    decreases |log|
  {
    if log == [] {
    } else {
      var n := |log| - 1;
      assert forall k | 0 <= k <= n :: log[..n][..k] == log[..k];
      EachLifetimeAddsAStreak(log[..n], doc);
      assert Streak(log[..n], doc) <= FULL_PUBLISH_EVERY;
    }
  }

  /** Over every run, each restart since the last full chunk allows one more run of deltas, no more. */
  lemma DeltaRunsAreBoundedByRestarts(ns: Id, es: seq<Event>, doc: DocId)
    ensures var log := HandleAll(Fresh(ns), es).log;
            UnbrokenDeltas(log, doc) <= FULL_PUBLISH_EVERY * (1 + RestartsSinceFull(log, doc))
  {
    var log := HandleAll(Fresh(ns), es).log;
    DeltasRefineFullPublishing(ns, es, doc);
    EachLifetimeAddsAStreak(log, doc);
    assert log[..|log|] == log;
  }
}
