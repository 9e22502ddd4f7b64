/**
 The publishing half of `WorkspaceState` (crates/iroh-beekem-core/src/state.rs): the live documents,
 what was published of them and the delta counters, updated in place. The ghost `spec` follows
 `Publishing` event by event, outside world included, and `Valid` ties the fields to it.
 */
module WorkspacePublisher {
  import opened Ordered
  import opened Publishing

  /** What a request comes back with: the entries put on the wire, or why there are none. */
  datatype Reply = NotAWriter | Unauthorized | Answered(entries: seq<Entry>)

  class WorkspacePublisher {
    var docs: Versions
    var publishedUpTo: Versions
    var deltasSinceFull: map<DocId, nat>
    var namespace: Id
    ghost var spec: Publisher

    ghost predicate Tied()
      reads this
    {
      && spec.docs == docs && spec.published == publishedUpTo
      && spec.deltas == deltasSinceFull && spec.namespace == namespace
    }

    ghost predicate Valid()
      reads this
    {
      Tied() && Exact(spec) && Paced(spec)
    }

    constructor (namespace: Id)
      ensures Valid() && spec == Fresh(namespace)
    {
      docs, publishedUpTo, deltasSinceFull, this.namespace := map[], map[], map[], namespace;
      spec := Fresh(namespace);
      new;
      FreshIsExactAndPaced(namespace);
    }

    /** Export, record and emit one chunk of a document. */
    method PublishDoc(doc: DocId, extent: Extent) returns (chunk: Entry)
      requires Tied()
      modifies this
      ensures Tied() && spec == PublishKeyed(old(spec), doc, extent) && spec.log == old(spec).log + [chunk]
    {
      if doc !in docs { docs := docs[doc := {}]; }
      var base := {};
      if extent == Delta && doc in publishedUpTo { base := publishedUpTo[doc]; }
      var now := docs[doc];
      chunk := Sent(namespace, doc, extent, base, now - base);
      publishedUpTo := publishedUpTo[doc := now];
      match extent {
        case Delta =>
          deltasSinceFull := deltasSinceFull[doc := if doc in deltasSinceFull then deltasSinceFull[doc] + 1 else 1];
        case Full =>
          deltasSinceFull := deltasSinceFull[doc := 0];
      }
      spec := PublishKeyed(spec, doc, extent);
    }

    lemma HandlingIsSafe(e: Event)
      requires Valid()
      ensures Exact(Handle(spec, e)) && Paced(Handle(spec, e))
    {
      HandleStaysExact(spec, e);
      HandleStaysPaced(spec, e);
    }

    method OnEdit(mayWrite: bool, doc: DocId, added: set<Atom>) returns (reply: Reply)
      requires Valid()
      modifies this
      ensures Valid() && (reply.NotAWriter? <==> !mayWrite) && (mayWrite ==> reply.Answered?)
      ensures spec == if mayWrite then Handle(old(spec), Edit(doc, added)) else old(spec)
      ensures reply.Answered? ==> spec.log == old(spec).log + reply.entries
    {
      if !mayWrite { return NotAWriter; }
      HandlingIsSafe(Edit(doc, added));
      docs := docs[doc := (if doc in docs then docs[doc] else {}) + added];
      spec := Grow(spec, doc, added);
      var count := if doc in deltasSinceFull then deltasSinceFull[doc] else 0;
      var extent := if doc in publishedUpTo && count < FULL_PUBLISH_EVERY then Delta else Full;
      var chunk := PublishDoc(doc, extent);
      reply := Answered([chunk]);
    }

    method OnImport(doc: DocId, atoms: set<Atom>)
      requires Valid()
      modifies this`docs, this`spec
      ensures Valid() && spec == Handle(old(spec), Import(doc, atoms))
    {
      HandlingIsSafe(Import(doc, atoms));
      docs := docs[doc := (if doc in docs then docs[doc] else {}) + atoms];
      spec := Grow(spec, doc, atoms);
    }

    method OnResync(mayWrite: bool, doc: DocId) returns (reply: Reply)
      requires Valid()
      modifies this
      ensures Valid() && (reply.NotAWriter? <==> !mayWrite) && (mayWrite ==> reply.Answered?)
      ensures spec == if mayWrite then Handle(old(spec), Resync(doc)) else old(spec)
      ensures reply.Answered? ==> spec.log == old(spec).log + reply.entries
    {
      if !mayWrite { return NotAWriter; }
      HandlingIsSafe(Resync(doc));
      if doc !in docs { return Answered([]); }
      if doc in publishedUpTo && docs[doc] == publishedUpTo[doc] { return Answered([]); }
      var chunk := PublishDoc(doc, Full);
      reply := Answered([chunk]);
    }

    /**
     A repair request for a document: refused to a stranger, empty from a node that may not write or
     does not hold the document, and answered in full otherwise.
     */
    method OnRepair(isMember: bool, mayWrite: bool, doc: DocId) returns (reply: Reply)
      requires Valid()
      modifies this
      ensures Valid() && (reply.Unauthorized? <==> !isMember) && (isMember ==> reply.Answered?)
      ensures spec == if isMember && mayWrite then Handle(old(spec), Repair(doc)) else old(spec)
      ensures reply.Answered? ==> spec.log == old(spec).log + reply.entries
    {
      if !isMember { return Unauthorized; }
      if doc !in docs || !mayWrite { return Answered([]); }
      HandlingIsSafe(Repair(doc));
      var chunk := PublishDoc(doc, Full);
      reply := Answered([chunk]);
    }

    method Forget(doc: DocId) returns (entry: Entry)
      requires Valid()
      modifies this
      ensures Valid() && spec == Handle(old(spec), Delete(doc)) && spec.log == old(spec).log + [entry]
    {
      HandlingIsSafe(Delete(doc));
      docs, publishedUpTo, deltasSinceFull := docs - {doc}, publishedUpTo - {doc}, deltasSinceFull - {doc};
      spec := Handle(spec, Delete(doc));
      entry := Withdrawn(namespace, doc);
    }

    /** The publisher's share of `on_delete_file`: the document goes, and so does its index entry. */
    method OnDelete(mayWrite: bool, doc: DocId) returns (reply: Reply)
      requires Valid()
      modifies this
      ensures Valid() && (reply.NotAWriter? <==> !mayWrite) && (mayWrite ==> reply.Answered?)
      ensures spec == if mayWrite then Handle(old(spec), Delete(doc)) else old(spec)
      ensures reply.Answered? ==> spec.log == old(spec).log + reply.entries
    {
      if !mayWrite { return NotAWriter; }
      var entry := Forget(doc);
      reply := Answered([entry]);
    }

    /** A rotation abandons the index, and with it every claim about what is published. */
    method OnSwitch(namespace: Id)
      requires Valid()
      modifies this
      ensures Valid() && spec == Handle(old(spec), SwitchNamespace(namespace))
    {
      HandlingIsSafe(SwitchNamespace(namespace));
      this.namespace := namespace;
      publishedUpTo, deltasSinceFull := map[], map[];
      spec := Handle(spec, SwitchNamespace(namespace));
    }

    method TakeSnapshot() returns (s: Snapshot)
      requires Valid()
      modifies this`spec
      ensures Valid() && spec == Handle(old(spec), Save) && s == spec.saved
    {
      HandlingIsSafe(Save);
      s := Snapshot(docs, publishedUpTo, namespace);
      spec := Handle(spec, Save);
    }

    /** Resume from the last snapshot: the counters restart at zero, the published versions do not. */
    method ResumeFrom(s: Snapshot)
      requires Valid() && s == spec.saved
      modifies this
      ensures Valid() && spec == Handle(old(spec), Restore)
    {
      HandlingIsSafe(Restore);
      docs, publishedUpTo, namespace := s.docs, s.published, s.namespace;
      deltasSinceFull := map[];
      spec := Handle(spec, Restore);
    }
  }
}
