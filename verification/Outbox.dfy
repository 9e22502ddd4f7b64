/**
 Key material before content: the order in which a node puts operations and chunks on the wire
 (`encrypt_keyed`, `publish_keyed`, `publish_manifest`, `admit`, `perform_removal`, `on_leave`,
 `on_namespace_minted`, `republish_namespace` of crates/iroh-beekem-core/src/state.rs and `rotate`,
 `encrypt`, `encrypt_fresh` of crates/iroh-beekem-core/src/keys.rs).

 A minted operation names the current heads of the graph. Encrypting needs a root key: when the
 tree has none, an update is minted first and must be broadcast. Which operations leave the tree
 without a root key is the tree library's business, so every operation comes with its answer.
 */
module Outbox {
  import opened Ordered
  import opened MergeMachine
  import opened MergeConfluence
  import opened IngestMachine

  datatype Root = Blank | Established(epochOp: Op)

  /** What happened, in order: operations merged from peers, and everything put on the wire. */
  datatype Item = Got(op: Op) | SentOp(op: Op) | SentChunk(establishedBy: Op)

  datatype Sender = Sender(me: Id, applied: set<Op>, known: set<Id>, root: Root, timeline: seq<Item>)

  function Heads(s: set<Op>): set<Op> {
    set o | o in s && (forall p | p in s :: o !in p.preds)
  }

  /** What an operation does to the root key: the tree library decides. */
  datatype RootChange = Blanks | Keeps | Sets

  function NextRoot(root: Root, op: Op, change: RootChange): Root {
    match change
    case Blanks => Blank
    case Keeps => root
    case Sets => Established(op)
  }

  /** Mint an operation on top of everything applied. */
  function Mint(s: Sender, change: Change, nonce: nat, root: RootChange): (Sender, Op) {
    var op := Op(Heads(s.applied), s.me, change, nonce);
    (s.(applied := s.applied + {op},
        known := s.known + (if change.Add? then {change.member} else {}),
        root := NextRoot(s.root, op, root)),
     op)
  }

  /** The tree mints nothing for a member already added, or already gone. */
  function MintIf(s: Sender, needed: bool, change: Change, nonce: nat, root: RootChange): (Sender, seq<Op>) {
    if !needed then (s, []) else
      var (t, op) := Mint(s, change, nonce, root);
      (t, [op])
  }

  /** Nonces for the operations a call may mint, and what its rotation does to the root key. */
  datatype Choice = Choice(rotation: nat, implicit: nat, root: RootChange)

  datatype Keying = Current | Fresh

  /** The chunk's epoch and the operations that must go out before it, in order. */
  function EncryptCurrent(s: Sender, c: Choice): (Sender, seq<Op>, Op) {
    match s.root
    case Established(epochOp) => (s, [], epochOp)
    case Blank =>
      var (t, op) := Mint(s, Update, c.implicit, Sets);
      (t, [op], op)
  }

  function EncryptKeyed(s: Sender, keying: Keying, c: Choice): (Sender, seq<Op>, Op) {
    match keying
    case Current => EncryptCurrent(s, c)
    case Fresh =>
      var (t, rotation) := Mint(s, Update, c.rotation, c.root);
      var (u, ops, epochOp) := EncryptCurrent(t, c);
      (u, [rotation] + ops, epochOp)
  }

  function Broadcasts(ops: seq<Op>): (r: seq<Item>)
    ensures |r| == |ops| && forall i | 0 <= i < |ops| :: r[i] == SentOp(ops[i])
  {
    seq(|ops|, i requires 0 <= i < |ops| => SentOp(ops[i]))
  }

  function Emit(s: Sender, effects: seq<Item>): Sender {
    s.(timeline := s.timeline + effects)
  }

  /** Documents, manifest, asset keys and namespace announcements all leave this way. */
  function PublishUnder(s: Sender, keying: Keying, c: Choice): (Sender, seq<Item>) {
    var (t, ops, epochOp) := EncryptKeyed(s, keying, c);
    (t, Broadcasts(ops) + [SentChunk(epochOp)])
  }

  datatype Event =
    | Merge(op: Op, root: RootChange)
    | Publish(keying: Keying, choice: Choice)
    | Admit(member: Id, isNew: bool, nonce: nat, root: RootChange, choice: Choice)
    | RemoveMember(member: Id, isPresent: bool, nonce: nat, root: RootChange)
    | Leave(devices: seq<(Id, nat, RootChange)>)
    | RotateKey(nonce: nat)

  function RemoveAll(s: Sender, devices: seq<(Id, nat, RootChange)>): (Sender, seq<Op>)
    decreases |devices|
  {
    if devices == [] then (s, []) else
      var (t, ops) := RemoveAll(s, devices[..|devices| - 1]);
      var d := devices[|devices| - 1];
      var (u, op) := Mint(t, Remove(d.0), d.1, d.2);
      (u, ops + [op])
  }

  function Handle(s: Sender, e: Event): Sender {
    match e
    case Merge(op, root) =>
      if !(op.preds <= s.applied) || op.issuer !in s.known then s else
        s.(applied := s.applied + {op},
           known := s.known + (if op.change.Add? then {op.change.member} else {}),
           root := NextRoot(s.root, op, root),
           timeline := s.timeline + [Got(op)])
    case Publish(keying, choice) =>
      var (t, effects) := PublishUnder(s, keying, choice);
      Emit(t, effects)
    case Admit(member, isNew, nonce, root, choice) =>
      var (t, ops) := MintIf(s, isNew, Add(member), nonce, root);
      var (u, effects) := PublishUnder(t, Current, choice);
      Emit(u, Broadcasts(ops) + effects)
    case RemoveMember(member, isPresent, nonce, root) =>
      var (t, ops) := MintIf(s, isPresent, Remove(member), nonce, root);
      Emit(t, Broadcasts(ops))
    case Leave(devices) =>
      var (t, ops) := RemoveAll(s, devices);
      Emit(t, Broadcasts(ops))
    case RotateKey(nonce) =>
      var (t, op) := Mint(s, Update, nonce, Sets);
      Emit(t, [SentOp(op)])
  }

  function HandleAll(s: Sender, es: seq<Event>): Sender
    decreases |es|
  {
    if es == [] then s else Handle(HandleAll(s, es[..|es| - 1]), es[|es| - 1])
  }

  // ---------------------------------------------------------------- causal closure

  /** The operations an observer of the timeline holds. */
  function OpsIn(items: seq<Item>): set<Op> {
    set x | x in items && !x.SentChunk? :: x.op
  }

  /** Every operation follows its predecessors and every chunk the operation that keyed it. */
  ghost predicate Closed(base: set<Op>, items: seq<Item>)
    decreases |items|
  {
    items == [] ||
    var init, x := items[..|items| - 1], items[|items| - 1];
    && Closed(base, init)
    && match x
       case Got(op) => op.preds <= base + OpsIn(init)
       case SentOp(op) => op.preds <= base + OpsIn(init)
       case SentChunk(epochOp) => epochOp in base + OpsIn(init)
  }

  /** Every operation comes from somebody known by then. */
  ghost predicate Vouched(known: set<Id>, base: set<Op>, items: seq<Item>)
    decreases |items|
  {
    items == [] ||
    var init, x := items[..|items| - 1], items[|items| - 1];
    && Vouched(known, base, init)
    && (!x.SentChunk? ==> x.op.issuer in known + Adds(base + OpsIn(init)))
  }

  lemma OpsInAppends(a: seq<Item>, x: Item)
    ensures OpsIn(a + [x]) == OpsIn(a) + if x.SentChunk? then {} else {x.op}
  {
  }

  lemma ClosedAppends(base: set<Op>, items: seq<Item>, x: Item)
    ensures Closed(base, items + [x]) <==>
            Closed(base, items) && match x
                                   case Got(op) => op.preds <= base + OpsIn(items)
                                   case SentOp(op) => op.preds <= base + OpsIn(items)
                                   case SentChunk(epochOp) => epochOp in base + OpsIn(items)
  {
    var l := items + [x];
    assert l[..|l| - 1] == items && l[|l| - 1] == x;
  }

  lemma VouchedAppends(known: set<Id>, base: set<Op>, items: seq<Item>, x: Item)
    ensures Vouched(known, base, items + [x]) <==>
            Vouched(known, base, items) && (!x.SentChunk? ==> x.op.issuer in known + Adds(base + OpsIn(items)))
  {
    var l := items + [x];
    assert l[..|l| - 1] == items && l[|l| - 1] == x;
  }

  /**
   The state a handler is in after building `effects` and before emitting them: the wire plus
   the effects is closed and accounts for exactly what is applied.
   */
  ghost predicate Orderly(base: set<Op>, known: set<Id>, s: Sender, effects: seq<Item>) {
    && Closed(base, s.timeline + effects)
    && Vouched(known, base, s.timeline + effects)
    && s.applied == base + OpsIn(s.timeline + effects)
    && s.known == known + Adds(s.applied)
    && s.me in known
    && (s.root.Established? ==> s.root.epochOp in s.applied)
  }

  lemma MintIsOrderly(base: set<Op>, known: set<Id>, s: Sender, effects: seq<Item>, change: Change,
                      nonce: nat, root: RootChange)
    requires Orderly(base, known, s, effects)
    ensures var (t, op) := Mint(s, change, nonce, root); Orderly(base, known, t, effects + [SentOp(op)])
  {
    var (t, op) := Mint(s, change, nonce, root);
    var all := s.timeline + effects;
    assert s.timeline + (effects + [SentOp(op)]) == all + [SentOp(op)];
    OpsInAppends(all, SentOp(op));
    ClosedAppends(base, all, SentOp(op));
    VouchedAppends(known, base, all, SentOp(op));
    assert Adds(t.applied) == Adds(s.applied) + if change.Add? then {change.member} else {};
  }

  lemma MintingIfNeededIsOrderly(base: set<Op>, known: set<Id>, s: Sender, needed: bool,
                                 change: Change, nonce: nat, root: RootChange)
    requires Orderly(base, known, s, [])
    ensures var (t, ops) := MintIf(s, needed, change, nonce, root); Orderly(base, known, t, Broadcasts(ops))
  {
    if needed {
      MintIsOrderly(base, known, s, [], change, nonce, root);
      var (t, op) := Mint(s, change, nonce, root);
      assert [] + [SentOp(op)] == Broadcasts([op]);
    } else {
      assert Broadcasts([]) == [];
    }
  }

  lemma ChunkIsOrderly(base: set<Op>, known: set<Id>, s: Sender, effects: seq<Item>, epochOp: Op)
    requires Orderly(base, known, s, effects) && epochOp in s.applied
    ensures Orderly(base, known, s, effects + [SentChunk(epochOp)])
  {
    var all := s.timeline + effects;
    assert s.timeline + (effects + [SentChunk(epochOp)]) == all + [SentChunk(epochOp)];
    OpsInAppends(all, SentChunk(epochOp));
    ClosedAppends(base, all, SentChunk(epochOp));
    VouchedAppends(known, base, all, SentChunk(epochOp));
  }

  lemma EncryptIsOrderly(base: set<Op>, known: set<Id>, s: Sender, effects: seq<Item>, c: Choice)
    requires Orderly(base, known, s, effects)
    ensures var (t, ops, epochOp) := EncryptCurrent(s, c);
            Orderly(base, known, t, effects + Broadcasts(ops)) && epochOp in t.applied
  {
    match s.root
    case Established(epochOp) => assert effects + Broadcasts([]) == effects;
    case Blank =>
      MintIsOrderly(base, known, s, effects, Update, c.implicit, Sets);
      var (t, op) := Mint(s, Update, c.implicit, Sets);
      assert Broadcasts([op]) == [SentOp(op)];
  }

  lemma PublishIsOrderly(base: set<Op>, known: set<Id>, s: Sender, effects: seq<Item>, keying: Keying, c: Choice)
    requires Orderly(base, known, s, effects)
    ensures var (t, more) := PublishUnder(s, keying, c); Orderly(base, known, t, effects + more)
  {
    var (t, ops, epochOp) := EncryptKeyed(s, keying, c);
    if keying == Current {
      EncryptIsOrderly(base, known, s, effects, c);
    } else {
      MintIsOrderly(base, known, s, effects, Update, c.rotation, c.root);
      var (r, rotation) := Mint(s, Update, c.rotation, c.root);
      EncryptIsOrderly(base, known, r, effects + [SentOp(rotation)], c);
      var (u, rest, _) := EncryptCurrent(r, c);
      assert effects + [SentOp(rotation)] + Broadcasts(rest) == effects + Broadcasts([rotation] + rest);
    }
    ChunkIsOrderly(base, known, t, effects + Broadcasts(ops), epochOp);
    assert effects + Broadcasts(ops) + [SentChunk(epochOp)] == effects + (Broadcasts(ops) + [SentChunk(epochOp)]);
  }

  lemma {:induction false} LeavingIsOrderly(base: set<Op>, known: set<Id>, s: Sender,
                                            devices: seq<(Id, nat, RootChange)>)
    requires Orderly(base, known, s, [])
    ensures var (t, ops) := RemoveAll(s, devices); Orderly(base, known, t, Broadcasts(ops)) && t.timeline == s.timeline
    decreases |devices|
  {
    if devices == [] {
      assert Broadcasts([]) == [];
    } else {
      LeavingIsOrderly(base, known, s, devices[..|devices| - 1]);
      var (t, ops) := RemoveAll(s, devices[..|devices| - 1]);
      var d := devices[|devices| - 1];
      MintIsOrderly(base, known, t, Broadcasts(ops), Remove(d.0), d.1, d.2);
      var (u, op) := Mint(t, Remove(d.0), d.1, d.2);
      assert Broadcasts(ops + [op]) == Broadcasts(ops) + [SentOp(op)];
    }
  }

  lemma EmitIsOrderly(base: set<Op>, known: set<Id>, s: Sender, effects: seq<Item>)
    requires Orderly(base, known, s, effects)
    ensures Orderly(base, known, Emit(s, effects), [])
  {
    assert Emit(s, effects).timeline + [] == s.timeline + effects;
  }

  lemma MergeIsOrderly(base: set<Op>, known: set<Id>, s: Sender, op: Op, root: RootChange)
    requires Orderly(base, known, s, [])
    ensures Orderly(base, known, Handle(s, Merge(op, root)), [])
  {
    if op.preds <= s.applied && op.issuer in s.known {
      var t := Handle(s, Merge(op, root));
      assert s.timeline + [] == s.timeline && t.timeline + [] == s.timeline + [Got(op)];
      OpsInAppends(s.timeline, Got(op));
      ClosedAppends(base, s.timeline, Got(op));
      VouchedAppends(known, base, s.timeline, Got(op));
      assert Adds(t.applied) == Adds(s.applied) + if op.change.Add? then {op.change.member} else {};
    }
  }

  lemma AdmitIsOrderly(base: set<Op>, known: set<Id>, s: Sender, e: Event)
    requires Orderly(base, known, s, []) && e.Admit?
    ensures Orderly(base, known, Handle(s, e), [])
  {
    MintingIfNeededIsOrderly(base, known, s, e.isNew, Add(e.member), e.nonce, e.root);
    var (t, ops) := MintIf(s, e.isNew, Add(e.member), e.nonce, e.root);
    PublishIsOrderly(base, known, t, Broadcasts(ops), Current, e.choice);
    var (u, effects) := PublishUnder(t, Current, e.choice);
    EmitIsOrderly(base, known, u, Broadcasts(ops) + effects);
  }

  lemma PublishEventIsOrderly(base: set<Op>, known: set<Id>, s: Sender, e: Event)
    requires Orderly(base, known, s, []) && e.Publish?
    ensures Orderly(base, known, Handle(s, e), [])
  {
    PublishIsOrderly(base, known, s, [], e.keying, e.choice);
    var (t, effects) := PublishUnder(s, e.keying, e.choice);
    assert [] + effects == effects;
    EmitIsOrderly(base, known, t, effects);
  }

  lemma RemoveIsOrderly(base: set<Op>, known: set<Id>, s: Sender, e: Event)
    requires Orderly(base, known, s, []) && e.RemoveMember?
    ensures Orderly(base, known, Handle(s, e), [])
  {
    MintingIfNeededIsOrderly(base, known, s, e.isPresent, Remove(e.member), e.nonce, e.root);
    var (t, ops) := MintIf(s, e.isPresent, Remove(e.member), e.nonce, e.root);
    EmitIsOrderly(base, known, t, Broadcasts(ops));
  }

  lemma RotateIsOrderly(base: set<Op>, known: set<Id>, s: Sender, e: Event)
    requires Orderly(base, known, s, []) && e.RotateKey?
    ensures Orderly(base, known, Handle(s, e), [])
  {
    MintIsOrderly(base, known, s, [], Update, e.nonce, Sets);
    var (t, op) := Mint(s, Update, e.nonce, Sets);
    assert [] + [SentOp(op)] == [SentOp(op)];
    EmitIsOrderly(base, known, t, [SentOp(op)]);
  }

  lemma HandleIsOrderly(base: set<Op>, known: set<Id>, s: Sender, e: Event)
    requires Orderly(base, known, s, [])
    ensures Orderly(base, known, Handle(s, e), [])
  {
    match e
    case Merge(op, root) => MergeIsOrderly(base, known, s, op, root);
    case Publish(_, _) => PublishEventIsOrderly(base, known, s, e);
    case Admit(_, _, _, _, _) => AdmitIsOrderly(base, known, s, e);
    case RemoveMember(_, _, _, _) => RemoveIsOrderly(base, known, s, e);
    case Leave(devices) =>
      LeavingIsOrderly(base, known, s, devices);
      var (t, ops) := RemoveAll(s, devices);
      EmitIsOrderly(base, known, t, Broadcasts(ops));
    case RotateKey(_) => RotateIsOrderly(base, known, s, e);
  }

  /** A sender that has put nothing on the wire yet. */
  ghost predicate Starting(base: set<Op>, known: set<Id>, s: Sender) {
    && s.timeline == [] && s.applied == base && s.known == known && s.me in known && Adds(base) <= known
    && (s.root.Established? ==> s.root.epochOp in base)
  }

  lemma StartIsOrderly(base: set<Op>, known: set<Id>, s: Sender)
    requires Starting(base, known, s)
    ensures Orderly(base, known, s, [])
  {
    assert s.timeline + [] == [] && OpsIn([]) == {};
  }

  /** Over any run, what a node puts on the wire is causally closed. */
  lemma {:induction false} OutputIsCausallyClosed(base: set<Op>, known: set<Id>, s: Sender, es: seq<Event>)
    requires Starting(base, known, s)
    ensures Orderly(base, known, HandleAll(s, es), [])
    ensures Closed(base, HandleAll(s, es).timeline)
    decreases |es|
  {
    if es == [] {
      StartIsOrderly(base, known, s);
    } else {
      OutputIsCausallyClosed(base, known, s, es[..|es| - 1]);
      HandleIsOrderly(base, known, HandleAll(s, es[..|es| - 1]), es[|es| - 1]);
    }
    var t := HandleAll(s, es).timeline;
    assert t + [] == t;
  }

  // ---------------------------------------------------------------- a reader in order

  function Deliveries(items: seq<Item>): seq<AuthorizedOp>
    decreases |items|
  {
    if items == [] then [] else
      var init, x := Deliveries(items[..|items| - 1]), items[|items| - 1];
      if x.SentChunk? then init else init + [AuthorizedOp(x.op, [], true)]
  }

  lemma PromptDelivery(ok: Op -> bool, base: Dag, m: Dag, op: Op)
    requires Grown(base, m) && m.parked == [] && op.preds <= m.applied && op.issuer in m.known && ok(op)
    ensures var r := Deliver(ok, m, AuthorizedOp(op, [], true));
            Grown(base, r) && r.applied == m.applied + {op} && r.parked == [] && r.evicted == m.evicted
    ensures Verdict(ok, m, op) == Applied || Verdict(ok, m, op) == Duplicate
  {
    if op in m.applied {
      assert m.applied + {op} == m.applied;
    } else {
      ApplyStaysGrown(ok, base, m, op);
      NothingToDrain(ok, Apply(m, op));
    }
  }

  lemma {:induction false} ReaderKeepsUp(ok: Op -> bool, m: Dag, base: set<Op>, known: set<Id>, items: seq<Item>)
    requires Sound(m) && m.parked == [] && base <= m.applied && known + Adds(base) <= m.known
    requires Closed(base, items) && Vouched(known, base, items) && forall op | op in OpsIn(items) :: ok(op)
    ensures var r := Run(ok, m, Deliveries(items));
            && Grown(m, r) && r.applied == m.applied + OpsIn(items)
            && r.parked == [] && r.evicted == m.evicted
    decreases |items|
  {
    if items == [] {
    } else {
      var init, x := items[..|items| - 1], items[|items| - 1];
      assert items == init + [x];
      OpsInAppends(init, x);
      ReaderKeepsUp(ok, m, base, known, init);
      var r := Run(ok, m, Deliveries(init));
      if !x.SentChunk? {
        var ds := Deliveries(init) + [AuthorizedOp(x.op, [], true)];
        assert ds[..|ds| - 1] == Deliveries(init);
        assert Adds(base + OpsIn(init)) <= Adds(base) + Adds(r.applied);
        PromptDelivery(ok, m, r, x.op);
      }
    }
  }

  /**
   A receiver that authorises the operations and reads the timeline in order never parks one, and
   never finds a chunk whose establishing operation it lacks.
   */
  lemma OrderedReaderNeverWaits(ok: Op -> bool, m: Dag, base: set<Op>, known: set<Id>, s: Sender,
                                es: seq<Event>, i: nat)
    requires Starting(base, known, s)
    requires Sound(m) && m.parked == [] && base <= m.applied && known <= m.known
    requires i < |HandleAll(s, es).timeline| && forall op | op in OpsIn(HandleAll(s, es).timeline) :: ok(op)
    ensures var items := HandleAll(s, es).timeline;
            var r := Run(ok, m, Deliveries(items[..i]));
            && r.parked == []
            && (!items[i].SentChunk? ==> Verdict(ok, r, items[i].op) in {Applied, Duplicate})
            && (items[i].SentChunk? ==>
                  forall derivable, docs, doc, chunk: Chunk | chunk.establishedBy == items[i].establishedBy ::
                    Judge(Keys(r.applied, derivable), docs, doc, chunk) != AwaitingKey)
  {
    OutputIsCausallyClosed(base, known, s, es);
    var items := HandleAll(s, es).timeline;
    assert items + [] == items;
    PrefixIsClosed(base, known, items, i + 1);
    PrefixNext(items, i);
    assert OpsIn(items[..i + 1]) <= OpsIn(items);
    ReaderJudgesNext(ok, m, base, known, items[..i], items[i]);
  }

  /** Having read everything before it, the reader can judge the next operation and key the next chunk. */
  lemma ReaderJudgesNext(ok: Op -> bool, m: Dag, base: set<Op>, known: set<Id>, items: seq<Item>, x: Item)
    requires Sound(m) && m.parked == [] && base <= m.applied && known <= m.known
    requires Closed(base, items + [x]) && Vouched(known, base, items + [x])
    requires forall op | op in OpsIn(items + [x]) :: ok(op)
    ensures var r := Run(ok, m, Deliveries(items));
            && r.parked == []
            && (x.SentChunk? ==> x.establishedBy in r.applied)
            && (!x.SentChunk? ==> Verdict(ok, r, x.op) in {Applied, Duplicate})
  {
    ClosedAppends(base, items, x);
    VouchedAppends(known, base, items, x);
    OpsInAppends(items, x);
    AddsBelow(base, {}, m.applied);
    ReaderKeepsUp(ok, m, base, known, items);
    var r := Run(ok, m, Deliveries(items));
    if !x.SentChunk? {
      AddsBelow(base, OpsIn(items), r.applied);
      PromptDelivery(ok, m, r, x.op);
    }
  }

  lemma AddsBelow(base: set<Op>, ops: set<Op>, applied: set<Op>)
    requires base + ops <= applied
    ensures Adds(base + ops) <= Adds(applied)
  {
  }

  lemma {:induction false} PrefixIsClosed(base: set<Op>, known: set<Id>, items: seq<Item>, k: nat)
    requires Closed(base, items) && Vouched(known, base, items) && k <= |items|
    ensures Closed(base, items[..k]) && Vouched(known, base, items[..k])
    decreases |items|
  {
    if k < |items| {
      PrefixIsClosed(base, known, items[..|items| - 1], k);
      assert items[..|items| - 1][..k] == items[..k];
    } else {
      assert items[..k] == items;
    }
  }
}
