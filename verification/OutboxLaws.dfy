/**
 What each request must put on the wire, item by item: the operations it asks for, by this node, on
 top of everything applied before, and chunks keyed as the request demands.
 */
module OutboxLaws {
  import opened Ordered
  import opened MergeMachine
  import opened MergeConfluence
  import opened Outbox

  // ---------------------------------------------------------------- a minted operation is new and last

  lemma {:induction false} NotItsOwnAncestor(o: Op)
    ensures o !in Ancestors(o)
  {
    forall p | p in o.preds
      ensures p != o && o !in Ancestors(p)
    {
      NotItsOwnAncestor(p);
      if o in Ancestors(p) { AncestryIsTransitive(o, p); }
    }
  }

  ghost function Above(s: set<Op>, o: Op): set<Op> {
    set x | x in s && o in Ancestors(x)
  }

  /** From every applied operation a chain of successors leads up to a head. */
  lemma {:induction false} ClimbToAHead(s: set<Op>, o: Op) returns (h: Op)
    requires o in s
    ensures h in Heads(s) && (h == o || o in Ancestors(h))
    decreases |Above(s, o)|
  {
    if p :| p in s && o in p.preds {
      NotItsOwnAncestor(p);
      forall x | x in Above(s, p)
        ensures x in Above(s, o)
      {
        AncestryIsTransitive(p, x);
      }
      assert p in Above(s, o) && p !in Above(s, p);
      Smaller(Above(s, p), Above(s, o), p);
      h := ClimbToAHead(s, p);
      if h != p { AncestryIsTransitive(p, h); }
    } else {
      h := o;
    }
  }

  lemma Smaller(a: set<Op>, b: set<Op>, x: Op)
    requires a <= b && x in b && x !in a
    ensures |a| < |b|
  {
    assert b == a + (b - a) && x in b - a;
  }

  /** An operation of this node's, not applied before, that comes after everything that was. */
  ghost predicate NewAndLast(me: Id, applied: set<Op>, change: Change, op: Op) {
    && op.issuer == me && op.change == change && op !in applied
    && op.preds <= applied && (forall o | o in applied :: o in Ancestors(op))
  }

  lemma MintIsNewAndLast(s: Sender, change: Change, nonce: nat, root: RootChange)
    ensures var (t, op) := Mint(s, change, nonce, root);
            NewAndLast(s.me, s.applied, change, op) && t.applied == s.applied + {op} && t.me == s.me
            && t.timeline == s.timeline
  {
    var (t, op) := Mint(s, change, nonce, root);
    forall o | o in s.applied
      ensures o in Ancestors(op)
    {
      var h := ClimbToAHead(s.applied, o);
      assert h in op.preds;
    }
    NotItsOwnAncestor(op);
  }

  // ---------------------------------------------------------------- what goes out

  /** What one request adds to the wire. */
  ghost function Output(s: Sender, e: Event): seq<Item>
    requires s.timeline <= Handle(s, e).timeline
  {
    Handle(s, e).timeline[|s.timeline|..]
  }

  lemma EmitShows(s: Sender, t: Sender, effects: seq<Item>)
    requires t.timeline == s.timeline
    ensures s.timeline <= Emit(t, effects).timeline && Emit(t, effects).timeline[|s.timeline|..] == effects
  {
  }

  /**
   A chunk under a standing epoch goes out alone; without one, right after an update of this node's
   that establishes its epoch.
   */
  ghost predicate KeyedNow(me: Id, applied: set<Op>, root: Root, out: seq<Item>) {
    if root.Established? then out == [SentChunk(root.epochOp)]
    else && |out| == 2 && out[0].SentOp? && NewAndLast(me, applied, Update, out[0].op)
         && out[1] == SentChunk(out[0].op)
  }

  lemma CurrentKeying(s: Sender, c: Choice)
    ensures var (t, ops, epochOp) := EncryptCurrent(s, c);
            t.timeline == s.timeline && KeyedNow(s.me, s.applied, s.root, Broadcasts(ops) + [SentChunk(epochOp)])
  {
    match s.root
    case Established(e) => assert Broadcasts([]) + [SentChunk(e)] == [SentChunk(e)];
    case Blank => MintIsNewAndLast(s, Update, c.implicit, Sets);
  }

  lemma PublishingUnderTheCurrentEpoch(s: Sender, c: Choice)
    ensures s.timeline <= Handle(s, Publish(Current, c)).timeline
    ensures KeyedNow(s.me, s.applied, s.root, Output(s, Publish(Current, c)))
  {
    CurrentKeying(s, c);
    var (t, effects) := PublishUnder(s, Current, c);
    EmitShows(s, t, effects);
  }

  /** Where an operation's effect on the root key leaves it. */
  ghost predicate RootAfter(before: Root, op: Op, change: RootChange, after: Root) {
    && (change == Sets ==> after == Established(op))
    && (change == Blanks ==> after == Blank)
    && (change == Keeps ==> after == before)
  }

  /** An operation first, then a chunk keyed as the tree stands after it. */
  ghost predicate OpThenChunk(s: Sender, change: Change, root: RootChange, out: seq<Item>) {
    && |out| >= 2 && out[0].SentOp? && NewAndLast(s.me, s.applied, change, out[0].op)
    && exists after | after in {Blank, Established(out[0].op), s.root} ::
         RootAfter(s.root, out[0].op, root, after) && KeyedNow(s.me, s.applied + {out[0].op}, after, out[1..])
  }

  lemma MintThenChunk(s: Sender, change: Change, nonce: nat, root: RootChange, c: Choice)
    ensures var (t, op) := Mint(s, change, nonce, root);
            var (u, ops, epochOp) := EncryptCurrent(t, c);
            && u.timeline == s.timeline
            && OpThenChunk(s, change, root, [SentOp(op)] + (Broadcasts(ops) + [SentChunk(epochOp)]))
  {
    MintIsNewAndLast(s, change, nonce, root);
    var (t, op) := Mint(s, change, nonce, root);
    CurrentKeying(t, c);
    var (u, ops, epochOp) := EncryptCurrent(t, c);
    var out := [SentOp(op)] + (Broadcasts(ops) + [SentChunk(epochOp)]);
    assert out[1..] == Broadcasts(ops) + [SentChunk(epochOp)];
    assert RootAfter(s.root, op, root, t.root);
  }

  /**
   A publish under a fresh epoch rotates this node's key first; and unless the tree keeps its root
   key through that, the chunk is keyed by an operation nobody had before.
   */
  lemma PublishingUnderAFreshEpoch(s: Sender, c: Choice)
    ensures s.timeline <= Handle(s, Publish(Fresh, c)).timeline
    ensures var out := Output(s, Publish(Fresh, c));
            && OpThenChunk(s, Update, c.root, out)
            && out[|out| - 1].SentChunk?
            && (c.root == Keeps || out[|out| - 1].establishedBy !in s.applied)
  {
    MintThenChunk(s, Update, c.rotation, c.root, c);
    var (t, rotation) := Mint(s, Update, c.rotation, c.root);
    var (u, ops, epochOp) := EncryptCurrent(t, c);
    var (v, effects) := PublishUnder(s, Fresh, c);
    assert effects == [SentOp(rotation)] + (Broadcasts(ops) + [SentChunk(epochOp)]);
    EmitShows(s, v, effects);
  }

  /** An admission sends the `Add` of exactly that member, then the manifest; a repeated one no `Add`. */
  lemma AdmittingSendsTheAdd(s: Sender, member: Id, isNew: bool, nonce: nat, root: RootChange, c: Choice)
    ensures var e := Admit(member, isNew, nonce, root, c);
            && s.timeline <= Handle(s, e).timeline
            && (isNew ==> OpThenChunk(s, Add(member), root, Output(s, e)))
            && (!isNew ==> KeyedNow(s.me, s.applied, s.root, Output(s, e)))
  {
    var e := Admit(member, isNew, nonce, root, c);
    if isNew {
      MintThenChunk(s, Add(member), nonce, root, c);
      var (t, op) := Mint(s, Add(member), nonce, root);
      var (u, effects) := PublishUnder(t, Current, c);
      assert Broadcasts([op]) == [SentOp(op)];
      EmitShows(s, u, [SentOp(op)] + effects);
    } else {
      CurrentKeying(s, c);
      var (u, effects) := PublishUnder(s, Current, c);
      assert Broadcasts([]) + effects == effects;
      EmitShows(s, u, effects);
    }
  }

  /** A removal sends the `Remove` of exactly that member, or nothing if it was not there. */
  lemma RemovingSendsTheRemove(s: Sender, member: Id, isPresent: bool, nonce: nat, root: RootChange)
    ensures var e := RemoveMember(member, isPresent, nonce, root);
            && s.timeline <= Handle(s, e).timeline
            && (isPresent ==> && |Output(s, e)| == 1 && Output(s, e)[0].SentOp?
                              && NewAndLast(s.me, s.applied, Remove(member), Output(s, e)[0].op))
            && (!isPresent ==> Output(s, e) == [])
  {
    MintIsNewAndLast(s, Remove(member), nonce, root);
    var (t, ops) := MintIf(s, isPresent, Remove(member), nonce, root);
    EmitShows(s, t, Broadcasts(ops));
  }

  lemma RotatingSendsAnUpdate(s: Sender, nonce: nat)
    ensures var e := RotateKey(nonce);
            && s.timeline <= Handle(s, e).timeline && |Output(s, e)| == 1 && Output(s, e)[0].SentOp?
            && NewAndLast(s.me, s.applied, Update, Output(s, e)[0].op)
            && Handle(s, e).root == Established(Output(s, e)[0].op)
  {
    MintIsNewAndLast(s, Update, nonce, Sets);
    var (t, op) := Mint(s, Update, nonce, Sets);
    EmitShows(s, t, [SentOp(op)]);
  }

  ghost function Ops(ops: seq<Op>): set<Op> {
    set o | o in ops
  }

  /** One removal per device, in order, each on top of the ones before it. */
  ghost predicate RemovesEach(s: Sender, devices: seq<(Id, nat, RootChange)>, ops: seq<Op>) {
    && |ops| == |devices|
    && forall i | 0 <= i < |ops| ::
         NewAndLast(s.me, s.applied + Ops(ops[..i]), Remove(devices[i].0), ops[i])
  }

  lemma RemovesOneMore(s: Sender, devices: seq<(Id, nat, RootChange)>, ops: seq<Op>, op: Op)
    requires devices != [] && RemovesEach(s, devices[..|devices| - 1], ops)
    requires NewAndLast(s.me, s.applied + Ops(ops), Remove(devices[|devices| - 1].0), op)
    ensures RemovesEach(s, devices, ops + [op])
  {
    var all := ops + [op];
    forall i | 0 <= i < |all|
      ensures NewAndLast(s.me, s.applied + Ops(all[..i]), Remove(devices[i].0), all[i])
    {
      if i < |ops| {
        assert all[..i] == ops[..i];
      } else {
        assert all[..i] == ops;
      }
    }
  }

  lemma OpsGrow(applied: set<Op>, ops: seq<Op>, op: Op)
    ensures applied + Ops(ops) + {op} == applied + Ops(ops + [op])
  {
    assert Ops(ops + [op]) == Ops(ops) + {op};
  }

  lemma {:induction false} RemoveAllRemovesEach(s: Sender, devices: seq<(Id, nat, RootChange)>)
    ensures var (t, ops) := RemoveAll(s, devices);
            && RemovesEach(s, devices, ops)
            && t.me == s.me && t.timeline == s.timeline && t.applied == s.applied + Ops(ops)
    decreases |devices|
  {
    if devices == [] {
    } else {
      var init, d := devices[..|devices| - 1], devices[|devices| - 1];
      RemoveAllRemovesEach(s, init);
      var (t, ops) := RemoveAll(s, init);
      MintIsNewAndLast(t, Remove(d.0), d.1, d.2);
      var (u, op) := Mint(t, Remove(d.0), d.1, d.2);
      RemovesOneMore(s, devices, ops, op);
      OpsGrow(s.applied, ops, op);
    }
  }

  /** Leaving sends the removal of exactly the named devices, in order, and nothing else. */
  lemma LeavingRemovesEachDevice(s: Sender, devices: seq<(Id, nat, RootChange)>)
    ensures s.timeline <= Handle(s, Leave(devices)).timeline
    ensures exists ops :: RemovesEach(s, devices, ops) && Output(s, Leave(devices)) == Broadcasts(ops)
  {
    RemoveAllRemovesEach(s, devices);
    var (t, ops) := RemoveAll(s, devices);
    EmitShows(s, t, Broadcasts(ops));
  }

  /** An operation from a peer is taken in, and sent on to nobody, exactly when it can be judged. */
  lemma MergingTakesIn(s: Sender, op: Op, root: RootChange)
    ensures var t := Handle(s, Merge(op, root));
            if op.preds <= s.applied && op.issuer in s.known
            then && t.applied == s.applied + {op} && t.timeline == s.timeline + [Got(op)]
                 && RootAfter(s.root, op, root, t.root) && (op.change.Add? ==> op.change.member in t.known)
            else t == s
  {
  }
}
