/**
 Out-of-order delivery of group operations: `merge_verified`, `park` and `merge_pending` of
 crates/iroh-beekem-core/src/keys.rs as steps of one state.

 An operation names its predecessors by hash. With collision-free hashes that is the same as
 containing them, so an operation here contains its predecessors and the graph is acyclic by
 construction. The tree library is the set of operations it has applied. The capability check is a
 parameter: `ok(op)` is the verdict of `authorize` under the certificates held.
 */
module MergeMachine {
  import opened Ordered
  import opened Holdings

  datatype Change = Add(member: Id) | Remove(member: Id) | Update

  datatype Op = Op(preds: set<Op>, issuer: Id, change: Change, nonce: nat)

  datatype AuthorizedOp = AuthorizedOp(op: Op, proof: seq<Certificate>, signatureOk: bool)

  datatype Outcome = Applied | Duplicate | Deferred | BadSignature | Unauthorized | Uncertified

  const MAX_PARKED_OPS: nat := 1024

  /** The applied operations, both member sets, the parking queue and its eviction counter. */
  datatype Dag = Dag(
    applied: set<Op>,
    known: set<Id>,
    current: set<Id>,
    parked: seq<AuthorizedOp>,
    evicted: nat)

  function Park(m: Dag, a: AuthorizedOp): Dag {
    if |m.parked| >= MAX_PARKED_OPS then
      m.(parked := m.parked[1..] + [a], evicted := m.evicted + 1)
    else
      m.(parked := m.parked + [a])
  }

  function Apply(m: Dag, op: Op): Dag {
    var n := m.(applied := m.applied + {op});
    match op.change
    case Add(x) => n.(known := m.known + {x}, current := m.current + {x})
    case Remove(x) => n.(current := m.current - {x})
    case Update => n
  }

  function Verdict(ok: Op -> bool, m: Dag, op: Op): Outcome {
    if !(op.preds <= m.applied) then Deferred
    else if op.issuer !in m.known then Unauthorized
    else if !ok(op) then Uncertified
    else if op in m.applied then Duplicate
    else Applied
  }

  function MergeVerified(ok: Op -> bool, m: Dag, a: AuthorizedOp): Dag {
    match Verdict(ok, m, a.op)
    case Deferred => Park(m, a)
    case Applied => Apply(m, a.op)
    case _ => m
  }

  function Retry(ok: Op -> bool, m: Dag, candidates: seq<AuthorizedOp>): Dag
    decreases |candidates|
  {
    if candidates == [] then m
    else MergeVerified(ok, Retry(ok, m, candidates[..|candidates| - 1]), candidates[|candidates| - 1])
  }

  lemma ApplyFacts(m: Dag, op: Op)
    requires op !in m.applied
    ensures var n := Apply(m, op);
            && n.applied == m.applied + {op} && |n.applied| == |m.applied| + 1
            && m.known <= n.known && n.parked == m.parked && n.evicted == m.evicted
  {
  }

  lemma ParkFacts(m: Dag, a: AuthorizedOp)
    ensures var n := Park(m, a);
            && n.applied == m.applied && n.known == m.known
            && |n.parked| == (if |m.parked| >= MAX_PARKED_OPS then |m.parked| else |m.parked| + 1)
            && n.evicted == (if |m.parked| >= MAX_PARKED_OPS then m.evicted + 1 else m.evicted)
  {
  }

  /** One merge applies, queues or drops; it never does two of them. */
  lemma MergeFacts(ok: Op -> bool, m: Dag, a: AuthorizedOp)
    ensures var n := MergeVerified(ok, m, a);
            && (if Verdict(ok, m, a.op) == Applied
                then a.op !in m.applied && n.applied == m.applied + {a.op} && |n.applied| == |m.applied| + 1
                else n.applied == m.applied)
            && m.known <= n.known && m.evicted <= n.evicted
            && |n.parked| + |n.applied| <= |m.parked| + |m.applied| + 1
            && |n.parked| <= |m.parked| + 1
            && (|m.parked| < MAX_PARKED_OPS ==> n.evicted == m.evicted)
            && (|m.parked| <= MAX_PARKED_OPS ==> |n.parked| <= MAX_PARKED_OPS)
  {
    if Verdict(ok, m, a.op) == Applied { ApplyFacts(m, a.op); }
    if Verdict(ok, m, a.op) == Deferred { ParkFacts(m, a); }
  }

  lemma {:induction false} RetryGrows(ok: Op -> bool, m: Dag, candidates: seq<AuthorizedOp>)
    ensures var r := Retry(ok, m, candidates);
            && m.applied <= r.applied && m.known <= r.known && m.evicted <= r.evicted
            && |r.parked| + |r.applied| <= |m.parked| + |candidates| + |m.applied|
            && |r.parked| <= |m.parked| + |candidates|
            && (|m.parked| + |candidates| <= MAX_PARKED_OPS ==> r.evicted == m.evicted)
    decreases |candidates|
  {
    if candidates == [] {
    } else {
      var init := candidates[..|candidates| - 1];
      RetryGrows(ok, m, init);
      MergeFacts(ok, Retry(ok, m, init), candidates[|candidates| - 1]);
    }
  }

  lemma ProgressShrinksTheQueue(ok: Op -> bool, m: Dag)
    ensures var r := Retry(ok, m.(parked := []), m.parked);
            r.applied != m.applied ==> |r.parked| < |m.parked|
  {
    RetryGrows(ok, m.(parked := []), m.parked);
    var r := Retry(ok, m.(parked := []), m.parked);
    if r.applied != m.applied {
      assert r.applied == m.applied + (r.applied - m.applied);
      assert r.applied - m.applied != {};
    }
  }

  /** Retry the whole queue, round after round, until a round applies nothing. */
  function MergePending(ok: Op -> bool, m: Dag): Dag
    decreases |m.parked|
  {
    var r := Retry(ok, m.(parked := []), m.parked);
    if r.applied == m.applied then r else
      ProgressShrinksTheQueue(ok, m);
      MergePending(ok, r)
  }

  /** `on_control_op`: merge, and drain the queue after anything was applied. */
  function Deliver(ok: Op -> bool, m: Dag, a: AuthorizedOp): Dag {
    if !a.signatureOk then m
    else if Verdict(ok, m, a.op) == Applied then MergePending(ok, MergeVerified(ok, m, a))
    else MergeVerified(ok, m, a)
  }

  function Run(ok: Op -> bool, m: Dag, deliveries: seq<AuthorizedOp>): Dag
    decreases |deliveries|
  {
    if deliveries == [] then m
    else Deliver(ok, Run(ok, m, deliveries[..|deliveries| - 1]), deliveries[|deliveries| - 1])
  }

  // ---------------------------------------------------------------- the graph

  ghost function Ancestors(op: Op): set<Op> {
    op.preds + set p, a | p in op.preds && a in Ancestors(p) :: a
  }

  ghost predicate DownClosed(s: set<Op>) {
    forall o | o in s :: o.preds <= s
  }

  function Adds(s: set<Op>): set<Id> {
    set o | o in s && o.change.Add? :: o.change.member
  }

  lemma {:induction false} AncestorsAreInside(s: set<Op>, op: Op)
    requires DownClosed(s) && op.preds <= s
    ensures Ancestors(op) <= s
  {
    forall p | p in op.preds
      ensures Ancestors(p) <= s
    {
      AncestorsAreInside(s, p);
    }
  }

  // ---------------------------------------------------------------- invariants of a run from `base`

  /** A state a run may start from: causally closed, knowing everyone it added. */
  ghost predicate Sound(base: Dag) {
    DownClosed(base.applied) && Adds(base.applied) <= base.known && |base.parked| <= MAX_PARKED_OPS
  }

  ghost predicate Grown(base: Dag, m: Dag) {
    && base.applied <= m.applied
    && DownClosed(m.applied)
    && m.known == base.known + Adds(m.applied)
  }

  /** Nothing waiting could be judged now. */
  ghost predicate Settled(m: Dag) {
    forall a | a in m.parked :: !(a.op.preds <= m.applied)
  }

  /** Vouched for only by an `Add` outside its own history. */
  ghost predicate Late(base: Dag, op: Op) {
    op.issuer !in base.known + Adds(Ancestors(op))
  }

  /** Its predecessors are here and it was turned away: uncertified, or issued by a stranger. */
  ghost predicate Refused(ok: Op -> bool, base: Dag, m: Dag, op: Op) {
    op.preds <= m.applied && (!ok(op) || Late(base, op))
  }

  function ParkedOps(m: Dag): set<Op> {
    set a | a in m.parked :: a.op
  }

  ghost predicate Accounted(ok: Op -> bool, base: Dag, m: Dag, op: Op) {
    op in m.applied || op in ParkedOps(m) || Refused(ok, base, m, op)
  }

  ghost function Elems(s: seq<Op>): set<Op> {
    set o | o in s
  }

  /** Operations applied one after another, each after its predecessors, by members. */
  ghost predicate Causal(ok: Op -> bool, base: Dag, s: seq<Op>)
    decreases |s|
  {
    s == [] ||
    var init, last := s[..|s| - 1], s[|s| - 1];
    var here := base.applied + Elems(init);
    && Causal(ok, base, init)
    && last !in here && last.preds <= here
    && ok(last) && last.issuer in base.known + Adds(here)
  }

  /** The applied set is the base plus a causal run over operations from `d`. */
  ghost predicate Supported(ok: Op -> bool, base: Dag, d: set<Op>, m: Dag) {
    exists s :: Causal(ok, base, s) && m.applied == base.applied + Elems(s) && Elems(s) <= d
  }

  /** Everything a state records about a run over operations `d`, whatever their order. */
  ghost predicate Consistent(ok: Op -> bool, base: Dag, d: set<Op>, m: Dag) {
    && Grown(base, m)
    && |m.parked| <= MAX_PARKED_OPS
    && Supported(ok, base, d, m)
    && ParkedOps(m) <= d
  }

  lemma ApplyStaysGrown(ok: Op -> bool, base: Dag, m: Dag, op: Op)
    requires Grown(base, m) && Verdict(ok, m, op) == Applied
    ensures Grown(base, Apply(m, op))
  {
    var n := Apply(m, op);
    assert Adds(n.applied) == Adds(m.applied) + if op.change.Add? then {op.change.member} else {};
  }

  lemma CausalGrows(ok: Op -> bool, base: Dag, s: seq<Op>, op: Op)
    requires Causal(ok, base, s) && ok(op)
    requires op !in base.applied + Elems(s) && op.preds <= base.applied + Elems(s)
    requires op.issuer in base.known + Adds(base.applied + Elems(s))
    ensures Causal(ok, base, s + [op]) && Elems(s + [op]) == Elems(s) + {op}
  {
    var t := s + [op];
    assert t[..|t| - 1] == s && t[|t| - 1] == op;
  }

  lemma ApplyStaysSupported(ok: Op -> bool, base: Dag, d: set<Op>, m: Dag, op: Op)
    requires Grown(base, m) && Supported(ok, base, d, m) && Verdict(ok, m, op) == Applied && op in d
    ensures Supported(ok, base, d, Apply(m, op))
  {
    var s :| Causal(ok, base, s) && m.applied == base.applied + Elems(s) && Elems(s) <= d;
    KnownIsBaseAndAdds(base, m, s);
    CausalGrows(ok, base, s, op);
    ApplyFacts(m, op);
    Regroup(base.applied, Elems(s), {op});
    IsSupport(ok, base, d, Apply(m, op), s + [op]);
  }

  lemma KnownIsBaseAndAdds(base: Dag, m: Dag, s: seq<Op>)
    requires Grown(base, m) && m.applied == base.applied + Elems(s)
    ensures m.known == base.known + Adds(base.applied + Elems(s))
  {
  }

  lemma IsSupport(ok: Op -> bool, base: Dag, d: set<Op>, m: Dag, s: seq<Op>)
    requires Causal(ok, base, s) && m.applied == base.applied + Elems(s) && Elems(s) <= d
    ensures Supported(ok, base, d, m)
  {
  }

  lemma ApplyStaysConsistent(ok: Op -> bool, base: Dag, d: set<Op>, m: Dag, op: Op)
    requires Consistent(ok, base, d, m) && Verdict(ok, m, op) == Applied && op in d
    ensures Consistent(ok, base, d, Apply(m, op))
  {
    ApplyStaysGrown(ok, base, m, op);
    ApplyStaysSupported(ok, base, d, m, op);
    assert Apply(m, op).parked == m.parked;
  }

  lemma MergeStaysConsistent(ok: Op -> bool, base: Dag, d: set<Op>, m: Dag, a: AuthorizedOp)
    requires Consistent(ok, base, d, m) && a.op in d
    ensures Consistent(ok, base, d, MergeVerified(ok, m, a))
  {
    if Verdict(ok, m, a.op) == Applied { ApplyStaysConsistent(ok, base, d, m, a.op); }
  }

  lemma MergeAccounts(ok: Op -> bool, base: Dag, m: Dag, a: AuthorizedOp, op: Op)
    requires Grown(base, m) && MergeVerified(ok, m, a).evicted == m.evicted
    requires op == a.op || Accounted(ok, base, m, op)
    ensures Accounted(ok, base, MergeVerified(ok, m, a), op)
  {
    var n := MergeVerified(ok, m, a);
    assert m.applied <= n.applied && ParkedOps(m) <= ParkedOps(n);
    if op == a.op {
      if Verdict(ok, m, op) == Deferred {
        assert a in n.parked;
      } else if Verdict(ok, m, op) == Unauthorized {
        AncestorsAreInside(m.applied, op);
        assert Adds(Ancestors(op)) <= Adds(m.applied);
      }
    }
  }

  lemma {:induction false} RetryStaysConsistent(ok: Op -> bool, base: Dag, d: set<Op>, m: Dag, cs: seq<AuthorizedOp>)
    requires Consistent(ok, base, d, m) && (forall a | a in cs :: a.op in d)
    ensures Consistent(ok, base, d, Retry(ok, m, cs))
    decreases |cs|
  {
    if cs == [] {
    } else {
      RetryStaysConsistent(ok, base, d, m, cs[..|cs| - 1]);
      MergeStaysConsistent(ok, base, d, Retry(ok, m, cs[..|cs| - 1]), cs[|cs| - 1]);
    }
  }

  lemma {:induction false} RetryAccounts(ok: Op -> bool, base: Dag, d: set<Op>, m: Dag, cs: seq<AuthorizedOp>, op: Op)
    requires Consistent(ok, base, d, m) && (forall a | a in cs :: a.op in d)
    requires |m.parked| + |cs| <= MAX_PARKED_OPS
    requires Accounted(ok, base, m, op) || exists a | a in cs :: a.op == op
    ensures Accounted(ok, base, Retry(ok, m, cs), op)
    decreases |cs|
  {
    if cs == [] {
    } else {
      var init, last := cs[..|cs| - 1], cs[|cs| - 1];
      assert cs == init + [last];
      RetryGrows(ok, m, init);
      RetryGrows(ok, m, cs);
      RetryStaysConsistent(ok, base, d, m, init);
      if op != last.op { RetryAccounts(ok, base, d, m, init, op); }
      MergeAccounts(ok, base, Retry(ok, m, init), last, op);
    }
  }

  lemma IdleMergeSettles(ok: Op -> bool, m: Dag, a: AuthorizedOp)
    requires Settled(m) && MergeVerified(ok, m, a).applied == m.applied
    ensures Settled(MergeVerified(ok, m, a))
  {
  }

  lemma {:induction false} IdleRetrySettles(ok: Op -> bool, m: Dag, cs: seq<AuthorizedOp>)
    requires Settled(m) && Retry(ok, m, cs).applied == m.applied
    ensures Settled(Retry(ok, m, cs))
    decreases |cs|
  {
    if cs == [] {
    } else {
      var init, last := Retry(ok, m, cs[..|cs| - 1]), cs[|cs| - 1];
      RetryGrows(ok, m, cs[..|cs| - 1]);
      MergeFacts(ok, init, last);
      assert init.applied == m.applied;
      IdleRetrySettles(ok, m, cs[..|cs| - 1]);
      IdleMergeSettles(ok, init, last);
    }
  }

  /** Draining keeps the invariant, evicts nothing, loses track of nothing and settles the queue. */
  lemma {:induction false} DrainIsSound(ok: Op -> bool, base: Dag, d: set<Op>, m: Dag)
    requires Consistent(ok, base, d, m)
    ensures Consistent(ok, base, d, MergePending(ok, m)) && Settled(MergePending(ok, m))
    ensures MergePending(ok, m).evicted == m.evicted && m.applied <= MergePending(ok, m).applied
    ensures forall op | Accounted(ok, base, m, op) :: Accounted(ok, base, MergePending(ok, m), op)
    decreases |m.parked|
  {
    var e := m.(parked := []);
    var r := Retry(ok, e, m.parked);
    assert Consistent(ok, base, d, e) by {
      assert ParkedOps(e) == {};
      assert Supported(ok, base, d, e);
    }
    assert forall a | a in m.parked :: a.op in ParkedOps(m);
    RetryGrows(ok, e, m.parked);
    RetryStaysConsistent(ok, base, d, e, m.parked);
    forall op | Accounted(ok, base, m, op)
      ensures Accounted(ok, base, r, op)
    {
      RetryAccounts(ok, base, d, e, m.parked, op);
    }
    if r.applied == m.applied {
      IdleRetrySettles(ok, e, m.parked);
    } else {
      ProgressShrinksTheQueue(ok, m);
      DrainIsSound(ok, base, d, r);
    }
  }

  /** One delivery without eviction keeps the invariant and accounts for what it delivered. */
  lemma DeliveryIsSound(ok: Op -> bool, base: Dag, d: set<Op>, m: Dag, a: AuthorizedOp)
    requires Consistent(ok, base, d, m) && Settled(m) && (a.signatureOk ==> a.op in d)
    requires Deliver(ok, m, a).evicted == m.evicted
    ensures Consistent(ok, base, d, Deliver(ok, m, a)) && Settled(Deliver(ok, m, a))
    ensures a.signatureOk ==> Accounted(ok, base, Deliver(ok, m, a), a.op)
    ensures forall op | Accounted(ok, base, m, op) :: Accounted(ok, base, Deliver(ok, m, a), op)
  {
    if a.signatureOk {
      var n := MergeVerified(ok, m, a);
      MergeStaysConsistent(ok, base, d, m, a);
      assert n.evicted == m.evicted;
      forall op | op == a.op || Accounted(ok, base, m, op)
        ensures Accounted(ok, base, n, op)
      {
        MergeAccounts(ok, base, m, a, op);
      }
      if Verdict(ok, m, a.op) == Applied {
        DrainIsSound(ok, base, d, n);
      }
    }
  }

  // ---------------------------------------------------------------- the drain, on its own terms

  ghost function DrainRounds(ok: Op -> bool, m: Dag): nat
    decreases |m.parked|
  {
    var r := Retry(ok, m.(parked := []), m.parked);
    if r.applied == m.applied then 1 else
      ProgressShrinksTheQueue(ok, m);
      1 + DrainRounds(ok, r)
  }

  lemma {:induction false} DrainIsQuick(ok: Op -> bool, m: Dag)
    ensures DrainRounds(ok, m) <= |m.parked| + 1
    decreases |m.parked|
  {
    var r := Retry(ok, m.(parked := []), m.parked);
    if r.applied != m.applied {
      ProgressShrinksTheQueue(ok, m);
      DrainIsQuick(ok, r);
    }
  }

  lemma SelfConsistent(ok: Op -> bool, base: Dag)
    requires Sound(base)
    ensures Consistent(ok, base, ParkedOps(base), base)
  {
    assert Causal(ok, base, []) && Elems([]) == {};
  }

  lemma RoomToPark(ok: Op -> bool, m: Dag, init: seq<AuthorizedOp>, last: AuthorizedOp)
    requires |m.parked| + |init| < MAX_PARKED_OPS
    ensures var r := Retry(ok, m, init);
            multiset(MergeVerified(ok, r, last).parked) <= multiset(r.parked) + multiset{last}
  {
    RetryGrows(ok, m, init);
    var r := Retry(ok, m, init);
    assert |m.applied| <= |r.applied| by { assert r.applied == m.applied + (r.applied - m.applied); }
    assert multiset(r.parked + [last]) == multiset(r.parked) + multiset{last};
  }

  lemma {:induction false} RetryKeepsCopies(ok: Op -> bool, m: Dag, cs: seq<AuthorizedOp>)
    requires |m.parked| + |cs| <= MAX_PARKED_OPS
    ensures multiset(Retry(ok, m, cs).parked) <= multiset(m.parked) + multiset(cs)
    decreases |cs|
  {
    if cs == [] {
    } else {
      var init, last := cs[..|cs| - 1], cs[|cs| - 1];
      assert cs == init + [last];
      var r := Retry(ok, m, init);
      RetryGrows(ok, m, init);
      RetryKeepsCopies(ok, m, init);
      assert multiset(cs) == multiset(init) + multiset{last};
      RoomToPark(ok, m, init, last);
    }
  }

  lemma {:induction false} DrainInventsNothing(ok: Op -> bool, m: Dag)
    requires |m.parked| <= MAX_PARKED_OPS
    ensures multiset(MergePending(ok, m).parked) <= multiset(m.parked)
    decreases |m.parked|
  {
    var r := Retry(ok, m.(parked := []), m.parked);
    RetryGrows(ok, m.(parked := []), m.parked);
    RetryKeepsCopies(ok, m.(parked := []), m.parked);
    if r.applied != m.applied {
      ProgressShrinksTheQueue(ok, m);
      DrainInventsNothing(ok, r);
    }
  }

  /**
   `merge_pending` finishes within one round more than the queue is long, evicts nothing, leaves
   no operation whose predecessors are all present, and whatever left the queue was applied,
   already known, or refused.
   */
  lemma DrainOfParkedOperations(ok: Op -> bool, m: Dag)
    requires Sound(m)
    ensures DrainRounds(ok, m) <= |m.parked| + 1
    ensures MergePending(ok, m).evicted == m.evicted
    ensures Settled(MergePending(ok, m))
    ensures multiset(MergePending(ok, m).parked) <= multiset(m.parked)
    ensures forall a | a in m.parked && a.op !in ParkedOps(MergePending(ok, m)) ::
              a.op in MergePending(ok, m).applied || Refused(ok, m, MergePending(ok, m), a.op)
  {
    DrainIsQuick(ok, m);
    SelfConsistent(ok, m);
    DrainIsSound(ok, m, ParkedOps(m), m);
    DrainInventsNothing(ok, m);
    forall a | a in m.parked
      ensures Accounted(ok, m, MergePending(ok, m), a.op)
    {
      assert a.op in ParkedOps(m);
      assert Accounted(ok, m, m, a.op);
    }
  }
}
