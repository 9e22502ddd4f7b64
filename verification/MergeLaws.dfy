/**
 What merging does to the queue and to the roster, told without the functions that do it: which
 operation is evicted, who is on the roster after a run and why, and that certificates alone move
 nothing that is waiting.
 */
module MergeLaws {
  import opened Ordered
  import opened MergeMachine
  import opened MergeConfluence

  // ---------------------------------------------------------------- the queue

  /** Parking appends; a full queue loses its oldest operation and nothing else, and counts it. */
  lemma ParkingLosesOnlyTheOldest(m: Dag, a: AuthorizedOp)
    requires |m.parked| <= MAX_PARKED_OPS
    ensures var n := Park(m, a);
            var dropped := if |m.parked| == MAX_PARKED_OPS then 1 else 0;
            && |n.parked| == |m.parked| + 1 - dropped <= MAX_PARKED_OPS
            && n.parked[|n.parked| - 1] == a
            && (forall i | 0 <= i < |n.parked| - 1 :: n.parked[i] == m.parked[i + dropped])
            && n.evicted == m.evicted + dropped
            && n.applied == m.applied && n.known == m.known && n.current == m.current
  {
  }

  /** Predecessors first, then membership, then authority; a repeat is told from a first time last. */
  lemma VerdictsAreOrdered(ok: Op -> bool, m: Dag, op: Op)
    ensures var here := op.preds <= m.applied;
            var judged := here && op.issuer in m.known;
            && (Verdict(ok, m, op) == Deferred <==> !here)
            && (Verdict(ok, m, op) == Unauthorized <==> here && op.issuer !in m.known)
            && (Verdict(ok, m, op) == Uncertified <==> judged && !ok(op))
            && (Verdict(ok, m, op) == Duplicate <==> judged && ok(op) && op in m.applied)
            && (Verdict(ok, m, op) == Applied <==> judged && ok(op) && op !in m.applied)
  {
  }

  /** Operations that all lack a predecessor are parked again, in order. */
  lemma {:induction false} WaitingRetry(ok: Op -> bool, m: Dag, cs: seq<AuthorizedOp>)
    requires |m.parked| + |cs| <= MAX_PARKED_OPS && forall a | a in cs :: !(a.op.preds <= m.applied)
    ensures Retry(ok, m, cs) == m.(parked := m.parked + cs)
    decreases |cs|
  {
    if cs == [] {
      assert m.parked + cs == m.parked;
    } else {
      var init, last := cs[..|cs| - 1], cs[|cs| - 1];
      assert cs == init + [last] && forall a | a in init :: a in cs;
      WaitingRetry(ok, m, init);
      assert last in cs;
      assert m.parked + init + [last] == m.parked + cs;
    }
  }

  /**
   A settled queue is not moved by a drain, whatever the verdicts: a waiting operation waits for its
   predecessors only, so certificates that arrive alone unlock nothing.
   */
  lemma SettledDrainIsIdle(ok: Op -> bool, m: Dag)
    requires Settled(m) && |m.parked| <= MAX_PARKED_OPS
    ensures MergePending(ok, m) == m
  {
    WaitingRetry(ok, m.(parked := []), m.parked);
    assert [] + m.parked == m.parked;
  }

  // ---------------------------------------------------------------- the roster

  /** The operations a run has applied since `base`. */
  ghost predicate News(base: Dag, m: Dag, change: Change) {
    exists o | o in m.applied :: o !in base.applied && o.change == change
  }

  /** Every change of the roster has an applied operation behind it, and every such operation shows. */
  ghost predicate RosterExplained(base: Dag, m: Dag) {
    && base.applied <= m.applied
    && (forall x | x in m.current && x !in base.current :: News(base, m, Add(x)))
    && (forall x | x in base.current && x !in m.current :: News(base, m, Remove(x)))
    && (forall x | News(base, m, Add(x)) && !News(base, m, Remove(x)) :: x in m.current)
    && (forall x | News(base, m, Remove(x)) && !News(base, m, Add(x)) :: x !in m.current)
    && (base.current <= base.known ==> m.current <= m.known)
  }

  /** An applied `Add` puts its member on the roster, an applied `Remove` takes it off; others stay. */
  lemma ApplyMovesTheRoster(m: Dag, op: Op)
    ensures var n := Apply(m, op);
            && (op.change.Add? ==> op.change.member in n.current && op.change.member in n.known)
            && (op.change.Remove? ==> op.change.member !in n.current)
            && (forall x | op.change.Update? || op.change.member != x ::
                  (x in n.current <==> x in m.current) && (x in n.known <==> x in m.known))
            && m.known <= n.known && n.parked == m.parked && n.evicted == m.evicted
  {
  }

  lemma NewsGrows(base: Dag, m: Dag, op: Op, change: Change)
    requires op !in m.applied && base.applied <= m.applied
    ensures News(base, Apply(m, op), change) <==> News(base, m, change) || op.change == change
  {
    ApplyFacts(m, op);
    var n := Apply(m, op);
    if op.change == change { assert op in n.applied && op !in base.applied; }
  }

  lemma ApplyExplains(base: Dag, m: Dag, op: Op)
    requires RosterExplained(base, m) && op !in m.applied
    ensures RosterExplained(base, Apply(m, op))
  {
    ApplyMovesTheRoster(m, op);
    ApplyFacts(m, op);
    forall x
      ensures News(base, Apply(m, op), Add(x)) <==> News(base, m, Add(x)) || op.change == Add(x)
      ensures News(base, Apply(m, op), Remove(x)) <==> News(base, m, Remove(x)) || op.change == Remove(x)
    {
      NewsGrows(base, m, op, Add(x));
      NewsGrows(base, m, op, Remove(x));
    }
  }

  lemma MergeExplains(ok: Op -> bool, base: Dag, m: Dag, a: AuthorizedOp)
    requires RosterExplained(base, m)
    ensures RosterExplained(base, MergeVerified(ok, m, a))
  {
    if Verdict(ok, m, a.op) == Applied {
      ApplyExplains(base, m, a.op);
    } else {
      QueueDoesNotExplain(base, m, MergeVerified(ok, m, a));
    }
  }

  lemma QueueDoesNotExplain(base: Dag, m: Dag, n: Dag)
    requires RosterExplained(base, m) && n.applied == m.applied && n.current == m.current && n.known == m.known
    ensures RosterExplained(base, n)
  {
    assert forall change :: News(base, n, change) <==> News(base, m, change);
  }

  lemma {:induction false} RetryExplains(ok: Op -> bool, base: Dag, m: Dag, cs: seq<AuthorizedOp>)
    requires RosterExplained(base, m)
    ensures RosterExplained(base, Retry(ok, m, cs))
    decreases |cs|
  {
    if cs == [] {
    } else {
      RetryExplains(ok, base, m, cs[..|cs| - 1]);
      MergeExplains(ok, base, Retry(ok, m, cs[..|cs| - 1]), cs[|cs| - 1]);
    }
  }

  lemma {:induction false} DrainExplains(ok: Op -> bool, base: Dag, m: Dag)
    requires RosterExplained(base, m)
    ensures RosterExplained(base, MergePending(ok, m))
    decreases |m.parked|
  {
    var e := m.(parked := []);
    QueueDoesNotExplain(base, m, e);
    RetryExplains(ok, base, e, m.parked);
    var r := Retry(ok, e, m.parked);
    if r.applied != m.applied {
      ProgressShrinksTheQueue(ok, m);
      DrainExplains(ok, base, r);
    }
  }

  /**
   Over any run: whoever joined the roster was added and whoever left was removed by an operation the
   run applied; whoever was only added is on it, whoever was only removed is off it; and the roster
   stays among the known members.
   */
  lemma {:induction false} RosterIsExplained(ok: Op -> bool, base: Dag, ds: seq<AuthorizedOp>)
    ensures RosterExplained(base, Run(ok, base, ds))
    decreases |ds|
  {
    if ds == [] {
    } else {
      var m, last := Run(ok, base, ds[..|ds| - 1]), ds[|ds| - 1];
      RosterIsExplained(ok, base, ds[..|ds| - 1]);
      MergeExplains(ok, base, m, last);
      DrainExplains(ok, base, MergeVerified(ok, m, last));
    }
  }
}
