/**
 Delivery order does not matter. Any two loss-free deliveries of the same operations end with the
 same applied set, the same known members and the same operations still waiting, exactly when no
 operation can be applied on the word of an `Add` that lies outside its own history.
 */
module MergeConfluence {
  import opened Ordered
  import opened MergeMachine

  /** The operations a delivery sequence offers, whatever their order and repetition. */
  function Offered(deliveries: seq<AuthorizedOp>): set<Op> {
    set a | a in deliveries && a.signatureOk :: a.op
  }

  ghost predicate Lossless(ok: Op -> bool, base: Dag, deliveries: seq<AuthorizedOp>) {
    Run(ok, base, deliveries).evicted == base.evicted
  }

  ghost predicate Justified(ok: Op -> bool, base: Dag, d: set<Op>) {
    forall s | Causal(ok, base, s) && s != [] && Elems(s) <= d :: !Late(base, s[|s| - 1])
  }

  ghost predicate SameOutcome(m: Dag, n: Dag) {
    m.applied == n.applied && m.known == n.known && ParkedOps(m) == ParkedOps(n)
  }

  ghost predicate Confluent(ok: Op -> bool, base: Dag, d: set<Op>) {
    forall a, b | Offered(a) == d && Offered(b) == d && Lossless(ok, base, a) && Lossless(ok, base, b) ::
      SameOutcome(Run(ok, base, a), Run(ok, base, b))
  }

  // ---------------------------------------------------------------- runs

  lemma {:induction false} DrainGrows(ok: Op -> bool, m: Dag)
    ensures m.evicted <= MergePending(ok, m).evicted && m.applied <= MergePending(ok, m).applied
    ensures |MergePending(ok, m).parked| <= |m.parked|
    ensures |m.parked| <= MAX_PARKED_OPS ==> MergePending(ok, m).evicted == m.evicted
    decreases |m.parked|
  {
    var r := Retry(ok, m.(parked := []), m.parked);
    RetryGrows(ok, m.(parked := []), m.parked);
    assert |m.applied| <= |r.applied| by { assert r.applied == m.applied + (r.applied - m.applied); }
    if r.applied != m.applied {
      ProgressShrinksTheQueue(ok, m);
      DrainGrows(ok, r);
    }
  }

  lemma DeliverGrows(ok: Op -> bool, m: Dag, a: AuthorizedOp)
    ensures m.evicted <= Deliver(ok, m, a).evicted && m.applied <= Deliver(ok, m, a).applied
    ensures |Deliver(ok, m, a).parked| <= |m.parked| + 1
    ensures |m.parked| < MAX_PARKED_OPS ==> Deliver(ok, m, a).evicted == m.evicted
  {
    DrainGrows(ok, MergeVerified(ok, m, a));
  }

  lemma {:induction false} RunGrows(ok: Op -> bool, m: Dag, ds: seq<AuthorizedOp>)
    ensures m.evicted <= Run(ok, m, ds).evicted && m.applied <= Run(ok, m, ds).applied
    ensures |Run(ok, m, ds).parked| <= |m.parked| + |ds|
    ensures |m.parked| + |ds| <= MAX_PARKED_OPS ==> Run(ok, m, ds).evicted == m.evicted
    decreases |ds|
  {
    if ds == [] {
    } else {
      RunGrows(ok, m, ds[..|ds| - 1]);
      DeliverGrows(ok, Run(ok, m, ds[..|ds| - 1]), ds[|ds| - 1]);
    }
  }

  lemma {:induction false} RunAppends(ok: Op -> bool, m: Dag, a: seq<AuthorizedOp>, b: seq<AuthorizedOp>)
    ensures Run(ok, m, a + b) == Run(ok, Run(ok, m, a), b)
    decreases |b|
  {
    if b == [] {
      assert a + b == a;
    } else {
      assert (a + b)[..|a + b| - 1] == a + b[..|b| - 1];
      RunAppends(ok, m, a, b[..|b| - 1]);
    }
  }

  lemma {:induction false} RunIsSound(ok: Op -> bool, base: Dag, d: set<Op>, ds: seq<AuthorizedOp>)
    requires Sound(base) && Settled(base) && Lossless(ok, base, ds)
    requires ParkedOps(base) + Offered(ds) <= d
    ensures Consistent(ok, base, d, Run(ok, base, ds)) && Settled(Run(ok, base, ds))
    ensures forall op | op in ParkedOps(base) + Offered(ds) :: Accounted(ok, base, Run(ok, base, ds), op)
    decreases |ds|
  {
    if ds == [] {
      SelfConsistent(ok, base);
      assert Causal(ok, base, []) && Elems([]) == {};
    } else {
      var init, last := ds[..|ds| - 1], ds[|ds| - 1];
      assert ds == init + [last];
      RunGrows(ok, base, init);
      DeliverGrows(ok, Run(ok, base, init), last);
      assert Offered(ds) == Offered(init) + if last.signatureOk then {last.op} else {};
      RunIsSound(ok, base, d, init);
      DeliveryIsSound(ok, base, d, Run(ok, base, init), last);
    }
  }

  // ---------------------------------------------------------------- agreement

  lemma {:induction false} CausalPrefix(ok: Op -> bool, base: Dag, s: seq<Op>, k: nat)
    requires Causal(ok, base, s) && k <= |s|
    ensures Causal(ok, base, s[..k])
    decreases |s|
  {
    if k < |s| {
      CausalPrefix(ok, base, s[..|s| - 1], k);
      assert s[..|s| - 1][..k] == s[..k];
    } else {
      assert s[..k] == s;
    }
  }

  lemma AppliedIsCertifiedAndTimely(ok: Op -> bool, base: Dag, d: set<Op>, m: Dag, op: Op)
    requires Justified(ok, base, d) && Supported(ok, base, d, m)
    requires op in m.applied && op !in base.applied
    ensures ok(op) && !Late(base, op) && op in d
  {
    var s :| Causal(ok, base, s) && m.applied == base.applied + Elems(s) && Elems(s) <= d;
    assert op in Elems(s);
    var i :| 0 <= i < |s| && s[i] == op;
    CausalPrefix(ok, base, s, i + 1);
    var p := s[..i + 1];
    assert Elems(p) <= Elems(s) && p[|p| - 1] == op;
    assert Causal(ok, base, p);
  }

  lemma {:induction false} AppliedAgrees(ok: Op -> bool, base: Dag, d: set<Op>, m: Dag, n: Dag, op: Op)
    requires Justified(ok, base, d) && Consistent(ok, base, d, m) && Consistent(ok, base, d, n)
    requires Settled(n) && (forall o | o in d :: Accounted(ok, base, n, o))
    requires op in m.applied
    ensures op in n.applied
    decreases op
  {
    if op !in base.applied {
      forall p | p in op.preds
        ensures p in n.applied
      {
        assert p in m.applied;
        AppliedAgrees(ok, base, d, m, n, p);
      }
      AppliedIsCertifiedAndTimely(ok, base, d, m, op);
      assert Accounted(ok, base, n, op);
    }
  }

  lemma ParkedAgrees(ok: Op -> bool, base: Dag, d: set<Op>, m: Dag, n: Dag, op: Op)
    requires Consistent(ok, base, d, m) && Settled(m) && m.applied == n.applied && DownClosed(n.applied)
    requires (forall o | o in d :: Accounted(ok, base, n, o)) && op in ParkedOps(m)
    ensures op in ParkedOps(n)
  {
    assert Accounted(ok, base, n, op);
    assert !(op.preds <= m.applied);
  }

  /** Every order and repetition of the same operations, delivered without loss, ends the same. */
  lemma DeliveryOrderDoesNotMatter(ok: Op -> bool, base: Dag, a: seq<AuthorizedOp>, b: seq<AuthorizedOp>)
    requires Sound(base) && Settled(base) && Offered(a) == Offered(b)
    requires Lossless(ok, base, a) && Lossless(ok, base, b)
    requires Justified(ok, base, ParkedOps(base) + Offered(a))
    ensures SameOutcome(Run(ok, base, a), Run(ok, base, b))
  {
    var d := ParkedOps(base) + Offered(a);
    var m, n := Run(ok, base, a), Run(ok, base, b);
    RunIsSound(ok, base, d, a);
    RunIsSound(ok, base, d, b);
    OutcomesAgree(ok, base, d, m, n);
  }

  lemma OutcomesAgree(ok: Op -> bool, base: Dag, d: set<Op>, m: Dag, n: Dag)
    requires Justified(ok, base, d) && Consistent(ok, base, d, m) && Consistent(ok, base, d, n)
    requires Settled(m) && Settled(n)
    requires forall o | o in d :: Accounted(ok, base, m, o) && Accounted(ok, base, n, o)
    ensures SameOutcome(m, n)
  {
    forall op | op in m.applied ensures op in n.applied { AppliedAgrees(ok, base, d, m, n, op); }
    forall op | op in n.applied ensures op in m.applied { AppliedAgrees(ok, base, d, n, m, op); }
    assert m.applied == n.applied;
    forall op | op in ParkedOps(m) ensures op in ParkedOps(n) { ParkedAgrees(ok, base, d, m, n, op); }
    forall op | op in ParkedOps(n) ensures op in ParkedOps(m) { ParkedAgrees(ok, base, d, n, m, op); }
  }

  /** It suffices that each issuer is known, is never added, or was added in the op's history. */
  lemma AddedInHistoryIsJustified(ok: Op -> bool, base: Dag, d: set<Op>)
    requires Sound(base)
    requires forall o | o in d :: o.issuer in base.known || o.issuer !in Adds(d) || o.issuer in Adds(Ancestors(o))
    ensures Justified(ok, base, d)
  {
    forall s | Causal(ok, base, s) && s != [] && Elems(s) <= d
      ensures !Late(base, s[|s| - 1])
    {
      var last := s[|s| - 1];
      assert last in Elems(s);
      var init := s[..|s| - 1];
      assert Elems(init) <= Elems(s);
      assert Adds(base.applied + Elems(init)) <= Adds(base.applied) + Adds(d);
    }
  }

  // ---------------------------------------------------------------- the condition is exact

  function Send(s: seq<Op>): (r: seq<AuthorizedOp>)
    ensures |r| == |s| && forall i | 0 <= i < |s| :: r[i] == AuthorizedOp(s[i], [], true)
  {
    seq(|s|, i requires 0 <= i < |s| => AuthorizedOp(s[i], [], true))
  }

  lemma SendOffers(s: seq<Op>)
    ensures Offered(Send(s)) == Elems(s)
  {
    forall o | o in Elems(s)
      ensures o in Offered(Send(s))
    {
      var i :| 0 <= i < |s| && s[i] == o;
      assert Send(s)[i] in Send(s);
    }
  }

  lemma OfferedAppends(a: seq<AuthorizedOp>, b: seq<AuthorizedOp>)
    ensures Offered(a + b) == Offered(a) + Offered(b)
  {
  }

  ghost function Listing(d: set<Op>): (r: seq<Op>)
    ensures Elems(r) == d && |r| == |d|
  {
    if d == {} then [] else
      var o :| o in d;
      var rest := Listing(d - {o});
      ElemsLast(rest + [o]);
      assert (rest + [o])[..|rest|] == rest;
      rest + [o]
  }

  /** A member's certified operation with its predecessors in hand goes straight in. */
  lemma PromptlyApplied(ok: Op -> bool, base: Dag, m: Dag, op: Op)
    requires Grown(base, m) && m.parked == [] && op !in m.applied && op.preds <= m.applied
    requires op.issuer in m.known && ok(op)
    ensures var r := Deliver(ok, m, AuthorizedOp(op, [], true));
            Grown(base, r) && r.applied == m.applied + {op} && r.parked == [] && r.evicted == m.evicted
  {
    ApplyFacts(m, op);
    ApplyStaysGrown(ok, base, m, op);
    NothingToDrain(ok, Apply(m, op));
  }

  /** A causal run, sent in its own order, is applied whole and parks nothing. */
  lemma {:induction false} CausalRunIsApplied(ok: Op -> bool, base: Dag, s: seq<Op>)
    requires Sound(base) && base.parked == [] && Causal(ok, base, s)
    ensures var r := Run(ok, base, Send(s));
            Grown(base, r) && r.applied == base.applied + Elems(s) && r.parked == [] && r.evicted == base.evicted
    decreases |s|
  {
    if s == [] {
    } else {
      var init, last := s[..|s| - 1], s[|s| - 1];
      CausalRunIsApplied(ok, base, init);
      ElemsLast(s);
      Regroup(base.applied, Elems(init), {last});
      SendLast(ok, base, s);
      var m := Run(ok, base, Send(init));
      PromptlyApplied(ok, base, m, last);
    }
  }

  lemma SendLast(ok: Op -> bool, m: Dag, s: seq<Op>)
    requires s != []
    ensures Run(ok, m, Send(s)) == Deliver(ok, Run(ok, m, Send(s[..|s| - 1])), AuthorizedOp(s[|s| - 1], [], true))
  {
    assert Send(s)[..|s| - 1] == Send(s[..|s| - 1]);
  }

  lemma ElemsLast(s: seq<Op>)
    requires s != []
    ensures Elems(s) == Elems(s[..|s| - 1]) + {s[|s| - 1]}
  {
    assert s == s[..|s| - 1] + [s[|s| - 1]];
  }

  lemma NothingToDrain(ok: Op -> bool, m: Dag)
    requires m.parked == []
    ensures MergePending(ok, m) == m
  {
    assert m.(parked := []) == m;
  }

  lemma {:induction false} AncestryIsTransitive(x: Op, o: Op)
    requires x in Ancestors(o)
    ensures Ancestors(x) <= Ancestors(o)
  {
    if x !in o.preds {
      var p, a :| p in o.preds && a in Ancestors(p) && a == x;
      AncestryIsTransitive(x, p);
    }
  }

  lemma {:induction false} CausalIsClosed(ok: Op -> bool, base: Dag, s: seq<Op>)
    requires DownClosed(base.applied) && Causal(ok, base, s)
    ensures DownClosed(base.applied + Elems(s))
    decreases |s|
  {
    if s == [] {
    } else {
      CausalIsClosed(ok, base, s[..|s| - 1]);
      assert s == s[..|s| - 1] + [s[|s| - 1]];
      assert Elems(s) == Elems(s[..|s| - 1]) + {s[|s| - 1]};
    }
  }

  ghost function Only(s: seq<Op>, keep: set<Op>): (r: seq<Op>)
    ensures Elems(r) == Elems(s) * keep
    decreases |s|
  {
    if s == [] then [] else
      var init, last := s[..|s| - 1], s[|s| - 1];
      assert s == init + [last];
      assert Elems(s) == Elems(init) + {last};
      var r := Only(init, keep);
      assert Elems(r + [last]) == Elems(r) + {last};
      if last in keep then r + [last] else r
  }

  /** The part of a timely causal run that lies in one operation's history is itself causal. */
  lemma {:induction false} HistoryIsCausal(ok: Op -> bool, base: Dag, s: seq<Op>, o: Op)
    requires Sound(base) && Causal(ok, base, s) && (forall x | x in s :: !Late(base, x))
    ensures Causal(ok, base, Only(s, Ancestors(o)))
    decreases |s|
  {
    if s == [] {
    } else {
      var init, last := s[..|s| - 1], s[|s| - 1];
      assert s == init + [last];
      HistoryIsCausal(ok, base, init, o);
      if last in Ancestors(o) {
        var t := Only(init, Ancestors(o));
        assert last in s && !Late(base, last);
        AncestryIsTransitive(last, o);
        CausalIsClosed(ok, base, init);
        AncestorsAreInside(base.applied + Elems(init), last);
        assert Ancestors(last) <= base.applied + Elems(t);
        assert Adds(Ancestors(last)) <= Adds(base.applied + Elems(t));
        CausalGrows(ok, base, t, last);
      }
    }
  }

  lemma {:induction false} FirstLate(base: Dag, s: seq<Op>) returns (k: nat)
    requires s != [] && Late(base, s[|s| - 1])
    ensures k < |s| && Late(base, s[k]) && forall i | 0 <= i < k :: !Late(base, s[i])
  {
    k := 0;
    while !Late(base, s[k])
      invariant k < |s| && forall i | 0 <= i < k :: !Late(base, s[i])
      decreases |s| - k
    {
      k := k + 1;
    }
  }

  lemma NeverOfferedNeverMerged(ok: Op -> bool, m: Dag, a: AuthorizedOp, o: Op)
    requires o !in m.applied && o !in ParkedOps(m) && a.op != o
    ensures o !in MergeVerified(ok, m, a).applied && o !in ParkedOps(MergeVerified(ok, m, a))
  {
  }

  lemma {:induction false} NeverOfferedNeverRetried(ok: Op -> bool, m: Dag, cs: seq<AuthorizedOp>, o: Op)
    requires o !in m.applied && o !in ParkedOps(m) && forall a | a in cs :: a.op != o
    ensures o !in Retry(ok, m, cs).applied && o !in ParkedOps(Retry(ok, m, cs))
    decreases |cs|
  {
    if cs == [] {
    } else {
      NeverOfferedNeverRetried(ok, m, cs[..|cs| - 1], o);
      NeverOfferedNeverMerged(ok, Retry(ok, m, cs[..|cs| - 1]), cs[|cs| - 1], o);
    }
  }

  lemma {:induction false} NeverOfferedNeverDrained(ok: Op -> bool, m: Dag, o: Op)
    requires o !in m.applied && o !in ParkedOps(m)
    ensures o !in MergePending(ok, m).applied && o !in ParkedOps(MergePending(ok, m))
    decreases |m.parked|
  {
    var r := Retry(ok, m.(parked := []), m.parked);
    assert forall a | a in m.parked :: a.op in ParkedOps(m);
    NeverOfferedNeverRetried(ok, m.(parked := []), m.parked, o);
    if r.applied != m.applied {
      ProgressShrinksTheQueue(ok, m);
      NeverOfferedNeverDrained(ok, r, o);
    }
  }

  lemma {:induction false} NeverOfferedNeverApplied(ok: Op -> bool, m: Dag, ds: seq<AuthorizedOp>, o: Op)
    requires o !in m.applied && o !in ParkedOps(m) && o !in Offered(ds)
    ensures o !in Run(ok, m, ds).applied && o !in ParkedOps(Run(ok, m, ds))
    decreases |ds|
  {
    if ds == [] {
    } else {
      var init, last := ds[..|ds| - 1], ds[|ds| - 1];
      assert ds == init + [last];
      assert Offered(ds) == Offered(init) + if last.signatureOk then {last.op} else {};
      var m' := Run(ok, m, init);
      NeverOfferedNeverApplied(ok, m, init, o);
      if last.signatureOk {
        NeverOfferedNeverMerged(ok, m', last, o);
        NeverOfferedNeverDrained(ok, MergeVerified(ok, m', last), o);
      }
    }
  }

  /** Right after its own history, a late operation is turned away. */
  lemma LateIsTurnedAway(ok: Op -> bool, base: Dag, s: seq<Op>, o: Op)
    requires Sound(base) && base.parked == [] && Causal(ok, base, s) && o.preds <= base.applied + Elems(s)
    requires Late(base, o) && forall x | x in s :: !Late(base, x)
    ensures var m := Run(ok, base, Send(Only(s, Ancestors(o))));
            && Verdict(ok, m, o) == Unauthorized
            && m.applied <= base.applied + Elems(s) && m.parked == [] && m.evicted == base.evicted
  {
    var t := Only(s, Ancestors(o));
    HistoryIsCausal(ok, base, s, o);
    CausalRunIsApplied(ok, base, t);
    var m := Run(ok, base, Send(t));
    assert o.preds <= m.applied;
    assert Adds(m.applied) <= Adds(base.applied) + Adds(Ancestors(o));
  }

  lemma RefusalChangesNothing(ok: Op -> bool, m: Dag, o: Op)
    requires Verdict(ok, m, o) == Unauthorized
    ensures Run(ok, m, [AuthorizedOp(o, [], true)]) == m
  {
    var late := [AuthorizedOp(o, [], true)];
    assert late[..0] == [] && Run(ok, m, []) == m;
  }

  lemma RefusedThenForgotten(ok: Op -> bool, base: Dag, first: seq<AuthorizedOp>, o: Op, rest: seq<AuthorizedOp>)
    requires var m := Run(ok, base, first);
             && Verdict(ok, m, o) == Unauthorized && o !in m.applied
             && m.parked == [] && m.evicted == base.evicted
    requires |rest| <= MAX_PARKED_OPS && o !in Offered(rest)
    ensures Lossless(ok, base, first + [AuthorizedOp(o, [], true)] + rest)
    ensures o !in Run(ok, base, first + [AuthorizedOp(o, [], true)] + rest).applied
  {
    var m, late := Run(ok, base, first), [AuthorizedOp(o, [], true)];
    RefusalChangesNothing(ok, m, o);
    RunAppends(ok, base, first, late);
    RunAppends(ok, base, first + late, rest);
    RunGrows(ok, m, rest);
    NeverOfferedNeverApplied(ok, m, rest, o);
  }

  lemma OffersEverything(t: seq<Op>, o: Op, d: set<Op>)
    requires Elems(t) <= d && o in d
    ensures Offered(Send(t) + [AuthorizedOp(o, [], true)] + Send(Listing(d - {o}))) == d
  {
    var rest := Listing(d - {o});
    SendAppends(t, [o]);
    SendAppends(t + [o], rest);
    assert Send([o]) == [AuthorizedOp(o, [], true)];
    SendOffers(t + [o] + rest);
    ElemsOfThree(t, o, rest);
    Refill(Elems(t), o, d);
  }

  lemma SendAppends(a: seq<Op>, b: seq<Op>)
    ensures Send(a + b) == Send(a) + Send(b)
  {
  }

  lemma ElemsOfThree(t: seq<Op>, o: Op, rest: seq<Op>)
    ensures Elems(t + [o] + rest) == Elems(t) + {o} + Elems(rest)
  {
  }

  /** Deliver a late operation right after its own history and never again: it is lost for good. */
  lemma HistoryFirstLosesIt(ok: Op -> bool, base: Dag, d: set<Op>, s: seq<Op>, o: Op) returns (a: seq<AuthorizedOp>)
    requires Sound(base) && base.parked == [] && |d| <= MAX_PARKED_OPS
    requires Causal(ok, base, s) && o in d && Elems(s) <= d
    requires o !in base.applied + Elems(s) && o.preds <= base.applied + Elems(s)
    requires Late(base, o) && forall x | x in s :: !Late(base, x)
    ensures Offered(a) == d && Lossless(ok, base, a) && o !in Run(ok, base, a).applied
  {
    var t, rest := Only(s, Ancestors(o)), Send(Listing(d - {o}));
    LateIsTurnedAway(ok, base, s, o);
    SendOffers(Listing(d - {o}));
    RefusedThenForgotten(ok, base, Send(t), o, rest);
    OffersEverything(t, o, d);
    a := Send(t) + [AuthorizedOp(o, [], true)] + rest;
  }

  lemma VoucherFirstKeepsIt(ok: Op -> bool, base: Dag, d: set<Op>, s: seq<Op>, o: Op) returns (b: seq<AuthorizedOp>)
    requires Sound(base) && base.parked == [] && |d| <= MAX_PARKED_OPS
    requires Causal(ok, base, s) && o in Elems(s) && Elems(s) <= d
    ensures Offered(b) == d && Lossless(ok, base, b) && o in Run(ok, base, b).applied
  {
    CausalRunIsApplied(ok, base, s);
    var m, rest := Run(ok, base, Send(s)), Send(Listing(d));
    b := Send(s) + rest;
    RunAppends(ok, base, Send(s), rest);
    RunGrows(ok, m, rest);
    SendOffers(s);
    SendOffers(Listing(d));
    OfferedAppends(Send(s), rest);
  }

  lemma PrefixElems(s: seq<Op>, k: nat)
    requires k <= |s|
    ensures Elems(s[..k]) <= Elems(s)
  {
  }

  /** The first late operation of a causal run, and the timely run before it. */
  lemma FirstLateOperation(ok: Op -> bool, base: Dag, d: set<Op>, s: seq<Op>) returns (init: seq<Op>, o: Op)
    requires Causal(ok, base, s) && s != [] && Elems(s) <= d && Late(base, s[|s| - 1])
    ensures Causal(ok, base, init + [o]) && Elems(init + [o]) <= d && Late(base, o)
    ensures forall x | x in init :: !Late(base, x)
  {
    var k := FirstLate(base, s);
    CausalPrefix(ok, base, s, k + 1);
    PrefixElems(s, k + 1);
    PrefixNext(s, k);
    init, o := s[..k], s[k];
  }

  lemma CausalLast(ok: Op -> bool, base: Dag, init: seq<Op>, o: Op)
    requires Causal(ok, base, init + [o])
    ensures Causal(ok, base, init) && o in Elems(init + [o]) && Elems(init) <= Elems(init + [o])
    ensures o !in base.applied + Elems(init) && o.preds <= base.applied + Elems(init)
  {
    var s := init + [o];
    assert s[..|s| - 1] == init && s[|s| - 1] == o;
    ElemsLast(s);
  }

  lemma LateOperationsDiverge(ok: Op -> bool, base: Dag, d: set<Op>)
    requires Sound(base) && base.parked == [] && |d| <= MAX_PARKED_OPS
    requires !Justified(ok, base, d)
    ensures !Confluent(ok, base, d)
  {
    var s: seq<Op> :| Causal(ok, base, s) && s != [] && Elems(s) <= d && Late(base, s[|s| - 1]);
    var init, o := FirstLateOperation(ok, base, d, s);
    CausalLast(ok, base, init, o);
    var a := HistoryFirstLosesIt(ok, base, d, init, o);
    var b := VoucherFirstKeepsIt(ok, base, d, init + [o], o);
    assert !SameOutcome(Run(ok, base, a), Run(ok, base, b));
  }

  /**
   From a fresh queue and for any set of operations the queue can hold, all loss-free deliveries
   agree if and only if no operation is ever vouched for only from outside its own history.
   */
  lemma ConfluenceIsJustification(ok: Op -> bool, base: Dag, d: set<Op>)
    requires Sound(base) && base.parked == [] && |d| <= MAX_PARKED_OPS
    ensures Confluent(ok, base, d) <==> Justified(ok, base, d)
  {
    if Justified(ok, base, d) {
      assert ParkedOps(base) == {};
      forall a, b | Offered(a) == d && Offered(b) == d && Lossless(ok, base, a) && Lossless(ok, base, b)
        ensures SameOutcome(Run(ok, base, a), Run(ok, base, b))
      {
        assert ParkedOps(base) + Offered(a) == d;
        DeliveryOrderDoesNotMatter(ok, base, a, b);
      }
    } else {
      LateOperationsDiverge(ok, base, d);
    }
  }

  // ---------------------------------------------------------------- with operations already waiting

  /** One member's operation, delivered however often: the first delivery decides. */
  lemma {:induction false} OneOperationRuns(ok: Op -> bool, base: Dag, r: Op, ds: seq<AuthorizedOp>)
    requires Verdict(ok, base, r) == Applied && Offered(ds) <= {r}
    ensures Run(ok, base, ds) == if Offered(ds) == {} then base else MergePending(ok, Apply(base, r))
    decreases |ds|
  {
    if ds == [] {
    } else {
      var init, last := ds[..|ds| - 1], ds[|ds| - 1];
      assert ds == init + [last];
      assert Offered(ds) == Offered(init) + if last.signatureOk then {last.op} else {};
      OneOperationRuns(ok, base, r, init);
      if last.signatureOk && Offered(init) != {} { KnownIsDuplicate(ok, base, r); }
    }
  }

  lemma KnownIsDuplicate(ok: Op -> bool, base: Dag, r: Op)
    requires Verdict(ok, base, r) == Applied
    ensures Verdict(ok, MergePending(ok, Apply(base, r)), r) == Duplicate
  {
    ApplyFacts(base, r);
    DrainGrows(ok, Apply(base, r));
    DrainKeepsMembers(ok, Apply(base, r));
  }

  lemma {:induction false} DrainKeepsMembers(ok: Op -> bool, m: Dag)
    ensures m.known <= MergePending(ok, m).known
    decreases |m.parked|
  {
    var r := Retry(ok, m.(parked := []), m.parked);
    RetryGrows(ok, m.(parked := []), m.parked);
    if r.applied != m.applied {
      ProgressShrinksTheQueue(ok, m);
      DrainKeepsMembers(ok, r);
    }
  }

  /** An update by `f`, and, on top of it, `f` adding `x` and an update by `x`. */
  ghost function Root(f: Id): Op { Op({}, f, Update, 0) }
  ghost function Voucher(f: Id, x: Id): Op { Op({Root(f)}, f, Add(x), 0) }
  ghost function VouchedFor(f: Id, x: Id): Op { Op({Root(f)}, x, Update, 0) }

  /** Both wait for the update, the voucher in front. */
  ghost function VoucherWaits(f: Id, x: Id): Dag {
    Dag({}, {f}, {f}, Send([Voucher(f, x), VouchedFor(f, x)]), 0)
  }

  lemma VouchedIsLate(f: Id, x: Id)
    requires f != x
    ensures Late(VoucherWaits(f, x), VouchedFor(f, x))
  {
    assert Ancestors(Root(f)) == {};
    assert Ancestors(VouchedFor(f, x)) == {Root(f)};
    assert Adds({Root(f)}) == {};
  }

  lemma VouchedRunIsCausal(ok: Op -> bool, f: Id, x: Id)
    requires f != x && forall o :: ok(o)
    ensures Causal(ok, VoucherWaits(f, x), [Root(f), Voucher(f, x), VouchedFor(f, x)])
  {
    var base, r, v, o := VoucherWaits(f, x), Root(f), Voucher(f, x), VouchedFor(f, x);
    assert Causal(ok, base, []) && Elems([]) == {};
    CausalGrows(ok, base, [], r);
    assert [] + [r] == [r];
    CausalGrows(ok, base, [r], v);
    assert [r] + [v] == [r, v];
    assert v in base.applied + Elems([r, v]);
    CausalGrows(ok, base, [r, v], o);
    assert [r, v] + [o] == [r, v, o];
  }

  /**
   With operations already waiting the condition is no longer exact: a waiting voucher is applied by
   the very drain that judges the operation it vouches for, so the queue's order decides and the order
   of delivery does not.
   */
  lemma WaitingVoucherDecides(ok: Op -> bool, f: Id, x: Id)
    requires f != x && forall o :: ok(o)
    ensures var base := VoucherWaits(f, x);
            && Sound(base) && Settled(base) && Confluent(ok, base, {Root(f)})
            && !Justified(ok, base, ParkedOps(base) + {Root(f)})
  {
    var base, s := VoucherWaits(f, x), [Root(f), Voucher(f, x), VouchedFor(f, x)];
    forall a, b | Offered(a) == {Root(f)} && Offered(b) == {Root(f)}
      ensures Run(ok, base, a) == Run(ok, base, b)
    {
      OneOperationRuns(ok, base, Root(f), a);
      OneOperationRuns(ok, base, Root(f), b);
    }
    VouchedRunIsCausal(ok, f, x);
    VouchedIsLate(f, x);
    assert base.parked[0].op == Voucher(f, x) && base.parked[1].op == VouchedFor(f, x);
    assert base.parked[0] in base.parked && base.parked[1] in base.parked;
    assert Elems(s) <= ParkedOps(base) + {Root(f)};
  }
}
