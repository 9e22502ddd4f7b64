/**
 `CgkaController` of crates/iroh-beekem-core/src/keys.rs: the parking queue, the member sets and the
 certificate store updated in place, proved against `MergeMachine` and `Authority`.
 */
module CgkaController {
  import opened Ordered
  import opened Certificates
  import opened Holdings
  import opened CapabilityStore
  import opened MergeMachine
  import opened Authority

  class CgkaController {
    const certs: Store
    var applied: set<Op>
    var knownMembers: set<Id>
    var currentMembers: set<Id>
    var parked: seq<AuthorizedOp>
    var evictedOps: nat

    function Graph(): Dag
      reads this
    {
      Dag(applied, knownMembers, currentMembers, parked, evictedOps)
    }

    ghost function State(): Authority.Controller
      reads this, certs
    {
      Authority.Controller(certs.View(), Graph())
    }

    ghost predicate Valid()
      reads this, certs
    {
      certs.Valid() && |parked| <= MAX_PARKED_OPS
    }

    /** Found a workspace: the founder's own `Add` is self-issued and has no predecessors. */
    constructor Create(founder: Id, nonce: nat)
      ensures Valid() && fresh(certs)
      ensures State() == Authority.Controller(
                           Empty(founder),
                           Dag({Op({}, founder, Add(founder), nonce)}, {founder}, {founder}, [], 0))
    {
      certs := new Store(founder);
      applied := {Op({}, founder, Add(founder), nonce)};
      knownMembers, currentMembers, parked, evictedOps := {founder}, {founder}, [], 0;
    }

    method ParkOp(a: AuthorizedOp)
      modifies this`parked, this`evictedOps
      ensures Graph() == Park(old(Graph()), a)
    {
      if |parked| >= MAX_PARKED_OPS {
        parked := parked[1..];
        evictedOps := evictedOps + 1;
      }
      parked := parked + [a];
    }

    method Enact(op: Op)
      modifies this`applied, this`knownMembers, this`currentMembers
      ensures Graph() == Apply(old(Graph()), op)
    {
      applied := applied + {op};
      match op.change {
        case Add(x) =>
          knownMembers := knownMembers + {x};
          currentMembers := currentMembers + {x};
        case Remove(x) =>
          currentMembers := currentMembers - {x};
        case Update =>
      }
    }

    /** The receiver's check, against the verdicts the store has derived. */
    method IsAuthorized(op: Op) returns (authorized: bool)
      requires certs.Valid()
      ensures authorized == CertifiedBy(certs.View())(op)
    {
      authorized := Authorize(certs.View(), certs.derived, op);
    }

    /** Predecessors, membership, authority, repetition, in that order. */
    method Assess(op: Op) returns (outcome: Outcome)
      requires certs.Valid()
      ensures outcome == Verdict(CertifiedBy(certs.View()), Graph(), op)
    {
      if !(op.preds <= applied) { return Deferred; }
      if op.issuer !in knownMembers { return Unauthorized; }
      var authorized := IsAuthorized(op);
      if !authorized { return Uncertified; }
      outcome := if op in applied then Duplicate else Applied;
    }

    /** What each outcome does to the queue and the graph. */
    method CarryOut(a: AuthorizedOp, outcome: Outcome, ghost ok: Op -> bool)
      requires outcome == Verdict(ok, Graph(), a.op)
      modifies this
      ensures Graph() == MergeVerified(ok, old(Graph()), a)
    {
      if outcome == Deferred {
        ParkOp(a);
      } else if outcome == Applied {
        Enact(a.op);
      }
    }

    method MergeChecked(a: AuthorizedOp) returns (outcome: Outcome)
      requires certs.Valid()
      modifies this
      ensures outcome == Verdict(CertifiedBy(certs.View()), old(Graph()), a.op)
      ensures Graph() == MergeVerified(CertifiedBy(certs.View()), old(Graph()), a)
    {
      ghost var c := certs.View();
      outcome := Assess(a.op);
      CarryOut(a, outcome, CertifiedBy(c));
      assert certs.View() == c;
    }

    /** One round: retry everything that was waiting, counting what became applicable. */
    method RetryRound(candidates: seq<AuthorizedOp>) returns (count: nat)
      requires certs.Valid()
      modifies this
      ensures Graph() == Retry(CertifiedBy(certs.View()), old(Graph()), candidates)
      ensures old(applied) <= applied && |applied| == |old(applied)| + count
    {
      ghost var ok, start := CertifiedBy(certs.View()), Graph();
      count := 0;
      for i := 0 to |candidates|
        invariant Graph() == Retry(ok, start, candidates[..i])
        invariant start.applied <= applied && |applied| == |start.applied| + count
      {
        assert candidates[..i + 1][..i] == candidates[..i];
        MergeFacts(ok, Graph(), candidates[i]);
        var outcome := MergeChecked(candidates[i]);
        if outcome == Applied { count := count + 1; }
      }
      assert candidates[..|candidates|] == candidates;
    }

    /** Retry the queue until a round makes no progress; the total is what became applicable. */
    method DrainParked() returns (total: nat)
      requires Valid()
      modifies this
      ensures Valid() && Graph() == MergePending(CertifiedBy(certs.View()), old(Graph()))
      ensures |applied| == |old(applied)| + total && evictedOps == old(evictedOps)
    {
      ghost var ok, start := CertifiedBy(certs.View()), Graph();
      total := 0;
      while true
        invariant |parked| <= MAX_PARKED_OPS && evictedOps == start.evicted
        invariant MergePending(ok, Graph()) == MergePending(ok, start)
        invariant |applied| == |start.applied| + total
        decreases |parked|
      {
        ghost var before := Graph();
        var candidates := parked;
        parked := [];
        assert Graph() == before.(parked := []);
        RetryGrows(ok, Graph(), candidates);
        ProgressShrinksTheQueue(ok, before);
        var count := RetryRound(candidates);
        SameSizeSameSet(before.applied, applied);
        total := total + count;
        if count == 0 {
          return;
        }
      }
    }

    method MergeAndDrain(a: AuthorizedOp) returns (outcome: Outcome)
      requires Valid() && a.signatureOk
      modifies this
      ensures Valid() && Graph() == Deliver(CertifiedBy(certs.View()), old(Graph()), a)
      ensures outcome == Verdict(CertifiedBy(certs.View()), old(Graph()), a.op)
    {
      MergeFacts(CertifiedBy(certs.View()), Graph(), a);
      outcome := MergeChecked(a);
      if outcome == Applied {
        var _ := DrainParked();
      }
    }

    /** `merge`, then `merge_pending` when something was applied, as `on_control_op` drives them. */
    method OnControlOp(a: AuthorizedOp, ghost issued: Certs) returns (outcome: Outcome)
      requires Valid() && Within(certs.View(), issued) && AllGenuine(issued, a.proof)
      modifies this, certs
      ensures Valid() && Within(certs.View(), issued)
      ensures State() == Receive(old(State()), ControlOp(a))
      ensures outcome == if !a.signatureOk then Outcome.BadSignature
                         else Verdict(CertifiedBy(certs.View()), old(Graph()), a.op)
    {
      if !a.signatureOk { return Outcome.BadSignature; }
      var _ := certs.Extend(a.proof, issued);
      ghost var c := certs.View();
      outcome := MergeAndDrain(a);
      assert certs.View() == c;
    }

    /** Certificates may have made a waiting operation admissible, so the queue is retried. */
    method DrainIf(changed: bool)
      requires Valid()
      modifies this
      ensures Valid() && certs.View() == old(certs.View())
      ensures Graph() == if changed then MergePending(CertifiedBy(certs.View()), old(Graph())) else old(Graph())
    {
      if changed {
        var _ := DrainParked();
      }
    }

    method OnCertsArrived(xs: seq<Certificate>, ghost issued: Certs) returns (added: nat)
      requires Valid() && Within(certs.View(), issued) && AllGenuine(issued, xs)
      modifies this, certs
      ensures Valid() && Within(certs.View(), issued)
      ensures State() == Receive(old(State()), CertsArrived(xs))
      ensures Len(certs.View()) == Len(old(certs.View())) + added
    {
      added := certs.Extend(xs, issued);
      DrainIf(added > 0);
    }
  }

  lemma SameSizeSameSet(a: set<Op>, b: set<Op>)
    requires a <= b
    ensures |a| == |b| <==> a == b
  {
    assert b == a + (b - a);
    if |a| == |b| { assert b - a == {}; }
  }
}
