/**
 The receiver's check: `authorize` of crates/iroh-beekem-core/src/keys.rs, a pure decision over the
 operation and the certificate closure, and what it guarantees over whole runs in which
 operations and certificates arrive in any order.
 */
module Authority {
  import opened Ordered
  import opened Certificates
  import opened Closure
  import opened ClosureTheorems
  import opened ClosureGrowth
  import opened Roles
  import opened Holdings
  import opened CapabilityStore
  import opened MergeMachine
  import opened MergeConfluence
  import opened MergeLaws

  predicate SameUser(v: Verdicts, a: Id, b: Id) {
    var users := v.closure.users;
    a in users && b in users && users[a] == users[b]
  }

  /** The device's owner holds the Admin role now. */
  predicate MayAdminister(v: Verdicts, device: Id) {
    var users := v.closure.users;
    device in users && users[device] in v.roles && v.roles[users[device]] == Admin
  }

  predicate MayBindDeviceTo(v: Verdicts, issuer: Id, user: Id) {
    (issuer in v.closure.users && v.closure.users[issuer] == user) || MayAdminister(v, issuer)
  }

  predicate Authorize(c: Certs, v: Verdicts, op: Op) {
    match op.change
    case Add(x) =>
      x in v.closure.users && MayBindDeviceTo(v, op.issuer, v.closure.users[x])
    case Remove(x) =>
      || SameUser(v, x, op.issuer)
      || (&& MayAdminister(v, op.issuer)
          && (v.threshold <= DEFAULT_THRESHOLD || IsDecided(c, v.closure.executed, RemoveMember(x))))
    case Update => true
  }

  /** The verdict a node holding exactly `c` gives. */
  ghost function CertifiedBy(c: Certs): Op -> bool {
    (op: Op) => Authorize(c, VerdictsOf(c), op)
  }

  // ---------------------------------------------------------------- certificates and operations together

  datatype Controller = Controller(certs: Certs, dag: Dag)

  datatype Message =
    | ControlOp(authorized: AuthorizedOp)
    | CertsArrived(certs: seq<Certificate>)

  /**
   A proof is absorbed before the operation it rides with is judged; certificates on their own
   retry the queue when any of them was new.
   */
  ghost function Receive(k: Controller, msg: Message): Controller {
    match msg
    case ControlOp(a) =>
      if !a.signatureOk then k else
        var c := OfferAll(k.certs, a.proof);
        Controller(c, Deliver(CertifiedBy(c), k.dag, a))
    case CertsArrived(xs) =>
      var c := OfferAll(k.certs, xs);
      Controller(c, if Len(c) > Len(k.certs) then MergePending(CertifiedBy(c), k.dag) else k.dag)
  }

  ghost function ReceiveAll(k: Controller, msgs: seq<Message>): Controller
    decreases |msgs|
  {
    if msgs == [] then k else Receive(ReceiveAll(k, msgs[..|msgs| - 1]), msgs[|msgs| - 1])
  }

  ghost function CertificatesIn(msg: Message): seq<Certificate> {
    match msg
    case ControlOp(a) => if a.signatureOk then a.proof else []
    case CertsArrived(xs) => xs
  }

  lemma ReceiveOffers(k: Controller, msg: Message)
    ensures Receive(k, msg).certs == OfferAll(k.certs, CertificatesIn(msg))
  {
  }

  // ---------------------------------------------------------------- a fixed store

  lemma {:induction false} HeldCertificatesAreIdle(c: Certs, xs: seq<Certificate>)
    requires forall x | x in xs :: Verifies(x) ==> Holds(c, x)
    ensures OfferAll(c, xs) == c
    decreases |xs|
  {
    if xs == [] {
    } else {
      var last := xs[|xs| - 1];
      assert last in xs;
      HeldCertificatesAreIdle(c, xs[..|xs| - 1]);
      if Verifies(last) {
        PutAgain(c, last);
      }
    }
  }

  ghost predicate ProofsAreHeld(c: Certs, ds: seq<AuthorizedOp>) {
    forall a, x | a in ds && x in a.proof :: Verifies(x) ==> Holds(c, x)
  }

  function AsMessages(ds: seq<AuthorizedOp>): (r: seq<Message>)
    ensures |r| == |ds| && forall i | 0 <= i < |ds| :: r[i] == ControlOp(ds[i])
  {
    seq(|ds|, i requires 0 <= i < |ds| => ControlOp(ds[i]))
  }

  lemma {:induction false} FixedStoreJustDelivers(c: Certs, m: Dag, ds: seq<AuthorizedOp>)
    requires ProofsAreHeld(c, ds)
    ensures ReceiveAll(Controller(c, m), AsMessages(ds)) == Controller(c, Run(CertifiedBy(c), m, ds))
    decreases |ds|
  {
    if ds == [] {
    } else {
      var init, last := ds[..|ds| - 1], ds[|ds| - 1];
      assert last in ds;
      FixedStoreJustDelivers(c, m, init);
      assert AsMessages(ds)[..|ds| - 1] == AsMessages(init);
      HeldCertificatesAreIdle(c, last.proof);
    }
  }

  /**
   With every shipped proof already held, the same operations in any order and repetition leave
   a node with the same operations applied, the same known members and the same ones waiting.
   */
  lemma PeersWithTheSameCertificatesConverge(c: Certs, base: Dag, a: seq<AuthorizedOp>, b: seq<AuthorizedOp>)
    requires ProofsAreHeld(c, a) && ProofsAreHeld(c, b)
    requires Sound(base) && Settled(base) && Offered(a) == Offered(b)
    requires Lossless(CertifiedBy(c), base, a) && Lossless(CertifiedBy(c), base, b)
    requires Justified(CertifiedBy(c), base, ParkedOps(base) + Offered(a))
    ensures SameOutcome(ReceiveAll(Controller(c, base), AsMessages(a)).dag,
                        ReceiveAll(Controller(c, base), AsMessages(b)).dag)
  {
    FixedStoreJustDelivers(c, base, a);
    FixedStoreJustDelivers(c, base, b);
    DeliveryOrderDoesNotMatter(CertifiedBy(c), base, a, b);
  }

  /** Certificates that arrive alone move no waiting operation: those wait for predecessors only. */
  lemma CertificatesUnlockNothing(k: Controller, xs: seq<Certificate>)
    requires Settled(k.dag) && |k.dag.parked| <= MAX_PARKED_OPS
    ensures Receive(k, CertsArrived(xs)).dag == k.dag
  {
    SettledDrainIsIdle(CertifiedBy(OfferAll(k.certs, xs)), k.dag);
  }

  // ---------------------------------------------------------------- what was applied was authorised

  lemma {:induction false} RetryAppliesOnlyOk(ok: Op -> bool, m: Dag, cs: seq<AuthorizedOp>)
    ensures forall op | op in Retry(ok, m, cs).applied && op !in m.applied :: ok(op)
    decreases |cs|
  {
    if cs == [] {
    } else {
      RetryAppliesOnlyOk(ok, m, cs[..|cs| - 1]);
    }
  }

  lemma {:induction false} DrainAppliesOnlyOk(ok: Op -> bool, m: Dag)
    ensures forall op | op in MergePending(ok, m).applied && op !in m.applied :: ok(op)
    decreases |m.parked|
  {
    var r := Retry(ok, m.(parked := []), m.parked);
    RetryAppliesOnlyOk(ok, m.(parked := []), m.parked);
    if r.applied != m.applied {
      ProgressShrinksTheQueue(ok, m);
      DrainAppliesOnlyOk(ok, r);
    }
  }

  lemma DeliverAppliesOnlyOk(ok: Op -> bool, m: Dag, a: AuthorizedOp)
    ensures forall op | op in Deliver(ok, m, a).applied && op !in m.applied :: ok(op)
  {
    DrainAppliesOnlyOk(ok, MergeVerified(ok, m, a));
  }

  lemma ReceiveAppliesOnlyCertified(k: Controller, msg: Message, op: Op)
    requires op in Receive(k, msg).dag.applied && op !in k.dag.applied
    ensures CertifiedBy(Receive(k, msg).certs)(op)
  {
    match msg
    case ControlOp(a) =>
      if a.signatureOk { DeliverAppliesOnlyOk(CertifiedBy(OfferAll(k.certs, a.proof)), k.dag, a); }
    case CertsArrived(xs) =>
      DrainAppliesOnlyOk(CertifiedBy(OfferAll(k.certs, xs)), k.dag);
  }

  // ---------------------------------------------------------------- authority in the open

  ghost predicate Owns(c: Certs, user: Id, device: Id) {
    device in Settle(c).users && Settle(c).users[device] == user
  }

  /** The device's owner holds the Admin role. */
  ghost predicate SpeaksForAnAdmin(c: Certs, device: Id) {
    exists u | u in ResolveRoles(c, Settle(c)) :: ResolveRoles(c, Settle(c))[u] == Admin && Owns(c, u, device)
  }

  ghost predicate SameOwner(c: Certs, a: Id, b: Id) {
    exists u | u in Settle(c).users.Values :: Owns(c, u, a) && Owns(c, u, b)
  }

  /** A removal that as many distinct users as the threshold asks for, all ever admins, voted for. */
  ghost predicate HasQuorum(c: Certs, target: Id) {
    exists p, users: set<Id> | p in c.proposals && Approved(c, Settle(c), p, users) ::
      && c.proposals[p].payload.action == RemoveMember(target)
      && c.proposals[p].issuer in Settle(c).users
      && Settle(c).users[c.proposals[p].issuer] in Settle(c).admins
      && |users| >= Threshold(c)
  }

  /** What an operation needs behind it, in terms of who owns which device and who voted for what. */
  ghost predicate HasAuthority(c: Certs, op: Op) {
    match op.change
    case Add(x) => x in Settle(c).users && (SameOwner(c, x, op.issuer) || SpeaksForAnAdmin(c, op.issuer))
    case Remove(x) =>
      || SameOwner(c, x, op.issuer)
      || (SpeaksForAnAdmin(c, op.issuer) && (Threshold(c) == 1 || HasQuorum(c, x)))
    case Update => true
  }

  ghost predicate Backed(c: Certs, op: Op) {
    op.change.Remove? && Threshold(c) > DEFAULT_THRESHOLD ==>
      SameOwner(c, op.change.member, op.issuer) || HasQuorum(c, op.change.member)
  }

  lemma DecidedMeansQuorum(c: Certs, target: Id)
    requires IsDecided(c, Settle(c).executed, RemoveMember(target))
    ensures HasQuorum(c, target)
  {
    var p :| p in Settle(c).executed && p in c.proposals && c.proposals[p].payload.action == RemoveMember(target);
    QuorumIsExact(c, p);
  }

  lemma QuorumMeansDecided(c: Certs, target: Id)
    requires HasQuorum(c, target)
    ensures IsDecided(c, Settle(c).executed, RemoveMember(target))
  {
    var p, users: set<Id> :| p in c.proposals && Approved(c, Settle(c), p, users)
                             && c.proposals[p].payload.action == RemoveMember(target)
                             && c.proposals[p].issuer in Settle(c).users
                             && Settle(c).users[c.proposals[p].issuer] in Settle(c).admins
                             && |users| >= Threshold(c);
    QuorumIsExact(c, p);
  }

  lemma SameUserIsSameOwner(c: Certs, a: Id, b: Id)
    ensures SameUser(VerdictsOf(c), a, b) <==> SameOwner(c, a, b)
  {
    if SameUser(VerdictsOf(c), a, b) { assert Owns(c, Settle(c).users[a], a); }
  }

  lemma AdministersIsSpeaking(c: Certs, device: Id)
    ensures MayAdminister(VerdictsOf(c), device) <==> SpeaksForAnAdmin(c, device)
  {
    if MayAdminister(VerdictsOf(c), device) { assert Owns(c, Settle(c).users[device], device); }
  }

  /** The receiver's check passes exactly the operations with authority behind them. */
  lemma AuthorityIsExact(c: Certs, op: Op)
    ensures CertifiedBy(c)(op) <==> HasAuthority(c, op)
  {
    AdministersIsSpeaking(c, op.issuer);
    match op.change
    case Add(x) => SameUserIsSameOwner(c, x, op.issuer);
    case Remove(x) =>
      SameUserIsSameOwner(c, x, op.issuer);
      if IsDecided(c, Settle(c).executed, RemoveMember(x)) { DecidedMeansQuorum(c, x); }
      if HasQuorum(c, x) { QuorumMeansDecided(c, x); }
    case Update =>
  }

  /**
   With its predecessors here and its issuer known, an operation not yet applied is applied, under
   the certificates held once its proof is absorbed, if and only if it has authority.
   */
  lemma MergedExactlyWithAuthority(k: Controller, a: AuthorizedOp)
    requires a.signatureOk && a.op !in k.dag.applied && a.op.preds <= k.dag.applied && a.op.issuer in k.dag.known
    ensures var r := Receive(k, ControlOp(a)); a.op in r.dag.applied <==> HasAuthority(r.certs, a.op)
  {
    var c := OfferAll(k.certs, a.proof);
    AuthorityIsExact(c, a.op);
    DrainGrows(CertifiedBy(c), MergeVerified(CertifiedBy(c), k.dag, a));
  }

  // ---------------------------------------------------------------- quorum is binding on receivers

  lemma OwnersStay(small: Certs, big: Certs, a: Id, b: Id)
    requires Below(Settle(small), Settle(big)) && SameOwner(small, a, b)
    ensures SameOwner(big, a, b)
  {
    var u :| u in Settle(small).users.Values && Owns(small, u, a) && Owns(small, u, b);
    assert Owns(big, u, a) && Owns(big, u, b) && u in Settle(big).users.Values;
  }

  lemma BackingNeverRetracts(small: Certs, big: Certs, op: Op)
    requires Extends(small, big) && NoneChangedHands(Settle(small), Settle(big)) && Backed(small, op)
    ensures Backed(big, op)
  {
    if op.change.Remove? && Threshold(big) > DEFAULT_THRESHOLD {
      GrowthRetractsExactlyWhenADeviceChangesHands(small, big);
      if SameOwner(small, op.change.member, op.issuer) {
        OwnersStay(small, big, op.change.member, op.issuer);
      } else {
        QuorumMeansDecided(small, op.change.member);
        QuorumVerdictNeverRetracts(small, big, RemoveMember(op.change.member));
        DecidedMeansQuorum(big, op.change.member);
      }
    }
  }

  lemma ThresholdGrows(small: Certs, big: Certs)
    requires Within(small, big)
    ensures Threshold(small) <= Threshold(big)
  {
    ThresholdIsTheGreatestPolicy(small);
    ThresholdIsTheGreatestPolicy(big);
    if Threshold(small) > 1 {
      var d :| d in small.policies && small.policies[d].issuer == small.founder
               && small.policies[d].payload.threshold == Threshold(small);
      assert d in big.policies;
    }
  }

  ghost predicate AllMessagesGenuine(issued: Certs, msgs: seq<Message>) {
    forall msg | msg in msgs :: AllGenuine(issued, CertificatesIn(msg))
  }

  lemma {:induction false} StoresOnlyGrow(issued: Certs, c: Certs, xs: seq<Certificate>)
    requires Within(c, issued) && AllGenuine(issued, xs)
    ensures Within(c, OfferAll(c, xs)) && Within(OfferAll(c, xs), issued)
    decreases |xs|
  {
    OfferAllHolds(issued, c, xs, Certificate(PolicyBody(Signed(0, Policy(0))), 0, true, true));
    forall y | Holds(c, y)
      ensures Holds(OfferAll(c, xs), y)
    {
      OfferAllHolds(issued, c, xs, y);
    }
    HoldingsDetermine(c, OfferAll(c, xs));
  }

  lemma WithinIsTransitive(a: Certs, b: Certs, c: Certs)
    requires Within(a, b) && Within(b, c)
    ensures Within(a, c)
  {
  }

  lemma MergedHasAuthority(k: Controller, msg: Message, op: Op)
    requires op in Receive(k, msg).dag.applied && op !in k.dag.applied
    ensures HasAuthority(Receive(k, msg).certs, op)
  {
    ReceiveAppliesOnlyCertified(k, msg, op);
    AuthorityIsExact(Receive(k, msg).certs, op);
  }

  lemma ReceiveNext(k: Controller, msgs: seq<Message>, i: nat)
    requires i < |msgs|
    ensures ReceiveAll(k, msgs[..i + 1]) == Receive(ReceiveAll(k, msgs[..i]), msgs[i])
  {
    assert msgs[..i + 1][..i] == msgs[..i];
  }

  /** Whatever a run merged, some message of it merged. */
  lemma WhenMerged(k: Controller, msgs: seq<Message>, op: Op) returns (i: nat)
    requires op in ReceiveAll(k, msgs).dag.applied && op !in k.dag.applied
    ensures i < |msgs| && op !in ReceiveAll(k, msgs[..i]).dag.applied
    ensures op in ReceiveAll(k, msgs[..i + 1]).dag.applied
  {
    var merged := (j: nat) => j <= |msgs| && op in ReceiveAll(k, msgs[..j]).dag.applied;
    assert msgs[..0] == [] && msgs[..|msgs|] == msgs;
    assert ReceiveAll(k, []) == k;
    i := Crossing(merged, |msgs|);
  }

  /**
   Over any run of operations and certificates, with no condition on either: whatever the run merged
   had its authority under the certificates held when it was merged.
   */
  lemma EveryMergedOperationHadAuthority(k: Controller, msgs: seq<Message>, op: Op) returns (i: nat)
    requires op in ReceiveAll(k, msgs).dag.applied && op !in k.dag.applied
    ensures i < |msgs| && op !in ReceiveAll(k, msgs[..i]).dag.applied
    ensures op in ReceiveAll(k, msgs[..i + 1]).dag.applied
    ensures HasAuthority(ReceiveAll(k, msgs[..i + 1]).certs, op)
  {
    i := WhenMerged(k, msgs, op);
    ReceiveNext(k, msgs, i);
    MergedHasAuthority(ReceiveAll(k, msgs[..i]), msgs[i], op);
  }

  /**
   In particular a removal was, if their threshold was above one, of the issuer's own user's device,
   or one that an admin proposed and threshold distinct admins approved.
   */
  lemma EveryMergedRemovalHadItsQuorum(k: Controller, msgs: seq<Message>, op: Op) returns (i: nat)
    requires op in ReceiveAll(k, msgs).dag.applied && op !in k.dag.applied
    ensures i < |msgs| && op !in ReceiveAll(k, msgs[..i]).dag.applied
    ensures op in ReceiveAll(k, msgs[..i + 1]).dag.applied
    ensures Backed(ReceiveAll(k, msgs[..i + 1]).certs, op)
  {
    i := EveryMergedOperationHadAuthority(k, msgs, op);
  }

  lemma OneMessageGrows(issued: Certs, k: Controller, msg: Message)
    requires Within(k.certs, issued) && AllGenuine(issued, CertificatesIn(msg))
    ensures Within(k.certs, Receive(k, msg).certs) && Within(Receive(k, msg).certs, issued)
  {
    ReceiveOffers(k, msg);
    StoresOnlyGrow(issued, k.certs, CertificatesIn(msg));
  }

  lemma {:induction false} StoresOnlyGrewSince(issued: Certs, k: Controller, msgs: seq<Message>, i: nat)
    requires Within(k.certs, issued) && AllMessagesGenuine(issued, msgs) && i <= |msgs|
    ensures Within(ReceiveAll(k, msgs[..i]).certs, ReceiveAll(k, msgs).certs)
    ensures Within(ReceiveAll(k, msgs).certs, issued)
    decreases |msgs|
  {
    if msgs == [] {
    } else {
      var init, last := msgs[..|msgs| - 1], msgs[|msgs| - 1];
      assert last in msgs;
      var j := if i == |msgs| then 0 else i;
      StoresOnlyGrewSince(issued, k, init, j);
      OneMessageGrows(issued, ReceiveAll(k, init), last);
      if i == |msgs| {
        assert msgs[..i] == msgs;
      } else {
        assert init[..i] == msgs[..i];
        WithinIsTransitive(ReceiveAll(k, msgs[..i]).certs, ReceiveAll(k, init).certs, ReceiveAll(k, msgs).certs);
      }
    }
  }

  lemma StartIsHeld(issued: Certs, k: Controller, msgs: seq<Message>, i: nat)
    requires Within(k.certs, issued) && AllMessagesGenuine(issued, msgs) && i <= |msgs|
    ensures Within(k.certs, ReceiveAll(k, msgs[..i]).certs)
  {
    StoresOnlyGrewSince(issued, k, msgs[..i], 0);
    assert msgs[..i][..0] == [] && ReceiveAll(k, []) == k;
  }

  /** At no point of the run was a device somebody else's than it is at the end. */
  ghost predicate DevicesKeptTheirUsers(k: Controller, msgs: seq<Message>) {
    forall i | 0 <= i <= |msgs| ::
      NoneChangedHands(Settle(ReceiveAll(k, msgs[..i]).certs), Settle(ReceiveAll(k, msgs).certs))
  }

  /**
   If the founder's threshold stayed above one and no device changed hands, the quorum behind every
   merged removal of another user's device is still there under the certificates held at the end.
   */
  lemma EveryMergedRemovalHasItsQuorum(issued: Certs, k: Controller, msgs: seq<Message>, op: Op)
    requires Within(k.certs, issued) && AllMessagesGenuine(issued, msgs) && DevicesKeptTheirUsers(k, msgs)
    requires Threshold(k.certs) == Threshold(ReceiveAll(k, msgs).certs) > DEFAULT_THRESHOLD
    requires op in ReceiveAll(k, msgs).dag.applied && op !in k.dag.applied && op.change.Remove?
    ensures var c := ReceiveAll(k, msgs).certs;
            || SameOwner(c, op.change.member, op.issuer)
            || HasQuorum(c, op.change.member)
  {
    var i := EveryMergedRemovalHadItsQuorum(k, msgs, op);
    var held, now := ReceiveAll(k, msgs[..i + 1]).certs, ReceiveAll(k, msgs).certs;
    StoresOnlyGrewSince(issued, k, msgs, i + 1);
    StartIsHeld(issued, k, msgs, i + 1);
    ThresholdGrows(k.certs, held);
    ThresholdGrows(held, now);
    BackingNeverRetracts(held, now, op);
    assert Backed(now, op);
  }

  /** A final set free of conflicts is enough for that. */
  lemma ConflictFreeRunsKeepUsers(issued: Certs, k: Controller, msgs: seq<Message>)
    requires Within(k.certs, issued) && AllMessagesGenuine(issued, msgs)
    requires Threshold(k.certs) == Threshold(ReceiveAll(k, msgs).certs) && ConflictFree(ReceiveAll(k, msgs).certs)
    ensures DevicesKeptTheirUsers(k, msgs)
  {
    var now := ReceiveAll(k, msgs).certs;
    forall i | 0 <= i <= |msgs|
      ensures NoneChangedHands(Settle(ReceiveAll(k, msgs[..i]).certs), Settle(now))
    {
      var held := ReceiveAll(k, msgs[..i]).certs;
      StoresOnlyGrewSince(issued, k, msgs, i);
      StartIsHeld(issued, k, msgs, i);
      ThresholdGrows(k.certs, held);
      ThresholdGrows(held, now);
      SettleStaysReachable(held, now);
      ReachableStaysBelowSettle(now, Settle(held));
    }
  }
}
