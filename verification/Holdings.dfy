/**
 What a node holds: certificates as they arrive, the maps they are filed in, and the facts that
 make snapshot, restart and any order of arrival equivalent
 (`stage`, `insert`, `extend` and `certificates` of crates/iroh-beekem-core/src/capability.rs).
 */
module Holdings {
  import opened Ordered
  import opened Certificates

  // ---------------------------------------------------------------- certificates on the wire

  datatype Body =
    | GrantBody(grant: Signed<Grant>)
    | BindingBody(binding: Signed<DeviceBinding>)
    | ProposalBody(proposal: Signed<AdminProposal>)
    | ApprovalBody(approval: Signed<Approval>)
    | PolicyBody(policy: Signed<Policy>)

  /** A certificate as received: whether its tag and its signature check out is decided offline. */
  datatype Certificate = Certificate(body: Body, digest: Id, domainOk: bool, signatureOk: bool)

  datatype CertError = WrongDomain | BadSignature
  datatype Result<+T> = Ok(value: T) | Err(error: CertError)

  predicate Verifies(x: Certificate) {
    x.domainOk && x.signatureOk
  }

  function Empty(founder: Id): Certs {
    Certs(founder, map[], map[], map[], map[], map[])
  }

  predicate HasDigest(c: Certs, x: Certificate) {
    match x.body
    case GrantBody(_) => x.digest in c.grants
    case BindingBody(_) => x.digest in c.bindings
    case ProposalBody(_) => x.digest in c.proposals
    case ApprovalBody(_) => x.digest in c.approvals
    case PolicyBody(_) => x.digest in c.policies
  }

  /** The store keeps exactly this certificate. */
  predicate Holds(c: Certs, x: Certificate) {
    match x.body
    case GrantBody(s) => x.digest in c.grants && c.grants[x.digest] == s
    case BindingBody(s) => x.digest in c.bindings && c.bindings[x.digest] == s
    case ProposalBody(s) => x.digest in c.proposals && c.proposals[x.digest] == s
    case ApprovalBody(s) => x.digest in c.approvals && c.approvals[x.digest] == s
    case PolicyBody(s) => x.digest in c.policies && c.policies[x.digest] == s
  }

  function Put(c: Certs, x: Certificate): (r: Certs)
    ensures Holds(r, x) && r.founder == c.founder
  {
    match x.body
    case GrantBody(s) =>
      Certs(c.founder, c.grants[x.digest := s], c.bindings, c.proposals, c.approvals, c.policies)
    case BindingBody(s) =>
      Certs(c.founder, c.grants, c.bindings[x.digest := s], c.proposals, c.approvals, c.policies)
    case ProposalBody(s) =>
      Certs(c.founder, c.grants, c.bindings, c.proposals[x.digest := s], c.approvals, c.policies)
    case ApprovalBody(s) =>
      Certs(c.founder, c.grants, c.bindings, c.proposals, c.approvals[x.digest := s], c.policies)
    case PolicyBody(s) =>
      Certs(c.founder, c.grants, c.bindings, c.proposals, c.approvals, c.policies[x.digest := s])
  }

  function Offer(c: Certs, x: Certificate): Certs {
    if Verifies(x) then Put(c, x) else c
  }

  /** How many certificates are held. */
  function Len(c: Certs): nat {
    |c.grants| + |c.bindings| + |c.proposals| + |c.approvals| + |c.policies|
  }

  /** The tag is checked before the signature; a certificate already filed is not news. */
  function Reply(c: Certs, x: Certificate): Result<bool> {
    if !x.domainOk then Err(WrongDomain)
    else if !x.signatureOk then Err(BadSignature)
    else Ok(!HasDigest(c, x))
  }

  function OfferAll(c: Certs, xs: seq<Certificate>): Certs
    decreases |xs|
  {
    if xs == [] then c else Offer(OfferAll(c, xs[..|xs| - 1]), xs[|xs| - 1])
  }

  /**
   Digests are collision-free: `issued` is everything ever signed, keyed by digest, and a
   certificate that verifies is the one filed there.
   */
  ghost predicate Genuine(issued: Certs, x: Certificate) {
    Verifies(x) ==> Holds(issued, x)
  }

  ghost predicate AllGenuine(issued: Certs, xs: seq<Certificate>) {
    forall x | x in xs :: Genuine(issued, x)
  }

  // ---------------------------------------------------------------- order, batching, restart

  /** A digest already filed in the store files this very certificate. */
  ghost predicate NoClash(c: Certs, x: Certificate) {
    HasDigest(c, x) ==> Holds(c, x)
  }

  lemma GenuineDoesNotClash(issued: Certs, c: Certs, x: Certificate)
    requires Within(c, issued) && Holds(issued, x)
    ensures NoClash(c, x)
  {
  }

  predicate SameKind(x: Body, y: Body) {
    || (x.GrantBody? && y.GrantBody?)
    || (x.BindingBody? && y.BindingBody?)
    || (x.ProposalBody? && y.ProposalBody?)
    || (x.ApprovalBody? && y.ApprovalBody?)
    || (x.PolicyBody? && y.PolicyBody?)
  }

  lemma PutLeavesOtherKinds(c: Certs, x: Certificate, y: Certificate)
    requires !SameKind(x.body, y.body)
    ensures Holds(Put(c, x), y) <==> Holds(c, y)
  {
    var r := Put(c, x);
    assert !x.body.GrantBody? ==> r.grants == c.grants;
    assert !x.body.BindingBody? ==> r.bindings == c.bindings;
    assert !x.body.ProposalBody? ==> r.proposals == c.proposals;
    assert !x.body.ApprovalBody? ==> r.approvals == c.approvals;
    assert !x.body.PolicyBody? ==> r.policies == c.policies;
  }

  lemma PutHoldsSameKind(c: Certs, x: Certificate, y: Certificate)
    requires NoClash(c, x) && SameKind(x.body, y.body)
    ensures Holds(Put(c, x), y) <==> Holds(c, y) || (y.body == x.body && y.digest == x.digest)
  {
    match x.body
    case GrantBody(s) => assert Put(c, x).grants == c.grants[x.digest := s];
    case BindingBody(s) => assert Put(c, x).bindings == c.bindings[x.digest := s];
    case ProposalBody(s) => assert Put(c, x).proposals == c.proposals[x.digest := s];
    case ApprovalBody(s) => assert Put(c, x).approvals == c.approvals[x.digest := s];
    case PolicyBody(s) => assert Put(c, x).policies == c.policies[x.digest := s];
  }

  lemma PutHolds(c: Certs, x: Certificate, y: Certificate)
    requires NoClash(c, x)
    ensures Holds(Put(c, x), y) <==> Holds(c, y) || (y.body == x.body && y.digest == x.digest)
  {
    if SameKind(x.body, y.body) {
      PutHoldsSameKind(c, x, y);
    } else {
      PutLeavesOtherKinds(c, x, y);
    }
  }

  lemma PutAgain(c: Certs, x: Certificate)
    requires Holds(c, x)
    ensures Put(c, x) == c
  {
    match x.body
    case GrantBody(s) => assert c.grants[x.digest := s] == c.grants;
    case BindingBody(s) => assert c.bindings[x.digest := s] == c.bindings;
    case ProposalBody(s) => assert c.proposals[x.digest := s] == c.proposals;
    case ApprovalBody(s) => assert c.approvals[x.digest := s] == c.approvals;
    case PolicyBody(s) => assert c.policies[x.digest := s] == c.policies;
  }

  lemma PutGrantCounts(c: Certs, x: Certificate)
    requires x.body.GrantBody?
    ensures Len(Put(c, x)) == Len(c) + if HasDigest(c, x) then 0 else 1
  {
    UpdateCounts(c.grants, x.digest, x.body.grant);
  }

  lemma PutBindingCounts(c: Certs, x: Certificate)
    requires x.body.BindingBody?
    ensures Len(Put(c, x)) == Len(c) + if HasDigest(c, x) then 0 else 1
  {
    UpdateCounts(c.bindings, x.digest, x.body.binding);
  }

  lemma PutProposalCounts(c: Certs, x: Certificate)
    requires x.body.ProposalBody?
    ensures Len(Put(c, x)) == Len(c) + if HasDigest(c, x) then 0 else 1
  {
    UpdateCounts(c.proposals, x.digest, x.body.proposal);
  }

  lemma PutApprovalCounts(c: Certs, x: Certificate)
    requires x.body.ApprovalBody?
    ensures Len(Put(c, x)) == Len(c) + if HasDigest(c, x) then 0 else 1
  {
    UpdateCounts(c.approvals, x.digest, x.body.approval);
  }

  lemma PutPolicyCounts(c: Certs, x: Certificate)
    requires x.body.PolicyBody?
    ensures Len(Put(c, x)) == Len(c) + if HasDigest(c, x) then 0 else 1
  {
    UpdateCounts(c.policies, x.digest, x.body.policy);
  }

  lemma PutCounts(c: Certs, x: Certificate)
    ensures Len(Put(c, x)) == Len(c) + if HasDigest(c, x) then 0 else 1
  {
    match x.body
    case GrantBody(_) => PutGrantCounts(c, x);
    case BindingBody(_) => PutBindingCounts(c, x);
    case ProposalBody(_) => PutProposalCounts(c, x);
    case ApprovalBody(_) => PutApprovalCounts(c, x);
    case PolicyBody(_) => PutPolicyCounts(c, x);
  }

  lemma UpdateCounts<T>(m: map<Id, T>, d: Id, v: T)
    ensures |m[d := v]| == |m| + if d in m then 0 else 1
  {
    var n := m[d := v];
    if d in m {
      assert n.Keys == m.Keys;
    } else {
      assert n.Keys == m.Keys + {d};
    }
  }

  lemma WithinIsHolding(a: Certs, b: Certs, x: Certificate)
    requires Within(a, b) && Holds(a, x)
    ensures Holds(b, x)
  {
  }

  lemma OfferStaysWithin(issued: Certs, c: Certs, x: Certificate)
    requires Within(c, issued) && Genuine(issued, x)
    ensures Within(Offer(c, x), issued)
    ensures Verifies(x) && HasDigest(c, x) ==> Offer(c, x) == c
  {
    if Verifies(x) {
      GenuineDoesNotClash(issued, c, x);
      forall y | Holds(Put(c, x), y)
        ensures Holds(issued, y)
      {
        PutHolds(c, x, y);
        if Holds(c, y) { WithinIsHolding(c, issued, y); }
      }
      if HasDigest(c, x) { PutAgain(c, x); }
      HoldingsDetermine(Put(c, x), issued);
    }
  }

  /**
   A wrong tag is reported before a bad signature and neither changes anything; news is exactly a
   certificate the store lacked and now holds.
   */
  lemma ReplyTellsTheOutcome(issued: Certs, c: Certs, x: Certificate)
    requires Within(c, issued) && Genuine(issued, x)
    ensures Reply(c, x) == Err(WrongDomain) <==> !x.domainOk
    ensures Reply(c, x) == Err(BadSignature) <==> x.domainOk && !x.signatureOk
    ensures Reply(c, x).Err? ==> Offer(c, x) == c
    ensures Reply(c, x) == Ok(true) ==> !Holds(c, x) && Holds(Offer(c, x), x) && Len(Offer(c, x)) == Len(c) + 1
    ensures Reply(c, x) == Ok(false) ==> Holds(c, x) && Offer(c, x) == c
  {
    if Verifies(x) {
      GenuineDoesNotClash(issued, c, x);
      PutCounts(c, x);
      OfferStaysWithin(issued, c, x);
    }
  }

  lemma {:induction false} OfferAllHolds(issued: Certs, c: Certs, xs: seq<Certificate>, y: Certificate)
    requires Within(c, issued) && AllGenuine(issued, xs)
    ensures Within(OfferAll(c, xs), issued)
    ensures Holds(OfferAll(c, xs), y) <==>
            || Holds(c, y)
            || exists x | x in xs :: Verifies(x) && x.body == y.body && x.digest == y.digest
    decreases |xs|
  {
    if xs == [] {
    } else {
      var init, last := xs[..|xs| - 1], xs[|xs| - 1];
      assert xs == init + [last];
      OfferAllHolds(issued, c, init, y);
      OfferStaysWithin(issued, OfferAll(c, init), last);
      if Verifies(last) {
        GenuineDoesNotClash(issued, OfferAll(c, init), last);
        PutHolds(OfferAll(c, init), last, y);
      }
    }
  }

  lemma SameHoldingsSameStore(a: Certs, b: Certs)
    requires a.founder == b.founder
    requires forall x :: Holds(a, x) <==> Holds(b, x)
    ensures a == b
  {
    HoldingsDetermine(a, b);
    HoldingsDetermine(b, a);
    assert a.grants == b.grants && a.bindings == b.bindings && a.proposals == b.proposals
           && a.approvals == b.approvals && a.policies == b.policies;
  }

  lemma HoldingsDetermine(a: Certs, b: Certs)
    requires a.founder == b.founder
    requires forall x | Holds(a, x) :: Holds(b, x)
    ensures Within(a, b)
  {
    forall d | d in a.grants ensures d in b.grants && b.grants[d] == a.grants[d] {
      assert Holds(a, Certificate(GrantBody(a.grants[d]), d, true, true));
    }
    forall d | d in a.bindings ensures d in b.bindings && b.bindings[d] == a.bindings[d] {
      assert Holds(a, Certificate(BindingBody(a.bindings[d]), d, true, true));
    }
    forall d | d in a.proposals ensures d in b.proposals && b.proposals[d] == a.proposals[d] {
      assert Holds(a, Certificate(ProposalBody(a.proposals[d]), d, true, true));
    }
    forall d | d in a.approvals ensures d in b.approvals && b.approvals[d] == a.approvals[d] {
      assert Holds(a, Certificate(ApprovalBody(a.approvals[d]), d, true, true));
    }
    forall d | d in a.policies ensures d in b.policies && b.policies[d] == a.policies[d] {
      assert Holds(a, Certificate(PolicyBody(a.policies[d]), d, true, true));
    }
  }

  /** A history of `insert` and `extend` calls, each offering one batch. */
  function OfferBatches(c: Certs, batches: seq<seq<Certificate>>): Certs
    decreases |batches|
  {
    if batches == [] then c
    else OfferAll(OfferBatches(c, batches[..|batches| - 1]), batches[|batches| - 1])
  }

  ghost predicate OfferedIn(batches: seq<seq<Certificate>>, x: Certificate) {
    exists batch | batch in batches :: x in batch
  }

  lemma {:induction false} BatchesHold(issued: Certs, c: Certs, batches: seq<seq<Certificate>>, y: Certificate)
    requires Within(c, issued) && forall x | OfferedIn(batches, x) :: Genuine(issued, x)
    ensures Within(OfferBatches(c, batches), issued)
    ensures Holds(OfferBatches(c, batches), y) <==>
            || Holds(c, y)
            || exists x | OfferedIn(batches, x) :: Verifies(x) && x.body == y.body && x.digest == y.digest
    decreases |batches|
  {
    if batches == [] {
    } else {
      var init, last := batches[..|batches| - 1], batches[|batches| - 1];
      assert batches == init + [last];
      assert forall x :: OfferedIn(batches, x) <==> OfferedIn(init, x) || x in last;
      BatchesHold(issued, c, init, y);
      OfferAllHolds(issued, OfferBatches(c, init), last, y);
    }
  }

  /** The stored maps depend on what was offered, not on order, repetition or batching. */
  lemma OrderAndBatchingDoNotMatter(issued: Certs, founder: Id,
                                    a: seq<seq<Certificate>>, b: seq<seq<Certificate>>)
    requires issued.founder == founder && forall x | OfferedIn(a, x) || OfferedIn(b, x) :: Genuine(issued, x)
    requires forall x | Verifies(x) :: OfferedIn(a, x) <==> OfferedIn(b, x)
    ensures OfferBatches(Empty(founder), a) == OfferBatches(Empty(founder), b)
  {
    var ca, cb := OfferBatches(Empty(founder), a), OfferBatches(Empty(founder), b);
    forall y
      ensures Holds(ca, y) <==> Holds(cb, y)
    {
      BatchesHold(issued, Empty(founder), a, y);
      BatchesHold(issued, Empty(founder), b, y);
    }
    BatchesHold(issued, Empty(founder), a, Certificate(PolicyBody(Signed(0, Policy(0))), 0, true, true));
    BatchesHold(issued, Empty(founder), b, Certificate(PolicyBody(Signed(0, Policy(0))), 0, true, true));
    SameHoldingsSameStore(ca, cb);
  }

  function ListBindings(c: Certs, keys: seq<Id>): seq<Certificate>
    requires forall d | d in keys :: d in c.bindings
  {
    if keys == [] then [] else
      [Certificate(BindingBody(c.bindings[keys[0]]), keys[0], true, true)] + ListBindings(c, keys[1..])
  }

  lemma {:induction false} BindingsListed(c: Certs, keys: seq<Id>, x: Certificate)
    requires forall d | d in keys :: d in c.bindings
    ensures x in ListBindings(c, keys) <==> x.body.BindingBody? && x.digest in keys && Holds(c, x) && Verifies(x)
    decreases |keys|
  {
    if keys == [] {
    } else {
      BindingsListed(c, keys[1..], x);
    }
  }

  function ListGrants(c: Certs, keys: seq<Id>): seq<Certificate>
    requires forall d | d in keys :: d in c.grants
  {
    if keys == [] then [] else
      [Certificate(GrantBody(c.grants[keys[0]]), keys[0], true, true)] + ListGrants(c, keys[1..])
  }

  lemma {:induction false} GrantsListed(c: Certs, keys: seq<Id>, x: Certificate)
    requires forall d | d in keys :: d in c.grants
    ensures x in ListGrants(c, keys) <==> x.body.GrantBody? && x.digest in keys && Holds(c, x) && Verifies(x)
    decreases |keys|
  {
    if keys == [] {
    } else {
      GrantsListed(c, keys[1..], x);
    }
  }

  function ListProposals(c: Certs, keys: seq<Id>): seq<Certificate>
    requires forall d | d in keys :: d in c.proposals
  {
    if keys == [] then [] else
      [Certificate(ProposalBody(c.proposals[keys[0]]), keys[0], true, true)] + ListProposals(c, keys[1..])
  }

  lemma {:induction false} ProposalsListed(c: Certs, keys: seq<Id>, x: Certificate)
    requires forall d | d in keys :: d in c.proposals
    ensures x in ListProposals(c, keys) <==> x.body.ProposalBody? && x.digest in keys && Holds(c, x) && Verifies(x)
    decreases |keys|
  {
    if keys == [] {
    } else {
      ProposalsListed(c, keys[1..], x);
    }
  }

  function ListApprovals(c: Certs, keys: seq<Id>): seq<Certificate>
    requires forall d | d in keys :: d in c.approvals
  {
    if keys == [] then [] else
      [Certificate(ApprovalBody(c.approvals[keys[0]]), keys[0], true, true)] + ListApprovals(c, keys[1..])
  }

  lemma {:induction false} ApprovalsListed(c: Certs, keys: seq<Id>, x: Certificate)
    requires forall d | d in keys :: d in c.approvals
    ensures x in ListApprovals(c, keys) <==> x.body.ApprovalBody? && x.digest in keys && Holds(c, x) && Verifies(x)
    decreases |keys|
  {
    if keys == [] {
    } else {
      ApprovalsListed(c, keys[1..], x);
    }
  }

  function ListPolicies(c: Certs, keys: seq<Id>): seq<Certificate>
    requires forall d | d in keys :: d in c.policies
  {
    if keys == [] then [] else
      [Certificate(PolicyBody(c.policies[keys[0]]), keys[0], true, true)] + ListPolicies(c, keys[1..])
  }

  lemma {:induction false} PoliciesListed(c: Certs, keys: seq<Id>, x: Certificate)
    requires forall d | d in keys :: d in c.policies
    ensures x in ListPolicies(c, keys) <==> x.body.PolicyBody? && x.digest in keys && Holds(c, x) && Verifies(x)
    decreases |keys|
  {
    if keys == [] {
    } else {
      PoliciesListed(c, keys[1..], x);
    }
  }

  /** `certificates()`: bindings, grants, proposals, approvals, policies, each in digest order. */
  function CertificatesOf(c: Certs): seq<Certificate> {
    ListBindings(c, Ascending(c.bindings.Keys))
    + ListGrants(c, Ascending(c.grants.Keys))
    + ListProposals(c, Ascending(c.proposals.Keys))
    + ListApprovals(c, Ascending(c.approvals.Keys))
    + ListPolicies(c, Ascending(c.policies.Keys))
  }

  lemma InFive<T>(a: seq<T>, b: seq<T>, c: seq<T>, d: seq<T>, e: seq<T>, x: T)
    ensures x in a + b + c + d + e <==> x in a || x in b || x in c || x in d || x in e
  {
  }

  lemma CertificatesAreHoldings(c: Certs, x: Certificate)
    ensures x in CertificatesOf(c) <==> Holds(c, x) && Verifies(x)
  {
    var bs, gs, ps := Ascending(c.bindings.Keys), Ascending(c.grants.Keys), Ascending(c.proposals.Keys);
    var aps, pols := Ascending(c.approvals.Keys), Ascending(c.policies.Keys);
    InFive(ListBindings(c, bs), ListGrants(c, gs), ListProposals(c, ps), ListApprovals(c, aps),
           ListPolicies(c, pols), x);
    BindingsListed(c, bs, x);
    GrantsListed(c, gs, x);
    ProposalsListed(c, ps, x);
    ApprovalsListed(c, aps, x);
    PoliciesListed(c, pols, x);
  }

  lemma RestartHolds(c: Certs, xs: seq<Certificate>, y: Certificate)
    requires forall x :: x in xs <==> Holds(c, x) && Verifies(x)
    ensures Holds(OfferAll(Empty(c.founder), xs), y) <==> Holds(c, y)
    ensures OfferAll(Empty(c.founder), xs).founder == c.founder
  {
    OfferAllHolds(c, Empty(c.founder), xs, y);
    if Holds(c, y) {
      assert Certificate(y.body, y.digest, true, true) in xs by {
        assert Holds(c, Certificate(y.body, y.digest, true, true));
      }
    }
  }

  lemma ListRebuildsTheStore(c: Certs, xs: seq<Certificate>)
    requires forall x :: x in xs <==> Holds(c, x) && Verifies(x)
    ensures OfferAll(Empty(c.founder), xs) == c
  {
    var r := OfferAll(Empty(c.founder), xs);
    forall y
      ensures Holds(r, y) <==> Holds(c, y)
      ensures r.founder == c.founder
    {
      RestartHolds(c, xs, y);
    }
    SameHoldingsSameStore(r, c);
  }

  /** A snapshot's certificate list rebuilds the store, hence every verdict, from scratch. */
  lemma RestartRebuildsTheStore(c: Certs)
    ensures OfferAll(Empty(c.founder), CertificatesOf(c)) == c
  {
    forall x
      ensures x in CertificatesOf(c) <==> Holds(c, x) && Verifies(x)
    {
      CertificatesAreHoldings(c, x);
    }
    ListRebuildsTheStore(c, CertificatesOf(c));
  }
}
