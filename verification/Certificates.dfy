/**
 The signed statements of crates/iroh-beekem-core/src/capability.rs and the set a node holds.

 A payload keeps the fields the authorization logic reads. Nonces and expiry times are carried
 by the source and never evaluated there, so they are only visible here through the digest that
 keys each certificate.
 */
module Certificates {
  import opened Ordered

  datatype Role = Admin | Editor | Viewer

  datatype AdminAction =
    | RemoveMember(member: Id)
    | SetRole(user: Id, role: Role)

  datatype Signed<+P> = Signed(issuer: Id, payload: P)

  datatype Grant = Grant(subject: Id, capability: Role, generation: nat)
  datatype DeviceBinding = DeviceBinding(device: Id, user: Id)
  datatype AdminProposal = AdminProposal(action: AdminAction, generation: nat)
  datatype Approval = Approval(proposal: Id)
  datatype Policy = Policy(threshold: nat)

  /** The founder and the accepted certificates, each kind keyed by digest. */
  datatype Certs = Certs(
    founder: Id,
    grants: map<Id, Signed<Grant>>,
    bindings: map<Id, Signed<DeviceBinding>>,
    proposals: map<Id, Signed<AdminProposal>>,
    approvals: map<Id, Signed<Approval>>,
    policies: map<Id, Signed<Policy>>)

  const DEFAULT_THRESHOLD: nat := 1

  /** The founder's own policies, clamped to at least one. */
  function FounderThresholds(c: Certs): set<nat> {
    set d | d in c.policies && c.policies[d].issuer == c.founder ::
      if c.policies[d].payload.threshold < 1 then 1 else c.policies[d].payload.threshold
  }

  function Greatest(s: set<nat>): (m: nat)
    requires s != {}
    ensures m in s && forall x | x in s :: x <= m
  {
    var r := Ascending(s);
    assert forall x | x in s :: x in r;
    r[|r| - 1]
  }

  /** How many distinct admins an administrative action needs. */
  function Threshold(c: Certs): (t: nat)
    ensures t >= 1
  {
    var s := FounderThresholds(c);
    if s == {} then DEFAULT_THRESHOLD else Greatest(s)
  }

  /** It is one, or one of the founder's own policies, and no policy of the founder's is above it. */
  lemma ThresholdIsTheGreatestPolicy(c: Certs)
    ensures forall d | d in c.policies && c.policies[d].issuer == c.founder ::
              c.policies[d].payload.threshold <= Threshold(c)
    ensures Threshold(c) > 1 ==>
              exists d | d in c.policies ::
                c.policies[d].issuer == c.founder && c.policies[d].payload.threshold == Threshold(c)
  {
    forall d | d in c.policies && c.policies[d].issuer == c.founder
      ensures c.policies[d].payload.threshold <= Threshold(c)
    {
      assert (if c.policies[d].payload.threshold < 1 then 1 else c.policies[d].payload.threshold)
             in FounderThresholds(c);
    }
  }

  /** `small` holds no certificate that `big` lacks. */
  ghost predicate Within(small: Certs, big: Certs) {
    && small.founder == big.founder
    && (forall d | d in small.grants :: d in big.grants && big.grants[d] == small.grants[d])
    && (forall d | d in small.bindings :: d in big.bindings && big.bindings[d] == small.bindings[d])
    && (forall d | d in small.proposals :: d in big.proposals && big.proposals[d] == small.proposals[d])
    && (forall d | d in small.approvals :: d in big.approvals && big.approvals[d] == small.approvals[d])
    && (forall d | d in small.policies :: d in big.policies && big.policies[d] == small.policies[d])
  }
}
