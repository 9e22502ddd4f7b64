/**
 `CapabilityStore` of crates/iroh-beekem-core/src/capability.rs: certificate maps updated in place,
 the closure loop and the role loops, proved against the functions of `Closure` and `Roles`.
 */
module CapabilityStore {
  import opened Ordered
  import opened Certificates
  import opened Closure
  import opened Roles
  import opened Holdings

  lemma SweepNext(c: Certs, s: State, steps: seq<Step>, i: nat)
    requires i < |steps|
    ensures Sweep(c, s, steps[..i + 1]) == Advance(c, Sweep(c, s, steps[..i]), steps[i])
  {
    var x := [steps[i]];
    assert steps[..i + 1] == steps[..i] + x;
    SweepAppends(c, s, steps[..i], x);
    var t := Advance(c, Sweep(c, s, steps[..i]), steps[i]);
    assert x[1..] == [] && Sweep(c, t, []) == t;
  }

  lemma AdvanceIsNews(c: Certs, s0: State, s: State, step: Step)
    requires Below(s0, s)
    ensures Below(s0, Advance(c, s, step)) && (Enabled(c, s, step) ==> Advance(c, s, step) != s0)
  {
    if Enabled(c, s, step) {
      FireGrows(c, s, step);
      if Done(c, s0, step) { DoneIsFinal(c, s0, s, step); }
      assert Done(c, Fire(c, s, step), step);
    }
  }

  // ---------------------------------------------------------------- the inner loops

  /** A device's first admitted binding is final; the issuer must speak for the user or for an admin. */
  method TryBind(c: Certs, s: State, d: Id) returns (t: State, fired: bool)
    requires d in c.bindings
    ensures t == Advance(c, s, Bind(d)) && (fired <==> Enabled(c, s, Bind(d)))
  {
    var signed := c.bindings[d];
    var binding := signed.payload;
    if binding.device in s.users { return s, false; }
    if signed.issuer !in s.users { return s, false; }
    var issuerUser := s.users[signed.issuer];
    if issuerUser == binding.user || issuerUser in s.admins {
      t, fired := s.(users := s.users[binding.device := binding.user]), true;
    } else {
      t, fired := s, false;
    }
  }

  method TryExecute(c: Certs, threshold: nat, s: State, d: Id) returns (t: State, fired: bool)
    requires d in c.proposals && threshold == Threshold(c)
    ensures t == Advance(c, s, Execute(d)) && (fired <==> Enabled(c, s, Execute(d)))
  {
    if d in s.executed { return s, false; }
    var issuer := c.proposals[d].issuer;
    if issuer !in s.users { return s, false; }
    if s.users[issuer] !in s.admins { return s, false; }
    var approvers := Approvers(c, s, d);
    if |approvers| >= threshold {
      t, fired := s.(executed := s.executed + {d}), true;
    } else {
      t, fired := s, false;
    }
  }

  method TryPromote(c: Certs, s: State, d: Id) returns (t: State, fired: bool)
    requires d in c.grants
    ensures t == Advance(c, s, Promote(d)) && (fired <==> Enabled(c, s, Promote(d)))
  {
    var signed := c.grants[d];
    var grant := signed.payload;
    if grant.capability != Admin { return s, false; }
    if signed.issuer !in s.users { return s, false; }
    var issuerUser := s.users[signed.issuer];
    if issuerUser !in s.admins { return s, false; }
    if !GrantIsAuthorised(c, s, issuerUser, grant) { return s, false; }
    if grant.subject in s.admins { return s, false; }
    t, fired := s.(admins := s.admins + {grant.subject}), true;
  }

  predicate IsFiled(c: Certs, step: Step) {
    match step
    case Bind(d) => d in c.bindings
    case Execute(d) => d in c.proposals
    case Promote(d) => d in c.grants
  }

  method TryStep(c: Certs, threshold: nat, s: State, step: Step) returns (t: State, fired: bool)
    requires IsFiled(c, step) && threshold == Threshold(c)
    ensures t == Advance(c, s, step) && (fired <==> Enabled(c, s, step))
  {
    match step
    case Bind(d) => t, fired := TryBind(c, s, d);
    case Execute(d) => t, fired := TryExecute(c, threshold, s, d);
    case Promote(d) => t, fired := TryPromote(c, s, d);
  }

  /** One inner loop of a round: try each certificate of one kind, noting whether any did something. */
  method TryEach(c: Certs, threshold: nat, s: State, steps: seq<Step>) returns (t: State, changed: bool)
    requires threshold == Threshold(c) && forall x | x in steps :: IsFiled(c, x)
    ensures t == Sweep(c, s, steps) && Below(s, t) && (changed <==> t != s)
  {
    t, changed := s, false;
    for i := 0 to |steps|
      invariant t == Sweep(c, s, steps[..i]) && Below(s, t)
      invariant changed <==> t != s
    {
      SweepNext(c, s, steps, i);
      AdvanceIsNews(c, s, t, steps[i]);
      var fired;
      t, fired := TryStep(c, threshold, t, steps[i]);
      changed := changed || fired;
    }
    assert steps[..|steps|] == steps;
  }

  /** The fixpoint loop of `recompute`: bindings, proposals, admin grants, until nothing changes. */
  method RunClosure(c: Certs, threshold: nat) returns (s: State)
    requires threshold == Threshold(c)
    ensures s == Settle(c)
  {
    var bindings := BindSteps(Ascending(c.bindings.Keys));
    var proposals := ExecuteSteps(Ascending(c.proposals.Keys));
    var grants := PromoteSteps(Ascending(c.grants.Keys));
    StepsAreFiled(c);
    s := Seed(c);
    while true
      invariant SettleFrom(c, s) == Settle(c)
      decreases |Owed(c, s)|
    {
      var a, changedByBindings := TryEach(c, threshold, s, bindings);
      var b, changedByProposals := TryEach(c, threshold, a, proposals);
      var d, changedByGrants := TryEach(c, threshold, b, grants);
      RoundIsSweep(c, s, a, b, d);
      NewsAddsUp(s, a, b, d);
      if !(changedByBindings || changedByProposals || changedByGrants) {
        return;
      }
      SweepPays(c, s);
      s := d;
    }
  }

  lemma StepsAreFiled(c: Certs)
    ensures forall x | x in BindSteps(Ascending(c.bindings.Keys)) :: IsFiled(c, x)
    ensures forall x | x in ExecuteSteps(Ascending(c.proposals.Keys)) :: IsFiled(c, x)
    ensures forall x | x in PromoteSteps(Ascending(c.grants.Keys)) :: IsFiled(c, x)
  {
    FiledKeys(Ascending(c.bindings.Keys), Ascending(c.proposals.Keys), Ascending(c.grants.Keys), c);
  }

  lemma FiledKeys(b: seq<Id>, p: seq<Id>, g: seq<Id>, c: Certs)
    requires (forall d | d in b :: d in c.bindings) && (forall d | d in p :: d in c.proposals)
    requires forall d | d in g :: d in c.grants
    ensures forall x | x in BindSteps(b) :: IsFiled(c, x)
    ensures forall x | x in ExecuteSteps(p) :: IsFiled(c, x)
    ensures forall x | x in PromoteSteps(g) :: IsFiled(c, x)
  {
  }

  lemma RoundIsSweep(c: Certs, s: State, a: State, b: State, d: State)
    requires a == Sweep(c, s, BindSteps(Ascending(c.bindings.Keys)))
    requires b == Sweep(c, a, ExecuteSteps(Ascending(c.proposals.Keys)))
    requires d == Sweep(c, b, PromoteSteps(Ascending(c.grants.Keys)))
    ensures d == Sweep(c, s, Agenda(c))
  {
    var x, y, z := BindSteps(Ascending(c.bindings.Keys)), ExecuteSteps(Ascending(c.proposals.Keys)),
                   PromoteSteps(Ascending(c.grants.Keys));
    SweepAppends(c, s, x, y);
    SweepAppends(c, s, x + y, z);
  }

  lemma Sandwich(s: State, a: State, d: State)
    requires Below(s, a) && Below(a, d) && d == s
    ensures a == s
  {
    assert a.users == s.users;
  }

  lemma NewsAddsUp(s: State, a: State, b: State, d: State)
    requires Below(s, a) && Below(a, b) && Below(b, d)
    ensures d == s ==> a == s && b == a && d == b
  {
    if d == s {
      Sandwich(s, a, d);
      Sandwich(s, b, d);
    }
  }

  // ---------------------------------------------------------------- the role loops

  lemma GrantClaimsNext(c: Certs, s: State, before: seq<Claim>, keys: seq<Id>, i: nat)
    requires i < |keys| && forall d | d in keys :: d in c.grants
    ensures keys[i] in keys && keys[i] in c.grants
    ensures var t := ConsiderAll(before + GrantClaims(c, s, keys[..i]));
            ConsiderAll(before + GrantClaims(c, s, keys[..i + 1])) ==
            if GrantCounts(c, s, keys[i]) then Consider(t, GrantClaim(c, keys[i])) else t
  {
    var done := GrantClaims(c, s, keys[..i]);
    assert keys[..i + 1][..i] == keys[..i];
    if GrantCounts(c, s, keys[i]) {
      AppendClaim(before + done, GrantClaim(c, keys[i]));
      assert before + (done + [GrantClaim(c, keys[i])]) == before + done + [GrantClaim(c, keys[i])];
    } else {
      assert done + [] == done;
    }
  }

  lemma ProposalClaimsNext(c: Certs, s: State, before: seq<Claim>, keys: seq<Id>, i: nat)
    requires i < |keys| && forall d | d in keys :: d in c.proposals
    ensures keys[i] in keys && keys[i] in c.proposals
    ensures var t := ConsiderAll(before + ProposalClaims(c, s, keys[..i]));
            ConsiderAll(before + ProposalClaims(c, s, keys[..i + 1])) ==
            if SetsRole(c, s, keys[i]) then Consider(t, ProposalClaim(c, keys[i])) else t
  {
    var done := ProposalClaims(c, s, keys[..i]);
    assert keys[..i + 1][..i] == keys[..i];
    if SetsRole(c, s, keys[i]) {
      AppendClaim(before + done, ProposalClaim(c, keys[i]));
      assert before + (done + [ProposalClaim(c, keys[i])]) == before + done + [ProposalClaim(c, keys[i])];
    } else {
      assert done + [] == done;
    }
  }

  method ConsiderGrant(c: Certs, s: State, t: Standing, d: Id) returns (u: Standing)
    requires d in c.grants
    ensures u == if GrantCounts(c, s, d) then Consider(t, GrantClaim(c, d)) else t
  {
    if !GrantCounts(c, s, d) { return t; }
    var g := c.grants[d].payload;
    if g.subject !in t.best || Outranks(g.generation, d, t.best[g.subject]) {
      u := Standing(t.best[g.subject := (g.generation, d)], t.roles[g.subject := g.capability]);
    } else {
      u := t;
    }
  }

  method ConsiderGrants(c: Certs, s: State, ghost before: seq<Claim>, start: Standing) returns (t: Standing)
    requires start == ConsiderAll(before)
    ensures t == ConsiderAll(before + GrantClaims(c, s, Ascending(c.grants.Keys)))
  {
    var keys := Ascending(c.grants.Keys);
    t := start;
    assert before + GrantClaims(c, s, keys[..0]) == before;
    for i := 0 to |keys|
      invariant t == ConsiderAll(before + GrantClaims(c, s, keys[..i]))
    {
      GrantClaimsNext(c, s, before, keys, i);
      t := ConsiderGrant(c, s, t, keys[i]);
    }
    assert keys[..|keys|] == keys;
  }

  method ConsiderProposal(c: Certs, s: State, t: Standing, d: Id) returns (u: Standing)
    requires d in c.proposals
    ensures u == if SetsRole(c, s, d) then Consider(t, ProposalClaim(c, d)) else t
  {
    if !SetsRole(c, s, d) { return t; }
    var p := c.proposals[d].payload;
    if p.action.user !in t.best || Outranks(p.generation, d, t.best[p.action.user]) {
      u := Standing(t.best[p.action.user := (p.generation, d)], t.roles[p.action.user := p.action.role]);
    } else {
      u := t;
    }
  }

  method ConsiderProposals(c: Certs, s: State, ghost before: seq<Claim>, start: Standing) returns (t: Standing)
    requires start == ConsiderAll(before)
    ensures t == ConsiderAll(before + ProposalClaims(c, s, Ascending(c.proposals.Keys)))
  {
    var keys := Ascending(c.proposals.Keys);
    t := start;
    assert before + ProposalClaims(c, s, keys[..0]) == before;
    for i := 0 to |keys|
      invariant t == ConsiderAll(before + ProposalClaims(c, s, keys[..i]))
    {
      ProposalClaimsNext(c, s, before, keys, i);
      t := ConsiderProposal(c, s, t, keys[i]);
    }
    assert keys[..|keys|] == keys;
  }

  method RunRoles(c: Certs, s: State) returns (roles: map<Id, Role>)
    ensures roles == ResolveRoles(c, s)
  {
    ghost var seed := [FounderClaim(c)];
    var t := Standing(map[c.founder := (0, 0)], map[c.founder := Admin]);
    assert [] + seed == seed;
    AppendClaim([], FounderClaim(c));
    t := ConsiderGrants(c, s, seed, t);
    t := ConsiderProposals(c, s, seed + GrantClaims(c, s, Ascending(c.grants.Keys)), t);
    roles := t.roles;
  }

  lemma AppendClaim(claims: seq<Claim>, x: Claim)
    ensures ConsiderAll(claims + [x]) == Consider(ConsiderAll(claims), x)
  {
    assert (claims + [x])[..|claims|] == claims;
  }

  // ---------------------------------------------------------------- the object

  /** Everything `recompute` derives. */
  datatype Verdicts = Verdicts(closure: State, roles: map<Id, Role>, threshold: nat)

  ghost function VerdictsOf(c: Certs): Verdicts {
    Verdicts(Settle(c), ResolveRoles(c, Settle(c)), Threshold(c))
  }

  method Derive(c: Certs) returns (v: Verdicts)
    ensures v == VerdictsOf(c)
  {
    var threshold := Threshold(c);
    var s := RunClosure(c, threshold);
    var roles := RunRoles(c, s);
    v := Verdicts(s, roles, threshold);
  }

  class Store {
    const founder: Id
    var grants: map<Id, Signed<Grant>>
    var bindings: map<Id, Signed<DeviceBinding>>
    var proposals: map<Id, Signed<AdminProposal>>
    var approvals: map<Id, Signed<Approval>>
    var policies: map<Id, Signed<Policy>>
    var derived: Verdicts

    function View(): Certs
      reads this
    {
      Certs(founder, grants, bindings, proposals, approvals, policies)
    }

    /** The derived fields are those of the held certificates. */
    ghost predicate Valid()
      reads this
    {
      derived == VerdictsOf(View())
    }

    constructor (founder: Id)
      ensures this.founder == founder
      ensures Valid() && View() == Empty(founder)
    {
      this.founder := founder;
      grants, bindings, proposals, approvals, policies := map[], map[], map[], map[], map[];
      var v := Derive(Empty(founder));
      derived := v;
    }

    method Recompute()
      modifies this`derived
      ensures Valid() && View() == old(View())
    {
      derived := Derive(View());
    }

    /** File one certificate, leaving the derived fields to the caller. */
    method Stage(x: Certificate) returns (r: Result<bool>)
      modifies this`grants, this`bindings, this`proposals, this`approvals, this`policies
      ensures r == Reply(old(View()), x) && View() == Offer(old(View()), x)
    {
      if !x.domainOk { return Err(WrongDomain); }
      if !x.signatureOk { return Err(BadSignature); }
      r := Ok(!HasDigest(View(), x));
      match x.body
      case GrantBody(s) => grants := grants[x.digest := s];
      case BindingBody(s) => bindings := bindings[x.digest := s];
      case ProposalBody(s) => proposals := proposals[x.digest := s];
      case ApprovalBody(s) => approvals := approvals[x.digest := s];
      case PolicyBody(s) => policies := policies[x.digest := s];
    }

    method Insert(x: Certificate, ghost issued: Certs) returns (r: Result<bool>)
      requires Valid() && Within(View(), issued) && Genuine(issued, x)
      modifies this
      ensures Valid() && Within(View(), issued) && View() == Offer(old(View()), x)
      ensures r == Reply(old(View()), x)
    {
      OfferStaysWithin(issued, View(), x);
      r := Stage(x);
      if r.Ok? && r.value {
        Recompute();
      } else {
        assert View() == old(View());
      }
    }

    method StageAll(xs: seq<Certificate>, ghost issued: Certs) returns (added: nat)
      requires Within(View(), issued) && AllGenuine(issued, xs)
      modifies this`grants, this`bindings, this`proposals, this`approvals, this`policies
      ensures Within(View(), issued) && View() == OfferAll(old(View()), xs)
      ensures Len(View()) == Len(old(View())) + added
      ensures added == 0 ==> View() == old(View())
    {
      added := 0;
      for i := 0 to |xs|
        invariant View() == OfferAll(old(View()), xs[..i]) && Within(View(), issued)
        invariant Len(View()) == Len(old(View())) + added
        invariant added == 0 ==> View() == old(View())
      {
        assert xs[..i + 1][..i] == xs[..i] && xs[i] in xs;
        OfferStaysWithin(issued, View(), xs[i]);
        PutCounts(View(), xs[i]);
        var r := Stage(xs[i]);
        if r.Ok? && r.value { added := added + 1; }
      }
      assert xs[..|xs|] == xs;
    }

    /** File a bundle; an invalid entry is dropped and costs only itself. */
    method Extend(xs: seq<Certificate>, ghost issued: Certs) returns (added: nat)
      requires Valid() && Within(View(), issued) && AllGenuine(issued, xs)
      modifies this
      ensures Valid() && Within(View(), issued) && View() == OfferAll(old(View()), xs)
      ensures Len(View()) == Len(old(View())) + added
      ensures added == 0 ==> View() == old(View())
    {
      added := StageAll(xs, issued);
      if added > 0 { Recompute(); }
    }

    method AllCertificates() returns (xs: seq<Certificate>)
      ensures xs == CertificatesOf(View())
      ensures OfferAll(Empty(founder), xs) == View()
    {
      RestartRebuildsTheStore(View());
      xs := CertificatesOf(View());
    }
  }
}
