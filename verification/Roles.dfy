/**
 Each user's current role: `resolve_roles` in crates/iroh-beekem-core/src/capability.rs.

 The two update loops consider the grants that count, then the executed `SetRole` proposals, each
 in digest order, and keep the greatest `(generation, digest)`. The specification is the greatest
 element of a set of claims, which mentions no order of consideration.
 */
module Roles {
  import opened Ordered
  import opened Certificates
  import opened Closure
  import opened ClosureTheorems

  /** A statement of a user's role. `weight` settles ties: founder's seed, then grants. */
  datatype Claim = Claim(user: Id, role: Role, generation: nat, digest: Id, weight: nat)

  predicate Outranks(generation: nat, digest: Id, best: (nat, Id)) {
    generation > best.0 || (generation == best.0 && digest > best.1)
  }

  ghost predicate AtLeast(x: Claim, y: Claim) {
    || x.generation > y.generation
    || (x.generation == y.generation && x.digest > y.digest)
    || (x.generation == y.generation && x.digest == y.digest && x.weight >= y.weight)
  }

  // ---------------------------------------------------------------- the claims

  function FounderClaim(c: Certs): Claim {
    Claim(c.founder, Admin, 0, 0, 2)
  }

  function GrantClaim(c: Certs, d: Id): Claim
    requires d in c.grants
  {
    var g := c.grants[d].payload;
    Claim(g.subject, g.capability, g.generation, d, 1)
  }

  predicate SetsRole(c: Certs, s: State, d: Id) {
    d in s.executed && d in c.proposals && c.proposals[d].payload.action.SetRole?
  }

  function ProposalClaim(c: Certs, d: Id): Claim
    requires d in c.proposals && c.proposals[d].payload.action.SetRole?
  {
    var p := c.proposals[d].payload;
    Claim(p.action.user, p.action.role, p.generation, d, 0)
  }

  /** What may decide a role, as a set of certificates and nothing more. */
  ghost predicate IsClaim(c: Certs, s: State, x: Claim) {
    || x == FounderClaim(c)
    || (exists d | d in c.grants && GrantCounts(c, s, d) :: x == GrantClaim(c, d))
    || (exists d | d in c.proposals && SetsRole(c, s, d) :: x == ProposalClaim(c, d))
  }

  ghost predicate IsGreatestClaim(c: Certs, s: State, x: Claim) {
    IsClaim(c, s, x) && forall y | IsClaim(c, s, y) && y.user == x.user :: AtLeast(x, y)
  }

  // ---------------------------------------------------------------- the loops

  datatype Standing = Standing(best: map<Id, (nat, Id)>, roles: map<Id, Role>)

  function Consider(t: Standing, x: Claim): Standing {
    if x.user !in t.best || Outranks(x.generation, x.digest, t.best[x.user]) then
      Standing(t.best[x.user := (x.generation, x.digest)], t.roles[x.user := x.role])
    else t
  }

  function ConsiderAll(claims: seq<Claim>): Standing
    decreases |claims|
  {
    if claims == [] then Standing(map[], map[])
    else Consider(ConsiderAll(claims[..|claims| - 1]), claims[|claims| - 1])
  }

  function GrantClaims(c: Certs, s: State, keys: seq<Id>): seq<Claim>
    requires forall d | d in keys :: d in c.grants
    decreases |keys|
  {
    if keys == [] then []
    else
      var d := keys[|keys| - 1];
      GrantClaims(c, s, keys[..|keys| - 1]) + if GrantCounts(c, s, d) then [GrantClaim(c, d)] else []
  }

  function ProposalClaims(c: Certs, s: State, keys: seq<Id>): seq<Claim>
    requires forall d | d in keys :: d in c.proposals
    decreases |keys|
  {
    if keys == [] then []
    else
      var d := keys[|keys| - 1];
      ProposalClaims(c, s, keys[..|keys| - 1]) + if SetsRole(c, s, d) then [ProposalClaim(c, d)] else []
  }

  function Claims(c: Certs, s: State): seq<Claim> {
    [FounderClaim(c)]
    + GrantClaims(c, s, Ascending(c.grants.Keys))
    + ProposalClaims(c, s, Ascending(c.proposals.Keys))
  }

  function ResolveRoles(c: Certs, s: State): map<Id, Role> {
    ConsiderAll(Claims(c, s)).roles
  }

  // ---------------------------------------------------------------- what the loops compute

  lemma {:induction false} GrantClaimsAre(c: Certs, s: State, keys: seq<Id>, x: Claim)
    requires forall d | d in keys :: d in c.grants
    ensures x in GrantClaims(c, s, keys) <==>
            exists d | d in keys && GrantCounts(c, s, d) :: x == GrantClaim(c, d)
    decreases |keys|
  {
    if keys == [] {
    } else {
      GrantClaimsAre(c, s, keys[..|keys| - 1], x);
      assert keys == keys[..|keys| - 1] + [keys[|keys| - 1]];
    }
  }

  lemma {:induction false} ProposalClaimsAre(c: Certs, s: State, keys: seq<Id>, x: Claim)
    requires forall d | d in keys :: d in c.proposals
    ensures x in ProposalClaims(c, s, keys) <==>
            exists d | d in keys && SetsRole(c, s, d) :: x == ProposalClaim(c, d)
    decreases |keys|
  {
    if keys == [] {
    } else {
      ProposalClaimsAre(c, s, keys[..|keys| - 1], x);
      assert keys == keys[..|keys| - 1] + [keys[|keys| - 1]];
    }
  }

  lemma ClaimsAreExactly(c: Certs, s: State, x: Claim)
    ensures x in Claims(c, s) <==> IsClaim(c, s, x)
  {
    GrantClaimsAre(c, s, Ascending(c.grants.Keys), x);
    ProposalClaimsAre(c, s, Ascending(c.proposals.Keys), x);
  }

  ghost predicate WeightsFall(claims: seq<Claim>) {
    forall i, j | 0 <= i < j < |claims| :: claims[i].weight >= claims[j].weight
  }

  lemma GrantWeights(c: Certs, s: State, keys: seq<Id>)
    requires forall d | d in keys :: d in c.grants
    ensures forall x | x in GrantClaims(c, s, keys) :: x.weight == 1
  {
    forall x | x in GrantClaims(c, s, keys)
      ensures x.weight == 1
    {
      GrantClaimsAre(c, s, keys, x);
    }
  }

  lemma ProposalWeights(c: Certs, s: State, keys: seq<Id>)
    requires forall d | d in keys :: d in c.proposals
    ensures forall x | x in ProposalClaims(c, s, keys) :: x.weight == 0
  {
    forall x | x in ProposalClaims(c, s, keys)
      ensures x.weight == 0
    {
      ProposalClaimsAre(c, s, keys, x);
    }
  }

  lemma WeightsFallAcross(seed: Claim, gs: seq<Claim>, ps: seq<Claim>)
    requires seed.weight == 2 && (forall x | x in gs :: x.weight == 1) && (forall x | x in ps :: x.weight == 0)
    ensures WeightsFall([seed] + gs + ps)
  {
    var all := [seed] + gs + ps;
    forall i | 0 <= i < |all|
      ensures all[i].weight == if i == 0 then 2 else if i <= |gs| then 1 else 0
    {
      if 0 < i <= |gs| {
        assert all[i] == gs[i - 1] && gs[i - 1] in gs;
      } else if i > |gs| {
        assert all[i] == ps[i - 1 - |gs|] && ps[i - 1 - |gs|] in ps;
      }
    }
  }

  lemma ClaimWeightsFall(c: Certs, s: State)
    ensures WeightsFall(Claims(c, s))
  {
    var gs, ps := Ascending(c.grants.Keys), Ascending(c.proposals.Keys);
    GrantWeights(c, s, gs);
    ProposalWeights(c, s, ps);
    WeightsFallAcross(FounderClaim(c), GrantClaims(c, s, gs), ProposalClaims(c, s, ps));
  }

  ghost predicate IsGreatestIn(claims: seq<Claim>, x: Claim) {
    x in claims && forall y | y in claims && y.user == x.user :: AtLeast(x, y)
  }

  /** The standing of `u` is that of `x`. */
  ghost predicate StandsBy(t: Standing, u: Id, x: Claim) {
    && u in t.best && u in t.roles && x.user == u
    && t.best[u] == (x.generation, x.digest) && t.roles[u] == x.role
  }

  lemma GreatestSurvives(init: seq<Claim>, z: Claim, x: Claim)
    requires IsGreatestIn(init, x) && (x.user == z.user ==> AtLeast(x, z))
    ensures IsGreatestIn(init + [z], x)
  {
  }

  lemma NewGreatest(init: seq<Claim>, z: Claim)
    requires forall y | y in init && y.user == z.user :: AtLeast(z, y)
    ensures IsGreatestIn(init + [z], z)
  {
    assert z in init + [z];
  }

  lemma OneMoreClaim(init: seq<Claim>, t: Standing, u: Id, x: Claim, z: Claim) returns (y: Claim)
    requires IsGreatestIn(init, x) && StandsBy(t, u, x) && x.weight >= z.weight
    ensures IsGreatestIn(init + [z], y) && StandsBy(Consider(t, z), u, y)
  {
    if u == z.user && Outranks(z.generation, z.digest, t.best[u]) {
      NewGreatest(init, z);
      y := z;
    } else {
      GreatestSurvives(init, z, x);
      y := x;
    }
  }

  ghost predicate HasClaim(claims: seq<Claim>, u: Id) {
    exists x | x in claims :: x.user == u
  }

  /** `u` stands by its greatest claim, or has none. */
  ghost predicate StandsByTheGreatest(claims: seq<Claim>, t: Standing, u: Id) {
    if HasClaim(claims, u) then exists x | IsGreatestIn(claims, x) :: StandsBy(t, u, x)
    else u !in t.best && u !in t.roles
  }

  lemma ConsideringOneMore(init: seq<Claim>, t: Standing, u: Id, z: Claim)
    requires StandsByTheGreatest(init, t, u) && forall x | x in init :: x.weight >= z.weight
    ensures StandsByTheGreatest(init + [z], Consider(t, z), u)
  {
    assert HasClaim(init + [z], u) <==> HasClaim(init, u) || z.user == u;
    if HasClaim(init, u) {
      var x :| IsGreatestIn(init, x) && StandsBy(t, u, x);
      var y := OneMoreClaim(init, t, u, x, z);
    } else if u == z.user {
      NewGreatest(init, z);
      assert StandsBy(Consider(t, z), u, z);
    }
  }

  /** After considering claims of falling weight, each user with a claim stands by its greatest. */
  lemma {:induction false} ConsideringKeepsTheGreatest(claims: seq<Claim>, u: Id)
    requires WeightsFall(claims)
    ensures StandsByTheGreatest(claims, ConsiderAll(claims), u)
    decreases |claims|
  {
    if claims == [] {
    } else {
      var init, z := claims[..|claims| - 1], claims[|claims| - 1];
      ConsideringKeepsTheGreatest(init, u);
      ConsideringOneMore(init, ConsiderAll(init), u, z);
      assert claims == init + [z];
    }
  }

  lemma ClaimIsItsRank(c: Certs, s: State, x: Claim, y: Claim)
    requires IsClaim(c, s, x) && IsClaim(c, s, y) && AtLeast(x, y) && AtLeast(y, x)
    ensures x == y
  {
  }

  /** A user's role is that of its greatest claim; a user has a role iff it has a claim. */
  lemma RoleIsTheGreatestClaim(c: Certs, s: State, u: Id, r: Role)
    ensures (u in ResolveRoles(c, s) && ResolveRoles(c, s)[u] == r) <==>
            exists x | IsGreatestClaim(c, s, x) :: x.user == u && x.role == r
    ensures u in ResolveRoles(c, s) <==> exists x | IsClaim(c, s, x) :: x.user == u
  {
    var claims := Claims(c, s);
    forall x
      ensures x in claims <==> IsClaim(c, s, x)
    {
      ClaimsAreExactly(c, s, x);
    }
    ClaimWeightsFall(c, s);
    ConsideringKeepsTheGreatest(claims, u);
    assert forall x :: IsGreatestIn(claims, x) <==> IsGreatestClaim(c, s, x);
    if x :| IsGreatestClaim(c, s, x) && x.user == u && x.role == r {
      assert x in claims;
      var y :| IsGreatestIn(claims, y) && StandsBy(ConsiderAll(claims), u, y);
      ClaimIsItsRank(c, s, x, y);
    }
  }

  // ---------------------------------------------------------------- who decides a role

  ghost predicate DecisionStands(c: Certs, s: State, d: Id) {
    d in s.executed && d in c.proposals && c.proposals[d].payload.action.SetRole?
  }

  ghost predicate NoLater(g: nat, d: Id, generation: nat, digest: Id) {
    g < generation || (g == generation && d <= digest)
  }

  /** Every grant that stands and every decision about `u` comes no later than `(generation, digest)`. */
  ghost predicate NothingLater(c: Certs, s: State, u: Id, generation: nat, digest: Id) {
    && (forall d | GrantStands(c, s, d) && c.grants[d].payload.subject == u ::
          NoLater(c.grants[d].payload.generation, d, generation, digest))
    && (forall d | DecisionStands(c, s, d) && c.proposals[d].payload.action.user == u ::
          NoLater(c.proposals[d].payload.generation, d, generation, digest))
  }

  lemma StandingIsCounting(c: Certs, s: State, d: Id)
    ensures GrantStands(c, s, d) <==> d in c.grants && GrantCounts(c, s, d)
    ensures DecisionStands(c, s, d) <==> d in c.proposals && SetsRole(c, s, d)
  {
    StandingGrantsCount(c, s, d);
  }

  lemma GreatestFor(c: Certs, s: State, x: Claim)
    requires IsClaim(c, s, x) && NothingLater(c, s, x.user, x.generation, x.digest)
    requires x.user == c.founder ==> x == FounderClaim(c) || (x.generation, x.digest) != (0, 0)
    requires forall d | GrantStands(c, s, d) && c.grants[d].payload.subject == x.user :: d == x.digest ==> x.weight >= 1
    ensures x.user in ResolveRoles(c, s) && ResolveRoles(c, s)[x.user] == x.role
  {
    forall y | IsClaim(c, s, y) && y.user == x.user
      ensures AtLeast(x, y)
    {
      if d :| d in c.grants && GrantCounts(c, s, d) && y == GrantClaim(c, d) {
        StandingIsCounting(c, s, d);
      } else if d :| d in c.proposals && SetsRole(c, s, d) && y == ProposalClaim(c, d) {
        StandingIsCounting(c, s, d);
      }
    }
    assert IsGreatestClaim(c, s, x);
    RoleIsTheGreatestClaim(c, s, x.user, x.role);
  }

  /** The founder is an admin until something real names it: the seed is the lowest claim of all. */
  lemma FounderIsAdminUntilNamed(c: Certs, s: State)
    requires NothingLater(c, s, c.founder, 0, 0)
    ensures c.founder in ResolveRoles(c, s) && ResolveRoles(c, s)[c.founder] == Admin
  {
    GreatestFor(c, s, FounderClaim(c));
  }

  /** The latest grant that stands decides its subject's role, unless a later decision does. */
  lemma LatestGrantDecides(c: Certs, s: State, d: Id)
    requires GrantStands(c, s, d)
    requires NothingLater(c, s, c.grants[d].payload.subject, c.grants[d].payload.generation, d)
    requires c.grants[d].payload.subject == c.founder ==> (c.grants[d].payload.generation, d) != (0, 0)
    ensures var g := c.grants[d].payload;
            g.subject in ResolveRoles(c, s) && ResolveRoles(c, s)[g.subject] == g.capability
  {
    StandingIsCounting(c, s, d);
    GreatestFor(c, s, GrantClaim(c, d));
  }

  /** The latest decision of a quorum decides its user's role, unless a later grant does. */
  lemma LatestDecisionDecides(c: Certs, s: State, d: Id)
    requires DecisionStands(c, s, d)
    requires NothingLater(c, s, c.proposals[d].payload.action.user, c.proposals[d].payload.generation, d)
    requires c.proposals[d].payload.action.user == c.founder ==> (c.proposals[d].payload.generation, d) != (0, 0)
    requires !(GrantStands(c, s, d) && c.grants[d].payload.subject == c.proposals[d].payload.action.user)
    ensures var a := c.proposals[d].payload.action;
            a.user in ResolveRoles(c, s) && ResolveRoles(c, s)[a.user] == a.role
  {
    StandingIsCounting(c, s, d);
    GreatestFor(c, s, ProposalClaim(c, d));
  }

  lemma ClaimsAreNamings(c: Certs, s: State, x: Claim)
    requires IsClaim(c, s, x)
    ensures || x.user == c.founder
            || (exists d :: GrantStands(c, s, d) && c.grants[d].payload.subject == x.user)
            || (exists d :: DecisionStands(c, s, d) && c.proposals[d].payload.action.user == x.user)
  {
    if d :| d in c.grants && GrantCounts(c, s, d) && x == GrantClaim(c, d) {
      StandingIsCounting(c, s, d);
    } else if d :| d in c.proposals && SetsRole(c, s, d) && x == ProposalClaim(c, d) {
      StandingIsCounting(c, s, d);
    }
  }

  lemma NamingsAreClaims(c: Certs, s: State, d: Id)
    ensures GrantStands(c, s, d) ==> IsClaim(c, s, GrantClaim(c, d))
    ensures DecisionStands(c, s, d) ==> IsClaim(c, s, ProposalClaim(c, d))
  {
    StandingIsCounting(c, s, d);
  }

  /** A user has a role if and only if it is the founder or something that stands names it. */
  lemma RolesNeedANaming(c: Certs, s: State, u: Id)
    ensures u in ResolveRoles(c, s) <==>
            || u == c.founder
            || (exists d :: GrantStands(c, s, d) && c.grants[d].payload.subject == u)
            || (exists d :: DecisionStands(c, s, d) && c.proposals[d].payload.action.user == u)
  {
    RoleIsTheGreatestClaim(c, s, u, Admin);
    if x :| IsClaim(c, s, x) && x.user == u {
      ClaimsAreNamings(c, s, x);
    } else {
      assert !IsClaim(c, s, FounderClaim(c)) || u != c.founder;
      forall d
        ensures !(GrantStands(c, s, d) && c.grants[d].payload.subject == u)
        ensures !(DecisionStands(c, s, d) && c.proposals[d].payload.action.user == u)
      {
        NamingsAreClaims(c, s, d);
      }
    }
  }

  /** The Admin role comes from an admin grant that counts, or from a quorum naming the user. */
  lemma AdminRoleHasASource(c: Certs, u: Id)
    requires u in ResolveRoles(c, Settle(c)) && ResolveRoles(c, Settle(c))[u] == Admin
    ensures u in Settle(c).admins || IsDecided(c, Settle(c).executed, SetRole(u, Admin))
  {
    RoleIsTheGreatestClaim(c, Settle(c), u, Admin);
    var x :| IsGreatestClaim(c, Settle(c), x) && x.user == u && x.role == Admin;
    AdminsByGrants(c, u);
  }
}
