/**
 Certificates issued only by devices that are uncertified, or whose user was never an admin. They
 change no verdict exactly when no certified device changes hands. The loop lets any member claim
 any device, so one of them can take a device over and void what it signed; but while no binding held
 before claims a certified device for another user, no outsider's certificate makes an admin or
 passes a proposal.
 */
module Escalation {
  import opened Ordered
  import opened Certificates
  import opened Closure
  import opened ClosureTheorems
  import opened ClosureGrowth
  import opened Roles

  /** Every certificate `big` adds to `small` is issued by a device that is no admin's under `f`. */
  ghost predicate AddedByOutsiders(small: Certs, big: Certs, f: State) {
    && Within(small, big)
    && (forall d | d in big.grants && d !in small.grants :: !IsAdminDevice(f, big.grants[d].issuer))
    && (forall d | d in big.bindings && d !in small.bindings :: !IsAdminDevice(f, big.bindings[d].issuer))
    && (forall d | d in big.proposals && d !in small.proposals :: !IsAdminDevice(f, big.proposals[d].issuer))
    && (forall d | d in big.approvals && d !in small.approvals :: !IsAdminDevice(f, big.approvals[d].issuer))
    && (forall d | d in big.policies && d !in small.policies :: !IsAdminDevice(f, big.policies[d].issuer))
  }

  /** The user owned, under `f`, a device that issued one of the added bindings. */
  ghost predicate OwnsAnIssuer(small: Certs, big: Certs, f: State, user: Id) {
    exists d | d in big.bindings && d !in small.bindings ::
      big.bindings[d].issuer in f.users && f.users[big.bindings[d].issuer] == user
  }

  /** What the proofs use of the exit state of the loop. */
  ghost predicate IsExit(c: Certs, f: State) {
    IsClosed(c, f) && Below(Seed(c), f) && f.executed <= c.proposals.Keys
  }

  lemma SettleIsExit(c: Certs)
    ensures IsExit(c, Settle(c))
  {
    SettleIsReachableAndClosed(c);
    SettleKeepsSeed(c);
    forall p | p in Settle(c).executed
      ensures p in c.proposals
    {
      ExecutedAtQuorum(c, p);
    }
  }

  lemma ThresholdIsTheFounders(small: Certs, big: Certs, f: State)
    requires AddedByOutsiders(small, big, f) && Below(Seed(small), f)
    ensures Threshold(small) == Threshold(big)
  {
    assert IsAdminDevice(f, small.founder);
    assert FounderThresholds(small) == FounderThresholds(big);
  }

  /** What outsiders can reach: the old verdicts and more devices of their own. */
  ghost predicate Contained(small: Certs, big: Certs, f: State, s: State) {
    && s.admins <= f.admins
    && s.executed <= f.executed
    && (forall d | d in s.users && d in f.users :: s.users[d] == f.users[d])
    && (forall d | d in s.users && d !in f.users ::
          s.users[d] !in f.admins && OwnsAnIssuer(small, big, f, s.users[d]))
  }

  lemma AdminDeviceIsOld(small: Certs, big: Certs, f: State, s: State, device: Id)
    requires Contained(small, big, f, s) && IsAdminDevice(s, device)
    ensures IsAdminDevice(f, device) && s.users[device] == f.users[device]
  {
  }

  /** An added device gets a user that owned an issuer, and never an admin. */
  lemma NewDeviceIsAnOutsiders(small: Certs, big: Certs, f: State, s: State, d: Id)
    requires IsExit(small, f) && AddedByOutsiders(small, big, f) && Contained(small, big, f, s)
    requires Enabled(big, s, Bind(d)) && big.bindings[d].payload.device !in f.users
    ensures big.bindings[d].payload.user !in f.admins
    ensures OwnsAnIssuer(small, big, f, big.bindings[d].payload.user)
  {
    var b := big.bindings[d];
    if IsAdminDevice(s, b.issuer) {
      AdminDeviceIsOld(small, big, f, s, b.issuer);
      assert d in small.bindings;
      assert Enabled(small, f, Bind(d));
    } else if b.issuer in f.users {
      if d in small.bindings { assert Enabled(small, f, Bind(d)); }
    }
  }

  lemma BindStaysContained(small: Certs, big: Certs, f: State, s: State, top: State, d: Id)
    requires IsExit(small, f) && AddedByOutsiders(small, big, f) && Contained(small, big, f, s)
    requires Enabled(big, s, Bind(d)) && Below(Fire(big, s, Bind(d)), top) && Below(f, top)
    ensures Contained(small, big, f, Fire(big, s, Bind(d)))
  {
    var device := big.bindings[d].payload.device;
    if device !in f.users { NewDeviceIsAnOutsiders(small, big, f, s, d); }
    var t := Fire(big, s, Bind(d));
    assert device in t.users && t.users[device] == big.bindings[d].payload.user;
    assert device in f.users ==> t.users[device] == f.users[device];
  }

  lemma ExecuteStaysContained(small: Certs, big: Certs, f: State, s: State, d: Id)
    requires IsExit(small, f) && AddedByOutsiders(small, big, f) && Contained(small, big, f, s)
    requires Threshold(small) == Threshold(big) && Enabled(big, s, Execute(d))
    ensures Contained(small, big, f, Fire(big, s, Execute(d)))
  {
    AdminDeviceIsOld(small, big, f, s, big.proposals[d].issuer);
    assert d in small.proposals;
    forall u | u in Approvers(big, s, d)
      ensures u in Approvers(small, f, d)
    {
      var a :| a in big.approvals && big.approvals[a].payload.proposal == d
               && IsAdminDevice(s, big.approvals[a].issuer) && s.users[big.approvals[a].issuer] == u;
      AdminDeviceIsOld(small, big, f, s, big.approvals[a].issuer);
      assert a in small.approvals;
    }
    SubsetIsSmaller(Approvers(big, s, d), Approvers(small, f, d));
    assert !Enabled(small, f, Execute(d));
  }

  lemma PromoteStaysContained(small: Certs, big: Certs, f: State, s: State, d: Id)
    requires IsExit(small, f) && AddedByOutsiders(small, big, f) && Contained(small, big, f, s)
    requires Threshold(small) == Threshold(big) && Enabled(big, s, Promote(d))
    ensures Contained(small, big, f, Fire(big, s, Promote(d)))
  {
    OldGrantCounts(small, big, f, s, d);
    assert !Enabled(small, f, Promote(d));
  }

  lemma OldGrantCounts(small: Certs, big: Certs, f: State, s: State, d: Id)
    requires IsExit(small, f) && AddedByOutsiders(small, big, f) && Contained(small, big, f, s)
    requires Threshold(small) == Threshold(big)
    requires d in big.grants && GrantCounts(big, s, d)
    ensures d in small.grants && GrantCounts(small, f, d)
  {
    var g := big.grants[d];
    AdminDeviceIsOld(small, big, f, s, g.issuer);
    var action := SetRole(g.payload.subject, g.payload.capability);
    if IsDecided(big, s.executed, action) {
      var p :| p in s.executed && p in big.proposals && big.proposals[p].payload.action == action;
      assert p in small.proposals;
      assert IsDecided(small, f.executed, action);
    }
  }

  lemma StepStaysContained(small: Certs, big: Certs, f: State, s: State, top: State, step: Step)
    requires IsExit(small, f) && AddedByOutsiders(small, big, f) && Contained(small, big, f, s)
    requires Threshold(small) == Threshold(big) && Enabled(big, s, step)
    requires Below(Fire(big, s, step), top) && Below(f, top)
    ensures Contained(small, big, f, Fire(big, s, step))
  {
    match step
    case Bind(d) => BindStaysContained(small, big, f, s, top, d);
    case Execute(d) => ExecuteStaysContained(small, big, f, s, d);
    case Promote(d) => PromoteStaysContained(small, big, f, s, d);
  }

  lemma {:induction false} TracesStayContained(small: Certs, big: Certs, f: State, s: State, top: State,
                                               steps: seq<Step>)
    requires IsExit(small, f) && AddedByOutsiders(small, big, f) && Contained(small, big, f, s)
    requires Threshold(small) == Threshold(big)
    requires Legal(big, s, steps) && Below(Play(big, s, steps), top) && Below(f, top)
    ensures Contained(small, big, f, Play(big, s, steps))
    decreases |steps|
  {
    if steps == [] {
    } else {
      var t := Fire(big, s, steps[0]);
      PlayGrows(big, t, steps[1..]);
      StepStaysContained(small, big, f, s, top, steps[0]);
      TracesStayContained(small, big, f, t, top, steps[1..]);
    }
  }

  lemma SettleStaysContained(small: Certs, big: Certs)
    requires AddedByOutsiders(small, big, Settle(small)) && NoneChangedHands(Settle(small), Settle(big))
    ensures Contained(small, big, Settle(small), Settle(big))
    ensures Below(Settle(small), Settle(big)) && Threshold(small) == Threshold(big)
  {
    SettleIsExit(small);
    ThresholdIsTheFounders(small, big, Settle(small));
    GrowthRetractsExactlyWhenADeviceChangesHands(small, big);
    var steps := SettleFromTrace(big, Seed(big));
    TracesStayContained(small, big, Settle(small), Seed(big), Settle(big), steps);
  }

  lemma NoClaimIsGained(small: Certs, big: Certs, f: State, g: State, x: Claim)
    requires IsExit(small, f) && AddedByOutsiders(small, big, f) && Contained(small, big, f, g)
    requires Threshold(small) == Threshold(big) && IsClaim(big, g, x)
    ensures IsClaim(small, f, x)
  {
    if d :| d in big.grants && GrantCounts(big, g, d) && x == GrantClaim(big, d) {
      OldGrantCounts(small, big, f, g, d);
    } else if d :| d in big.proposals && SetsRole(big, g, d) && x == ProposalClaim(big, d) {
      assert SetsRole(small, f, d);
    }
  }

  lemma NoClaimIsLost(small: Certs, big: Certs, f: State, g: State, x: Claim)
    requires Extends(small, big) && Below(f, g) && IsClaim(small, f, x)
    ensures IsClaim(big, g, x)
  {
    if d :| d in small.grants && GrantCounts(small, f, d) && x == GrantClaim(small, d) {
      GrantKeepsCounting(small, big, f, g, d);
    } else if d :| d in small.proposals && SetsRole(small, f, d) && x == ProposalClaim(small, d) {
      assert SetsRole(big, g, d);
    }
  }

  lemma GrantKeepsCounting(small: Certs, big: Certs, f: State, g: State, d: Id)
    requires Extends(small, big) && Below(f, g) && d in small.grants && GrantCounts(small, f, d)
    ensures d in big.grants && GrantCounts(big, g, d)
  {
    var action := SetRole(small.grants[d].payload.subject, small.grants[d].payload.capability);
    if IsDecided(small, f.executed, action) {
      var p :| p in f.executed && p in small.proposals && small.proposals[p].payload.action == action;
      assert IsDecided(big, g.executed, action);
    }
  }

  lemma SameClaimsSameRole(a: Certs, s: State, b: Certs, t: State, u: Id, r: Role)
    requires forall x :: IsClaim(a, s, x) <==> IsClaim(b, t, x)
    requires u in ResolveRoles(a, s) && ResolveRoles(a, s)[u] == r
    ensures u in ResolveRoles(b, t) && ResolveRoles(b, t)[u] == r
  {
    RoleIsTheGreatestClaim(a, s, u, r);
    RoleIsTheGreatestClaim(b, t, u, r);
    var x :| IsGreatestClaim(a, s, x) && x.user == u && x.role == r;
    assert IsGreatestClaim(b, t, x);
  }

  lemma SameClaimsSameRoles(a: Certs, s: State, b: Certs, t: State)
    requires forall x :: IsClaim(a, s, x) <==> IsClaim(b, t, x)
    ensures ResolveRoles(a, s) == ResolveRoles(b, t)
  {
    var m, n := ResolveRoles(a, s), ResolveRoles(b, t);
    forall u | u in m
      ensures u in n && n[u] == m[u]
    {
      SameClaimsSameRole(a, s, b, t, u, m[u]);
    }
    forall u | u in n
      ensures u in m
    {
      SameClaimsSameRole(b, t, a, s, u, n[u]);
    }
  }

  lemma RolesDoNotMove(small: Certs, big: Certs, f: State, g: State)
    requires IsExit(small, f) && AddedByOutsiders(small, big, f) && Contained(small, big, f, g)
    requires Threshold(small) == Threshold(big) && Below(f, g)
    ensures ResolveRoles(big, g) == ResolveRoles(small, f)
  {
    forall x
      ensures IsClaim(big, g, x) <==> IsClaim(small, f, x)
    {
      if IsClaim(big, g, x) { NoClaimIsGained(small, big, f, g, x); }
      if IsClaim(small, f, x) { NoClaimIsLost(small, big, f, g, x); }
    }
    SameClaimsSameRoles(big, g, small, f);
  }

  /**
   From `f` to `g` no threshold, admin, executed proposal, role or attribution moved, and a newly
   certified device belongs to a user who already owned one of the issuing devices.
   */
  ghost predicate NothingEscalated(small: Certs, big: Certs, f: State, g: State) {
    && Threshold(big) == Threshold(small)
    && g.admins == f.admins
    && g.executed == f.executed
    && ResolveRoles(big, g) == ResolveRoles(small, f)
    && (forall d | d in f.users :: d in g.users && g.users[d] == f.users[d])
    && (forall d | d in g.users && d !in f.users :: OwnsAnIssuer(small, big, f, g.users[d]))
  }

  /** Outsiders' certificates change nothing if and only if no certified device changes hands. */
  lemma OutsidersChangeNothingExactlyWhen(small: Certs, big: Certs)
    requires AddedByOutsiders(small, big, Settle(small))
    ensures NothingEscalated(small, big, Settle(small), Settle(big))
            <==> NoneChangedHands(Settle(small), Settle(big))
  {
    if NoneChangedHands(Settle(small), Settle(big)) {
      SettleIsExit(small);
      SettleStaysContained(small, big);
      ContainmentIsEnough(small, big, Settle(small), Settle(big));
    }
  }

  /** What a receiver can check beforehand: no new binding claims a certified device for another user. */
  lemma OutsidersWithoutRivalClaims(small: Certs, big: Certs)
    requires AddedByOutsiders(small, big, Settle(small)) && NoRivalClaims(big, Settle(small))
    ensures NothingEscalated(small, big, Settle(small), Settle(big))
  {
    SettleIsExit(small);
    ThresholdIsTheFounders(small, big, Settle(small));
    WithoutRivalsNoneChangesHands(small, big);
    OutsidersChangeNothingExactlyWhen(small, big);
  }

  /** Freedom from conflicts is enough too, and agreement of all bindings gives that. */
  lemma OutsidersCannotEscalate(small: Certs, big: Certs)
    requires AddedByOutsiders(small, big, Settle(small)) && ConflictFree(big)
    ensures NothingEscalated(small, big, Settle(small), Settle(big))
  {
    SettleIsExit(small);
    ThresholdIsTheFounders(small, big, Settle(small));
    SettleStaysReachable(small, big);
    ReachableStaysBelowSettle(big, Settle(small));
    OutsidersChangeNothingExactlyWhen(small, big);
  }

  lemma ContainmentIsEnough(small: Certs, big: Certs, f: State, g: State)
    requires IsExit(small, f) && AddedByOutsiders(small, big, f) && Contained(small, big, f, g)
    requires Threshold(small) == Threshold(big) && Below(f, g)
    ensures NothingEscalated(small, big, f, g)
  {
    RolesDoNotMove(small, big, f, g);
  }

  // ---------------------------------------------------------------- what outsiders can never gain

  /** Every admin, decision and admin device of `s` is one of `f`; a device that moved went to a non-admin. */
  ghost predicate NoGain(f: State, s: State) {
    && s.admins <= f.admins
    && s.executed <= f.executed
    && (forall d | d in s.users ::
          (d in f.users && f.users[d] == s.users[d]) || s.users[d] !in f.admins)
  }

  lemma AdminDeviceWasOne(f: State, s: State, device: Id)
    requires NoGain(f, s) && IsAdminDevice(s, device)
    ensures IsAdminDevice(f, device) && f.users[device] == s.users[device]
  {
  }

  /** An exit state that no binding of the set contradicts. */
  ghost predicate Agreed(small: Certs, f: State) {
    IsExit(small, f) && NoRivalClaims(small, f)
  }

  lemma BindGainsNothing(small: Certs, big: Certs, f: State, s: State, d: Id)
    requires Agreed(small, f) && AddedByOutsiders(small, big, f) && NoGain(f, s) && Enabled(big, s, Bind(d))
    ensures NoGain(f, Fire(big, s, Bind(d)))
  {
    var b := big.bindings[d];
    if b.issuer in f.users && f.users[b.issuer] == s.users[b.issuer] && d in small.bindings {
      assert Premise(small, f, Bind(d));
      assert !Enabled(small, f, Bind(d));
    } else {
      assert b.payload.user !in f.admins;
    }
  }

  lemma ExecuteGainsNothing(small: Certs, big: Certs, f: State, s: State, d: Id)
    requires IsExit(small, f) && AddedByOutsiders(small, big, f) && NoGain(f, s)
    requires Threshold(small) == Threshold(big) && Enabled(big, s, Execute(d))
    ensures NoGain(f, Fire(big, s, Execute(d)))
  {
    AdminDeviceWasOne(f, s, big.proposals[d].issuer);
    assert d in small.proposals;
    forall u | u in Approvers(big, s, d)
      ensures u in Approvers(small, f, d)
    {
      var a :| a in big.approvals && big.approvals[a].payload.proposal == d
               && IsAdminDevice(s, big.approvals[a].issuer) && s.users[big.approvals[a].issuer] == u;
      AdminDeviceWasOne(f, s, big.approvals[a].issuer);
      assert a in small.approvals;
    }
    SubsetIsSmaller(Approvers(big, s, d), Approvers(small, f, d));
    assert !Enabled(small, f, Execute(d));
  }

  lemma PromoteGainsNothing(small: Certs, big: Certs, f: State, s: State, d: Id)
    requires IsExit(small, f) && AddedByOutsiders(small, big, f) && NoGain(f, s)
    requires Threshold(small) == Threshold(big) && Enabled(big, s, Promote(d))
    ensures NoGain(f, Fire(big, s, Promote(d)))
  {
    var g := big.grants[d];
    AdminDeviceWasOne(f, s, g.issuer);
    var action := SetRole(g.payload.subject, g.payload.capability);
    if IsDecided(big, s.executed, action) {
      var p :| p in s.executed && p in big.proposals && big.proposals[p].payload.action == action;
      assert p in small.proposals;
      assert IsDecided(small, f.executed, action);
    }
    assert !Enabled(small, f, Promote(d));
  }

  lemma {:induction false} TracesGainNothing(small: Certs, big: Certs, f: State, s: State, steps: seq<Step>)
    requires Agreed(small, f) && AddedByOutsiders(small, big, f) && NoGain(f, s)
    requires Threshold(small) == Threshold(big) && Legal(big, s, steps)
    ensures NoGain(f, Play(big, s, steps))
    decreases |steps|
  {
    if steps == [] {
    } else {
      match steps[0] {
        case Bind(d) => BindGainsNothing(small, big, f, s, d);
        case Execute(d) => ExecuteGainsNothing(small, big, f, s, d);
        case Promote(d) => PromoteGainsNothing(small, big, f, s, d);
      }
      TracesGainNothing(small, big, f, Fire(big, s, steps[0]), steps[1..]);
    }
  }

  /** Agreement of all bindings leaves no rival claim. */
  lemma AgreementIsAgreed(c: Certs)
    requires BindingsAgree(c)
    ensures Agreed(c, Settle(c))
  {
    SettleIsExit(c);
    var chain := SettleFromTrace(c, Seed(c));
    forall d | d in c.bindings && c.bindings[d].payload.device in Settle(c).users
      ensures c.bindings[d].payload.user == Settle(c).users[c.bindings[d].payload.device]
    {
      AgreedAttribution(c, chain, Settle(c), d);
    }
  }

  /**
   While no binding held before claims a certified device for another user, and whatever rival
   bindings arrive, outsiders make no admin, pass no proposal and move no device to an admin.
   */
  lemma OutsidersGainNothing(small: Certs, big: Certs)
    requires AddedByOutsiders(small, big, Settle(small)) && NoRivalClaims(small, Settle(small))
    ensures Threshold(big) == Threshold(small) && NoGain(Settle(small), Settle(big))
    ensures forall d | IsAdminDevice(Settle(big), d) :: IsAdminDevice(Settle(small), d)
  {
    SettleIsExit(small);
    ThresholdIsTheFounders(small, big, Settle(small));
    var steps := SettleFromTrace(big, Seed(big));
    TracesGainNothing(small, big, Settle(small), Seed(big), steps);
    forall d | IsAdminDevice(Settle(big), d)
      ensures IsAdminDevice(Settle(small), d)
    {
      AdminDeviceWasOne(Settle(small), Settle(big), d);
    }
  }

  // ---------------------------------------------------------------- an outsider claims a device

  /** `OneBinding`, and a member `f + 6` who was never promoted. */
  ghost function WithMember(f: Id): Certs {
    OneBinding(f).(bindings := map[2 := Signed(f, DeviceBinding(f + 6, f + 6)),
                                   5 := Signed(f, DeviceBinding(f + 1, f + 1))])
  }

  /** The member then claims the admin's device, with a digest smaller than that device's own binding. */
  ghost function Claimed(f: Id): Certs {
    var c := WithMember(f);
    c.(bindings := c.bindings[3 := Signed(f + 6, DeviceBinding(f + 1, f + 6))])
  }

  lemma SecondKeyNext(keys: set<Id>, a: Id, b: Id)
    requires a in keys && b in keys && a < b && forall x | x in keys :: x == a || b <= x
    ensures |Ascending(keys)| >= 2 && Ascending(keys)[0] == a && Ascending(keys)[1] == b
  {
    SmallestKeyFirst(keys, a);
    var r := Ascending(keys);
    assert b in r;
    var i :| 0 <= i < |r| && r[i] == b;
    assert r[1] in r;
    assert i == 1;
  }

  lemma FirstTwoBinds(keys: seq<Id>)
    requires |keys| >= 2
    ensures BindSteps(keys)[..2] == [Bind(keys[0]), Bind(keys[1])]
  {
  }

  lemma TwoBindingsGoFirst(c: Certs, a: Id, b: Id)
    requires a in c.bindings && b in c.bindings && a < b && forall x | x in c.bindings :: x == a || b <= x
    ensures |Agenda(c)| >= 2 && Agenda(c)[..2] == [Bind(a), Bind(b)]
  {
    SecondKeyNext(c.bindings.Keys, a, b);
    FirstTwoBinds(Ascending(c.bindings.Keys));
    PrefixOfThree(BindSteps(Ascending(c.bindings.Keys)), ExecuteSteps(Ascending(c.proposals.Keys)),
                  PromoteSteps(Ascending(c.grants.Keys)), 2);
  }

  lemma BindTwice(c: Certs, a: Id, b: Id)
    requires a in c.bindings && b in c.bindings
    requires c.bindings[a].issuer == c.founder != c.bindings[a].payload.device
    requires c.bindings[b].issuer == c.bindings[a].payload.device
    requires c.bindings[b].payload.user == c.bindings[a].payload.user
    requires c.bindings[b].payload.device !in {c.founder, c.bindings[a].payload.device}
    ensures var s := Advance(c, Advance(c, Seed(c), Bind(a)), Bind(b)).users;
            c.bindings[b].payload.device in s && s[c.bindings[b].payload.device] == c.bindings[b].payload.user
  {
  }

  lemma SweepOfTwo(c: Certs, s: State, x: Step, y: Step)
    ensures Sweep(c, s, [x, y]) == Advance(c, Advance(c, s, x), y)
  {
    assert [x, y] == [x] + [y];
    SweepAppends(c, s, [x], [y]);
    SweepOfOne(c, s, x);
    SweepOfOne(c, Advance(c, s, x), y);
  }

  /** A member enrolled by the first binding takes over the device its own, second, binding names. */
  lemma MemberClaimsDevice(c: Certs, a: Id, b: Id)
    requires a in c.bindings && b in c.bindings && a < b && forall x | x in c.bindings :: x == a || b <= x
    requires c.bindings[a].issuer == c.founder != c.bindings[a].payload.device
    requires c.bindings[b].issuer == c.bindings[a].payload.device
    requires c.bindings[b].payload.user == c.bindings[a].payload.user
    requires c.bindings[b].payload.device !in {c.founder, c.bindings[a].payload.device}
    ensures var x := c.bindings[b].payload; x.device in Settle(c).users && Settle(c).users[x.device] == x.user
  {
    TwoBindingsGoFirst(c, a, b);
    FirstRoundSticks(c, 2);
    SweepOfTwo(c, Seed(c), Bind(a), Bind(b));
    BindTwice(c, a, b);
    BelowKeepsUser(Sweep(c, Seed(c), [Bind(a), Bind(b)]), Settle(c), c.bindings[b].payload.device);
  }

  /** What the claimed device signed is void, its new user being nobody an admin promoted. */
  lemma ClaimCutsOff(c: Certs, a: Id, b: Id, u: Id, p: Id)
    requires a in c.bindings && b in c.bindings && a < b && forall x | x in c.bindings :: x == a || b <= x
    requires c.bindings[a].issuer == c.founder != c.bindings[a].payload.device
    requires c.bindings[b].issuer == c.bindings[a].payload.device
    requires c.bindings[b].payload.user == c.bindings[a].payload.user
    requires c.bindings[b].payload.device !in {c.founder, c.bindings[a].payload.device}
    requires c.founder != c.bindings[b].payload.user && c.founder != u
    requires forall g | g in c.grants :: c.grants[g].payload.subject != c.bindings[b].payload.user
    requires forall g | g in c.grants && c.grants[g].payload.subject == u ::
               c.grants[g].issuer == c.bindings[b].payload.device
    requires p in c.proposals && c.proposals[p].issuer == c.bindings[b].payload.device
    ensures u !in Settle(c).admins && p !in Settle(c).executed
  {
    MemberClaimsDevice(c, a, b);
    PowerlessDevice(c, c.bindings[b].payload.device, u, p);
  }

  lemma MemberIsNoAdmin(c: Certs, a: Id)
    requires BindingsAgree(c) && a in c.bindings && c.bindings[a].payload.user != c.founder
    requires forall g | g in c.grants :: c.grants[g].payload.subject != c.bindings[a].payload.user
    ensures !IsAdminDevice(Settle(c), c.bindings[a].payload.device)
  {
    AgreementIsAgreed(c);
    AdminNeedsAGrant(c, c.bindings[a].payload.user);
  }

  lemma OneMoreBinding(c: Certs, big: Certs, f: State, d: Id)
    requires d in big.bindings && d !in c.bindings && !IsAdminDevice(f, big.bindings[d].issuer)
    requires big == c.(bindings := c.bindings[d := big.bindings[d]])
    ensures AddedByOutsiders(c, big, f)
  {
  }

  /** One more binding, by a device of a member nobody promoted, is an outsider's certificate. */
  lemma MemberIsAnOutsider(c: Certs, big: Certs, a: Id, d: Id)
    requires BindingsAgree(c) && a in c.bindings && c.bindings[a].payload.user != c.founder
    requires forall g | g in c.grants :: c.grants[g].payload.subject != c.bindings[a].payload.user
    requires d in big.bindings && d !in c.bindings && big.bindings[d].issuer == c.bindings[a].payload.device
    requires big == c.(bindings := c.bindings[d := big.bindings[d]])
    ensures AddedByOutsiders(c, big, Settle(c))
  {
    MemberIsNoAdmin(c, a);
    OneMoreBinding(c, big, Settle(c), d);
  }

  lemma WithMemberDecides(f: Id)
    ensures f + 2 in Settle(WithMember(f)).admins && 7 in Settle(WithMember(f)).executed
  {
    assert FounderThresholds(WithMember(f)) == {};
    DeputyHasItsWay(WithMember(f), 5, 0, 1, 7, 8);
  }

  lemma ClaimedUndoes(f: Id)
    ensures f + 2 !in Settle(Claimed(f)).admins && 7 !in Settle(Claimed(f)).executed
  {
    ClaimCutsOff(Claimed(f), 2, 3, f + 2, 7);
  }

  lemma ClaimIsAnOutsiders(f: Id)
    ensures AddedByOutsiders(WithMember(f), Claimed(f), Settle(WithMember(f)))
  {
    MemberIsAnOutsider(WithMember(f), Claimed(f), 2, 3);
  }

  /**
   A member who was never an admin claims an admin's device for itself, and an admin and an executed
   removal are gone: without a condition on rival bindings, outsiders do change verdicts.
   */
  lemma OutsiderCanDemote(f: Id)
    ensures AddedByOutsiders(WithMember(f), Claimed(f), Settle(WithMember(f)))
    ensures f + 2 in Settle(WithMember(f)).admins && f + 2 !in Settle(Claimed(f)).admins
    ensures 7 in Settle(WithMember(f)).executed && 7 !in Settle(Claimed(f)).executed
  {
    ClaimIsAnOutsiders(f);
    WithMemberDecides(f);
    ClaimedUndoes(f);
  }

  // ---------------------------------------------------------------- a role without standing

  /** The founder `f` proposes and approves the Admin role for user `u`. */
  ghost function QuorumOfOne(f: Id, u: Id): Certs {
    Certs(f, map[], map[], map[4 := Signed(f, AdminProposal(SetRole(u, Admin), 0))],
          map[6 := Signed(f, Approval(4))], map[])
  }

  lemma FounderCountsAsApprover(c: Certs, s: State, p: Id, a: Id)
    requires Below(Seed(c), s) && a in c.approvals && c.approvals[a] == Signed(c.founder, Approval(p))
    ensures |Approvers(c, s, p)| >= 1
  {
    assert IsAdminDevice(s, c.approvals[a].issuer);
    assert c.founder in Approvers(c, s, p);
    SubsetIsSmaller({c.founder}, Approvers(c, s, p));
  }

  lemma FounderDecidesAlone(c: Certs, p: Id, a: Id)
    requires a in c.approvals && c.approvals[a] == Signed(c.founder, Approval(p)) && Threshold(c) == 1
    requires p in c.proposals && c.proposals[p].issuer == c.founder
    ensures p in Settle(c).executed
  {
    SettleKeepsSeed(c);
    FounderReachesQuorum(c, Settle(c), p, a);
    ExecutedAtQuorum(c, p);
  }

  lemma FounderReachesQuorum(c: Certs, s: State, p: Id, a: Id)
    requires Below(Seed(c), s) && a in c.approvals && c.approvals[a] == Signed(c.founder, Approval(p))
    requires Threshold(c) == 1 && p in c.proposals && c.proposals[p].issuer == c.founder
    ensures QuorumReached(c, s, p)
  {
    FounderCountsAsApprover(c, s, p, a);
  }

  lemma OnlyProposalSetsTheRole(c: Certs, s: State, p: Id)
    requires c.grants == map[] && c.proposals.Keys == {p} && SetsRole(c, s, p)
    requires c.proposals[p].payload.action.user != c.founder
    ensures var action := c.proposals[p].payload.action;
            action.user in ResolveRoles(c, s) && ResolveRoles(c, s)[action.user] == action.role
  {
    var action := c.proposals[p].payload.action;
    assert IsGreatestClaim(c, s, ProposalClaim(c, p));
    RoleIsTheGreatestClaim(c, s, action.user, action.role);
  }

  /** A quorum sets a role without `ever_admin` standing: only grants feed that set. */
  lemma AdminRoleWithoutEverAdmin(f: Id, u: Id)
    requires u != f
    ensures var c := QuorumOfOne(f, u);
            u in ResolveRoles(c, Settle(c)) && ResolveRoles(c, Settle(c))[u] == Admin && u !in Settle(c).admins
  {
    var c := QuorumOfOne(f, u);
    AdminsByGrants(c, u);
    assert FounderThresholds(c) == {};
    FounderDecidesAlone(c, 4, 6);
    OnlyProposalSetsTheRole(c, Settle(c), 4);
  }
}
