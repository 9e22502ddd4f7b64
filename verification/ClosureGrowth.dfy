/**
 Learning more certificates. From one set to a larger one nothing is retracted exactly when no
 device changes hands; from every smaller set nothing is retracted exactly when the larger one is
 free of conflicts. A second binding of one device is what breaks both.
 */
module ClosureGrowth {
  import opened Ordered
  import opened Certificates
  import opened Closure
  import opened ClosureTheorems

  /** More certificates under the same founder and the same threshold. */
  ghost predicate Extends(small: Certs, big: Certs) {
    Within(small, big) && Threshold(small) == Threshold(big)
  }

  lemma StepSurvivesGrowth(small: Certs, big: Certs, s: State, step: Step)
    requires Extends(small, big) && Enabled(small, s, step)
    ensures Enabled(big, s, step) && Fire(big, s, step) == Fire(small, s, step)
  {
    if step.Execute? {
      assert Approvers(small, s, step.digest) <= Approvers(big, s, step.digest);
      SubsetIsSmaller(Approvers(small, s, step.digest), Approvers(big, s, step.digest));
    }
  }

  lemma {:induction false} TraceSurvivesGrowth(small: Certs, big: Certs, s: State, steps: seq<Step>)
    requires Extends(small, big) && Legal(small, s, steps)
    ensures Legal(big, s, steps) && Play(big, s, steps) == Play(small, s, steps)
    decreases |steps|
  {
    if steps == [] {
    } else {
      StepSurvivesGrowth(small, big, s, steps[0]);
      TraceSurvivesGrowth(small, big, Fire(small, s, steps[0]), steps[1..]);
    }
  }

  lemma SettleStaysReachable(small: Certs, big: Certs)
    requires Extends(small, big)
    ensures Reachable(big, Settle(small))
  {
    var steps := SettleFromTrace(small, Seed(small));
    TraceSurvivesGrowth(small, big, Seed(small), steps);
    assert Legal(big, Seed(big), steps);
  }

  /** Arriving at `big` from any smaller set takes nothing back. */
  ghost predicate NeverRetracts(big: Certs) {
    forall small | Extends(small, big) :: Below(Settle(small), Settle(big))
  }

  ghost function WithBindings(c: Certs, keep: set<Id>): Certs {
    c.(bindings := map d | d in c.bindings && d in keep :: c.bindings[d])
  }

  /** The bindings a trace uses. */
  ghost function Used(steps: seq<Step>): set<Id> {
    set i | 0 <= i < |steps| && steps[i].Bind? :: steps[i].digest
  }

  lemma {:induction false} TraceNeedsOnlyItsBindings(c: Certs, keep: set<Id>, s: State, steps: seq<Step>)
    requires Legal(c, s, steps) && Used(steps) <= keep
    ensures Legal(WithBindings(c, keep), s, steps)
    ensures Play(WithBindings(c, keep), s, steps) == Play(c, s, steps)
    decreases |steps|
  {
    if steps == [] {
    } else {
      var k := WithBindings(c, keep);
      assert steps[0].Bind? ==> steps[0].digest in Used(steps);
      forall d | d in Used(steps[1..])
        ensures d in keep
      {
        var i :| 0 <= i < |steps[1..]| && steps[1..][i].Bind? && steps[1..][i].digest == d;
        assert steps[i + 1].digest in Used(steps);
      }
      assert Threshold(k) == Threshold(c) by { assert FounderThresholds(k) == FounderThresholds(c); }
      SameEnabled(c, k, s, steps[0]);
      TraceNeedsOnlyItsBindings(c, keep, Fire(c, s, steps[0]), steps[1..]);
    }
  }

  lemma SameEnabled(c: Certs, k: Certs, s: State, step: Step)
    requires k == c.(bindings := k.bindings) && Threshold(k) == Threshold(c)
    requires step.Bind? ==> step.digest in k.bindings && step.digest in c.bindings
                            && k.bindings[step.digest] == c.bindings[step.digest]
    ensures Enabled(c, s, step) <==> Enabled(k, s, step)
    ensures Fire(c, s, step) == Fire(k, s, step)
  {
    if step.Execute? {
      assert Approvers(c, s, step.digest) == Approvers(k, s, step.digest);
    }
  }

  /** A legal trace binds each device once and never the founder's. */
  lemma TraceBindsOnce(c: Certs, steps: seq<Step>, i: nat, j: nat)
    requires Legal(c, Seed(c), steps) && i <= j < |steps| && steps[i].Bind? && steps[j].Bind?
    ensures steps[i].digest in c.bindings && steps[j].digest in c.bindings
    ensures i < j ==> c.bindings[steps[i].digest].payload.device != c.bindings[steps[j].digest].payload.device
    ensures c.bindings[steps[j].digest].payload.device != c.founder
    ensures c.bindings[steps[j].digest].payload.device in Play(c, Seed(c), steps).users
  {
    PrefixIsLegal(c, Seed(c), steps, j);
    PrefixIsLegal(c, Seed(c), steps, j + 1);
    PlaysLast(c, Seed(c), steps[..j + 1]);
    assert steps[..j + 1][..j] == steps[..j];
    PlayGrows(c, Seed(c), steps[..j]);
    PrefixIsLegal(c, Seed(c), steps, i + 1);
    PlaysLast(c, Seed(c), steps[..i + 1]);
    assert steps[..i + 1][..i] == steps[..i];
    if i < j {
      PrefixIsLegal(c, Seed(c), steps[..j], i + 1);
      assert steps[..j][..i + 1] == steps[..i + 1];
    }
  }

  lemma TraceBindingsAgree(c: Certs, steps: seq<Step>)
    requires Legal(c, Seed(c), steps)
    ensures BindingsAgree(WithBindings(c, Used(steps)))
  {
    var k := WithBindings(c, Used(steps));
    forall x | x in k.bindings
      ensures k.bindings[x].payload.device != c.founder
    {
      var i :| 0 <= i < |steps| && steps[i].Bind? && steps[i].digest == x;
      TraceBindsOnce(c, steps, i, i);
    }
    forall x, y | x in k.bindings && y in k.bindings
                  && k.bindings[x].payload.device == k.bindings[y].payload.device
      ensures k.bindings[x].payload.user == k.bindings[y].payload.user
    {
      var i :| 0 <= i < |steps| && steps[i].Bind? && steps[i].digest == x;
      var j :| 0 <= j < |steps| && steps[j].Bind? && steps[j].digest == y;
      if i <= j { TraceBindsOnce(c, steps, i, j); } else { TraceBindsOnce(c, steps, j, i); }
    }
  }

  /** Everything any trace reaches is the verdict on the certificates that trace used. */
  lemma TraceIsSomeVerdict(c: Certs, steps: seq<Step>)
    requires Legal(c, Seed(c), steps)
    ensures Extends(WithBindings(c, Used(steps)), c)
    ensures Below(Play(c, Seed(c), steps), Settle(WithBindings(c, Used(steps))))
  {
    var k := WithBindings(c, Used(steps));
    assert Threshold(k) == Threshold(c) by { assert FounderThresholds(k) == FounderThresholds(c); }
    TraceNeedsOnlyItsBindings(c, Used(steps), Seed(c), steps);
    TraceBindingsAgree(c, steps);
    AgreementIsConflictFree(k);
    assert Reachable(k, Play(c, Seed(c), steps)) by { assert Legal(k, Seed(k), steps); }
    ReachableStaysBelowSettle(k, Play(c, Seed(c), steps));
  }

  lemma ConflictRetracts(c: Certs, s: State, x: Id, y: Id)
    requires Reachable(c, s) && Conflict(c, s, x, y)
    ensures !NeverRetracts(c)
  {
    var steps: seq<Step> :| Legal(c, Seed(c), steps) && Play(c, Seed(c), steps) == s;
    var a, b := steps + [Bind(x)], steps + [Bind(y)];
    PlayAppends(c, Seed(c), steps, [Bind(x)]);
    PlayAppends(c, Seed(c), steps, [Bind(y)]);
    assert Play(c, s, [Bind(x)]) == Fire(c, s, Bind(x));
    assert Play(c, s, [Bind(y)]) == Fire(c, s, Bind(y));
    TraceIsSomeVerdict(c, a);
    TraceIsSomeVerdict(c, b);
    var device := c.bindings[x].payload.device;
    assert Settle(WithBindings(c, Used(a))).users[device] != Settle(WithBindings(c, Used(b))).users[device];
  }

  /**
   Adding certificates never removes an attribution, an admin or an executed proposal, from any
   starting set, exactly when the enlarged set is free of conflicts.
   */
  lemma GrowthRetractsNothingIffConflictFree(big: Certs)
    ensures NeverRetracts(big) <==> ConflictFree(big)
  {
    if ConflictFree(big) {
      forall small | Extends(small, big)
        ensures Below(Settle(small), Settle(big))
      {
        SettleStaysReachable(small, big);
        ReachableStaysBelowSettle(big, Settle(small));
      }
    } else {
      var s, x, y :| Reachable(big, s) && Conflict(big, s, x, y);
      ConflictRetracts(big, s, x, y);
    }
  }

  // ---------------------------------------------------------------- one set and a larger one

  /** No device certified in both states belongs to different users. */
  ghost predicate NoneChangedHands(f: State, g: State) {
    forall d | d in f.users && d in g.users :: g.users[d] == f.users[d]
  }

  lemma ReplayedStepIsThere(small: Certs, big: Certs, s: State, g: State, step: Step)
    requires Extends(small, big) && IsClosed(big, g) && Below(s, g) && Enabled(small, s, step)
    requires NoneChangedHands(Fire(small, s, step), g)
    ensures Below(Fire(small, s, step), g)
  {
    StepSurvivesGrowth(small, big, s, step);
    PremiseIsMonotone(big, s, g, step);
    assert !Enabled(big, g, step);
  }

  /** A trace of the smaller set stays inside the larger one's verdict until a device changes hands. */
  lemma {:induction false} ReplayStaysBelow(small: Certs, big: Certs, g: State, s: State, steps: seq<Step>)
    requires Extends(small, big) && IsClosed(big, g) && Below(s, g) && Legal(small, s, steps)
    requires NoneChangedHands(Play(small, s, steps), g)
    ensures Below(Play(small, s, steps), g)
    decreases |steps|
  {
    if steps == [] {
    } else {
      var t := Fire(small, s, steps[0]);
      PlayGrows(small, t, steps[1..]);
      ReplayedStepIsThere(small, big, s, g, steps[0]);
      ReplayStaysBelow(small, big, g, t, steps[1..]);
    }
  }

  /** For any two sets: nothing is retracted if and only if no device changes hands. */
  lemma GrowthRetractsExactlyWhenADeviceChangesHands(small: Certs, big: Certs)
    requires Extends(small, big)
    ensures Below(Settle(small), Settle(big)) <==> NoneChangedHands(Settle(small), Settle(big))
  {
    if NoneChangedHands(Settle(small), Settle(big)) {
      SettleIsReachableAndClosed(big);
      SettleKeepsSeed(big);
      var steps := SettleFromTrace(small, Seed(small));
      ReplayStaysBelow(small, big, Settle(big), Seed(small), steps);
    }
  }

  /** No binding of `big` gives a device certified in `f` to another user. */
  predicate NoRivalClaims(big: Certs, f: State) {
    forall d | d in big.bindings && big.bindings[d].payload.device in f.users ::
      big.bindings[d].payload.user == f.users[big.bindings[d].payload.device]
  }

  lemma DeviceWithoutRivals(big: Certs, f: State, g: State, chain: seq<Step>, d: Id)
    requires EndsAt(big, chain, g) && NoRivalClaims(big, f) && d in f.users && d in g.users
    requires big.founder in f.users && f.users[big.founder] == big.founder
    ensures g.users[d] == f.users[d]
  {
    PlayGrows(big, Seed(big), chain);
    DeviceIn(big, chain, g, d);
  }

  /** A check that reads only the old verdict and the new bindings. */
  lemma WithoutRivalsNoneChangesHands(small: Certs, big: Certs)
    requires Extends(small, big) && NoRivalClaims(big, Settle(small))
    ensures NoneChangedHands(Settle(small), Settle(big))
  {
    SettleKeepsSeed(small);
    var chain := SettleFromTrace(big, Seed(big));
    forall d | d in Settle(small).users && d in Settle(big).users
      ensures Settle(big).users[d] == Settle(small).users[d]
    {
      DeviceWithoutRivals(big, Settle(small), Settle(big), chain, d);
    }
  }

  /** So what a receiver reads before merging a removal never goes from yes to no. */
  lemma QuorumVerdictNeverRetracts(small: Certs, big: Certs, action: AdminAction)
    requires Extends(small, big) && NoneChangedHands(Settle(small), Settle(big))
    requires IsDecided(small, Settle(small).executed, action)
    ensures IsDecided(big, Settle(big).executed, action)
  {
    GrowthRetractsExactlyWhenADeviceChangesHands(small, big);
    var d :| d in Settle(small).executed && d in small.proposals && small.proposals[d].payload.action == action;
    assert d in Settle(big).executed;
  }

  // ---------------------------------------------------------------- the condition is needed

  lemma SettlingGrows(c: Certs, s: State)
    ensures Below(s, SettleFrom(c, s))
  {
    var rest := SettleFromTrace(c, s);
    PlayGrows(c, s, rest);
  }

  lemma SettlesAfterARound(c: Certs, s: State)
    ensures SettleFrom(c, s) == SettleFrom(c, Sweep(c, s, Agenda(c)))
  {
    SweepPays(c, s);
  }

  lemma RoundSticks(c: Certs, s: State, a: seq<Step>, b: seq<Step>)
    requires a + b == Agenda(c)
    ensures Below(Sweep(c, s, a), SettleFrom(c, s))
  {
    var t := Sweep(c, s, a);
    var next := Sweep(c, t, b);
    SweepAppends(c, s, a, b);
    SweepPlaysWhatItTakes(c, t, b);
    SettlesAfterARound(c, s);
    SettlingGrows(c, next);
    BelowIsTransitive(t, next, SettleFrom(c, next));
  }

  lemma SettlesFromTheSeed(c: Certs)
    ensures Settle(c) == SettleFrom(c, Seed(c))
  {
  }

  /** Whatever the first round has established part-way is there at the end. */
  lemma FirstRoundSticks(c: Certs, k: nat)
    requires k <= |Agenda(c)|
    ensures Below(Sweep(c, Seed(c), Agenda(c)[..k]), Settle(c))
  {
    SettlesFromTheSeed(c);
    Rejoin(Agenda(c), k);
    RoundSticks(c, Seed(c), Agenda(c)[..k], Agenda(c)[k..]);
  }

  lemma BelowIsTransitive(s: State, t: State, u: State)
    requires Below(s, t) && Below(t, u)
    ensures Below(s, u)
  {
  }

  /**
   The founder `f` enrols a device for user `f + 1`, an admin; that device makes `f + 2` one, and
   proposes and approves the removal of `f + 4`.
   */
  ghost function OneBinding(f: Id): Certs {
    Certs(f,
          map[0 := Signed(f, Grant(f + 1, Admin, 0)), 1 := Signed(f + 1, Grant(f + 2, Admin, 0))],
          map[5 := Signed(f, DeviceBinding(f + 1, f + 1))],
          map[7 := Signed(f + 1, AdminProposal(RemoveMember(f + 4), 0))],
          map[8 := Signed(f + 1, Approval(7))],
          map[])
  }

  /** The same, after a second binding of that device with a smaller digest. */
  ghost function Rebound(f: Id): Certs {
    OneBinding(f).(bindings := map[3 := Signed(f, DeviceBinding(f + 1, f + 3)),
                                   5 := Signed(f, DeviceBinding(f + 1, f + 1))])
  }

  lemma OneApproverIsEnough(c: Certs, s: State, p: Id, a: Id)
    requires Threshold(c) == 1 && p in c.proposals && IsAdminDevice(s, c.proposals[p].issuer)
    requires a in c.approvals && c.approvals[a] == Signed(c.proposals[p].issuer, Approval(p))
    ensures QuorumReached(c, s, p)
  {
    var u := s.users[c.approvals[a].issuer];
    assert u in Approvers(c, s, p);
    SubsetIsSmaller({u}, Approvers(c, s, p));
  }

  lemma DeputyIsAdmin(c: Certs, chain: seq<Step>, s: State, b: Id, g: Id)
    requires EndsAt(c, chain, s) && BindingsAgree(c) && Threshold(c) == 1
    requires b in c.bindings && c.bindings[b].issuer == c.founder != c.bindings[b].payload.device
    requires g in c.grants && c.grants[g].issuer == c.founder
    requires c.grants[g].payload.capability == Admin && c.grants[g].payload.subject == c.bindings[b].payload.user
    ensures IsAdminDevice(s, c.bindings[b].payload.device)
  {
    PlayGrows(c, Seed(c), chain);
    assert !Enabled(c, s, Bind(b));
    AgreedAttribution(c, chain, s, b);
    assert !Enabled(c, s, Promote(g));
  }

  /** An admin device has its way where one vote is enough: its grant counts, its proposal passes. */
  lemma DeputyDecides(c: Certs, s: State, h: Id, p: Id, a: Id)
    requires IsClosed(c, s) && Threshold(c) == 1
    requires h in c.grants && IsAdminDevice(s, c.grants[h].issuer) && c.grants[h].payload.capability == Admin
    requires p in c.proposals && IsAdminDevice(s, c.proposals[p].issuer)
    requires a in c.approvals && c.approvals[a] == Signed(c.proposals[p].issuer, Approval(p))
    ensures c.grants[h].payload.subject in s.admins && p in s.executed
  {
    assert !Enabled(c, s, Promote(h));
    OneApproverIsEnough(c, s, p, a);
    assert !Enabled(c, s, Execute(p));
  }

  lemma DeputyHasItsWay(c: Certs, b: Id, g: Id, h: Id, p: Id, a: Id)
    requires BindingsAgree(c) && Threshold(c) == 1
    requires b in c.bindings && c.bindings[b].issuer == c.founder != c.bindings[b].payload.device
    requires g in c.grants && c.grants[g].issuer == c.founder && c.grants[g].payload.capability == Admin
    requires c.grants[g].payload.subject == c.bindings[b].payload.user
    requires h in c.grants && c.grants[h].issuer == c.bindings[b].payload.device
    requires c.grants[h].payload.capability == Admin
    requires p in c.proposals && c.proposals[p].issuer == c.bindings[b].payload.device
    requires a in c.approvals && c.approvals[a] == Signed(c.proposals[p].issuer, Approval(p))
    ensures c.grants[h].payload.subject in Settle(c).admins && p in Settle(c).executed
  {
    var chain := SettleFromTrace(c, Seed(c));
    DeputyIsAdmin(c, chain, Settle(c), b, g);
    DeputyDecides(c, Settle(c), h, p, a);
  }

  lemma OneBindingDecides(f: Id)
    ensures f + 2 in Settle(OneBinding(f)).admins && 7 in Settle(OneBinding(f)).executed
  {
    assert FounderThresholds(OneBinding(f)) == {};
    DeputyHasItsWay(OneBinding(f), 5, 0, 1, 7, 8);
  }

  lemma SmallestKeyFirst(keys: set<Id>, a: Id)
    requires a in keys && forall x | x in keys :: a <= x
    ensures Ascending(keys) != [] && Ascending(keys)[0] == a
  {
    var r := Ascending(keys);
    assert a in r;
    var i :| 0 <= i < |r| && r[i] == a;
    assert r[0] in r;
    assert i == 0;
  }

  lemma FirstBind(keys: seq<Id>)
    requires keys != []
    ensures BindSteps(keys)[..1] == [Bind(keys[0])]
  {
  }

  lemma SmallestBindingGoesFirst(c: Certs, a: Id)
    requires a in c.bindings && forall x | x in c.bindings :: a <= x
    ensures Agenda(c) != [] && Agenda(c)[..1] == [Bind(a)]
  {
    SmallestKeyFirst(c.bindings.Keys, a);
    FirstBind(Ascending(c.bindings.Keys));
    PrefixOfThree(BindSteps(Ascending(c.bindings.Keys)), ExecuteSteps(Ascending(c.proposals.Keys)),
                  PromoteSteps(Ascending(c.grants.Keys)), 1);
  }

  lemma SweepOfOne(c: Certs, s: State, step: Step)
    ensures Sweep(c, s, [step]) == Advance(c, s, step)
  {
    assert [step][1..] == [];
  }

  lemma FounderBindingGoesFirst(c: Certs, a: Id)
    requires a in c.bindings && forall x | x in c.bindings :: a <= x
    requires c.bindings[a].issuer == c.founder != c.bindings[a].payload.device
    ensures var b := c.bindings[a].payload;
            b.device in Settle(c).users && Settle(c).users[b.device] == b.user
  {
    SmallestBindingGoesFirst(c, a);
    FounderMayBind(c, a);
    FirstRoundSticks(c, 1);
    SweepOfOne(c, Seed(c), Bind(a));
    BelowKeepsUser(Fire(c, Seed(c), Bind(a)), Settle(c), c.bindings[a].payload.device);
  }

  lemma FounderMayBind(c: Certs, a: Id)
    requires a in c.bindings && c.bindings[a].issuer == c.founder != c.bindings[a].payload.device
    ensures Enabled(c, Seed(c), Bind(a))
    ensures var b := c.bindings[a].payload;
            b.device in Fire(c, Seed(c), Bind(a)).users && Fire(c, Seed(c), Bind(a)).users[b.device] == b.user
  {
  }

  lemma BelowKeepsUser(s: State, t: State, device: Id)
    requires Below(s, t) && device in s.users
    ensures device in t.users && t.users[device] == s.users[device]
  {
  }

  lemma AdminNeedsAGrant(c: Certs, u: Id)
    requires u != c.founder && forall g | g in c.grants :: c.grants[g].payload.subject != u
    ensures u !in Settle(c).admins
  {
    AdminsByGrants(c, u);
  }

  lemma AdminNeedsAnAdminIssuer(c: Certs, u: Id, device: Id)
    requires u != c.founder && !IsAdminDevice(Settle(c), device)
    requires forall g | g in c.grants && c.grants[g].payload.subject == u :: c.grants[g].issuer == device
    ensures u !in Settle(c).admins
  {
    AdminsByGrants(c, u);
  }

  /** A device that belongs to a user nobody promoted makes no admin and no decision. */
  lemma PowerlessDevice(c: Certs, device: Id, u: Id, p: Id)
    requires device in Settle(c).users && Settle(c).users[device] != c.founder && c.founder != u
    requires forall g | g in c.grants :: c.grants[g].payload.subject != Settle(c).users[device]
    requires forall g | g in c.grants && c.grants[g].payload.subject == u :: c.grants[g].issuer == device
    requires p in c.proposals && c.proposals[p].issuer == device
    ensures u !in Settle(c).admins && p !in Settle(c).executed
  {
    AdminNeedsAGrant(c, Settle(c).users[device]);
    AdminNeedsAnAdminIssuer(c, u, device);
    ExecutedAtQuorum(c, p);
  }

  /** If the smallest binding gives a device to a user nobody promoted, what the device signs is void. */
  lemma RebindingCutsOff(c: Certs, a: Id, u: Id, p: Id)
    requires a in c.bindings && forall x | x in c.bindings :: a <= x
    requires c.bindings[a].issuer == c.founder != c.bindings[a].payload.device
    requires c.founder != c.bindings[a].payload.user && c.founder != u
    requires forall g | g in c.grants :: c.grants[g].payload.subject != c.bindings[a].payload.user
    requires forall g | g in c.grants && c.grants[g].payload.subject == u ::
               c.grants[g].issuer == c.bindings[a].payload.device
    requires p in c.proposals && c.proposals[p].issuer == c.bindings[a].payload.device
    ensures u !in Settle(c).admins && p !in Settle(c).executed
  {
    FounderBindingGoesFirst(c, a);
    PowerlessDevice(c, c.bindings[a].payload.device, u, p);
  }

  lemma ReboundUndoes(f: Id)
    ensures f + 2 !in Settle(Rebound(f)).admins && 7 !in Settle(Rebound(f)).executed
  {
    RebindingCutsOff(Rebound(f), 3, f + 2, 7);
  }

  lemma ReboundExtends(f: Id)
    ensures Extends(OneBinding(f), Rebound(f))
  {
    assert FounderThresholds(OneBinding(f)) == {} == FounderThresholds(Rebound(f));
  }

  lemma LosingAnAdminShowsAConflict(small: Certs, big: Certs, u: Id)
    requires Extends(small, big) && u in Settle(small).admins && u !in Settle(big).admins
    ensures !ConflictFree(big)
  {
    assert !Below(Settle(small), Settle(big));
    GrowthRetractsNothingIffConflictFree(big);
  }

  /** One more binding can undo an admin and an executed removal: the condition on conflicts is needed. */
  lemma SecondBindingCanDemote(f: Id)
    ensures Extends(OneBinding(f), Rebound(f)) && !ConflictFree(Rebound(f))
    ensures f + 2 in Settle(OneBinding(f)).admins && f + 2 !in Settle(Rebound(f)).admins
    ensures 7 in Settle(OneBinding(f)).executed && 7 !in Settle(Rebound(f)).executed
  {
    ReboundExtends(f);
    OneBindingDecides(f);
    ReboundUndoes(f);
    LosingAnAdminShowsAConflict(OneBinding(f), Rebound(f), f + 2);
  }
}
