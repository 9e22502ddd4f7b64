/**
 What the authorization closure guarantees for every set of certificates: it terminates, it is
 grounded in the founder, its quorum is exact, and, exactly when no reachable state can attribute
 one device to two users, it is a least fixpoint that does not depend on iteration order and that
 more certificates never retract.
 */
module ClosureTheorems {
  import opened Ordered
  import opened Certificates
  import opened Closure

  // ---------------------------------------------------------------- termination and grounding

  lemma AgendaSize(c: Certs)
    ensures |Agenda(c)| == |c.bindings| + |c.proposals| + |c.grants|
  {
  }

  lemma {:induction false} ElementsAtMostLength(s: seq<Step>)
    ensures |set x | x in s| <= |s|
  {
    if s == [] {
    } else {
      ElementsAtMostLength(s[1..]);
      assert (set x | x in s) == {s[0]} + set x | x in s[1..];
    }
  }

  /** The number of rounds of the loop that change something. */
  ghost function Rounds(c: Certs, s: State): nat
    decreases |Owed(c, s)|
  {
    var next := Sweep(c, s, Agenda(c));
    if next == s then 0 else
      SweepPays(c, s);
      1 + Rounds(c, next)
  }

  lemma {:induction false} RoundsArePaid(c: Certs, s: State)
    ensures Rounds(c, s) <= |Owed(c, s)|
    decreases |Owed(c, s)|
  {
    var next := Sweep(c, s, Agenda(c));
    if next != s {
      SweepPays(c, s);
      RoundsArePaid(c, next);
    }
  }

  /** The loop makes progress in at most one round per binding, proposal and grant. */
  lemma LoopTerminatesWithinCertificates(c: Certs)
    ensures Rounds(c, Seed(c)) <= |c.bindings| + |c.proposals| + |c.grants|
  {
    RoundsArePaid(c, Seed(c));
    AgendaSize(c);
    PartOfSequence(Owed(c, Seed(c)), Agenda(c));
  }

  lemma PartOfSequence(part: set<Step>, s: seq<Step>)
    requires forall x | x in part :: x in s
    ensures |part| <= |s|
  {
    ElementsAtMostLength(s);
    var all := set x | x in s;
    assert all == part + (all - part);
  }

  /**
   A chain of trust: a trace from the founder's axiom in which every certificate is used once, is
   justified by what earlier ones established, and which ends in exactly the exit state.
   */
  ghost predicate Grounds(c: Certs, chain: seq<Step>) {
    && Legal(c, Seed(c), chain)
    && Play(c, Seed(c), chain) == Settle(c)
    && forall i, j | 0 <= i < j < |chain| :: chain[i] != chain[j]
  }

  lemma LegalStepsAreDistinct(c: Certs, s: State, steps: seq<Step>, i: nat, j: nat)
    requires Legal(c, s, steps) && i < j < |steps|
    ensures steps[i] != steps[j]
  {
    PrefixIsLegal(c, s, steps, j);
    PrefixIsLegal(c, s, steps, j + 1);
    PlaysLast(c, s, steps[..j + 1]);
    assert steps[..j + 1][..j] == steps[..j];
    PrefixIsLegal(c, s, steps[..j], i + 1);
    assert steps[..j][..i + 1] == steps[..i + 1];
    PrefixIsLegal(c, s, steps, i + 1);
    PlaysLast(c, s, steps[..i + 1]);
    assert steps[..i + 1][..i] == steps[..i];
    assert Done(c, Play(c, s, steps[..i + 1]), steps[i]);
    DoneIsFinal(c, Play(c, s, steps[..i + 1]), Play(c, s, steps[..j]), steps[i]);
  }

  /** Everything the closure says has a finite well-founded chain of certificates behind it. */
  lemma ClosureIsGrounded(c: Certs) returns (chain: seq<Step>)
    ensures Grounds(c, chain)
    ensures forall d | d in Settle(c).users && d != c.founder ::
              exists k | 0 <= k < |chain| ::
                && chain[k].Bind? && Enabled(c, Play(c, Seed(c), chain[..k]), chain[k])
                && c.bindings[chain[k].digest].payload == DeviceBinding(d, Settle(c).users[d])
    ensures forall u | u in Settle(c).admins && u != c.founder ::
              exists k | 0 <= k < |chain| ::
                && chain[k].Promote? && Enabled(c, Play(c, Seed(c), chain[..k]), chain[k])
                && c.grants[chain[k].digest].payload.subject == u
    ensures forall p | p in Settle(c).executed ::
              exists k | 0 <= k < |chain| ::
                chain[k] == Execute(p) && Enabled(c, Play(c, Seed(c), chain[..k]), chain[k])
  {
    chain := SettleFromTrace(c, Seed(c));
    forall i, j | 0 <= i < j < |chain|
      ensures chain[i] != chain[j]
    {
      LegalStepsAreDistinct(c, Seed(c), chain, i, j);
    }
    forall d | d in Settle(c).users && d != c.founder
      ensures exists k | 0 <= k < |chain| ::
                && chain[k].Bind? && Enabled(c, Play(c, Seed(c), chain[..k]), chain[k])
                && c.bindings[chain[k].digest].payload == DeviceBinding(d, Settle(c).users[d])
    {
      var k := WhoBound(c, Seed(c), chain, d);
    }
    forall u | u in Settle(c).admins && u != c.founder
      ensures exists k | 0 <= k < |chain| ::
                && chain[k].Promote? && Enabled(c, Play(c, Seed(c), chain[..k]), chain[k])
                && c.grants[chain[k].digest].payload.subject == u
    {
      var k := WhoPromoted(c, Seed(c), chain, u);
    }
    forall p | p in Settle(c).executed
      ensures exists k | 0 <= k < |chain| ::
                chain[k] == Execute(p) && Enabled(c, Play(c, Seed(c), chain[..k]), chain[k])
    {
      var k := WhoExecuted(c, Seed(c), chain, p);
    }
  }

  // ---------------------------------------------------------------- exactness at loop exit

  /** `s` is where a trace from the axiom ends with nothing left to do. */
  ghost predicate EndsAt(c: Certs, chain: seq<Step>, s: State) {
    Legal(c, Seed(c), chain) && Play(c, Seed(c), chain) == s && IsClosed(c, s)
  }

  lemma JustifiedThen(c: Certs, chain: seq<Step>, s: State, k: nat)
    requires EndsAt(c, chain, s) && k < |chain| && Premise(c, Play(c, Seed(c), chain[..k]), chain[k])
    ensures Premise(c, s, chain[k])
  {
    PrefixIsLegal(c, Seed(c), chain, k);
    PremiseIsMonotone(c, Play(c, Seed(c), chain[..k]), s, chain[k]);
  }

  lemma ExecutedIn(c: Certs, chain: seq<Step>, s: State, p: Id)
    requires EndsAt(c, chain, s)
    ensures p in s.executed <==> p in c.proposals && QuorumReached(c, s, p)
  {
    if p in s.executed {
      var k := WhoExecuted(c, Seed(c), chain, p);
      JustifiedThen(c, chain, s, k);
    } else {
      assert !Enabled(c, s, Execute(p));
    }
  }

  lemma AdminIn(c: Certs, chain: seq<Step>, s: State, u: Id)
    requires EndsAt(c, chain, s)
    ensures u in s.admins <==>
            || u == c.founder
            || exists d | d in c.grants ::
                 && c.grants[d].payload.subject == u && c.grants[d].payload.capability == Admin
                 && GrantCounts(c, s, d)
  {
    PlayGrows(c, Seed(c), chain);
    if u in s.admins && u != c.founder {
      var k := WhoPromoted(c, Seed(c), chain, u);
      JustifiedThen(c, chain, s, k);
    } else if d :| d in c.grants
                   && c.grants[d].payload.subject == u && c.grants[d].payload.capability == Admin
                   && GrantCounts(c, s, d) {
      assert !Enabled(c, s, Promote(d));
    }
  }

  lemma DeviceIn(c: Certs, chain: seq<Step>, s: State, device: Id)
    requires EndsAt(c, chain, s)
    ensures device in s.users <==>
            || device == c.founder
            || exists d | d in c.bindings :: c.bindings[d].payload.device == device && BindingAdmissible(c, s, d)
    ensures device in s.users && device != c.founder ==>
            exists d | d in c.bindings ::
              c.bindings[d].payload == DeviceBinding(device, s.users[device]) && BindingAdmissible(c, s, d)
  {
    PlayGrows(c, Seed(c), chain);
    if device in s.users && device != c.founder {
      var k := WhoBound(c, Seed(c), chain, device);
      JustifiedThen(c, chain, s, k);
    } else if d :| d in c.bindings && c.bindings[d].payload.device == device && BindingAdmissible(c, s, d) {
      assert !Enabled(c, s, Bind(d));
    }
  }

  lemma ExecutedAtQuorum(c: Certs, p: Id)
    ensures p in Settle(c).executed <==> p in c.proposals && QuorumReached(c, Settle(c), p)
  {
    var chain := SettleFromTrace(c, Seed(c));
    ExecutedIn(c, chain, Settle(c), p);
  }

  lemma AdminsByGrants(c: Certs, u: Id)
    ensures u in Settle(c).admins <==>
            || u == c.founder
            || exists d | d in c.grants ::
                 && c.grants[d].payload.subject == u && c.grants[d].payload.capability == Admin
                 && GrantCounts(c, Settle(c), d)
  {
    var chain := SettleFromTrace(c, Seed(c));
    AdminIn(c, chain, Settle(c), u);
  }

  lemma DevicesByBindings(c: Certs, device: Id)
    ensures device in Settle(c).users <==>
            || device == c.founder
            || exists d | d in c.bindings ::
                 c.bindings[d].payload.device == device && BindingAdmissible(c, Settle(c), d)
    ensures device in Settle(c).users && device != c.founder ==>
            exists d | d in c.bindings ::
              && c.bindings[d].payload == DeviceBinding(device, Settle(c).users[device])
              && BindingAdmissible(c, Settle(c), d)
  {
    var chain := SettleFromTrace(c, Seed(c));
    DeviceIn(c, chain, Settle(c), device);
  }

  /** Each of `users` was ever an admin and approved `p` from a device of its own. */
  ghost predicate Approved(c: Certs, s: State, p: Id, users: set<Id>) {
    && users <= s.admins
    && (forall u | u in users ::
          exists a | a in c.approvals ::
            && c.approvals[a].payload.proposal == p
            && c.approvals[a].issuer in s.users && s.users[c.approvals[a].issuer] == u)
  }

  lemma ApproversApproved(c: Certs, s: State, p: Id)
    ensures Approved(c, s, p, Approvers(c, s, p))
    ensures forall users | Approved(c, s, p, users) :: |users| <= |Approvers(c, s, p)|
  {
    forall users | Approved(c, s, p, users)
      ensures |users| <= |Approvers(c, s, p)|
    {
      SubsetIsSmaller(users, Approvers(c, s, p));
    }
  }

  /**
   A proposal is executed if and only if it is filed, a device of somebody who was ever an admin
   issued it, and as many distinct users as the threshold asks for, all ever admins, approved it.
   */
  lemma QuorumIsExact(c: Certs, p: Id)
    ensures p in Settle(c).executed <==>
            && p in c.proposals
            && c.proposals[p].issuer in Settle(c).users
            && Settle(c).users[c.proposals[p].issuer] in Settle(c).admins
            && exists users :: |users| >= Threshold(c) && Approved(c, Settle(c), p, users)
  {
    ExecutedAtQuorum(c, p);
    ApproversApproved(c, Settle(c), p);
  }

  /**
   An admin's device issued the grant, and one admin is enough, or that admin is the founder, or a
   quorum decided the very same.
   */
  ghost predicate GrantStands(c: Certs, s: State, d: Id) {
    && d in c.grants && c.grants[d].issuer in s.users && s.users[c.grants[d].issuer] in s.admins
    && (|| Threshold(c) == 1
        || s.users[c.grants[d].issuer] == c.founder
        || exists p | p in s.executed ::
             && p in c.proposals
             && c.proposals[p].payload.action == SetRole(c.grants[d].payload.subject, c.grants[d].payload.capability))
  }

  lemma StandingGrantsCount(c: Certs, s: State, d: Id)
    ensures GrantStands(c, s, d) <==> d in c.grants && GrantCounts(c, s, d)
  {
  }

  /** A user was ever an admin if and only if it is the founder or an Admin grant for it stands. */
  lemma AdminsAreExact(c: Certs, u: Id)
    ensures u in Settle(c).admins <==>
            || u == c.founder
            || exists d | GrantStands(c, Settle(c), d) ::
                 c.grants[d].payload.subject == u && c.grants[d].payload.capability == Admin
  {
    AdminsByGrants(c, u);
    forall d
      ensures GrantStands(c, Settle(c), d) <==> d in c.grants && GrantCounts(c, Settle(c), d)
    {
      StandingGrantsCount(c, Settle(c), d);
    }
  }

  /**
   A device is certified if and only if it is the founder's, or a certified device issued a binding
   for it whose own user is the one named or was ever an admin; and its user is one so named.
   */
  lemma DevicesAreExact(c: Certs, device: Id)
    ensures device in Settle(c).users <==>
            || device == c.founder
            || exists d | d in c.bindings ::
                 && c.bindings[d].payload.device == device && c.bindings[d].issuer in Settle(c).users
                 && (|| Settle(c).users[c.bindings[d].issuer] == c.bindings[d].payload.user
                     || Settle(c).users[c.bindings[d].issuer] in Settle(c).admins)
    ensures device in Settle(c).users && device != c.founder ==>
            exists d | d in c.bindings ::
              && c.bindings[d].payload == DeviceBinding(device, Settle(c).users[device])
              && c.bindings[d].issuer in Settle(c).users
              && (|| Settle(c).users[c.bindings[d].issuer] == Settle(c).users[device]
                  || Settle(c).users[c.bindings[d].issuer] in Settle(c).admins)
    ensures c.founder in Settle(c).users && Settle(c).users[c.founder] == c.founder
  {
    DevicesByBindings(c, device);
    var chain := SettleFromTrace(c, Seed(c));
    PlayGrows(c, Seed(c), chain);
  }

  // ---------------------------------------------------------------- conflicts

  /** Two bindings, both admissible now, would give one uncertified device to different users. */
  ghost predicate Conflict(c: Certs, s: State, x: Id, y: Id) {
    && Enabled(c, s, Bind(x)) && Enabled(c, s, Bind(y))
    && c.bindings[x].payload.device == c.bindings[y].payload.device
    && c.bindings[x].payload.user != c.bindings[y].payload.user
  }

  ghost predicate ConflictFree(c: Certs) {
    forall s, x, y | Reachable(c, s) :: !Conflict(c, s, x, y)
  }

  /** All bindings naming one device name one user, the founder's axiom counting as a binding. */
  predicate BindingsAgree(c: Certs) {
    && (forall x, y | x in c.bindings && y in c.bindings
          && c.bindings[x].payload.device == c.bindings[y].payload.device ::
          c.bindings[x].payload.user == c.bindings[y].payload.user)
    && (forall x | x in c.bindings && c.bindings[x].payload.device == c.founder ::
          c.bindings[x].payload.user == c.founder)
  }

  lemma AgreementIsConflictFree(c: Certs)
    requires BindingsAgree(c)
    ensures ConflictFree(c)
  {
  }

  lemma StepJoins(c: Certs, s: State, p: State, top: State, step: Step)
    requires Enabled(c, s, step) && Below(s, p) && Below(p, top) && Below(Fire(c, s, step), top)
    ensures Below(Fire(c, s, step), Advance(c, p, step)) && Below(Advance(c, p, step), top)
    ensures Advance(c, p, step).users.Keys == p.users.Keys + Fire(c, s, step).users.Keys
  {
    PremiseIsMonotone(c, s, p, step);
  }

  /** Replaying a trace on top of a compatible state reaches their join and nothing else. */
  lemma {:induction false} SweepJoins(c: Certs, s: State, p: State, top: State, steps: seq<Step>)
    requires Legal(c, s, steps)
    requires Below(s, p) && Below(p, top) && Below(Play(c, s, steps), top)
    ensures Below(Play(c, s, steps), Sweep(c, p, steps))
    ensures Sweep(c, p, steps).users.Keys == p.users.Keys + Play(c, s, steps).users.Keys
    decreases |steps|
  {
    if steps == [] {
    } else {
      var s' := Fire(c, s, steps[0]);
      PlayGrows(c, s', steps[1..]);
      StepJoins(c, s, p, top, steps[0]);
      SweepJoins(c, s', Advance(c, p, steps[0]), top, steps[1..]);
    }
  }

  /** Without conflicts every reachable state stays below every reachable closed one. */
  lemma {:induction false} ClosedDominates(c: Certs, top: State, steps: seq<Step>)
    requires ConflictFree(c) && Reachable(c, top) && IsClosed(c, top)
    requires Legal(c, Seed(c), steps)
    ensures Below(Play(c, Seed(c), steps), top)
    decreases |steps|
  {
    if steps == [] {
      var all: seq<Step> :| Legal(c, Seed(c), all) && Play(c, Seed(c), all) == top;
      PlayGrows(c, Seed(c), all);
    } else {
      var init, last := steps[..|steps| - 1], steps[|steps| - 1];
      PlaysLast(c, Seed(c), steps);
      ClosedDominates(c, top, init);
      StepStaysBelow(c, top, init, last);
    }
  }

  /** The binding that certified a device at `top` could have been joined with any rival. */
  lemma RivalBindingsMeet(c: Certs, top: State, all: seq<Step>, k: nat, init: seq<Step>, step: Step)
    requires Legal(c, Seed(c), all) && Play(c, Seed(c), all) == top && k < |all|
    requires Legal(c, Seed(c), init) && Below(Play(c, Seed(c), init), top)
    requires step.Bind? && Enabled(c, Play(c, Seed(c), init), step)
    requires all[k].Bind? && Enabled(c, Play(c, Seed(c), all[..k]), all[k])
    requires c.bindings[step.digest].payload.device == c.bindings[all[k].digest].payload.device
    ensures exists s :: Reachable(c, s) && Enabled(c, s, step) && Enabled(c, s, all[k])
  {
    var s, p := Play(c, Seed(c), init), Play(c, Seed(c), all[..k]);
    PrefixIsLegal(c, Seed(c), all, k);
    PlayGrows(c, Seed(c), all[..k]);
    SweepJoins(c, Seed(c), p, top, init);
    var join := Sweep(c, p, init);
    SweepPlaysWhatItTakes(c, p, init);
    assert Reachable(c, p);
    StaysReachable(c, p, Taken(c, p, init));
    PremiseIsMonotone(c, s, join, step);
    PremiseIsMonotone(c, p, join, all[k]);
    assert Enabled(c, join, step) && Enabled(c, join, all[k]);
  }

  lemma BindingAgreesWithTop(c: Certs, top: State, init: seq<Step>, step: Step)
    requires ConflictFree(c) && Reachable(c, top)
    requires Legal(c, Seed(c), init) && Below(Play(c, Seed(c), init), top)
    requires step.Bind? && Enabled(c, Play(c, Seed(c), init), step)
    requires c.bindings[step.digest].payload.device in top.users
    ensures top.users[c.bindings[step.digest].payload.device] == c.bindings[step.digest].payload.user
  {
    var device := c.bindings[step.digest].payload.device;
    PlayGrows(c, Seed(c), init);
    var all: seq<Step> :| Legal(c, Seed(c), all) && Play(c, Seed(c), all) == top;
    var k := WhoBound(c, Seed(c), all, device);
    RivalBindingsMeet(c, top, all, k, init, step);
    var s :| Reachable(c, s) && Enabled(c, s, step) && Enabled(c, s, all[k]);
    assert !Conflict(c, s, step.digest, all[k].digest);
  }

  lemma StepStaysBelow(c: Certs, top: State, init: seq<Step>, step: Step)
    requires ConflictFree(c) && Reachable(c, top) && IsClosed(c, top)
    requires Legal(c, Seed(c), init) && Below(Play(c, Seed(c), init), top)
    requires Enabled(c, Play(c, Seed(c), init), step)
    ensures Below(Fire(c, Play(c, Seed(c), init), step), top)
  {
    PremiseIsMonotone(c, Play(c, Seed(c), init), top, step);
    assert !Enabled(c, top, step);
    if step.Bind? { BindingAgreesWithTop(c, top, init, step); }
  }

  lemma BelowIsAntisymmetric(s: State, t: State)
    requires Below(s, t) && Below(t, s)
    ensures s == t
  {
    assert s.users == t.users;
  }

  // ---------------------------------------------------------------- order independence

  /** Whatever order the rules fire in, running out of them leaves the same state. */
  ghost predicate OrderIndependent(c: Certs) {
    forall s, t | Reachable(c, s) && IsClosed(c, s) && Reachable(c, t) && IsClosed(c, t) :: s == t
  }

  lemma ReachableStaysBelowSettle(c: Certs, s: State)
    requires ConflictFree(c) && Reachable(c, s)
    ensures Below(s, Settle(c))
  {
    SettleIsReachableAndClosed(c);
    var steps :| Legal(c, Seed(c), steps) && Play(c, Seed(c), steps) == s;
    ClosedDominates(c, Settle(c), steps);
  }

  lemma ConflictSplits(c: Certs, s: State, x: Id, y: Id)
    requires Reachable(c, s) && Conflict(c, s, x, y)
    ensures !OrderIndependent(c)
  {
    var left, right := Fire(c, s, Bind(x)), Fire(c, s, Bind(y));
    FireStaysReachable(c, s, Bind(x));
    FireStaysReachable(c, s, Bind(y));
    var a := SettleFromTrace(c, left);
    var b := SettleFromTrace(c, right);
    StaysReachable(c, left, a);
    StaysReachable(c, right, b);
    PlayGrows(c, left, a);
    PlayGrows(c, right, b);
    var device := c.bindings[x].payload.device;
    assert SettleFrom(c, left).users[device] != SettleFrom(c, right).users[device];
  }

  /**
   The outcome is independent of the order rules fire in, digest order included, exactly when no
   reachable state lets two bindings disagree about an uncertified device.
   */
  lemma OrderIndependenceIsConflictFreedom(c: Certs)
    ensures OrderIndependent(c) <==> ConflictFree(c)
  {
    if ConflictFree(c) {
      forall s, t | Reachable(c, s) && IsClosed(c, s) && Reachable(c, t) && IsClosed(c, t)
        ensures s == t
      {
        var a :| Legal(c, Seed(c), a) && Play(c, Seed(c), a) == s;
        var b :| Legal(c, Seed(c), b) && Play(c, Seed(c), b) == t;
        ClosedDominates(c, t, a);
        ClosedDominates(c, s, b);
        BelowIsAntisymmetric(s, t);
      }
    } else {
      var s, x, y :| Reachable(c, s) && Conflict(c, s, x, y);
      ConflictSplits(c, s, x, y);
    }
  }

  // ---------------------------------------------------------------- least fixpoint

  /** A state that contains the axiom and every conclusion its own contents justify. */
  ghost predicate IsModel(c: Certs, m: State) {
    && Below(Seed(c), m)
    && (forall d | d in c.bindings && BindingAdmissible(c, m, d) ::
          && c.bindings[d].payload.device in m.users
          && m.users[c.bindings[d].payload.device] == c.bindings[d].payload.user)
    && (forall d | d in c.proposals && QuorumReached(c, m, d) :: d in m.executed)
    && (forall d | d in c.grants && c.grants[d].payload.capability == Admin && GrantCounts(c, m, d) ::
          c.grants[d].payload.subject in m.admins)
  }

  lemma {:induction false} ModelsContainTraces(c: Certs, m: State, s: State, steps: seq<Step>)
    requires IsModel(c, m) && Below(s, m) && Legal(c, s, steps)
    ensures Below(Play(c, s, steps), m)
    decreases |steps|
  {
    if steps == [] {
    } else {
      PremiseIsMonotone(c, s, m, steps[0]);
      ModelsContainTraces(c, m, Fire(c, s, steps[0]), steps[1..]);
    }
  }

  /** The loop computes no more than any model of the rules, for every certificate set. */
  lemma SettleIsBelowEveryModel(c: Certs, m: State)
    requires IsModel(c, m)
    ensures Below(Settle(c), m)
  {
    var steps := SettleFromTrace(c, Seed(c));
    ModelsContainTraces(c, m, Seed(c), steps);
  }

  /** In a closed state only the attribution of a device can contradict a rule. */
  lemma ClosedIsModelUpToUsers(c: Certs, s: State)
    requires IsClosed(c, s) && Below(Seed(c), s)
    requires forall d | d in c.bindings && BindingAdmissible(c, s, d)
                        && c.bindings[d].payload.device in s.users ::
               s.users[c.bindings[d].payload.device] == c.bindings[d].payload.user
    ensures IsModel(c, s)
  {
    forall d | d in c.bindings && BindingAdmissible(c, s, d)
      ensures c.bindings[d].payload.device in s.users
    {
      assert !Enabled(c, s, Bind(d));
    }
    forall d | d in c.proposals && QuorumReached(c, s, d)
      ensures d in s.executed
    {
      assert !Enabled(c, s, Execute(d));
    }
    forall d | d in c.grants && c.grants[d].payload.capability == Admin && GrantCounts(c, s, d)
      ensures c.grants[d].payload.subject in s.admins
    {
      assert !Enabled(c, s, Promote(d));
    }
  }

  lemma SettleKeepsSeed(c: Certs)
    ensures Below(Seed(c), Settle(c))
  {
    var chain := SettleFromTrace(c, Seed(c));
    PlayGrows(c, Seed(c), chain);
  }

  /** The loop computes the least model of the rules exactly when the rules have a model at all. */
  lemma SettleIsLeastModelIffOneExists(c: Certs)
    ensures IsModel(c, Settle(c)) <==> exists m :: IsModel(c, m)
    ensures forall m | IsModel(c, m) :: Below(Settle(c), m)
  {
    forall m | IsModel(c, m)
      ensures Below(Settle(c), m)
    {
      SettleIsBelowEveryModel(c, m);
    }
    if m :| IsModel(c, m) {
      forall d | d in c.bindings && BindingAdmissible(c, Settle(c), d)
                 && c.bindings[d].payload.device in Settle(c).users
        ensures Settle(c).users[c.bindings[d].payload.device] == c.bindings[d].payload.user
      {
        PremiseIsMonotone(c, Settle(c), m, Bind(d));
      }
      SettleIsReachableAndClosed(c);
      SettleKeepsSeed(c);
      ClosedIsModelUpToUsers(c, Settle(c));
    }
  }

  /** A device certified under agreeing bindings has the user every one of them names. */
  lemma AgreedAttribution(c: Certs, chain: seq<Step>, s: State, d: Id)
    requires BindingsAgree(c) && EndsAt(c, chain, s)
    requires d in c.bindings && c.bindings[d].payload.device in s.users
    ensures s.users[c.bindings[d].payload.device] == c.bindings[d].payload.user
  {
    PlayGrows(c, Seed(c), chain);
    DeviceIn(c, chain, s, c.bindings[d].payload.device);
  }

  lemma AgreementGivesAModel(c: Certs, chain: seq<Step>, s: State)
    requires BindingsAgree(c) && EndsAt(c, chain, s)
    ensures IsModel(c, s)
  {
    PlayGrows(c, Seed(c), chain);
    forall d | d in c.bindings && c.bindings[d].payload.device in s.users
      ensures s.users[c.bindings[d].payload.device] == c.bindings[d].payload.user
    {
      AgreedAttribution(c, chain, s, d);
    }
    ClosedIsModelUpToUsers(c, s);
  }

  /** When all bindings agree, the loop computes the least model of the rules. */
  lemma SettleIsTheLeastModel(c: Certs)
    requires BindingsAgree(c)
    ensures IsModel(c, Settle(c))
    ensures forall m | IsModel(c, m) :: Below(Settle(c), m)
  {
    var chain := SettleFromTrace(c, Seed(c));
    AgreementGivesAModel(c, chain, Settle(c));
    SettleIsLeastModelIffOneExists(c);
  }
}
