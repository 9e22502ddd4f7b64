/**
 The authorization closure: which device speaks for which user, who has ever been an admin and
 which proposals reached quorum.

 `recompute` in crates/iroh-beekem-core/src/capability.rs grows three collections in place until
 a whole round adds nothing. This module states each rule of that loop once, as a `Step` with a
 `Premise`, and gives the loop itself (`Sweep`, `SettleFrom`, `Settle`) beside the traces (`Legal`,
 `Play`) that the theorems quantify over.
 */
module Closure {
  import opened Ordered
  import opened Certificates

  /** `device_user`, `ever_admin` and `executed`. */
  datatype State = State(users: map<Id, Id>, admins: set<Id>, executed: set<Id>)

  /** The axiom: the founder is its own user and an admin. */
  function Seed(c: Certs): State {
    State(map[c.founder := c.founder], {c.founder}, {})
  }

  predicate IsAdminDevice(s: State, device: Id) {
    device in s.users && s.users[device] in s.admins
  }

  /** The distinct users, not devices, whose approval of `proposal` counts. */
  function Approvers(c: Certs, s: State, proposal: Id): set<Id> {
    set a | a in c.approvals
            && c.approvals[a].payload.proposal == proposal
            && IsAdminDevice(s, c.approvals[a].issuer)
      :: s.users[c.approvals[a].issuer]
  }

  predicate IsDecided(c: Certs, executed: set<Id>, action: AdminAction) {
    exists d | d in executed :: d in c.proposals && c.proposals[d].payload.action == action
  }

  predicate GrantIsAuthorised(c: Certs, s: State, issuerUser: Id, grant: Grant) {
    || Threshold(c) <= DEFAULT_THRESHOLD
    || issuerUser == c.founder
    || IsDecided(c, s.executed, SetRole(grant.subject, grant.capability))
  }

  predicate BindingAdmissible(c: Certs, s: State, d: Id)
    requires d in c.bindings
  {
    var b := c.bindings[d];
    && b.issuer in s.users
    && (s.users[b.issuer] == b.payload.user || s.users[b.issuer] in s.admins)
  }

  predicate QuorumReached(c: Certs, s: State, d: Id)
    requires d in c.proposals
  {
    && IsAdminDevice(s, c.proposals[d].issuer)
    && |Approvers(c, s, d)| >= Threshold(c)
  }

  predicate GrantCounts(c: Certs, s: State, d: Id)
    requires d in c.grants
  {
    var g := c.grants[d];
    IsAdminDevice(s, g.issuer) && GrantIsAuthorised(c, s, s.users[g.issuer], g.payload)
  }

  // ---------------------------------------------------------------- steps

  /** One certificate doing its work: a binding, a proposal or an admin grant. */
  datatype Step = Bind(digest: Id) | Execute(digest: Id) | Promote(digest: Id)

  predicate Premise(c: Certs, s: State, step: Step) {
    match step
    case Bind(d) => d in c.bindings && BindingAdmissible(c, s, d)
    case Execute(d) => d in c.proposals && QuorumReached(c, s, d)
    case Promote(d) => d in c.grants && c.grants[d].payload.capability == Admin && GrantCounts(c, s, d)
  }

  /** The step has nothing left to add. A device's first admitted binding is final. */
  predicate Done(c: Certs, s: State, step: Step) {
    match step
    case Bind(d) => d in c.bindings && c.bindings[d].payload.device in s.users
    case Execute(d) => d in s.executed
    case Promote(d) => d in c.grants && c.grants[d].payload.subject in s.admins
  }

  predicate Enabled(c: Certs, s: State, step: Step) {
    Premise(c, s, step) && !Done(c, s, step)
  }

  function Fire(c: Certs, s: State, step: Step): State {
    match step
    case Bind(d) =>
      if d in c.bindings then
        s.(users := s.users[c.bindings[d].payload.device := c.bindings[d].payload.user])
      else s
    case Execute(d) => s.(executed := s.executed + {d})
    case Promote(d) =>
      if d in c.grants then s.(admins := s.admins + {c.grants[d].payload.subject}) else s
  }

  function Advance(c: Certs, s: State, step: Step): State {
    if Enabled(c, s, step) then Fire(c, s, step) else s
  }

  function Sweep(c: Certs, s: State, steps: seq<Step>): State
    decreases |steps|
  {
    if steps == [] then s else Sweep(c, Advance(c, s, steps[0]), steps[1..])
  }

  function BindSteps(keys: seq<Id>): (r: seq<Step>)
    ensures |r| == |keys| && forall i | 0 <= i < |keys| :: r[i] == Bind(keys[i])
  {
    seq(|keys|, i requires 0 <= i < |keys| => Bind(keys[i]))
  }

  function ExecuteSteps(keys: seq<Id>): (r: seq<Step>)
    ensures |r| == |keys| && forall i | 0 <= i < |keys| :: r[i] == Execute(keys[i])
  {
    seq(|keys|, i requires 0 <= i < |keys| => Execute(keys[i]))
  }

  function PromoteSteps(keys: seq<Id>): (r: seq<Step>)
    ensures |r| == |keys| && forall i | 0 <= i < |keys| :: r[i] == Promote(keys[i])
  {
    seq(|keys|, i requires 0 <= i < |keys| => Promote(keys[i]))
  }

  /** One round of the loop: bindings, then proposals, then grants, each in digest order. */
  function Agenda(c: Certs): seq<Step> {
    BindSteps(Ascending(c.bindings.Keys))
    + ExecuteSteps(Ascending(c.proposals.Keys))
    + PromoteSteps(Ascending(c.grants.Keys))
  }

  // ---------------------------------------------------------------- order on states

  /** Everything `s` says, `t` says too. */
  ghost predicate Below(s: State, t: State) {
    && (forall d | d in s.users :: d in t.users && t.users[d] == s.users[d])
    && s.admins <= t.admins
    && s.executed <= t.executed
  }

  lemma SubsetIsSmaller(a: set<Id>, b: set<Id>)
    requires a <= b
    ensures |a| <= |b|
  {
    assert b == a + (b - a);
  }

  lemma ApproversGrow(c: Certs, s: State, t: State, p: Id)
    requires Below(s, t)
    ensures Approvers(c, s, p) <= Approvers(c, t, p)
    ensures |Approvers(c, s, p)| <= |Approvers(c, t, p)|
  {
    SubsetIsSmaller(Approvers(c, s, p), Approvers(c, t, p));
  }

  /** Nothing a rule reads can be taken back by learning more. */
  lemma PremiseIsMonotone(c: Certs, s: State, t: State, step: Step)
    requires Below(s, t) && Premise(c, s, step)
    ensures Premise(c, t, step)
  {
    match step
    case Bind(d) =>
    case Execute(d) => ApproversGrow(c, s, t, d);
    case Promote(d) =>
  }

  lemma FireGrows(c: Certs, s: State, step: Step)
    requires !Done(c, s, step)
    ensures Below(s, Fire(c, s, step))
  {
  }

  // ---------------------------------------------------------------- traces

  ghost function Play(c: Certs, s: State, steps: seq<Step>): State
    decreases |steps|
  {
    if steps == [] then s else Play(c, Fire(c, s, steps[0]), steps[1..])
  }

  /** Each step is justified by what the steps before it established, and adds something. */
  ghost predicate Legal(c: Certs, s: State, steps: seq<Step>)
    decreases |steps|
  {
    steps == [] || (Enabled(c, s, steps[0]) && Legal(c, Fire(c, s, steps[0]), steps[1..]))
  }

  ghost predicate Reachable(c: Certs, s: State) {
    exists steps :: Legal(c, Seed(c), steps) && Play(c, Seed(c), steps) == s
  }

  /** No certificate has anything left to add. */
  ghost predicate IsClosed(c: Certs, s: State) {
    forall step :: !Enabled(c, s, step)
  }

  lemma {:induction false} PlayAppends(c: Certs, s: State, a: seq<Step>, b: seq<Step>)
    ensures Play(c, s, a + b) == Play(c, Play(c, s, a), b)
    ensures Legal(c, s, a + b) <==> Legal(c, s, a) && Legal(c, Play(c, s, a), b)
    decreases |a|
  {
    if a == [] {
      assert a + b == b;
    } else {
      assert (a + b)[1..] == a[1..] + b;
      PlayAppends(c, Fire(c, s, a[0]), a[1..], b);
    }
  }

  lemma PlaysLast(c: Certs, s: State, steps: seq<Step>)
    requires steps != []
    ensures var init, last := steps[..|steps| - 1], steps[|steps| - 1];
            && Play(c, s, steps) == Fire(c, Play(c, s, init), last)
            && (Legal(c, s, steps) <==> Legal(c, s, init) && Enabled(c, Play(c, s, init), last))
  {
    var init, last := steps[..|steps| - 1], steps[|steps| - 1];
    assert steps == init + [last];
    PlayAppends(c, s, init, [last]);
    assert Play(c, Play(c, s, init), [last]) == Fire(c, Play(c, s, init), last);
  }

  lemma {:induction false} PlayGrows(c: Certs, s: State, steps: seq<Step>)
    requires Legal(c, s, steps)
    ensures Below(s, Play(c, s, steps))
    decreases |steps|
  {
    if steps == [] {
    } else {
      FireGrows(c, s, steps[0]);
      PlayGrows(c, Fire(c, s, steps[0]), steps[1..]);
    }
  }

  lemma PrefixIsLegal(c: Certs, s: State, steps: seq<Step>, k: nat)
    requires Legal(c, s, steps) && k <= |steps|
    ensures Legal(c, s, steps[..k])
    ensures Below(Play(c, s, steps[..k]), Play(c, s, steps))
  {
    assert steps == steps[..k] + steps[k..];
    PlayAppends(c, s, steps[..k], steps[k..]);
    PlayGrows(c, Play(c, s, steps[..k]), steps[k..]);
  }

  lemma StaysReachable(c: Certs, s: State, steps: seq<Step>)
    requires Reachable(c, s) && Legal(c, s, steps)
    ensures Reachable(c, Play(c, s, steps))
  {
    var before :| Legal(c, Seed(c), before) && Play(c, Seed(c), before) == s;
    PlayAppends(c, Seed(c), before, steps);
    assert Legal(c, Seed(c), before + steps);
  }

  lemma FireStaysReachable(c: Certs, s: State, step: Step)
    requires Reachable(c, s) && Enabled(c, s, step)
    ensures Reachable(c, Fire(c, s, step))
  {
    assert Play(c, s, [step]) == Fire(c, s, step);
    StaysReachable(c, s, [step]);
  }

  // ---------------------------------------------------------------- the loop

  /** The steps a sweep actually takes. */
  ghost function Taken(c: Certs, s: State, steps: seq<Step>): seq<Step>
    decreases |steps|
  {
    if steps == [] then []
    else if Enabled(c, s, steps[0]) then [steps[0]] + Taken(c, Fire(c, s, steps[0]), steps[1..])
    else Taken(c, s, steps[1..])
  }

  lemma {:induction false} SweepPlaysWhatItTakes(c: Certs, s: State, steps: seq<Step>)
    ensures Legal(c, s, Taken(c, s, steps))
    ensures Sweep(c, s, steps) == Play(c, s, Taken(c, s, steps))
    ensures Below(s, Sweep(c, s, steps))
    ensures Sweep(c, s, steps) == s ==> forall step | step in steps :: !Enabled(c, s, step)
    decreases |steps|
  {
    if steps == [] {
    } else {
      if Enabled(c, s, steps[0]) {
        var t := Fire(c, s, steps[0]);
        SweepPlaysWhatItTakes(c, t, steps[1..]);
        assert Taken(c, s, steps)[1..] == Taken(c, t, steps[1..]);
        FireGrows(c, s, steps[0]);
        assert Done(c, t, steps[0]) && !Done(c, s, steps[0]);
        DoneIsFinal(c, t, Sweep(c, s, steps), steps[0]);
      } else {
        SweepPlaysWhatItTakes(c, s, steps[1..]);
      }
    }
  }

  lemma {:induction false} SweepAppends(c: Certs, s: State, a: seq<Step>, b: seq<Step>)
    ensures Sweep(c, s, a + b) == Sweep(c, Sweep(c, s, a), b)
    decreases |a|
  {
    if a == [] {
      assert a + b == b;
    } else {
      assert (a + b)[1..] == a[1..] + b;
      SweepAppends(c, Advance(c, s, a[0]), a[1..], b);
    }
  }

  lemma DoneIsFinal(c: Certs, s: State, t: State, step: Step)
    requires Below(s, t) && Done(c, s, step)
    ensures Done(c, t, step)
  {
  }

  lemma AgendaIsComplete(c: Certs, s: State, step: Step)
    requires Premise(c, s, step)
    ensures step in Agenda(c)
  {
    var b, e, p := Ascending(c.bindings.Keys), Ascending(c.proposals.Keys), Ascending(c.grants.Keys);
    match step
    case Bind(d) =>
      assert d in b;
      var i :| 0 <= i < |b| && b[i] == d;
      assert BindSteps(b)[i] == step;
    case Execute(d) =>
      assert d in e;
      var i :| 0 <= i < |e| && e[i] == d;
      assert ExecuteSteps(e)[i] == step;
    case Promote(d) =>
      assert d in p;
      var i :| 0 <= i < |p| && p[i] == d;
      assert PromoteSteps(p)[i] == step;
  }

  /** The steps still owed: every round that changes anything pays at least one of them. */
  function Owed(c: Certs, s: State): set<Step> {
    set step | step in Agenda(c) && !Done(c, s, step)
  }

  lemma OwedShrinks(c: Certs, s: State, t: State)
    requires Below(s, t)
    ensures Owed(c, t) <= Owed(c, s)
  {
    forall x | x in Owed(c, t)
      ensures x in Owed(c, s)
    {
      if Done(c, s, x) { DoneIsFinal(c, s, t, x); }
    }
  }

  lemma FirePays(c: Certs, s: State, step: Step)
    requires Enabled(c, s, step)
    ensures |Owed(c, Fire(c, s, step))| < |Owed(c, s)|
  {
    AgendaIsComplete(c, s, step);
    var t := Fire(c, s, step);
    FireGrows(c, s, step);
    OwedShrinks(c, s, t);
    assert Done(c, t, step);
    StrictlySmaller(Owed(c, t), Owed(c, s), step);
  }

  lemma StrictlySmaller(a: set<Step>, b: set<Step>, x: Step)
    requires a <= b && x in b && x !in a
    ensures |a| < |b|
  {
    assert b == a + (b - a) && x in b - a;
  }

  lemma {:induction false} LegalIsPaid(c: Certs, s: State, steps: seq<Step>)
    requires Legal(c, s, steps)
    ensures |steps| + |Owed(c, Play(c, s, steps))| <= |Owed(c, s)|
    decreases |steps|
  {
    if steps == [] {
    } else {
      FirePays(c, s, steps[0]);
      LegalIsPaid(c, Fire(c, s, steps[0]), steps[1..]);
    }
  }

  lemma SweepPays(c: Certs, s: State)
    ensures Sweep(c, s, Agenda(c)) != s ==> |Owed(c, Sweep(c, s, Agenda(c)))| < |Owed(c, s)|
  {
    var taken := Taken(c, s, Agenda(c));
    SweepPlaysWhatItTakes(c, s, Agenda(c));
    if taken == [] {
    } else {
      LegalIsPaid(c, s, taken);
    }
  }

  /** Rounds repeat until one changes nothing. */
  function SettleFrom(c: Certs, s: State): State
    decreases |Owed(c, s)|
  {
    var next := Sweep(c, s, Agenda(c));
    if next == s then s else
      SweepPays(c, s);
      SettleFrom(c, next)
  }

  function Settle(c: Certs): State {
    SettleFrom(c, Seed(c))
  }

  lemma {:induction false} SettleFromTrace(c: Certs, s: State) returns (steps: seq<Step>)
    ensures Legal(c, s, steps) && Play(c, s, steps) == SettleFrom(c, s)
    ensures IsClosed(c, SettleFrom(c, s))
    decreases |Owed(c, s)|
  {
    var next := Sweep(c, s, Agenda(c));
    SweepPlaysWhatItTakes(c, s, Agenda(c));
    if next == s {
      forall step
        ensures !Enabled(c, s, step)
      {
        if Enabled(c, s, step) { AgendaIsComplete(c, s, step); }
      }
      steps := [];
    } else {
      SweepPays(c, s);
      var rest := SettleFromTrace(c, next);
      PlayAppends(c, s, Taken(c, s, Agenda(c)), rest);
      steps := Taken(c, s, Agenda(c)) + rest;
    }
  }

  /** The exit state of the loop is reachable from the axiom and enables no further rule. */
  lemma SettleIsReachableAndClosed(c: Certs)
    ensures Reachable(c, Settle(c)) && IsClosed(c, Settle(c))
  {
    var steps := SettleFromTrace(c, Seed(c));
    assert Legal(c, Seed(c), steps);
  }

  /** Where a certified device, other than the founder's, got its user. */
  lemma {:induction false} WhoBound(c: Certs, s: State, steps: seq<Step>, device: Id) returns (k: nat)
    requires Legal(c, s, steps)
    requires device !in s.users && device in Play(c, s, steps).users
    ensures k < |steps| && steps[k].Bind? && Legal(c, s, steps[..k])
    ensures Enabled(c, Play(c, s, steps[..k]), steps[k])
    ensures c.bindings[steps[k].digest].payload ==
            DeviceBinding(device, Play(c, s, steps).users[device])
    decreases |steps|
  {
    var t := Fire(c, s, steps[0]);
    if device in t.users {
      k := 0;
      PlayGrows(c, t, steps[1..]);
      assert steps[..0] == [];
    } else {
      var j := WhoBound(c, t, steps[1..], device);
      k := j + 1;
      assert steps[..k] == [steps[0]] + steps[1..][..j];
    }
  }

  lemma {:induction false} WhoExecuted(c: Certs, s: State, steps: seq<Step>, d: Id) returns (k: nat)
    requires Legal(c, s, steps)
    requires d !in s.executed && d in Play(c, s, steps).executed
    ensures k < |steps| && steps[k] == Execute(d) && Legal(c, s, steps[..k])
    ensures Enabled(c, Play(c, s, steps[..k]), steps[k])
    decreases |steps|
  {
    var t := Fire(c, s, steps[0]);
    if d in t.executed {
      k := 0;
      assert steps[..0] == [];
    } else {
      var j := WhoExecuted(c, t, steps[1..], d);
      k := j + 1;
      assert steps[..k] == [steps[0]] + steps[1..][..j];
    }
  }

  lemma {:induction false} WhoPromoted(c: Certs, s: State, steps: seq<Step>, user: Id) returns (k: nat)
    requires Legal(c, s, steps)
    requires user !in s.admins && user in Play(c, s, steps).admins
    ensures k < |steps| && steps[k].Promote? && Legal(c, s, steps[..k])
    ensures Enabled(c, Play(c, s, steps[..k]), steps[k])
    ensures c.grants[steps[k].digest].payload.subject == user
    decreases |steps|
  {
    var t := Fire(c, s, steps[0]);
    if user in t.admins {
      k := 0;
      assert steps[..0] == [];
    } else {
      var j := WhoPromoted(c, t, steps[1..], user);
      k := j + 1;
      assert steps[..k] == [steps[0]] + steps[1..][..j];
    }
  }
}
