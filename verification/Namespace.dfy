/**
 Namespace rotation: `perform_removal`, `on_namespace_minted` and `on_namespace_arrived` of
 crates/iroh-beekem-core/src/state.rs. Generations are ordered by `(epoch, digest)`; the digest of a
 capability is `hash(ticket)`.
 */
module Namespace {
  import opened Ordered

  type Ticket = nat

  const MAX_EPOCH: nat := 0xffff_ffff

  datatype NamespaceEpoch = NamespaceEpoch(epoch: nat, digest: Id)

  predicate Above(a: NamespaceEpoch, b: NamespaceEpoch) {
    a.epoch > b.epoch || (a.epoch == b.epoch && a.digest > b.digest)
  }

  function Later(a: NamespaceEpoch, b: NamespaceEpoch): NamespaceEpoch {
    if Above(a, b) then a else b
  }

  datatype Event =
    | Removed
    | Minted(epoch: nat, ticket: Ticket)
    | Announced(epoch: nat, ticket: Ticket, readable: bool)

  function Handle(hash: Ticket -> Id, n: NamespaceEpoch, e: Event): NamespaceEpoch {
    match e
    case Removed => n.(epoch := if n.epoch >= MAX_EPOCH then n.epoch else n.epoch + 1)
    case Minted(epoch, ticket) => if epoch != n.epoch then n else NamespaceEpoch(epoch, hash(ticket))
    case Announced(epoch, ticket, readable) =>
      var announced := NamespaceEpoch(epoch, hash(ticket));
      if readable && Above(announced, n) then announced else n
  }

  function HandleAll(hash: Ticket -> Id, n: NamespaceEpoch, es: seq<Event>): NamespaceEpoch
    decreases |es|
  {
    if es == [] then n else Handle(hash, HandleAll(hash, n, es[..|es| - 1]), es[|es| - 1])
  }

  lemma {:induction false} HandleAppends(hash: Ticket -> Id, n: NamespaceEpoch, a: seq<Event>, b: seq<Event>)
    ensures HandleAll(hash, n, a + b) == HandleAll(hash, HandleAll(hash, n, a), b)
    decreases |b|
  {
    if b == [] {
      assert a + b == a;
    } else {
      assert (a + b)[..|a + b| - 1] == a + b[..|b| - 1];
      HandleAppends(hash, n, a, b[..|b| - 1]);
    }
  }

  // ---------------------------------------------------------------- rotations and announcements

  datatype Announcement = Announcement(epoch: nat, ticket: Ticket, readable: bool)

  /**
   An announcement from a peer, or a batch of removals answered by its mints: one removal per
   ticket, whatever announcements are heard before the mints arrive, then one mint per requested
   generation, in order.
   */
  datatype Step = Announce(heard: Announcement) | Rotate(tickets: seq<Ticket>, gap: seq<Announcement>)

  function Removals(k: nat): seq<Event> {
    seq(k, _ => Removed)
  }

  function Mints(from: nat, tickets: seq<Ticket>): seq<Event> {
    seq(|tickets|, i requires 0 <= i < |tickets| => Minted(from + i + 1, tickets[i]))
  }

  function Heard(x: Announcement): Event {
    Announced(x.epoch, x.ticket, x.readable)
  }

  function HeardAll(xs: seq<Announcement>): seq<Event> {
    seq(|xs|, i requires 0 <= i < |xs| => Heard(xs[i]))
  }

  function Events(n: NamespaceEpoch, step: Step): seq<Event> {
    match step
    case Announce(x) => HeardAll([x])
    case Rotate(tickets, gap) => Removals(|tickets|) + HeardAll(gap) + Mints(n.epoch, tickets)
  }

  function Take(hash: Ticket -> Id, n: NamespaceEpoch, step: Step): NamespaceEpoch {
    HandleAll(hash, n, Events(n, step))
  }

  function TakeAll(hash: Ticket -> Id, n: NamespaceEpoch, steps: seq<Step>): NamespaceEpoch
    decreases |steps|
  {
    if steps == [] then n else Take(hash, TakeAll(hash, n, steps[..|steps| - 1]), steps[|steps| - 1])
  }

  /** Every batch removes somebody and the counter does not reach its ceiling. */
  ghost predicate Fits(n: NamespaceEpoch, step: Step) {
    step.Rotate? ==> step.tickets != [] && n.epoch + |step.tickets| <= MAX_EPOCH
  }

  ghost predicate InRange(hash: Ticket -> Id, n: NamespaceEpoch, steps: seq<Step>)
    decreases |steps|
  {
    steps == [] ||
    var init, last := steps[..|steps| - 1], steps[|steps| - 1];
    InRange(hash, n, init) && Fits(TakeAll(hash, n, init), last)
  }

  ghost function Readable(hash: Ticket -> Id, xs: seq<Announcement>): set<NamespaceEpoch> {
    set x | x in xs && x.readable :: NamespaceEpoch(x.epoch, hash(x.ticket))
  }

  /** The generation a batch asks for last, with the ticket minted for it. */
  function LastMint(hash: Ticket -> Id, n: NamespaceEpoch, tickets: seq<Ticket>): NamespaceEpoch
    requires tickets != []
  {
    NamespaceEpoch(n.epoch + |tickets|, hash(tickets[|tickets| - 1]))
  }

  /** What one step puts in front of a node on `n`: its own last mint, and what it could read. */
  ghost function Shown(hash: Ticket -> Id, n: NamespaceEpoch, step: Step): set<NamespaceEpoch> {
    match step
    case Announce(x) => Readable(hash, [x])
    case Rotate(tickets, gap) => Readable(hash, gap) + if tickets == [] then {} else {LastMint(hash, n, tickets)}
  }

  ghost function Seen(hash: Ticket -> Id, n: NamespaceEpoch, steps: seq<Step>): set<NamespaceEpoch>
    decreases |steps|
  {
    if steps == [] then {} else
      var init, last := steps[..|steps| - 1], steps[|steps| - 1];
      Seen(hash, n, init) + Shown(hash, TakeAll(hash, n, init), last)
  }

  /**
   A peer's announcement heard in the gap competes with the mint for the same generation, has the
   greater digest, and nothing heard there is of a later generation: the mint overwrites it.
   */
  ghost predicate Overwrites(hash: Ticket -> Id, n: NamespaceEpoch, step: Step) {
    && step.Rotate? && step.tickets != []
    && (forall y | y in Readable(hash, step.gap) :: y.epoch <= n.epoch + |step.tickets|)
    && (exists y | y in Readable(hash, step.gap) :: Above(y, LastMint(hash, n, step.tickets)))
  }

  /** No step of the run overwrites a greater announcement. */
  ghost predicate NoneOverwritten(hash: Ticket -> Id, n: NamespaceEpoch, steps: seq<Step>)
    decreases |steps|
  {
    steps == [] ||
    var init, last := steps[..|steps| - 1], steps[|steps| - 1];
    NoneOverwritten(hash, n, init) && !Overwrites(hash, TakeAll(hash, n, init), last)
  }

  lemma {:induction false} RemovalsCount(hash: Ticket -> Id, n: NamespaceEpoch, k: nat)
    requires n.epoch + k <= MAX_EPOCH
    ensures HandleAll(hash, n, Removals(k)) == n.(epoch := n.epoch + k)
  {
    if k == 0 {
    } else {
      RemovalsCount(hash, n, k - 1);
      assert Removals(k)[..k - 1] == Removals(k - 1);
    }
  }

  /** Of a batch's mints only the one for the current generation is accepted. */
  lemma {:induction false} OnlyTheLastMintCounts(hash: Ticket -> Id, n: NamespaceEpoch, from: nat, tickets: seq<Ticket>)
    requires from + |tickets| <= n.epoch
    ensures HandleAll(hash, n, Mints(from, tickets)) ==
            if tickets != [] && from + |tickets| == n.epoch
            then NamespaceEpoch(n.epoch, hash(tickets[|tickets| - 1])) else n
    decreases |tickets|
  {
    if tickets == [] {
    } else {
      OnlyTheLastMintCounts(hash, n, from, tickets[..|tickets| - 1]);
      assert Mints(from, tickets)[..|tickets| - 1] == Mints(from, tickets[..|tickets| - 1]);
    }
  }

  ghost predicate IsGreatest(s: set<NamespaceEpoch>, x: NamespaceEpoch) {
    x in s && forall y | y in s :: !Above(y, x)
  }

  lemma GreatestGrows(s: set<NamespaceEpoch>, x: NamespaceEpoch, y: NamespaceEpoch)
    requires IsGreatest(s, x)
    ensures IsGreatest(s + {y}, Later(y, x))
  {
  }

  /** Announcements alone leave a node on the greatest of where it was and what it could read. */
  lemma {:induction false} AnnouncementsLand(hash: Ticket -> Id, n: NamespaceEpoch, xs: seq<Announcement>)
    ensures IsGreatest({n} + Readable(hash, xs), HandleAll(hash, n, HeardAll(xs)))
    decreases |xs|
  {
    if xs == [] {
      assert {n} + Readable(hash, xs) == {n};
    } else {
      var init, x := xs[..|xs| - 1], xs[|xs| - 1];
      assert xs == init + [x] && HeardAll(xs)[..|init|] == HeardAll(init);
      AnnouncementsLand(hash, n, init);
      var s, y := {n} + Readable(hash, init), NamespaceEpoch(x.epoch, hash(x.ticket));
      GreatestGrows(s, HandleAll(hash, n, HeardAll(init)), y);
      assert {n} + Readable(hash, xs) == if x.readable then s + {y} else s;
    }
  }

  /** Removals, what is heard in the gap, then the mints. */
  lemma RotationUnfolds(hash: Ticket -> Id, n: NamespaceEpoch, tickets: seq<Ticket>, gap: seq<Announcement>)
    requires n.epoch + |tickets| <= MAX_EPOCH
    ensures var heard := HandleAll(hash, n.(epoch := n.epoch + |tickets|), HeardAll(gap));
            Take(hash, n, Rotate(tickets, gap)) == HandleAll(hash, heard, Mints(n.epoch, tickets))
  {
    HandleAppends(hash, n, Removals(|tickets|) + HeardAll(gap), Mints(n.epoch, tickets));
    HandleAppends(hash, n, Removals(|tickets|), HeardAll(gap));
    RemovalsCount(hash, n, |tickets|);
  }

  /** A rotation ends on its last mint, unless a later generation was heard of in the gap. */
  lemma RotationLands(hash: Ticket -> Id, n: NamespaceEpoch, tickets: seq<Ticket>, gap: seq<Announcement>)
    requires tickets != [] && n.epoch + |tickets| <= MAX_EPOCH
    ensures var heard := HandleAll(hash, n.(epoch := n.epoch + |tickets|), HeardAll(gap));
            && IsGreatest({n.(epoch := n.epoch + |tickets|)} + Readable(hash, gap), heard)
            && Take(hash, n, Rotate(tickets, gap)) ==
               if heard.epoch == n.epoch + |tickets| then LastMint(hash, n, tickets) else heard
  {
    var m := n.(epoch := n.epoch + |tickets|);
    RotationUnfolds(hash, n, tickets, gap);
    AnnouncementsLand(hash, m, gap);
    assert m in {m} + Readable(hash, gap) && !Above(m, HandleAll(hash, m, HeardAll(gap)));
    OnlyTheLastMintCounts(hash, HandleAll(hash, m, HeardAll(gap)), n.epoch, tickets);
  }

  lemma RotationReachesTheGreatest(hash: Ticket -> Id, n: NamespaceEpoch, s: set<NamespaceEpoch>, step: Step)
    requires IsGreatest(s, n) && step.Rotate? && Fits(n, step)
    ensures IsGreatest(s + Shown(hash, n, step), Take(hash, n, step)) <==> !Overwrites(hash, n, step)
  {
    var m, mint := n.(epoch := n.epoch + |step.tickets|), LastMint(hash, n, step.tickets);
    RotationLands(hash, n, step.tickets, step.gap);
    var heard := HandleAll(hash, m, HeardAll(step.gap));
    assert m in {m} + Readable(hash, step.gap);
    assert forall y | y in Readable(hash, step.gap) :: y in {m} + Readable(hash, step.gap);
    if heard.epoch != m.epoch {
      assert heard in Readable(hash, step.gap) && heard.epoch > m.epoch;
    }
  }

  lemma AnnouncementReachesTheGreatest(hash: Ticket -> Id, n: NamespaceEpoch, s: set<NamespaceEpoch>, x: Announcement)
    requires IsGreatest(s, n)
    ensures IsGreatest(s + Shown(hash, n, Announce(x)), Take(hash, n, Announce(x)))
  {
    AnnouncementsLand(hash, n, [x]);
    var r := Take(hash, n, Announce(x));
    assert n in {n} + Readable(hash, [x]);
  }

  /** A step takes a node to the greatest generation in front of it if and only if it overwrites none. */
  lemma StepReachesTheGreatest(hash: Ticket -> Id, n: NamespaceEpoch, s: set<NamespaceEpoch>, step: Step)
    requires IsGreatest(s, n) && Fits(n, step)
    ensures IsGreatest(s + Shown(hash, n, step), Take(hash, n, step)) <==> !Overwrites(hash, n, step)
  {
    match step
    case Announce(x) => AnnouncementReachesTheGreatest(hash, n, s, x);
    case Rotate(_, _) => RotationReachesTheGreatest(hash, n, s, step);
  }

  /** The node is on the greatest generation of its start and what it saw, after the first `k` steps. */
  ghost predicate OnTheGreatest(hash: Ticket -> Id, n: NamespaceEpoch, steps: seq<Step>, k: nat)
    requires k <= |steps|
  {
    IsGreatest({n} + Seen(hash, n, steps[..k]), TakeAll(hash, n, steps[..k]))
  }

  lemma StepsNext(hash: Ticket -> Id, n: NamespaceEpoch, steps: seq<Step>, k: nat)
    requires k < |steps|
    ensures TakeAll(hash, n, steps[..k + 1]) == Take(hash, TakeAll(hash, n, steps[..k]), steps[k])
    ensures {n} + Seen(hash, n, steps[..k + 1])
            == ({n} + Seen(hash, n, steps[..k])) + Shown(hash, TakeAll(hash, n, steps[..k]), steps[k])
    ensures NoneOverwritten(hash, n, steps[..k + 1]) <==>
            NoneOverwritten(hash, n, steps[..k]) && !Overwrites(hash, TakeAll(hash, n, steps[..k]), steps[k])
    ensures InRange(hash, n, steps[..k + 1]) <==>
            InRange(hash, n, steps[..k]) && Fits(TakeAll(hash, n, steps[..k]), steps[k])
  {
    assert steps[..k + 1][..k] == steps[..k];
  }

  lemma OnTheGreatestNext(hash: Ticket -> Id, n: NamespaceEpoch, steps: seq<Step>, k: nat)
    requires k < |steps| && OnTheGreatest(hash, n, steps, k) && Fits(TakeAll(hash, n, steps[..k]), steps[k])
    ensures OnTheGreatest(hash, n, steps, k + 1) <==> !Overwrites(hash, TakeAll(hash, n, steps[..k]), steps[k])
  {
    StepsNext(hash, n, steps, k);
    StepReachesTheGreatest(hash, TakeAll(hash, n, steps[..k]), {n} + Seen(hash, n, steps[..k]), steps[k]);
  }

  ghost predicate AlwaysGreatest(hash: Ticket -> Id, n: NamespaceEpoch, steps: seq<Step>, k: nat)
    requires k <= |steps|
  {
    forall i | 0 <= i <= k :: OnTheGreatest(hash, n, steps, i)
  }

  lemma AlwaysGreatestNext(hash: Ticket -> Id, n: NamespaceEpoch, steps: seq<Step>, k: nat)
    requires k < |steps|
    ensures AlwaysGreatest(hash, n, steps, k + 1) <==>
            AlwaysGreatest(hash, n, steps, k) && OnTheGreatest(hash, n, steps, k + 1)
  {
  }

  lemma StartIsTheGreatest(hash: Ticket -> Id, n: NamespaceEpoch, steps: seq<Step>)
    ensures AlwaysGreatest(hash, n, steps, 0) && NoneOverwritten(hash, n, steps[..0])
  {
    assert steps[..0] == [];
    assert {n} + Seen(hash, n, []) == {n};
  }

  lemma {:induction false} GreatestUpTo(hash: Ticket -> Id, n: NamespaceEpoch, steps: seq<Step>, k: nat)
    requires k <= |steps| && InRange(hash, n, steps[..k])
    ensures AlwaysGreatest(hash, n, steps, k) <==> NoneOverwritten(hash, n, steps[..k])
    decreases k
  {
    if k == 0 {
      StartIsTheGreatest(hash, n, steps);
    } else {
      StepsNext(hash, n, steps, k - 1);
      GreatestUpTo(hash, n, steps, k - 1);
      AlwaysGreatestNext(hash, n, steps, k - 1);
      if OnTheGreatest(hash, n, steps, k - 1) { OnTheGreatestNext(hash, n, steps, k - 1); }
    }
  }

  /** At every point of a run the node is on the greatest it saw, if and only if none was overwritten. */
  lemma AlwaysGreatestExactlyWhen(hash: Ticket -> Id, n: NamespaceEpoch, steps: seq<Step>)
    requires InRange(hash, n, steps)
    ensures (forall i | 0 <= i <= |steps| :: OnTheGreatest(hash, n, steps, i)) <==> NoneOverwritten(hash, n, steps)
  {
    assert steps[..|steps|] == steps;
    GreatestUpTo(hash, n, steps, |steps|);
  }

  /** So after any such run the node is on the greatest generation of its start and what it saw. */
  lemma NamespaceIsTheGreatestSeen(hash: Ticket -> Id, n: NamespaceEpoch, steps: seq<Step>)
    requires InRange(hash, n, steps) && NoneOverwritten(hash, n, steps)
    ensures IsGreatest({n} + Seen(hash, n, steps), TakeAll(hash, n, steps))
  {
    AlwaysGreatestExactlyWhen(hash, n, steps);
    assert OnTheGreatest(hash, n, steps, |steps|) && steps[..|steps|] == steps;
  }

  lemma GreatestIsUnique(s: set<NamespaceEpoch>, x: NamespaceEpoch, y: NamespaceEpoch)
    requires IsGreatest(s, x) && IsGreatest(s, y)
    ensures x == y
  {
  }

  lemma StepNeverMovesBack(hash: Ticket -> Id, n: NamespaceEpoch, step: Step)
    requires Fits(n, step)
    ensures !Above(n, Take(hash, n, step))
  {
    match step
    case Announce(x) =>
      AnnouncementsLand(hash, n, [x]);
      assert n in {n} + Readable(hash, [x]);
    case Rotate(tickets, gap) =>
      RotationLands(hash, n, tickets, gap);
      var m := n.(epoch := n.epoch + |tickets|);
      assert m in {m} + Readable(hash, gap);
  }

  /** Across any run of announcements and answered rotations a node never moves back. */
  lemma {:induction false} NamespaceNeverMovesBack(hash: Ticket -> Id, n: NamespaceEpoch, steps: seq<Step>)
    requires InRange(hash, n, steps)
    ensures !Above(n, TakeAll(hash, n, steps))
    decreases |steps|
  {
    if steps == [] {
    } else {
      NamespaceNeverMovesBack(hash, n, steps[..|steps| - 1]);
      StepNeverMovesBack(hash, TakeAll(hash, n, steps[..|steps| - 1]), steps[|steps| - 1]);
    }
  }

  /** Whatever happens, in whatever order, the epoch never falls. */
  lemma {:induction false} EpochNeverFalls(hash: Ticket -> Id, n: NamespaceEpoch, es: seq<Event>)
    ensures HandleAll(hash, n, es).epoch >= n.epoch
    decreases |es|
  {
    if es == [] {
    } else {
      EpochNeverFalls(hash, n, es[..|es| - 1]);
    }
  }

  /**
   Over any events at all, no order or answer assumed: a node that moved back did so within its
   generation, to the digest of a mint of its own for that generation.
   */
  lemma {:induction false} OnlyAMintMovesBack(hash: Ticket -> Id, n: NamespaceEpoch, es: seq<Event>)
    requires Above(n, HandleAll(hash, n, es))
    ensures HandleAll(hash, n, es).epoch == n.epoch
    ensures exists e | e in es :: e.Minted? && e.epoch == n.epoch && hash(e.ticket) < n.digest
    decreases |es|
  {
    EpochNeverFalls(hash, n, es);
    var init, last := es[..|es| - 1], es[|es| - 1];
    assert es == init + [last];
    EpochNeverFalls(hash, n, init);
    if Above(n, HandleAll(hash, n, init)) {
      OnlyAMintMovesBack(hash, n, init);
    } else {
      assert last in es;
    }
  }

  /** Two nodes that started together and saw the same generations, in any order, agree. */
  lemma NodesThatSawTheSameAgree(hash: Ticket -> Id, n: NamespaceEpoch, a: seq<Step>, b: seq<Step>)
    requires InRange(hash, n, a) && NoneOverwritten(hash, n, a)
    requires InRange(hash, n, b) && NoneOverwritten(hash, n, b)
    requires {n} + Seen(hash, n, a) == {n} + Seen(hash, n, b)
    ensures TakeAll(hash, n, a) == TakeAll(hash, n, b)
  {
    NamespaceIsTheGreatestSeen(hash, n, a);
    NamespaceIsTheGreatestSeen(hash, n, b);
    GreatestIsUnique({n} + Seen(hash, n, a), TakeAll(hash, n, a), TakeAll(hash, n, b));
  }

  // ---------------------------------------------------------------- the object

  datatype Removal = RefusedLastAdmin | NotAMember | Requested(epoch: nat)

  /** How decrypting an announcement went, and what came of it. */
  datatype Opened = Plaintext | AwaitingOp | Unreachable
  datatype Arrival = Nothing | AskForRepair | Adopted

  class NamespaceTracker {
    var namespace: NamespaceEpoch
    var ticket: Ticket

    constructor (namespace: NamespaceEpoch)
      ensures this.namespace == namespace
    {
      this.namespace, ticket := namespace, 0;
    }

    /**
     The last device of the last admin stays; removing somebody who is no member changes nothing;
     otherwise the removal asks for the next generation.
     */
    method PerformRemoval(lastAdmin: bool, member: bool) returns (outcome: Removal)
      modifies this`namespace
      ensures outcome == (if lastAdmin then RefusedLastAdmin else if !member then NotAMember
                          else Requested(namespace.epoch))
      ensures forall hash ::
                namespace == if outcome.Requested? then Handle(hash, old(namespace), Removed) else old(namespace)
    {
      if lastAdmin { return RefusedLastAdmin; }
      if !member { return NotAMember; }
      if namespace.epoch < MAX_EPOCH {
        namespace := namespace.(epoch := namespace.epoch + 1);
      }
      outcome := Requested(namespace.epoch);
    }

    method OnMinted(hash: Ticket -> Id, epoch: nat, minted: Ticket) returns (published: bool)
      modifies this
      ensures namespace == Handle(hash, old(namespace), Minted(epoch, minted))
      ensures published <==> epoch == old(namespace).epoch
      ensures ticket == if published then minted else old(ticket)
    {
      if epoch != namespace.epoch { return false; }
      namespace := NamespaceEpoch(epoch, hash(minted));
      ticket := minted;
      published := true;
    }

    /**
     Adopt a greater announcement; ask for one this node can never decrypt; wait for one whose
     establishing operation has not arrived.
     */
    method OnArrived(hash: Ticket -> Id, epoch: nat, arrived: Ticket, decrypted: Opened) returns (outcome: Arrival)
      modifies this
      ensures namespace == Handle(hash, old(namespace), Announced(epoch, arrived, decrypted == Plaintext))
      ensures outcome == Adopted <==>
              decrypted == Plaintext && Above(NamespaceEpoch(epoch, hash(arrived)), old(namespace))
      ensures outcome == AskForRepair <==> decrypted == Unreachable
      ensures ticket == if outcome == Adopted then arrived else old(ticket)
    {
      if decrypted == AwaitingOp { return Nothing; }
      if decrypted == Unreachable { return AskForRepair; }
      var announced := NamespaceEpoch(epoch, hash(arrived));
      if !Above(announced, namespace) { return Nothing; }
      namespace, ticket := announced, arrived;
      outcome := Adopted;
    }
  }
}
