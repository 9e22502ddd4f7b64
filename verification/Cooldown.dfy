/**
 The rate limiter of crates/iroh-beekem-core/src/cooldown.rs. `Run` forgets a key once its entry
 is a window old; the reference limiter beside it never forgets. They give the same answers exactly
 when no claim is overtaken, and always when the clock does not step back.
 */
module Cooldown {

  /** Elapsed time, saturating at zero. */
  function Elapsed(now: nat, at: nat): nat {
    if now < at then 0 else now - at
  }

  datatype Claim<+K> = Claim(key: K, now: nat)

  // ---------------------------------------------------------------- the pruning limiter

  function Prune<K>(seen: map<K, nat>, window: nat, now: nat): map<K, nat> {
    map k | k in seen && Elapsed(now, seen[k]) < window :: seen[k]
  }

  predicate Admits<K>(seen: map<K, nat>, window: nat, c: Claim<K>) {
    c.key !in Prune(seen, window, c.now)
  }

  function Step<K>(seen: map<K, nat>, window: nat, c: Claim<K>): map<K, nat> {
    var kept := Prune(seen, window, c.now);
    if c.key in kept then kept else kept[c.key := c.now]
  }

  function Run<K>(window: nat, claims: seq<Claim<K>>): map<K, nat>
    decreases |claims|
  {
    if claims == [] then map[] else Step(Run(window, claims[..|claims| - 1]), window, claims[|claims| - 1])
  }

  // ---------------------------------------------------------------- the limiter that never forgets

  predicate LedgerAdmits<K>(last: map<K, nat>, window: nat, c: Claim<K>) {
    c.key in last ==> Elapsed(c.now, last[c.key]) >= window
  }

  function Ledger<K>(window: nat, claims: seq<Claim<K>>): map<K, nat>
    decreases |claims|
  {
    if claims == [] then map[] else
      var last, c := Ledger(window, claims[..|claims| - 1]), claims[|claims| - 1];
      if LedgerAdmits(last, window, c) then last[c.key := c.now] else last
  }

  // ---------------------------------------------------------------- refinement

  ghost predicate Admitted<K>(window: nat, claims: seq<Claim<K>>, i: nat)
    requires i < |claims|
  {
    Admits(Run(window, claims[..i]), window, claims[i])
  }

  ghost predicate LedgerAdmitted<K>(window: nat, claims: seq<Claim<K>>, i: nat)
    requires i < |claims|
  {
    LedgerAdmits(Ledger(window, claims[..i]), window, claims[i])
  }

  /** The two limiters give the claim at `i` the same answer. */
  ghost predicate SameAnswer<K>(window: nat, claims: seq<Claim<K>>, i: nat)
    requires i < |claims|
  {
    Admitted(window, claims, i) <==> LedgerAdmitted(window, claims, i)
  }

  ghost predicate SameAnswers<K>(window: nat, claims: seq<Claim<K>>, n: nat)
    requires n <= |claims|
  {
    forall i | 0 <= i < n :: SameAnswer(window, claims, i)
  }

  /** Of the first `n` claims, the one at `j` is the last of key `k` that the ledger admitted. */
  ghost predicate IsLastAdmission<K>(window: nat, claims: seq<Claim<K>>, n: nat, k: K, j: nat)
    requires n <= |claims|
  {
    && j < n && claims[j].key == k && LedgerAdmitted(window, claims, j)
    && (forall l | j < l < n && claims[l].key == k :: !LedgerAdmitted(window, claims, l))
  }

  /**
   The claim at `i` comes within a window of its key's last admission, after a claim in between
   was already a window or more past that admission.
   */
  ghost predicate Overtaken<K>(window: nat, claims: seq<Claim<K>>, i: nat)
    requires i < |claims|
  {
    exists j, m | 0 <= j < m < i ::
      && IsLastAdmission(window, claims, i, claims[i].key, j)
      && Elapsed(claims[i].now, claims[j].now) < window <= Elapsed(claims[m].now, claims[j].now)
  }

  ghost predicate NoneOvertaken<K>(window: nat, claims: seq<Claim<K>>, n: nat)
    requires n <= |claims|
  {
    forall i | 0 <= i < n :: !Overtaken(window, claims, i)
  }

  lemma LedgerNext<K>(window: nat, claims: seq<Claim<K>>, n: nat)
    requires n < |claims|
    ensures Ledger(window, claims[..n + 1]) ==
            if LedgerAdmitted(window, claims, n) then Ledger(window, claims[..n])[claims[n].key := claims[n].now]
            else Ledger(window, claims[..n])
    ensures Run(window, claims[..n + 1]) == Step(Run(window, claims[..n]), window, claims[n])
  {
    assert claims[..n + 1][..n] == claims[..n];
  }

  /** Where a ledger entry comes from. */
  lemma {:induction false} LedgerEntry<K>(window: nat, claims: seq<Claim<K>>, n: nat, k: K) returns (j: nat)
    requires n <= |claims| && k in Ledger(window, claims[..n])
    ensures IsLastAdmission(window, claims, n, k, j) && Ledger(window, claims[..n])[k] == claims[j].now
    decreases n
  {
    LedgerNext(window, claims, n - 1);
    if claims[n - 1].key == k && LedgerAdmitted(window, claims, n - 1) {
      j := n - 1;
    } else {
      j := LedgerEntry(window, claims, n - 1, k);
    }
  }

  /** The ledger holds every key it admitted. */
  lemma {:induction false} LedgerRemembersKey<K>(window: nat, claims: seq<Claim<K>>, n: nat, j: nat)
    requires j < n <= |claims| && LedgerAdmitted(window, claims, j)
    ensures claims[j].key in Ledger(window, claims[..n])
    decreases n
  {
    LedgerNext(window, claims, n - 1);
    if j == n - 1 {
    } else {
      LedgerRemembersKey(window, claims, n - 1, j);
    }
  }

  lemma LastAdmissionIsUnique<K>(window: nat, claims: seq<Claim<K>>, n: nat, k: K, i: nat, j: nat)
    requires n <= |claims|
    requires IsLastAdmission(window, claims, n, k, i) && IsLastAdmission(window, claims, n, k, j)
    ensures i == j
  {
  }

  /** No claim since `j`, up to `n`, was a window past it. */
  ghost predicate Fresh<K>(window: nat, claims: seq<Claim<K>>, n: nat, j: nat)
    requires j < n <= |claims|
  {
    forall m | j < m < n :: Elapsed(claims[m].now, claims[j].now) < window
  }

  /** The ledger's entry for `k` has not been outlived. */
  ghost predicate Alive<K>(window: nat, claims: seq<Claim<K>>, n: nat, k: K)
    requires n <= |claims|
  {
    exists j | 0 <= j < n :: IsLastAdmission(window, claims, n, k, j) && Fresh(window, claims, n, j)
  }

  /** The ledger's entry is alive exactly when its admission is fresh. */
  lemma AliveMeansFresh<K>(window: nat, claims: seq<Claim<K>>, n: nat, k: K, e: nat)
    requires n <= |claims| && IsLastAdmission(window, claims, n, k, e)
    ensures Alive(window, claims, n, k) <==> Fresh(window, claims, n, e)
  {
    forall j | 0 <= j < n && IsLastAdmission(window, claims, n, k, j)
      ensures j == e
    {
      LastAdmissionIsUnique(window, claims, n, k, e, j);
    }
  }

  lemma AliveIsRemembered<K>(window: nat, claims: seq<Claim<K>>, n: nat, k: K)
    requires n <= |claims| && Alive(window, claims, n, k)
    ensures k in Ledger(window, claims[..n])
  {
    var j :| 0 <= j < n && IsLastAdmission(window, claims, n, k, j) && Fresh(window, claims, n, j);
    LedgerRemembersKey(window, claims, n, j);
  }

  /** A key not admitted at `n` stays alive exactly when it was and its entry is less than a window old. */
  lemma OlderKeyNext<K>(window: nat, claims: seq<Claim<K>>, n: nat, k: K)
    requires n < |claims| && k in Ledger(window, claims[..n])
    requires !(claims[n].key == k && LedgerAdmitted(window, claims, n))
    ensures Alive(window, claims, n + 1, k) <==>
            Alive(window, claims, n, k) && Elapsed(claims[n].now, Ledger(window, claims[..n])[k]) < window
  {
    var e := LedgerEntry(window, claims, n, k);
    AliveMeansFresh(window, claims, n, k, e);
    AliveMeansFresh(window, claims, n + 1, k, e);
    assert Fresh(window, claims, n + 1, e) <==>
           Fresh(window, claims, n, e) && Elapsed(claims[n].now, claims[e].now) < window;
  }

  lemma NewKeyIsAlive<K>(window: nat, claims: seq<Claim<K>>, n: nat)
    requires n < |claims| && LedgerAdmitted(window, claims, n)
    ensures Alive(window, claims, n + 1, claims[n].key)
  {
    assert IsLastAdmission(window, claims, n + 1, claims[n].key, n) && Fresh(window, claims, n + 1, n);
  }

  /** What one claim leaves of a key, when both limiters answer it alike. */
  lemma StepKey<K>(seen: map<K, nat>, last: map<K, nat>, window: nat, c: Claim<K>, k: K)
    requires k in seen ==> k in last && seen[k] == last[k]
    requires c.key in seen ==> c.key in last && seen[c.key] == last[c.key]
    requires Admits(seen, window, c) <==> LedgerAdmits(last, window, c)
    ensures var next := if LedgerAdmits(last, window, c) then last[c.key := c.now] else last;
            k in Step(seen, window, c) ==> k in next && Step(seen, window, c)[k] == next[k]
    ensures k in Step(seen, window, c) <==>
            || (c.key == k && LedgerAdmits(last, window, c))
            || (k in seen && k in last && Elapsed(c.now, last[k]) < window)
  {
  }

  /** The pruning limiter and the ledger agree on `k`: it is tracked exactly while alive. */
  ghost predicate TracksKey<K>(window: nat, claims: seq<Claim<K>>, n: nat, k: K)
    requires n <= |claims|
  {
    var seen, last := Run(window, claims[..n]), Ledger(window, claims[..n]);
    && (k in seen ==> k in last && seen[k] == last[k])
    && (k in seen <==> Alive(window, claims, n, k))
  }

  lemma TracksKeyNext<K>(window: nat, claims: seq<Claim<K>>, n: nat, k: K)
    requires n < |claims| && SameAnswer(window, claims, n)
    requires TracksKey(window, claims, n, k) && TracksKey(window, claims, n, claims[n].key)
    ensures TracksKey(window, claims, n + 1, k)
  {
    LedgerNext(window, claims, n);
    StepKey(Run(window, claims[..n]), Ledger(window, claims[..n]), window, claims[n], k);
    if claims[n].key == k && LedgerAdmitted(window, claims, n) {
      NewKeyIsAlive(window, claims, n);
    } else if k in Ledger(window, claims[..n]) {
      OlderKeyNext(window, claims, n, k);
    } else if Alive(window, claims, n + 1, k) {
      AliveIsRemembered(window, claims, n + 1, k);
    }
  }

  /** While the answers agree, the pruning limiter holds exactly the live part of the ledger. */
  lemma {:induction false} RunIsTheLiveLedger<K>(window: nat, claims: seq<Claim<K>>, n: nat, k: K)
    requires n <= |claims| && SameAnswers(window, claims, n)
    ensures TracksKey(window, claims, n, k)
    decreases n
  {
    if n == 0 {
      assert claims[..0] == [];
    } else {
      RunIsTheLiveLedger(window, claims, n - 1, k);
      RunIsTheLiveLedger(window, claims, n - 1, claims[n - 1].key);
      TracksKeyNext(window, claims, n - 1, k);
    }
  }

  lemma OvertakenMeansOutlived<K>(window: nat, claims: seq<Claim<K>>, i: nat, e: nat)
    requires i < |claims| && IsLastAdmission(window, claims, i, claims[i].key, e)
    ensures Overtaken(window, claims, i) <==>
            Elapsed(claims[i].now, claims[e].now) < window && !Fresh(window, claims, i, e)
  {
    forall j | 0 <= j < i && IsLastAdmission(window, claims, i, claims[i].key, j)
      ensures j == e
    {
      LastAdmissionIsUnique(window, claims, i, claims[i].key, e, j);
    }
  }

  /** As long as they have agreed, the limiters part exactly at the first claim that is overtaken. */
  lemma NextAnswerAgreesExactlyWhen<K>(window: nat, claims: seq<Claim<K>>, i: nat)
    requires i < |claims| && SameAnswers(window, claims, i)
    ensures SameAnswer(window, claims, i) <==> !Overtaken(window, claims, i)
  {
    var k := claims[i].key;
    RunIsTheLiveLedger(window, claims, i, k);
    if k in Ledger(window, claims[..i]) {
      var e := LedgerEntry(window, claims, i, k);
      AliveMeansFresh(window, claims, i, k, e);
      OvertakenMeansOutlived(window, claims, i, e);
    } else {
      forall j | 0 <= j < i
        ensures !IsLastAdmission(window, claims, i, k, j)
      {
        if IsLastAdmission(window, claims, i, k, j) { LedgerRemembersKey(window, claims, i, j); }
      }
    }
  }

  /** The reference limiter, by its own history: it refuses iff its key's last admission is recent. */
  lemma LedgerAdmitsExactlyWhen<K>(window: nat, claims: seq<Claim<K>>, i: nat)
    requires i < |claims|
    ensures LedgerAdmitted(window, claims, i) <==>
            forall j | 0 <= j < i && IsLastAdmission(window, claims, i, claims[i].key, j) ::
              Elapsed(claims[i].now, claims[j].now) >= window
  {
    var k := claims[i].key;
    if k in Ledger(window, claims[..i]) {
      var e := LedgerEntry(window, claims, i, k);
      forall j | 0 <= j < i && IsLastAdmission(window, claims, i, k, j)
        ensures j == e
      {
        LastAdmissionIsUnique(window, claims, i, k, e, j);
      }
    } else {
      forall j | 0 <= j < i
        ensures !IsLastAdmission(window, claims, i, k, j)
      {
        if IsLastAdmission(window, claims, i, k, j) { LedgerRemembersKey(window, claims, i, j); }
      }
    }
  }

  /** Up to `n`, agreeing and not being overtaken are the same thing. */
  lemma {:induction false} AgreementUpTo<K>(window: nat, claims: seq<Claim<K>>, n: nat)
    requires n <= |claims|
    ensures SameAnswers(window, claims, n) <==> NoneOvertaken(window, claims, n)
    decreases n
  {
    if n == 0 {
    } else {
      AgreementUpTo(window, claims, n - 1);
      if SameAnswers(window, claims, n - 1) { NextAnswerAgreesExactlyWhen(window, claims, n - 1); }
    }
  }

  /**
   For every sequence of claims, whatever the clock does: the limiter that forgets answers like the
   one that never does if and only if no claim is overtaken.
   */
  lemma PruningAgreesExactlyWhen<K>(window: nat, claims: seq<Claim<K>>)
    ensures (forall i | 0 <= i < |claims| :: SameAnswer(window, claims, i))
            <==> (forall i | 0 <= i < |claims| :: !Overtaken(window, claims, i))
  {
    AgreementUpTo(window, claims, |claims|);
  }

  // ---------------------------------------------------------------- a clock that does not step back

  ghost predicate ClockRuns<K>(claims: seq<Claim<K>>) {
    forall i, j | 0 <= i < j < |claims| :: claims[i].now <= claims[j].now
  }

  lemma RunningClocksAgree<K>(window: nat, claims: seq<Claim<K>>)
    requires ClockRuns(claims)
    ensures SameAnswers(window, claims, |claims|)
  {
    forall i | 0 <= i < |claims|
      ensures !Overtaken(window, claims, i)
    {
      assert forall m | 0 <= m < i :: claims[m].now <= claims[i].now;
    }
    PruningAgreesExactlyWhen(window, claims);
  }

  /** Whatever was claimed before, the next claim gets the answer an unbounded limiter gives. */
  lemma PruningChangesNoAnswer<K>(window: nat, claims: seq<Claim<K>>, c: Claim<K>)
    requires ClockRuns(claims + [c])
    ensures Admits(Run(window, claims), window, c) <==> LedgerAdmits(Ledger(window, claims), window, c)
  {
    var all := claims + [c];
    RunningClocksAgree(window, all);
    assert all[..|claims|] == claims && all[|claims|] == c;
    assert SameAnswer(window, all, |claims|);
  }

  /** Two admitted claims of one key are at least a window apart. */
  lemma AdmittedClaimsAreSpaced<K>(window: nat, claims: seq<Claim<K>>, i: nat, j: nat)
    requires ClockRuns(claims) && i < j < |claims| && claims[i].key == claims[j].key
    requires Admitted(window, claims, i) && Admitted(window, claims, j)
    ensures claims[j].now - claims[i].now >= window
  {
    RunningClocksAgree(window, claims);
    assert SameAnswer(window, claims, i) && SameAnswer(window, claims, j);
    LedgerRemembersKey(window, claims, j, i);
    var e := LedgerEntry(window, claims, j, claims[i].key);
    assert i <= e;
  }

  lemma FreshMeansRecent<K>(window: nat, claims: seq<Claim<K>>, e: nat)
    requires ClockRuns(claims) && e < |claims| && window > 0
    ensures Fresh(window, claims, |claims|, e) <==> Elapsed(claims[|claims| - 1].now, claims[e].now) < window
  {
    var n := |claims|;
    assert forall m | e < m < n :: claims[m].now <= claims[n - 1].now || m == n - 1;
  }

  /** For a clock that runs forward: a claim is admitted iff every admitted one of its key is a window old. */
  lemma AdmittedExactlyWhen<K>(window: nat, claims: seq<Claim<K>>, i: nat)
    requires ClockRuns(claims) && i < |claims|
    ensures Admitted(window, claims, i) <==>
            forall j | 0 <= j < i && claims[j].key == claims[i].key && Admitted(window, claims, j) ::
              claims[i].now - claims[j].now >= window
  {
    RunningClocksAgree(window, claims);
    assert SameAnswer(window, claims, i);
    if Admitted(window, claims, i) {
      forall j | 0 <= j < i && claims[j].key == claims[i].key && Admitted(window, claims, j)
        ensures claims[i].now - claims[j].now >= window
      {
        AdmittedClaimsAreSpaced(window, claims, j, i);
      }
    } else {
      LedgerAdmitsExactlyWhen(window, claims, i);
      var j :| 0 <= j < i && IsLastAdmission(window, claims, i, claims[i].key, j)
               && Elapsed(claims[i].now, claims[j].now) < window;
      assert SameAnswer(window, claims, j);
    }
  }

  /** After a claim the tracked keys are exactly those admitted less than a window ago. */
  lemma TrackedKeysAreTheRecentOnes<K>(window: nat, claims: seq<Claim<K>>, k: K)
    requires ClockRuns(claims) && claims != [] && window > 0
    ensures var now := claims[|claims| - 1].now;
            var last := Ledger(window, claims);
            k in Run(window, claims) <==> k in last && Elapsed(now, last[k]) < window
  {
    var n := |claims|;
    assert claims[..n] == claims;
    RunningClocksAgree(window, claims);
    RunIsTheLiveLedger(window, claims, n, k);
    if k in Ledger(window, claims) {
      var e := LedgerEntry(window, claims, n, k);
      AliveMeansFresh(window, claims, n, k, e);
      FreshMeansRecent(window, claims, e);
    }
  }

  // ---------------------------------------------------------------- a clock that steps back

  lemma OneClaim<K>(window: nat, c: Claim<K>)
    ensures Run(window, [c]) == map[c.key := c.now] == Ledger(window, [c])
  {
    assert [c][..0] == [] && Run<K>(window, []) == map[] && Ledger<K>(window, []) == map[];
    assert Prune<K>(map[], window, c.now) == map[];
  }

  lemma TwoClaims<K>(window: nat, a: K, b: K, t: nat)
    requires a != b
    ensures var two := [Claim(a, t), Claim(b, t + window)];
            Run(window, two) == map[b := t + window] && Ledger(window, two) == map[a := t, b := t + window]
  {
    var one, two := [Claim(a, t)], [Claim(a, t), Claim(b, t + window)];
    OneClaim(window, Claim(a, t));
    assert two[..1] == one && two[1] == Claim(b, t + window);
    assert Prune(map[a := t], window, t + window) == map[];
    assert LedgerAdmits(map[a := t], window, Claim(b, t + window));
  }

  /**
   Claim one key, a second key a window later, and the first again at a time inside its window: the
   limiter has forgotten the first claim and admits it, so some condition on time is needed.
   */
  lemma SteppingBackReadmits<K>(window: nat, a: K, b: K, t: nat, e: nat)
    requires a != b && e < window
    ensures var claims := [Claim(a, t), Claim(b, t + window)];
            && Admits(Run(window, claims), window, Claim(a, t + e))
            && !LedgerAdmits(Ledger(window, claims), window, Claim(a, t + e))
  {
    TwoClaims(window, a, b, t);
  }

  // ---------------------------------------------------------------- the object

  class Cooldown<K(==)> {
    var seen: map<K, nat>
    const window: nat

    constructor (window: nat)
      ensures this.window == window && seen == map[]
    {
      this.window, seen := window, map[];
    }

    /** Whether `key` may act now, recording it if so. */
    method TryClaim(key: K, now: nat) returns (admitted: bool)
      modifies this
      ensures admitted <==> Admits(old(seen), window, Claim(key, now))
      ensures seen == Step(old(seen), window, Claim(key, now))
    {
      seen := map k | k in seen && Elapsed(now, seen[k]) < window :: seen[k];
      if key in seen && Elapsed(now, seen[key]) < window {
        admitted := false;
      } else {
        seen := seen[key := now];
        admitted := true;
      }
    }
  }
}
