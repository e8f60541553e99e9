/**
 * One execution at a time across all schedulers and databases, for as long as leases are kept alive
 * and nobody presents the lease of another.
 */
module FleetHolders {
  import opened Options
  import opened LeaseStore
  import opened Fleet

  /** Thread x of some scheduler holds the shared lease and executes. */
  predicate Executes(s: State, x: nat) {
    x in s.threads && s.threads[x].phase.Holding?
  }

  /** Every holder's lease is the one stored, and there is one holder at most. */
  ghost predicate OneHolder(s: State) {
    && (forall x :: Executes(s, x) ==> LeaseStored(s, x))
    && (forall x, y :: Executes(s, x) && Executes(s, y) ==> x == y)
  }

  predicate LeaseStored(s: State, x: nat)
    requires Executes(s, x)
  {
    s.shared.hash.Some? && Holds(s.shared.hash.value, s.threads[x].phase.lease)
  }

  /** Somebody executes under a stored lease that has run out. */
  ghost predicate LeaseLapsed(s: State, now: real) {
    (exists x :: Executes(s, x)) && s.shared.hash.Some? && s.shared.hash.value.leaseUntil <= now
  }

  /** A call from outside a holding thread that presents a holder's lease and ends it. */
  ghost predicate Impersonates(s: State, op: Op) {
    (op.Transition? || op.ScheduleRetry?) && exists x :: Executes(s, x) && SameLease(op.lease, s.threads[x].phase.lease)
  }

  predicate SameLease(a: LeaseToken, b: LeaseToken) {
    a.owner == b.owner && a.fencingToken == b.fencingToken
  }

  /**
   * Heartbeats keep the lease of an executing thread alive at every claim, and settling calls carry
   * the caller's own lease.
   */
  ghost predicate Orderly(s: State, a: Action) {
    match a
    case ClaimShared(_, _, now, _) => !LeaseLapsed(s, now)
    case Shared(op) => (op.Claim? ==> !LeaseLapsed(s, op.now)) && !Impersonates(s, op)
    case _ => true
  }

  lemma OneHolderStep(s: State, a: Action)
    requires OneHolder(s) && Enabled(s, a) && Orderly(s, a)
    ensures OneHolder(Next(s, a))
  {
    var s' := Next(s, a);
    if x :| Executes(s, x) {
      HeldStep(s, a, x);
    } else {
      forall x | Executes(s', x) ensures a.ClaimShared? && x == a.thread && LeaseStored(s', x) {
        assert !Executes(s, x);
      }
    }
  }

  /** While thread x holds the lease, nobody else gets it, and it stays stored until x ends. */
  lemma HeldStep(s: State, a: Action, x: nat)
    requires OneHolder(s) && Enabled(s, a) && Orderly(s, a) && Executes(s, x)
    ensures forall y :: Executes(Next(s, a), y) ==> y == x && LeaseStored(Next(s, a), y)
  {
    var s' := Next(s, a);
    assert LeaseStored(s, x);
    if a.Shared? && (a.op.Transition? || a.op.ScheduleRetry?) {
      assert !SameLease(a.op.lease, s.threads[x].phase.lease);
    }
    if a.ClaimShared? { assert !LeaseLapsed(s, a.now); }
    if a.Shared? && a.op.Claim? { assert !LeaseLapsed(s, a.op.now); }
    if a.WinTransition? || a.EndWithRetry? { assert Executes(s, a.thread); }
    forall y | Executes(s', y) ensures y == x && LeaseStored(s', y) {
      assert Executes(s, y);
    }
  }

  ghost predicate AlwaysOrderly(t: Run)
    requires |t.states| == |t.actions| + 1
  {
    forall i :: 0 <= i < |t.actions| ==> Orderly(t.states[i], t.actions[i])
  }

  lemma {:induction false} AlwaysOneHolder(t: Run, n: nat)
    requires IsRun(t) && AlwaysOrderly(t) && n <= |t.actions|
    ensures OneHolder(t.states[n])
  {
    if n > 0 {
      AlwaysOneHolder(t, n - 1);
      assert StepAt(t, n - 1) && Orderly(t.states[n - 1], t.actions[n - 1]);
      OneHolderStep(t.states[n - 1], t.actions[n - 1]);
    }
  }

  /** At most one thread of all schedulers executes the run, under the lease that is stored. */
  lemma OneExecutionAcrossFleet(t: Run, n: nat, x: nat, y: nat)
    requires IsRun(t) && AlwaysOrderly(t) && n <= |t.actions|
    requires Executes(t.states[n], x) && Executes(t.states[n], y)
    ensures x == y && LeaseStored(t.states[n], x)
  {
    AlwaysOneHolder(t, n);
  }

  /** The exact condition at a claim: it makes a second holder if and only if it finds a lapsed lease. */
  lemma SecondHolderIff(s: State, a: Action)
    requires OneHolder(s) && Enabled(s, a) && a.ClaimShared? && a.leaseSeconds > 0.0 && exists x :: Executes(s, x)
    ensures OneHolder(Next(s, a)) <==> !LeaseLapsed(s, a.now)
  {
    var x :| Executes(s, x);
    assert LeaseStored(s, x);
    if LeaseLapsed(s, a.now) {
      assert Executes(Next(s, a), x) && Executes(Next(s, a), a.thread) && x != a.thread;
    } else {
      OneHolderStep(s, a);
    }
  }
}
