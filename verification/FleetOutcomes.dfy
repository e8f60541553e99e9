/** Which outcomes all schedulers agree on: a run two of them finish differently, and the exact condition. */
module FleetOutcomes {
  import opened Options
  import opened LeaseStore
  import opened RunQueue
  import opened Fleet

  /** A shared-terminal outcome written to some local database by state i. */
  predicate TerminalOutcome(t: Run, i: nat, k: nat) {
    i < |t.states| && k < |t.states[i].outcomes| && SharedTerminal(t.states[i].outcomes[k].status)
  }

  /**
   * Agreement: a shared-terminal outcome written to any local database equals the shared status
   * from then on, and so any two of them, whichever schedulers wrote them, are equal.
   */
  lemma Agreement(t: Run, i: nat, j: nat, k: nat, l: nat)
    requires IsRun(t) && TerminalOutcome(t, i, k) && TerminalOutcome(t, j, l) && i <= j
    ensures SharedStatusIs(t.states[j].shared, t.states[i].outcomes[k].status)
    ensures t.states[i].outcomes[k].status == t.states[j].outcomes[l].status
  {
    OutcomesStay(t, i, j);
    AlwaysAgrees(t, j);
  }

  /** Every outcome written with this status equals the shared status from then on. */
  ghost predicate Binding(status: Status) {
    forall t, i: nat, j: nat, k: nat :: IsRun(t) && OutcomeIs(t, i, k, status) && i <= j < |t.states| ==>
      SharedStatusIs(t.states[j].shared, status)
  }

  predicate OutcomeIs(t: Run, i: nat, k: nat, status: Status) {
    i < |t.states| && k < |t.states[i].outcomes| && t.states[i].outcomes[k].status == status
  }

  /** Agreement holds for a status the scheduler finishes with if and only if it is one of the shared five. */
  lemma BindingIffShared(status: Status)
    requires LocalTerminal(status)
    ensures Binding(status) <==> SharedTerminal(status)
  {
    if SharedTerminal(status) {
      forall t, i: nat, j: nat, k: nat | IsRun(t) && OutcomeIs(t, i, k, status) && i <= j < |t.states|
        ensures SharedStatusIs(t.states[j].shared, status)
      {
        OutcomesStay(t, i, j);
        AlwaysAgrees(t, j);
      }
    } else {
      var t := PendingMayBeOvertaken();
      assert OutcomeIs(t, |t.actions|, 0, Pending);
    }
  }

  /** 'pending' is terminal locally but can be claimed again through the control plane: no agreement. */
  lemma PendingMayBeOvertaken() returns (t: Run)
    ensures IsRun(t) && SharedStatusIs(t.states[|t.actions|].shared, Succeeded)
    ensures var o := t.states[|t.actions|].outcomes;
      |o| == 2 && o[0].status == Pending && o[1].status == Succeeded && o[0].worker != o[1].worker
  {
    t := Run([INITIAL], []);
    t := Extend(t, Shared(Op.Admit("h", "p", 0.0)));
    t := Extend(t, Local(1, Insert("h", 0)));
    t := Extend(t, Local(2, Insert("h", 0)));
    t := FinishAs(t, 1, Pending, 1.0);
    t := FinishAs(t, 2, Succeeded, 2.0);
  }

  /** Scheduler `worker` has discovered the run; it claims and executes it and finishes it with `status`. */
  lemma FinishAs(t: Run, worker: nat, status: Status, now: real) returns (t': Run)
    requires IsRun(t)
    requires var s := t.states[|t.actions|];
      && s.threads == map[] && worker in s.rows && s.rows[worker].status == Queued && s.shared.hash.Some?
      && !SharedTerminal(s.shared.hash.value.status) && s.shared.hash.value.leaseUntil <= now
    ensures IsRun(t')
    ensures var s, s' := t.states[|t.actions|], t'.states[|t'.actions|];
      && s'.outcomes == s.outcomes + [Outcome(worker, status)]
      && s'.threads == map[] && worker in s'.rows && s'.rows == s.rows[worker := s'.rows[worker]]
      && SharedStatusIs(s'.shared, status) && s'.shared.hash.value.leaseUntil == 0.0
  {
    t' := Extend(t, ClaimLocal(0, worker, 0, now, 1.0));
    t' := Extend(t', ClaimShared(0, "w", now, 1.0));
    t' := FinishHeld(t', worker, status, now);
  }

  lemma FinishHeld(t: Run, worker: nat, status: Status, now: real) returns (t': Run)
    requires IsRun(t)
    requires var s := t.states[|t.actions|];
      && s.threads.Keys == {0} && s.threads[0].worker == worker && s.threads[0].phase.Holding?
      && worker in s.rows && s.rows[worker].leaseToken == Some(s.threads[0].token)
      && s.shared.hash.Some? && Holds(s.shared.hash.value, s.threads[0].phase.lease)
    ensures IsRun(t')
    ensures var s, s' := t.states[|t.actions|], t'.states[|t'.actions|];
      && s'.outcomes == s.outcomes + [Outcome(worker, status)]
      && s'.threads == map[] && worker in s'.rows && s'.rows == s.rows[worker := s'.rows[worker]]
      && SharedStatusIs(s'.shared, status) && s'.shared.hash.value.leaseUntil == 0.0
  {
    t' := Extend(t, WinTransition(0, status, "", now, None, false, None));
    t' := Extend(t', WriteLocal(0));
  }
}
