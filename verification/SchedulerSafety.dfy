/**
 * One run on one scheduler database under every interleaving of worker threads, timers,
 * heartbeats, cancellation, crash and recovery.
 *
 * A thread is dispatched, claims the local row, is granted or refused the shared lease, executes,
 * and ends by a terminal write, a retry, or without writing (stale, lease lost, crashed). Each
 * action is one SQL statement on the run's row.
 */
module SchedulerSafety {
  import opened Options
  import opened LeaseStore
  import opened RunQueue

  datatype Phase =
    | Dispatched
    | LocallyClaimed(token: nat, attempt: nat)
    | Executing(token: nat, attempt: nat)

  /** The run's row, its worker threads, the lease tokens used so far, and the retries entered. */
  datatype State = State(
    row: Option<Row>,
    threads: map<nat, Phase>,
    nextToken: nat,
    retried: seq<nat>)

  datatype Action =
    | Submit(requestHash: string, attempt: nat)
    | Dispatch(thread: nat)
    | ClaimLocal(thread: nat, now: real)
    | SharedGranted(thread: nat)
    | SharedRefused(thread: nat)
    | Beat(thread: nat, now: real)      // carries no token, and may run after the thread has ended
    | FinishTerminal(thread: nat, status: Status, error: Option<string>, deadLetter: bool, skillResult: Option<string>)
    | FinishRetry(thread: nat, failure: string, retryAt: real)
    | Abandon(thread: nat)
    | RetryTimer
    | CancelRun
    | Recover(now: real)

  datatype Settings = Settings(maxAttempts: nat, leaseSeconds: real)

  const INITIAL := State(None, map[], 0, [])

  predicate Claimed(s: State, thread: nat) {
    thread in s.threads && !s.threads[thread].Dispatched?
  }

  predicate InPhase(s: State, thread: nat, executing: bool) {
    thread in s.threads && (if executing then s.threads[thread].Executing? else s.threads[thread].LocallyClaimed?)
  }

  /** Whether the program can take this action here. */
  predicate Enabled(cfg: Settings, s: State, a: Action) {
    match a
    case Submit(_, _) => s.row.None?
    case Dispatch(thread) => thread !in s.threads && s.row.Some?
    case ClaimLocal(thread, _) => thread in s.threads && s.threads[thread].Dispatched? && s.row.Some?
    case SharedGranted(thread) => InPhase(s, thread, false)
    case SharedRefused(thread) => InPhase(s, thread, false) && s.row.Some?
    case Beat(_, _) => s.row.Some?
    case FinishTerminal(thread, status, _, _, _) => InPhase(s, thread, true) && s.row.Some? && LocalTerminal(status)
    case FinishRetry(thread, _, _) =>
      InPhase(s, thread, true) && s.row.Some? && s.threads[thread].attempt < cfg.maxAttempts
    case Abandon(thread) => thread in s.threads
    case RetryTimer => s.row.Some?
    case CancelRun => s.row.Some?
    case Recover(_) => s.row.Some?
  }

  function Next(cfg: Settings, s: State, a: Action): State
    requires Enabled(cfg, s, a)
  {
    match a
    case Submit(requestHash, attempt) => s.(row := Some(NewRow(requestHash, attempt)))
    case Dispatch(thread) => s.(threads := s.threads[thread := Dispatched])
    case ClaimLocal(thread, now) =>
      if Claimable(s.row.value, now) then
        var row := ClaimedRow(s.row.value, now, cfg.leaseSeconds, s.nextToken);
        s.(row := Some(row), nextToken := s.nextToken + 1,
           threads := s.threads[thread := LocallyClaimed(s.nextToken, row.attempt)])
      else s.(threads := s.threads - {thread})
    case SharedGranted(thread) =>
      s.(threads := s.threads[thread := Executing(s.threads[thread].token, s.threads[thread].attempt)])
    case SharedRefused(thread) =>
      s.(row := Some(RequeuedRow(s.row.value)), threads := s.threads - {thread})
    case Beat(thread, now) => s.(row := Some(RenewedRow(s.row.value, now, cfg.leaseSeconds)))
    case FinishTerminal(thread, status, error, deadLetter, skillResult) =>
      s.(row := Some(FinishedRow(s.row.value, status, error, deadLetter, skillResult, Some(s.threads[thread].token))),
         threads := s.threads - {thread})
    case FinishRetry(thread, error, retryAt) =>
      s.(row := Some(RetryingRow(s.row.value, error, retryAt)),
         threads := s.threads - {thread},
         retried := s.retried + [s.threads[thread].attempt])
    case Abandon(thread) => s.(threads := s.threads - {thread})
    case RetryTimer => s.(row := Some(ReleasedRow(s.row.value)))
    case CancelRun => s.(row := Some(CancelledRow(s.row.value)))
    case Recover(now) => s.(row := Some(RecoveredRow(s.row.value, now)))
  }

  /**
   * The heartbeat assumption at an action that reads the clock: while a worker holds the run, the
   * row's lease has not run out.
   */
  ghost predicate HeartbeatHolds(s: State, now: real) {
    forall x :: Claimed(s, x) ==> s.row.Some? && LeaseLive(s.row.value, now)
  }

  ghost predicate Beating(s: State, a: Action) {
    match a
    case ClaimLocal(_, now) => HeartbeatHolds(s, now)
    case Recover(now) => HeartbeatHolds(s, now)
    case _ => true
  }

  datatype Run = Run(states: seq<State>, actions: seq<Action>)

  ghost predicate StepAt(cfg: Settings, t: Run, i: nat)
    requires i < |t.actions| && i + 1 < |t.states|
  {
    Enabled(cfg, t.states[i], t.actions[i]) && t.states[i + 1] == Next(cfg, t.states[i], t.actions[i])
  }

  ghost predicate IsRun(cfg: Settings, t: Run) {
    && |t.states| == |t.actions| + 1 && t.states[0] == INITIAL
    && forall i :: 0 <= i < |t.actions| ==> StepAt(cfg, t, i)
  }

  ghost predicate AlwaysBeating(t: Run)
    requires |t.states| == |t.actions| + 1
  {
    forall i :: 0 <= i < |t.actions| ==> Beating(t.states[i], t.actions[i])
  }

  // ---------- with heartbeats: one execution, absorbing terminal states ----------

  /** A worker past its claim holds the running row under its own token, and is alone. */
  ghost predicate Exclusive(s: State) {
    && (forall x :: Claimed(s, x) ==>
          s.row.Some? && s.row.value.status == Running && s.row.value.leaseToken == Some(s.threads[x].token))
    && (forall x, y :: Claimed(s, x) && Claimed(s, y) ==> x == y)
  }

  /** A claim can only succeed when no worker holds the run. */
  lemma NobodyHolds(s: State, now: real)
    requires Exclusive(s) && HeartbeatHolds(s, now) && s.row.Some? && Claimable(s.row.value, now)
    ensures forall x :: !Claimed(s, x)
  {
  }

  lemma ExclusiveStep(cfg: Settings, s: State, a: Action)
    requires Exclusive(s) && Enabled(cfg, s, a) && Beating(s, a)
    ensures Exclusive(Next(cfg, s, a))
  {
    var s' := Next(cfg, s, a);
    if a.ClaimLocal? && Claimable(s.row.value, a.now) {
      NobodyHolds(s, a.now);
    }
    forall x | Claimed(s', x)
      ensures s'.row.Some? && s'.row.value.status == Running && s'.row.value.leaseToken == Some(s'.threads[x].token)
      ensures forall y :: Claimed(s', y) ==> x == y
    {
      if Claimed(s, x) {
        if a.FinishTerminal? || a.FinishRetry? || a.SharedRefused? {
          assert Claimed(s, a.thread);
        }
      } else {
        assert a.ClaimLocal? && x == a.thread;
      }
      forall y | Claimed(s', y)
        ensures x == y
      {
        assert Claimed(s, y) || (a.ClaimLocal? && y == a.thread);
      }
    }
  }

  lemma {:induction false} AlwaysExclusive(cfg: Settings, t: Run, n: nat)
    requires IsRun(cfg, t) && AlwaysBeating(t) && n < |t.states|
    ensures Exclusive(t.states[n])
  {
    if n > 0 {
      AlwaysExclusive(cfg, t, n - 1);
      assert StepAt(cfg, t, n - 1) && Beating(t.states[n - 1], t.actions[n - 1]);
      ExclusiveStep(cfg, t.states[n - 1], t.actions[n - 1]);
    }
  }

  /** However often the run is dispatched, at most one execution is in progress. */
  lemma AtMostOneExecution(cfg: Settings, t: Run, n: nat, x: nat, y: nat)
    requires IsRun(cfg, t) && AlwaysBeating(t) && n < |t.states|
    requires InPhase(t.states[n], x, true) && InPhase(t.states[n], y, true)
    ensures x == y
  {
    AlwaysExclusive(cfg, t, n);
    assert Claimed(t.states[n], x) && Claimed(t.states[n], y);
  }

  ghost predicate TerminalAt(t: Run, n: nat)
    requires n < |t.states|
  {
    t.states[n].row.Some? && LocalTerminal(t.states[n].row.value.status)
  }

  /** Terminal states are absorbing: the whole row is frozen. */
  lemma {:induction false} TerminalAbsorbs(cfg: Settings, t: Run, i: nat, j: nat)
    requires IsRun(cfg, t) && AlwaysBeating(t) && i <= j < |t.states| && TerminalAt(t, i)
    ensures t.states[j].row == t.states[i].row
    decreases j
  {
    if i < j {
      TerminalAbsorbs(cfg, t, i, j - 1);
      AlwaysExclusive(cfg, t, j - 1);
      assert StepAt(cfg, t, j - 1);
      var s := t.states[j - 1];
      assert forall x :: x in s.threads ==> !Claimed(s, x);
    }
  }

  /** A run whose cancel update took effect never starts again. */
  lemma CancelledNeverStarts(cfg: Settings, t: Run, i: nat, j: nat)
    requires IsRun(cfg, t) && AlwaysBeating(t) && i < j < |t.actions|
    requires t.actions[i].CancelRun? && t.states[i].row.Some? && Cancellable(t.states[i].row.value)
    ensures t.states[j].row.Some? && t.states[j].row.value.status == Cancelled
    ensures t.actions[j].ClaimLocal? ==> t.actions[j].thread !in t.states[j + 1].threads
  {
    assert StepAt(cfg, t, i) && StepAt(cfg, t, j);
    TerminalAbsorbs(cfg, t, i + 1, j);
  }

  /**
   * The heartbeat assumption is needed: once a lease runs out, recovery requeues the run, a cancel
   * takes effect, and the stale worker's unguarded retry update revives the cancelled run.
   */
  lemma StaleRetryRevivesCancelled() returns (cfg: Settings, t: Run)
    ensures IsRun(cfg, t) && !AlwaysBeating(t)
    ensures exists i :: 0 <= i < |t.actions| && t.actions[i].CancelRun? && TerminalAt(t, i + 1)
    ensures t.states[|t.actions|].row.Some? && t.states[|t.actions|].row.value.status == Retrying
  {
    cfg := Settings(2, 1.0);
    t := RunningUntilOne(cfg);
    var s := t.states[4];
    assert Claimed(s, 0) && !HeartbeatHolds(s, 5.0);
    t := Extend(cfg, t, Recover(5.0));
    t := Extend(cfg, t, CancelRun);
    t := Extend(cfg, t, FinishRetry(0, "timeout", 6.0));
    assert !Beating(t.states[4], t.actions[4]);
    assert t.actions[5].CancelRun? && TerminalAt(t, 6);
  }

  /** With or without heartbeats, exactly a retry takes a terminal row out of its terminal statuses. */
  lemma TerminalSurvivesStepIff(cfg: Settings, s: State, a: Action)
    requires Enabled(cfg, s, a) && s.row.Some? && LocalTerminal(s.row.value.status)
    ensures Next(cfg, s, a).row.Some?
    ensures LocalTerminal(Next(cfg, s, a).row.value.status) <==> !a.FinishRetry?
  {
  }

  /** A terminal run stays terminal through actions i..j if and only if none of them is a retry. */
  lemma {:induction false} TerminalSurvivesIff(cfg: Settings, t: Run, i: nat, j: nat)
    requires IsRun(cfg, t) && i <= j < |t.states| && TerminalAt(t, i)
    ensures (forall k :: i <= k <= j ==> TerminalAt(t, k)) <==> (forall k :: i <= k < j ==> !t.actions[k].FinishRetry?)
    decreases j
  {
    if i < j {
      TerminalSurvivesIff(cfg, t, i, j - 1);
      assert StepAt(cfg, t, j - 1);
      if TerminalAt(t, j - 1) {
        TerminalSurvivesStepIff(cfg, t.states[j - 1], t.actions[j - 1]);
        assert TerminalAt(t, j) <==> !t.actions[j - 1].FinishRetry?;
      }
    }
  }

  /**
   * The actions that overwrite a cancelled row: any retry, and a terminal write with another status
   * by the worker whose token the row still carries.
   */
  predicate Overwrites(s: State, a: Action) {
    || a.FinishRetry?
    || (a.FinishTerminal? && a.thread in s.threads && s.threads[a.thread].Executing? && s.row.Some?
        && a.status != Cancelled && MayFinish(s.row.value, Some(s.threads[a.thread].token)))
  }

  lemma CancelledSurvivesStepIff(cfg: Settings, s: State, a: Action)
    requires Enabled(cfg, s, a) && s.row.Some? && s.row.value.status == Cancelled
    ensures Next(cfg, s, a).row.Some?
    ensures Next(cfg, s, a).row.value.status == Cancelled <==> !Overwrites(s, a)
  {
  }

  ghost predicate CancelledAt(t: Run, n: nat)
    requires n < |t.states|
  {
    t.states[n].row.Some? && t.states[n].row.value.status == Cancelled
  }

  /** A cancelled run stays cancelled through actions i..j if and only if none of them overwrites it. */
  lemma {:induction false} CancelledSurvivesIff(cfg: Settings, t: Run, i: nat, j: nat)
    requires IsRun(cfg, t) && i <= j < |t.states| && CancelledAt(t, i)
    ensures (forall k :: i <= k <= j ==> CancelledAt(t, k)) <==>
            (forall k :: i <= k < j ==> !Overwrites(t.states[k], t.actions[k]))
    decreases j
  {
    if i < j {
      CancelledSurvivesIff(cfg, t, i, j - 1);
      assert StepAt(cfg, t, j - 1);
      if CancelledAt(t, j - 1) {
        CancelledSurvivesStepIff(cfg, t.states[j - 1], t.actions[j - 1]);
        assert CancelledAt(t, j) <==> !Overwrites(t.states[j - 1], t.actions[j - 1]);
      }
    }
  }

  /** A run claimed at time 0 for one second and executing on thread 0. */
  lemma RunningUntilOne(cfg: Settings) returns (t: Run)
    requires cfg == Settings(2, 1.0)
    ensures IsRun(cfg, t) && |t.actions| == 4
    ensures t.states[4].threads == map[0 := Executing(0, 1)]
    ensures t.states[4].row == Some(ClaimedRow(NewRow("h", 0), 0.0, 1.0, 0))
  {
    t := Run([INITIAL], []);
    t := Extend(cfg, t, Submit("h", 0));
    t := Extend(cfg, t, Dispatch(0));
    t := Extend(cfg, t, ClaimLocal(0, 0.0));
    t := Extend(cfg, t, SharedGranted(0));
  }

  lemma Extend(cfg: Settings, t: Run, a: Action) returns (t': Run)
    requires IsRun(cfg, t) && Enabled(cfg, t.states[|t.actions|], a)
    ensures IsRun(cfg, t')
    ensures t'.actions == t.actions + [a]
    ensures t'.states == t.states + [Next(cfg, t.states[|t.actions|], a)]
  {
    t' := Run(t.states + [Next(cfg, t.states[|t.actions|], a)], t.actions + [a]);
    forall i | 0 <= i < |t'.actions| ensures StepAt(cfg, t', i) {
      if i < |t.actions| { assert StepAt(cfg, t, i); }
    }
  }
}
