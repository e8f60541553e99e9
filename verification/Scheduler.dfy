/**
 * The scheduler on top of its own database and, when one is attached, the shared control plane:
 * claiming on both, and finishing on the shared side before the local one.
 */
module Scheduler {
  import opened Options
  import opened LeaseStore
  import opened RunQueue
  import Fleet

  /** How an execution ended. */
  datatype Ending =
    | Returned(status: Status, retryable: bool, error: string, skillResult: Option<string>)
    | CancelRequested(message: string)
    | Raised(error: string, retryable: bool)

  /** What the worker does about it. */
  datatype Verdict =
    | Retry(reason: string)
    | Finish(status: Status, error: Option<string>, deadLetter: bool, skillResult: Option<string>)

  function FailureMessage(error: string): string {
    Truncated(if error == "" then "scheduler execution failed" else error)
  }

  function OnFailure(error: string, retryable: bool, attempt: nat, maxAttempts: nat): Verdict {
    if retryable && attempt < maxAttempts then Retry(error) else Finish(Failed, Some(error), retryable, None)
  }

  /** The decision at the end of `_worker`. */
  function Judge(e: Ending, attempt: nat, maxAttempts: nat): Verdict {
    match e
    case Returned(status, retryable, error, skillResult) =>
      if status == Failed && retryable then
        OnFailure(Truncated("RetryableSchedulerError: " + FailureMessage(error)), true, attempt, maxAttempts)
      else
        Finish(if LocalTerminal(status) then status else Completed,
               if status == Failed then Some(FailureMessage(error)) else None, false, skillResult)
    case CancelRequested(message) => Finish(Cancelled, Some(Truncated(message)), false, None)
    case Raised(error, retryable) => OnFailure(Truncated(error), retryable, attempt, maxAttempts)
  }

  /**
   * Every verdict but a retry carries the status of the ending, or 'completed' for one that is not
   * terminal; a retry only happens below the attempt limit, and the dead letter holds exactly the
   * retryable failures that ran out of attempts.
   */
  lemma JudgeFacts(e: Ending, attempt: nat, maxAttempts: nat)
    ensures var v := Judge(e, attempt, maxAttempts);
      && (v.Retry? ==> attempt < maxAttempts)
      && (v.Finish? && e.Returned? ==>
            && v.status == (if e.status in {Succeeded, Partial, Failed, Cancelled, Completed, Pending} then e.status
                            else Completed)
            && (v.skillResult == e.skillResult || (e.status == Failed && e.retryable && v.skillResult == None)))
      && (v.Finish? && e.CancelRequested? ==> v.status == Cancelled)
      && (v.Finish? && e.Raised? ==> v.status == Failed)
      && (v.Finish? ==> (v.error.Some? <==> v.status == Failed || e.CancelRequested?))
      && (v.Finish? && v.deadLetter <==>
          attempt >= maxAttempts &&
          ((e.Raised? && e.retryable) || (e.Returned? && e.status == Failed && e.retryable)))
  {
  }

  /** A lease lasts at least a millisecond. */
  type LeaseSeconds = s: real | s > 0.0 witness 1.0

  class LocalRunScheduler {
    const db: RunDatabase
    const control: RedisControlPlane?
    const owner: string
    const leaseSeconds: LeaseSeconds
    const maxAttempts: nat
    /** Encodes error, dead-letter flag and skill result into the shared result. */
    const encode: (Option<string>, bool, Option<string>) -> string

    constructor (db: RunDatabase, control: RedisControlPlane?, owner: string, leaseSeconds: LeaseSeconds,
                 maxAttempts: nat, encode: (Option<string>, bool, Option<string>) -> string)
      ensures this.db == db && this.control == control
    {
      this.db, this.control, this.owner := db, control, owner;
      this.leaseSeconds, this.maxAttempts, this.encode := leaseSeconds, maxAttempts, encode;
    }

    /**
     * `_claim` and `_claim_shared`. When the shared lease is refused the local row goes back to
     * 'queued', but the attempt it was charged for stays counted.
     */
    method ClaimBoth(
      run: string, now: real, token: nat, message: string) returns (claimed: Option<Row>, lease: Option<LeaseToken>)
      requires db.Valid()
      modifies db, control
      ensures db.Valid()
      ensures claimed.Some? ==> run in old(db.rows) && Claimable(old(db.rows)[run], now)
      ensures control == null ==> (claimed.Some? <==> run in old(db.rows) && Claimable(old(db.rows)[run], now))
      ensures control != null ==>
        if run in old(db.rows) && Claimable(old(db.rows)[run], now) then
          var (shared, reply) := Apply(old(control.At(run)), Op.Claim(owner, leaseSeconds, now));
          && control.At(run) == shared && (claimed.Some? <==> reply.Claimed?)
          && (claimed.Some? ==> lease == Some(LeaseToken(owner, reply.token, reply.expiry)))
        else
          control.At(run) == old(control.At(run))
      ensures claimed.Some? ==>
        && claimed.value == ClaimedRow(old(db.rows)[run], now, leaseSeconds, token)
        && db.rows == old(db.rows)[run := claimed.value]
        && (control != null ==>
              lease.Some? && control.At(run).hash.Some? && Holds(control.At(run).hash.value, lease.value))
      ensures claimed.None? && run in old(db.rows) && Claimable(old(db.rows)[run], now) ==>
        db.rows == old(db.rows)[run := RequeuedRow(ClaimedRow(old(db.rows)[run], now, leaseSeconds, token))]
      ensures run in old(db.rows) && Claimable(old(db.rows)[run], now) ==>
        db.logs == old(db.logs)[run := Logged(old(db.LogOf(run)), "started", Running, message)]
      ensures claimed.None? && !(run in old(db.rows) && Claimable(old(db.rows)[run], now)) ==>
        db.rows == old(db.rows) && db.logs == old(db.logs)
      ensures control != null ==> forall k :: k != run ==> control.At(k) == old(control.At(k))
    {
      lease := None;
      claimed := db.Claim(run, now, leaseSeconds, token, message);
      if claimed.None? { return; }
      if control != null {
        var reply := control.Claim(run, owner, leaseSeconds, now);
        if !reply.Claimed? {
          db.Requeue(run);
          claimed := None;
          return;
        }
        lease := Some(LeaseToken(owner, reply.token, reply.expiry));
      }
    }

    /**
     * `_set_terminal`: with a lease, nothing is written locally unless the shared transition won, and
     * then the shared status is the one written.
     */
    method SetTerminal(
      run: string, status: Status, error: Option<string>, deadLetter: bool, skillResult: Option<string>,
                     lease: Option<LeaseToken>, token: Option<nat>, now: real) returns (written: bool)
      requires db.Valid()
      modifies db, control
      ensures db.Valid()
      ensures control == null || lease.None? ==> written
      ensures control != null && lease.Some? ==>
        (control.At(run), if written then Done else Stale) ==
        Apply(old(control.At(run)), Op.Transition(lease.value, status, encode(error, deadLetter, skillResult), now))
      ensures control != null && lease.None? ==> control.At(run) == old(control.At(run))
      ensures control != null ==> forall k :: k != run ==> control.At(k) == old(control.At(k))
      ensures !written ==> db.rows == old(db.rows) && db.logs == old(db.logs)
      ensures written ==> db.rows == RowsFinished(old(db.rows), run, status, error, deadLetter, skillResult, token)
      ensures written && control != null && lease.Some? ==> Fleet.SharedStatusIs(control.At(run), status)
    {
      if control != null && lease.Some? {
        var reply := control.Transition(run, lease.value, status, encode(error, deadLetter, skillResult), now);
        if !reply.Done? { return false; }
      }
      db.SetTerminal(run, status, error, deadLetter, skillResult, token);
      written := true;
    }

    /** `_schedule_retry`: the shared retry first; a lost lease leaves the local row alone. */
    method ScheduleRetry(
      run: string, error: string, retryAt: real, lease: Option<LeaseToken>, now: real) returns (written: bool)
      requires db.Valid()
      modifies db, control
      ensures db.Valid()
      ensures control == null || lease.None? ==> written
      ensures control != null && lease.Some? ==>
        (control.At(run), if written then Done else Stale) ==
        Apply(old(control.At(run)), Op.ScheduleRetry(lease.value, retryAt, error, now))
      ensures control != null && lease.None? ==> control.At(run) == old(control.At(run))
      ensures control != null ==> forall k :: k != run ==> control.At(k) == old(control.At(k))
      ensures !written ==> db.rows == old(db.rows) && db.logs == old(db.logs)
      ensures written ==> db.rows == RowsRetried(old(db.rows), run, error, retryAt)
    {
      if control != null && lease.Some? {
        var reply := control.ScheduleRetry(run, lease.value, retryAt, error, now);
        if !reply.Done? { return false; }
      }
      db.ScheduleRetry(run, error, retryAt);
      written := true;
    }

    /** The end of `_worker`: one verdict carried out, or nothing once the lease is known to be lost. */
    method Conclude(
      run: string, row: Row, ending: Ending, leaseLost: bool, lease: Option<LeaseToken>, retryAt: real, now: real)
      returns (written: bool)
      requires db.Valid()
      modifies db, control
      ensures db.Valid()
      ensures leaseLost ==> !written
      ensures !written ==> db.rows == old(db.rows) && db.logs == old(db.logs)
      ensures written ==>
        db.rows == match Judge(ending, row.attempt, maxAttempts)
                   case Retry(error) => RowsRetried(old(db.rows), run, error, retryAt)
                   case Finish(status, error, deadLetter, skillResult) =>
                     RowsFinished(old(db.rows), run, status, error, deadLetter, skillResult, row.leaseToken)
      ensures written && control != null && lease.Some? ==>
        old(control.At(run)).hash.Some? && Holds(old(control.At(run)).hash.value, lease.value)
      ensures written && control != null && lease.Some? && Judge(ending, row.attempt, maxAttempts).Finish? ==>
        Fleet.SharedStatusIs(control.At(run), Judge(ending, row.attempt, maxAttempts).status)
      // a retryable failure with attempts left is retried, and the row says so, whatever token it carries
      ensures written ==>
        var retryable := match ending
                         case Returned(status, again, _, _) => status == Failed && again
                         case CancelRequested(_) => false
                         case Raised(_, again) => again;
        var failure := match ending
                       case Returned(_, again, error, _) =>
                         var text := Truncated(if error == "" then "scheduler execution failed" else error);
                         if again then Truncated("RetryableSchedulerError: " + text) else text
                       case CancelRequested(message) => Truncated(message)
                       case Raised(error, _) => Truncated(error);
        var status := match ending
                      case Returned(status, _, _, _) =>
                        if status in {Succeeded, Partial, Failed, Cancelled, Completed, Pending} then status
                        else Completed
                      case CancelRequested(_) => Cancelled
                      case Raised(_, _) => Failed;
        var error := if ending.Returned? && status != Failed then None else Some(failure);
        var skill := if ending.Returned? && !retryable then ending.skillResult else None;
        if retryable && row.attempt < maxAttempts then
          && (run in old(db.rows) ==>
                var before := old(db.rows)[run];
                && db.rows[run] ==
                   before.(status := Retrying, error := error, retryAt := Some(retryAt), leaseUntil := None))
          && (control != null && lease.Some? ==>
                && control.At(run).hash.Some?
                && var h := control.At(run).hash.value;
                   h.status == Retrying && h.retryAt == Some(retryAt) && h.error == error && h.owner == Some(""))
        else
          && (run in old(db.rows) ==>
                var before := old(db.rows)[run];
                if before.leaseToken.None? || before.leaseToken == row.leaseToken then
                  db.rows[run] == before.(status := status, error := error, leaseUntil := None, retryAt := None,
                                          deadLetter := retryable, skillResult := skill)
                else db.rows[run] == before)
          && (control != null && lease.Some? ==>
                && control.At(run).hash.Some?
                && var h := control.At(run).hash.value;
                   h.status == status && h.result == Some(encode(error, retryable, skill)) && h.owner == Some(""))
      ensures written && run in old(db.rows) && old(db.rows)[run].leaseToken == row.leaseToken ==>
        var retryable := match ending
                         case Returned(status, again, _, _) => status == Failed && again
                         case CancelRequested(_) => false
                         case Raised(_, again) => again;
        (db.rows[run].status == Retrying <==> retryable && row.attempt < maxAttempts)
      ensures forall other :: other != run ==> (other in db.rows <==> other in old(db.rows))
      ensures forall other :: other != run && other in db.rows ==> db.rows[other] == old(db.rows)[other]
      ensures run in db.rows <==> run in old(db.rows)
    {
      if leaseLost { return false; }
      match Judge(ending, row.attempt, maxAttempts)
      case Retry(error) => written := ScheduleRetry(run, error, retryAt, lease, now);
      case Finish(status, error, deadLetter, skillResult) =>
        written := SetTerminal(run, status, error, deadLetter, skillResult, lease, row.leaseToken, now);
    }
  }

  function RowsFinished(rows: map<string, Row>, run: string, status: Status, error: Option<string>, deadLetter: bool,
                        skillResult: Option<string>, token: Option<nat>): map<string, Row>
  {
    if run in rows then rows[run := FinishedRow(rows[run], status, error, deadLetter, skillResult, token)] else rows
  }

  function RowsRetried(rows: map<string, Row>, run: string, error: string, retryAt: real): map<string, Row> {
    if run in rows then rows[run := RetryingRow(rows[run], error, retryAt)] else rows
  }

  /**
   * The two fleet steps of a finishing thread, with nothing in between, do to the shared resource and
   * to the worker's row exactly what `SetTerminal` does.
   */
  lemma FinishIsTwoFleetSteps(s: Fleet.State, thread: nat, status: Status, result: string, now: real,
                              error: Option<string>, deadLetter: bool, skillResult: Option<string>)
    requires thread in s.threads && s.threads[thread].phase.Holding? && s.threads[thread].worker in s.rows
    ensures var t := s.threads[thread];
      var (r, reply) := Apply(s.shared, Op.Transition(t.phase.lease, status, result, now));
      var won := Fleet.Next(s, Fleet.WinTransition(thread, status, result, now, error, deadLetter, skillResult));
      && won.shared == r && won.rows == s.rows
      && (reply.Done? <==> Fleet.Enabled(won, Fleet.WriteLocal(thread)))
      && (reply.Done? ==>
          var after := Fleet.Next(won, Fleet.WriteLocal(thread));
          && after.shared == r
          && after.rows == s.rows[t.worker := FinishedRow(s.rows[t.worker],
            status, error, deadLetter, skillResult, Some(t.token))])
  {
  }
}
