/**
 * The scheduler's database: one row per run in `run_queue` and the append-only `run_queue_events`.
 *
 * Each SQL statement (or BEGIN IMMEDIATE block) is atomic. The functions say what a statement does
 * to one row; the class keeps the two tables and runs the statements on them.
 */
module RunQueue {
  import opened Options
  import opened LeaseStore

  /** The columns of `run_queue` that the scheduler's decisions read or write. */
  datatype Row = Row(
    requestHash: string,
    status: Status,
    attempt: nat,
    error: Option<string>,
    leaseUntil: Option<real>,
    retryAt: Option<real>,
    deadLetter: bool,
    skillResult: Option<string>,
    leaseToken: Option<nat>)

  /** TERMINAL_STATES of the scheduler: the shared five plus 'pending'. */
  predicate LocalTerminal(s: Status) {
    SharedTerminal(s) || s == Pending
  }

  function NewRow(requestHash: string, attempt: nat): Row {
    Row(requestHash, Queued, attempt, None, None, None, false, None, None)
  }

  /** The lease of a running row still protects it; SQL NULL and Python's falsy 0.0 do not. */
  predicate LeaseLive(row: Row, now: real) {
    row.leaseUntil.Some? && row.leaseUntil.value != 0.0 && row.leaseUntil.value >= now
  }

  predicate Claimable(row: Row, now: real) {
    row.status == Queued || (row.status == Running && !LeaseLive(row, now))
  }

  function ClaimedRow(row: Row, now: real, leaseSeconds: real, token: nat): Row {
    row.(status := Running, attempt := row.attempt + 1,
         leaseUntil := Some(now + leaseSeconds), leaseToken := Some(token))
  }

  /** `_requeue_local_claim`. */
  function RequeuedRow(row: Row): Row {
    if row.status == Running then row.(status := Queued, leaseUntil := None) else row
  }

  /** `_renew_lease`. */
  function RenewedRow(row: Row, now: real, leaseSeconds: real): Row {
    if row.status == Running then row.(leaseUntil := Some(now + leaseSeconds)) else row
  }

  /** The guarded UPDATE of `_set_terminal`: only the token that claimed the row may finish it. */
  predicate MayFinish(row: Row, token: Option<nat>) {
    row.leaseToken.None? || row.leaseToken == token
  }

  function FinishedRow(row: Row, status: Status, error: Option<string>, deadLetter: bool,
    skillResult: Option<string>, token: Option<nat>): Row
  {
    if MayFinish(row, token) then
      row.(status := status, error := error, leaseUntil := None, retryAt := None,
           deadLetter := deadLetter, skillResult := skillResult)
    else row
  }

  /** `_schedule_retry`: an UPDATE with no guard on status or token. */
  function RetryingRow(row: Row, error: string, retryAt: real): Row {
    row.(status := Retrying, error := Some(error), retryAt := Some(retryAt), leaseUntil := None)
  }

  /** `_release_retry`. */
  function ReleasedRow(row: Row): Row {
    if row.status == Retrying then row.(status := Queued, retryAt := None) else row
  }

  predicate Cancellable(row: Row) {
    row.status == Queued || row.status == Retrying
  }

  /** `cancel`. */
  function CancelledRow(row: Row): Row {
    if Cancellable(row) then row.(status := Cancelled, leaseUntil := None, retryAt := None) else row
  }

  /** `_recover_expired_leases`, both statements. */
  function RecoveredRow(row: Row, now: real): Row {
    var r := if row.status == Running && row.leaseUntil.Some? && row.leaseUntil.value < now
             then row.(status := Queued, leaseUntil := None) else row;
    if r.status == Retrying && (r.retryAt.None? || r.retryAt.value <= now)
    then r.(status := Queued, retryAt := None) else r
  }

  // ---------- the event log ----------

  const RETRY_MESSAGE := "Transient execution failure; retry scheduled."
  const REQUEUE_MESSAGE := "Retry backoff elapsed; job requeued."
  const CANCEL_MESSAGE := "Cancellation requested before worker execution."

  datatype LogEntry = LogEntry(sequence: nat, eventType: string, status: Status, message: string)

  /** COALESCE(MAX(sequence), 0). */
  function MaxSequence(log: seq<LogEntry>): nat {
    if log == [] then 0
    else
      var m := MaxSequence(log[..|log| - 1]);
      if log[|log| - 1].sequence > m then log[|log| - 1].sequence else m
  }

  function Logged(log: seq<LogEntry>, eventType: string, status: Status, message: string): seq<LogEntry> {
    log + [LogEntry(MaxSequence(log) + 1, eventType, status, Truncated(message))]
  }

  /** Sequence numbers are exactly 1..n, in order. */
  predicate Dense(log: seq<LogEntry>) {
    forall i :: 0 <= i < |log| ==> log[i].sequence == i + 1
  }

  lemma {:induction false} MaxOfDense(log: seq<LogEntry>)
    requires Dense(log)
    ensures MaxSequence(log) == |log|
  {
    if log != [] {
      assert Dense(log[..|log| - 1]);
      MaxOfDense(log[..|log| - 1]);
    }
  }

  /** Recording an event, from whichever thread, keeps the numbering 1..n. */
  lemma LoggedIsDense(log: seq<LogEntry>, eventType: string, status: Status, message: string)
    requires Dense(log)
    ensures Dense(Logged(log, eventType, status, message))
  {
    MaxOfDense(log);
  }

  /** The cursor query: rows with sequence > after, ordered by sequence. */
  function EventsAfter(log: seq<LogEntry>, after: int): seq<LogEntry> {
    if log == [] then []
    else
      var rest := EventsAfter(log[..|log| - 1], after);
      if log[|log| - 1].sequence > after then rest + [log[|log| - 1]] else rest
  }

  lemma {:induction false} CursorReadsSuffix(log: seq<LogEntry>, after: nat)
    requires Dense(log) && after <= |log|
    ensures EventsAfter(log, after) == log[after..]
    decreases log
  {
    if log != [] {
      var p := log[..|log| - 1];
      assert Dense(p);
      if after < |log| {
        CursorReadsSuffix(p, after);
        assert log[after..] == p[after..] + [log[|log| - 1]];
      } else {
        CursorReadsSuffix(p, |p|);
        CursorBeyond(p, after);
      }
    }
  }

  /** A cursor that is not positive reads everything. */
  lemma {:induction false} CursorReadsAll(log: seq<LogEntry>, after: int)
    requires Dense(log) && after <= 0
    ensures EventsAfter(log, after) == log
  {
    if log != [] {
      assert Dense(log[..|log| - 1]);
      CursorReadsAll(log[..|log| - 1], after);
      assert log == log[..|log| - 1] + [log[|log| - 1]];
    }
  }

  lemma {:induction false} CursorBeyond(log: seq<LogEntry>, after: nat)
    requires Dense(log) && |log| <= after
    ensures EventsAfter(log, after) == []
  {
    if log != [] {
      assert Dense(log[..|log| - 1]);
      CursorBeyond(log[..|log| - 1], after);
    }
  }

  /**
   * A client that polls with the last sequence number it has seen; logs[i] is the log at its i-th
   * poll. It returns everything delivered, in the order delivered.
   */
  function Polled(logs: seq<seq<LogEntry>>): seq<LogEntry> {
    if logs == [] then []
    else
      var seen := Polled(logs[..|logs| - 1]);
      var cursor := if seen == [] then 0 else seen[|seen| - 1].sequence;
      seen + EventsAfter(logs[|logs| - 1], cursor)
  }

  /** Cursor reads of a growing log deliver every event exactly once and in order. */
  lemma {:induction false} PollingDeliversOnce(logs: seq<seq<LogEntry>>)
    requires forall i :: 0 <= i < |logs| ==> Dense(logs[i])
    requires forall i, j :: 0 <= i <= j < |logs| ==> logs[i] <= logs[j]
    ensures Polled(logs) == if logs == [] then [] else logs[|logs| - 1]
  {
    if logs != [] {
      var n := |logs| - 1;
      PollingDeliversOnce(logs[..n]);
      var log := logs[n];
      if n == 0 {
        CursorReadsSuffix(log, 0);
      } else {
        var seen := logs[n - 1];
        assert seen <= log;
        CursorReadsSuffix(log, |seen|);
        assert log == seen + log[|seen|..];
      }
    }
  }

  // ---------- the tables ----------

  class RunDatabase {
    var rows: map<string, Row>
    var logs: map<string, seq<LogEntry>>

    ghost predicate Valid()
      reads this
    {
      forall run :: run in logs ==> Dense(logs[run])
    }

    ghost function LogOf(run: string): seq<LogEntry>
      reads this
    {
      if run in logs then logs[run] else []
    }

    constructor ()
      ensures Valid() && rows == map[] && logs == map[]
    {
      rows, logs := map[], map[];
    }

    /** `_record_event`. */
    method RecordEvent(run: string, eventType: string, status: Status, message: string)
      requires Valid()
      modifies this`logs
      ensures Valid()
      ensures logs == old(logs)[run := Logged(old(LogOf(run)), eventType, status, message)]
      ensures logs == old(logs)[run := old(LogOf(run)) + [
        LogEntry(|old(LogOf(run))| + 1, eventType, status, if |message| <= 2000 then message else message[..2000])]]
    {
      var log := if run in logs then logs[run] else [];
      LoggedIsDense(log, eventType, status, message);
      MaxOfDense(log);
      var sequence := MaxSequence(log) + 1;
      logs := logs[run := log + [LogEntry(sequence, eventType, status, Truncated(message))]];
    }

    /** `submit` and `_hydrate_shared` once admission has passed: insert the row unless it exists. */
    method Insert(
      run: string, requestHash: string, attempt: nat, message: string) returns (inserted: bool, conflict: bool)
      requires Valid()
      modifies this
      ensures Valid()
      ensures inserted <==> run !in old(rows)
      ensures conflict <==> run in old(rows) && old(rows)[run].requestHash != requestHash
      ensures inserted ==> rows == old(rows)[run := NewRow(requestHash, attempt)]
      ensures inserted ==>
        rows[run] == Row(requestHash, Queued, attempt, None, None, None, false, None, None)
      ensures inserted ==> logs == old(logs)[run := Logged(old(LogOf(run)), "admitted", Queued, message)]
      ensures !inserted ==> rows == old(rows) && logs == old(logs)
    {
      inserted, conflict := run !in rows, run in rows && rows[run].requestHash != requestHash;
      if inserted {
        rows := rows[run := NewRow(requestHash, attempt)];
        RecordEvent(run, "admitted", Queued, message);
      }
    }

    /** `_claim`: the claimed row, or None when the run may not start now. */
    method Claim(run: string, now: real, leaseSeconds: real, token: nat, message: string) returns (claimed: Option<Row>)
      requires Valid()
      modifies this
      ensures Valid()
      ensures claimed == if run in old(rows) && Claimable(old(rows)[run], now)
                         then Some(ClaimedRow(old(rows)[run], now, leaseSeconds, token)) else None
      ensures claimed.Some? <==>
        && run in old(rows)
        && var before := old(rows)[run];
           before.status == Queued ||
           (before.status == Running &&
            (before.leaseUntil.None? || before.leaseUntil.value == 0.0 || before.leaseUntil.value < now))
      ensures claimed.Some? ==>
        var before := old(rows)[run];
        claimed.value == before.(status := Running, attempt := before.attempt + 1,
                                 leaseUntil := Some(now + leaseSeconds), leaseToken := Some(token))
      ensures claimed.Some? ==> rows == old(rows)[run := claimed.value]
      ensures claimed.Some? ==> logs == old(logs)[run := Logged(old(LogOf(run)), "started", Running, message)]
      ensures claimed.None? ==> rows == old(rows) && logs == old(logs)
    {
      if run !in rows { return None; }
      var row := rows[run];
      if row.status != Queued && row.status != Running { return None; }
      if row.status == Running && LeaseLive(row, now) { return None; }
      row := row.(status := Running, attempt := row.attempt + 1);
      row := row.(leaseUntil := Some(now + leaseSeconds), leaseToken := Some(token));
      rows := rows[run := row];
      RecordEvent(run, "started", Running, message);
      claimed := Some(row);
    }

    /** `_requeue_local_claim`. */
    method Requeue(run: string)
      modifies this`rows
      ensures rows == if run in old(rows) then old(rows)[run := RequeuedRow(old(rows)[run])] else old(rows)
      ensures rows == if run in old(rows) && old(rows)[run].status == Running
                      then old(rows)[run := old(rows)[run].(status := Queued, leaseUntil := None)] else old(rows)
    {
      if run in rows && rows[run].status == Running {
        rows := rows[run := rows[run].(status := Queued, leaseUntil := None)];
      }
    }

    /** `_renew_lease`: false tells the heartbeat that the lease is lost. */
    method Renew(run: string, now: real, leaseSeconds: real) returns (renewed: bool)
      modifies this`rows
      ensures renewed <==> run in old(rows) && old(rows)[run].status == Running
      ensures renewed ==> rows == old(rows)[run := old(rows)[run].(leaseUntil := Some(now + leaseSeconds))]
      ensures !renewed ==> rows == old(rows)
      ensures rows == if run in old(rows) then old(rows)[run := RenewedRow(old(rows)[run], now, leaseSeconds)]
                      else old(rows)
    {
      renewed := run in rows && rows[run].status == Running;
      if renewed {
        rows := rows[run := rows[run].(leaseUntil := Some(now + leaseSeconds))];
      }
    }

    /** The local half of `_set_terminal`; the event is logged even when the UPDATE matches no row. */
    method SetTerminal(run: string, status: Status, error: Option<string>, deadLetter: bool,
      skillResult: Option<string>, token: Option<nat>)
      requires Valid()
      modifies this
      ensures Valid()
      ensures rows == if run in old(rows)
                      then old(rows)[run := FinishedRow(old(rows)[run], status, error, deadLetter, skillResult, token)]
                      else old(rows)
      ensures run in old(rows) ==>
        var before := old(rows)[run];
        rows[run] == if before.leaseToken.None? || before.leaseToken == token
                     then before.(status := status, error := error, leaseUntil := None, retryAt := None,
                                  deadLetter := deadLetter, skillResult := skillResult)
                     else before
      ensures logs == old(logs)[run := Logged(old(LogOf(run)), "completed", status,
                                              if error.Some? && error.value != "" then error.value
                                              else StatusText(status))]
    {
      if run in rows && (rows[run].leaseToken.None? || rows[run].leaseToken == token) {
        var row := rows[run].(status := status, error := error, leaseUntil := None);
        row := row.(retryAt := None, deadLetter := deadLetter, skillResult := skillResult);
        rows := rows[run := row];
      }
      RecordEvent(run, "completed", status,
                  if error.Some? && error.value != "" then error.value else StatusText(status));
    }

    /** The local half of `_schedule_retry`. */
    method ScheduleRetry(run: string, error: string, retryAt: real)
      requires Valid()
      modifies this
      ensures Valid()
      ensures rows == if run in old(rows) then old(rows)[run := RetryingRow(old(rows)[run], error, retryAt)]
                      else old(rows)
      ensures run in old(rows) ==>
        rows[run] == old(rows)[run].(status := Retrying, error := Some(error), retryAt := Some(retryAt),
                                     leaseUntil := None)
      ensures logs == old(logs)[run := Logged(old(LogOf(run)), "retrying", Retrying, RETRY_MESSAGE)]
    {
      if run in rows {
        var row := rows[run].(status := Retrying, error := Some(error), retryAt := Some(retryAt));
        rows := rows[run := row.(leaseUntil := None)];
      }
      RecordEvent(run, "retrying", Retrying, RETRY_MESSAGE);
    }

    /** `_release_retry`: true when the run was requeued and must be dispatched again. */
    method ReleaseRetry(run: string) returns (requeued: bool)
      requires Valid()
      modifies this
      ensures Valid()
      ensures requeued <==> run in old(rows) && old(rows)[run].status == Retrying
      ensures rows == if run in old(rows) then old(rows)[run := ReleasedRow(old(rows)[run])] else old(rows)
      ensures rows == if requeued then old(rows)[run := old(rows)[run].(status := Queued, retryAt := None)]
                      else old(rows)
      ensures logs == if requeued then old(logs)[run := Logged(old(LogOf(run)), "requeued", Queued, REQUEUE_MESSAGE)]
                      else old(logs)
    {
      requeued := run in rows && rows[run].status == Retrying;
      if requeued {
        rows := rows[run := rows[run].(status := Queued, retryAt := None)];
        RecordEvent(run, "requeued", Queued, REQUEUE_MESSAGE);
      }
    }

    /** `cancel`: true when the UPDATE took effect. */
    method Cancel(run: string) returns (cancelled: bool)
      requires Valid()
      modifies this
      ensures Valid()
      ensures cancelled <==> run in old(rows) && old(rows)[run].status in {Queued, Retrying}
      ensures rows ==
        if cancelled then old(rows)[run := old(rows)[run].(status := Cancelled, leaseUntil := None, retryAt := None)]
        else old(rows)
      ensures rows == if run in old(rows) then old(rows)[run := CancelledRow(old(rows)[run])] else old(rows)
      ensures logs == if cancelled
                      then old(logs)[run := Logged(old(LogOf(run)), "cancelled", Cancelled, CANCEL_MESSAGE)]
                      else old(logs)
    {
      cancelled := run in rows && (rows[run].status == Queued || rows[run].status == Retrying);
      if cancelled {
        rows := rows[run := rows[run].(status := Cancelled, leaseUntil := None, retryAt := None)];
        RecordEvent(run, "cancelled", Cancelled, CANCEL_MESSAGE);
      }
    }

    /** `_recover_expired_leases`: two UPDATEs over the whole table. */
    method RecoverExpiredLeases(now: real)
      modifies this`rows
      ensures rows.Keys == old(rows).Keys
      ensures forall run :: run in rows ==> rows[run] == RecoveredRow(old(rows)[run], now)
      ensures forall run :: run in rows ==>
        var before := old(rows)[run];
        rows[run] ==
          if before.status == Running && before.leaseUntil.Some? && before.leaseUntil.value < now
          then before.(status := Queued, leaseUntil := None)
          else if before.status == Retrying && (before.retryAt.None? || before.retryAt.value <= now)
          then before.(status := Queued, retryAt := None)
          else before
    {
      rows := map run | run in rows ::
        if rows[run].status == Running && rows[run].leaseUntil.Some? && rows[run].leaseUntil.value < now
        then rows[run].(status := Queued, leaseUntil := None) else rows[run];
      rows := map run | run in rows ::
        if rows[run].status == Retrying && (rows[run].retryAt.None? || rows[run].retryAt.value <= now)
        then rows[run].(status := Queued, retryAt := None) else rows[run];
    }

    /** `events`. */
    method Events(run: string, afterSequence: int) returns (events: seq<LogEntry>)
      requires Valid()
      ensures events == EventsAfter(LogOf(run), afterSequence)
      ensures events == var log := LogOf(run);
        if afterSequence <= 0 then log else if afterSequence <= |log| then log[afterSequence..] else []
    {
      var log := if run in logs then logs[run] else [];
      events := Select(log, afterSequence);
      if afterSequence <= 0 {
        CursorReadsAll(log, afterSequence);
      } else if afterSequence <= |log| {
        CursorReadsSuffix(log, afterSequence);
      } else {
        CursorBeyond(log, afterSequence);
      }
    }

    /** The rows of one log with a sequence above the cursor, in order. */
    method Select(log: seq<LogEntry>, afterSequence: int) returns (events: seq<LogEntry>)
      ensures events == EventsAfter(log, afterSequence)
    {
      events := [];
      var i := 0;
      while i < |log|
        invariant 0 <= i <= |log|
        invariant events == EventsAfter(log[..i], afterSequence)
      {
        assert log[..i + 1][..i] == log[..i];
        if log[i].sequence > afterSequence { events := events + [log[i]]; }
        i := i + 1;
      }
      assert log[..|log|] == log;
    }
  }
}
