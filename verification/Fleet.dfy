/**
 * Any number of schedulers, each with its own database, sharing one control plane: all of them
 * agree on a run's outcome.
 *
 * The state is for one run. A worker thread that finishes first wins the fenced shared transition
 * and only then, in a later step, writes its own database. In between anything may happen:
 * other shared calls, other statements on the local row, crashes.
 */
module Fleet {
  import opened Options
  import opened LeaseStore
  import opened RunQueue

  datatype Phase =
    | LocallyClaimed                                    // local row claimed, shared claim not tried yet
    | Holding(lease: LeaseToken)                        // shared lease held, executing
    | Won(status: Status, error: Option<string>, deadLetter: bool, skillResult: Option<string>)
                                                        // shared transition won, local row not written yet

  datatype Thread = Thread(worker: nat, token: nat, phase: Phase)

  /** A terminal write of `_set_terminal` that changed a local row. */
  datatype Outcome = Outcome(worker: nat, status: Status)

  datatype State = State(
    shared: Resource,
    rows: map<nat, Row>,
    threads: map<nat, Thread>,
    outcomes: seq<Outcome>)

  const INITIAL := State(NO_RESOURCE, map[], map[], [])

  /** The other statements schedulers run on their local row. */
  datatype Statement =
    | Insert(requestHash: string, attempt: nat)
    | RequeueRow
    | RenewRow(now: real, leaseSeconds: real)
    | RetryRow(error: string, retryAt: real)
    | ReleaseRow
    | CancelRow
    | RecoverRow(now: real)

  function Executed(row: Row, s: Statement): Row {
    match s
    case Insert(_, _) => row
    case RequeueRow => RequeuedRow(row)
    case RenewRow(now, leaseSeconds) => RenewedRow(row, now, leaseSeconds)
    case RetryRow(error, retryAt) => RetryingRow(row, error, retryAt)
    case ReleaseRow => ReleasedRow(row)
    case CancelRow => CancelledRow(row)
    case RecoverRow(now) => RecoveredRow(row, now)
  }

  datatype Action =
    | Shared(op: Op)                                    // a control-plane call by anybody
    | Local(worker: nat, statement: Statement)
    | ClaimLocal(thread: nat, worker: nat, token: nat, now: real, leaseSeconds: real)
    | ClaimShared(thread: nat, owner: string, now: real, leaseSeconds: real)
    | WinTransition(thread: nat, status: Status, result: string, now: real,
                    error: Option<string>, deadLetter: bool, skillResult: Option<string>)
    | EndWithRetry(thread: nat, retryAt: real, failure: string, now: real)
                                                        // shared retry by a finished execution; RetryRow follows it
    | WriteLocal(thread: nat)
    | Crash(thread: nat)

  predicate Enabled(s: State, a: Action) {
    match a
    case Shared(_) => true
    case Local(_, _) => true
    case ClaimLocal(thread, worker, _, now, _) =>
      thread !in s.threads && worker in s.rows && Claimable(s.rows[worker], now)
    case ClaimShared(thread, _, _, _) => thread in s.threads && s.threads[thread].phase.LocallyClaimed?
    case WinTransition(thread, _, _, _, _, _, _) => thread in s.threads && s.threads[thread].phase.Holding?
    case EndWithRetry(thread, _, _, _) => thread in s.threads && s.threads[thread].phase.Holding?
    case WriteLocal(thread) => thread in s.threads && s.threads[thread].phase.Won?
    case Crash(thread) => thread in s.threads
  }

  function Next(s: State, a: Action): State
    requires Enabled(s, a)
  {
    match a
    case Shared(op) => s.(shared := Apply(s.shared, op).0)
    case Local(worker, statement) =>
      if worker in s.rows then s.(rows := s.rows[worker := Executed(s.rows[worker], statement)])
      else if statement.Insert? then s.(rows := s.rows[worker := NewRow(statement.requestHash, statement.attempt)])
      else s
    case ClaimLocal(thread, worker, token, now, leaseSeconds) =>
      s.(rows := s.rows[worker := ClaimedRow(s.rows[worker], now, leaseSeconds, token)],
         threads := s.threads[thread := Thread(worker, token, LocallyClaimed)])
    case ClaimShared(thread, owner, now, leaseSeconds) =>
      var t := s.threads[thread];
      var (r, reply) := Apply(s.shared, Op.Claim(owner, leaseSeconds, now));
      if reply.Claimed? then
        var lease := LeaseToken(owner, reply.token, reply.expiry);
        s.(shared := r, threads := s.threads[thread := t.(phase := Holding(lease))])
      else
        s.(shared := r, threads := s.threads - {thread},
           rows := if t.worker in s.rows then s.rows[t.worker := RequeuedRow(s.rows[t.worker])] else s.rows)
    case WinTransition(thread, status, result, now, error, deadLetter, skillResult) =>
      var t := s.threads[thread];
      var (r, reply) := Apply(s.shared, Op.Transition(t.phase.lease, status, result, now));
      if reply.Done? then
        s.(shared := r, threads := s.threads[thread := t.(phase := Won(status, error, deadLetter, skillResult))])
      else
        s.(shared := r, threads := s.threads - {thread})
    case EndWithRetry(thread, retryAt, failure, now) =>
      var (r, _) := Apply(s.shared, Op.ScheduleRetry(s.threads[thread].phase.lease, retryAt, failure, now));
      s.(shared := r, threads := s.threads - {thread})
    case WriteLocal(thread) =>
      var t := s.threads[thread];
      var w := t.phase;
      if t.worker in s.rows && MayFinish(s.rows[t.worker], Some(t.token)) then
        s.(rows := s.rows[t.worker :=
             FinishedRow(s.rows[t.worker], w.status, w.error, w.deadLetter, w.skillResult, Some(t.token))],
           outcomes := s.outcomes + [Outcome(t.worker, w.status)],
           threads := s.threads - {thread})
      else
        s.(threads := s.threads - {thread})
    case Crash(thread) => s.(threads := s.threads - {thread})
  }

  datatype Run = Run(states: seq<State>, actions: seq<Action>)

  ghost predicate StepAt(t: Run, i: nat)
    requires i < |t.actions| && i + 1 < |t.states|
  {
    Enabled(t.states[i], t.actions[i]) && t.states[i + 1] == Next(t.states[i], t.actions[i])
  }

  ghost predicate IsRun(t: Run) {
    && |t.states| == |t.actions| + 1 && t.states[0] == INITIAL
    && forall i :: 0 <= i < |t.actions| ==> StepAt(t, i)
  }

  lemma Extend(t: Run, a: Action) returns (t': Run)
    requires IsRun(t) && Enabled(t.states[|t.actions|], a)
    ensures IsRun(t')
    ensures t'.actions == t.actions + [a]
    ensures t'.states == t.states + [Next(t.states[|t.actions|], a)]
  {
    t' := Run(t.states + [Next(t.states[|t.actions|], a)], t.actions + [a]);
    forall i | 0 <= i < |t'.actions| ensures StepAt(t', i) {
      if i < |t.actions| { assert StepAt(t, i); }
    }
  }

  predicate SharedStatusIs(r: Resource, status: Status) {
    r.hash.Some? && r.hash.value.status == status
  }

  /** Every shared-terminal status won or written anywhere is the shared status. */
  ghost predicate Agrees(s: State) {
    && (forall x :: x in s.threads && s.threads[x].phase.Won? && SharedTerminal(s.threads[x].phase.status) ==>
          SharedStatusIs(s.shared, s.threads[x].phase.status))
    && (forall k :: 0 <= k < |s.outcomes| && SharedTerminal(s.outcomes[k].status) ==>
          SharedStatusIs(s.shared, s.outcomes[k].status))
  }

  lemma AgreesStep(s: State, a: Action)
    requires Agrees(s) && Enabled(s, a)
    ensures Agrees(Next(s, a))
  {
  }

  lemma {:induction false} AlwaysAgrees(t: Run, n: nat)
    requires IsRun(t) && n < |t.states|
    ensures Agrees(t.states[n])
  {
    if n > 0 {
      AlwaysAgrees(t, n - 1);
      assert StepAt(t, n - 1);
      AgreesStep(t.states[n - 1], t.actions[n - 1]);
    }
  }

  lemma {:induction false} OutcomesStay(t: Run, i: nat, j: nat)
    requires IsRun(t) && i <= j < |t.states|
    ensures t.states[i].outcomes <= t.states[j].outcomes
    decreases j
  {
    if i < j {
      OutcomesStay(t, i, j - 1);
      assert StepAt(t, j - 1);
    }
  }
}
