/**
 * What a resource holds and answers, read off the calls made so far and the answers given, without
 * the scripts.
 */
module LeaseRecord {
  import opened Options
  import opened LeaseStore
  import opened LeaseHistory

  /** The calls and answers of a run; the functions below never look at its states. */
  predicate Called(t: Run, n: nat) {
    n <= |t.ops| == |t.replies|
  }

  /** The first admission: request hash, payload and time. */
  function AdmissionOf(t: Run, n: nat): Option<(string, string, real)>
    requires Called(t, n)
  {
    if n == 0 then None
    else if t.replies[n - 1].Created? && t.ops[n - 1].Admit? then
      Some((t.ops[n - 1].requestHash, t.ops[n - 1].payload, t.ops[n - 1].now))
    else AdmissionOf(t, n - 1)
  }

  /** Queued at admission, running after a claim, then what the last outcome says. */
  function StatusOf(t: Run, n: nat): Status
    requires Called(t, n)
  {
    if n == 0 || t.replies[n - 1].Created? then Queued
    else if t.replies[n - 1].Claimed? then Running
    else if t.replies[n - 1].Done? then (if t.ops[n - 1].Transition? then t.ops[n - 1].status else Retrying)
    else StatusOf(t, n - 1)
  }

  /** The result of the last transition that took effect. */
  function ResultOf(t: Run, n: nat): Option<string>
    requires Called(t, n)
  {
    if n == 0 then None
    else if t.replies[n - 1].Done? && t.ops[n - 1].Transition? then Some(t.ops[n - 1].result)
    else ResultOf(t, n - 1)
  }

  /** The last retry that took effect: its error and its time. */
  function RetryOf(t: Run, n: nat): Option<(string, real)>
    requires Called(t, n)
  {
    if n == 0 then None
    else if t.replies[n - 1].Done? && t.ops[n - 1].ScheduleRetry? then Some((t.ops[n - 1].error, t.ops[n - 1].retryAt))
    else RetryOf(t, n - 1)
  }

  /** The last claimant; nobody, as the empty name, once it recorded an outcome. */
  function OwnerOf(t: Run, n: nat): Option<string>
    requires Called(t, n)
  {
    if n == 0 then None
    else if t.replies[n - 1].Claimed? && t.ops[n - 1].Claim? then Some(t.ops[n - 1].owner)
    else if t.replies[n - 1].Done? then Some("")
    else OwnerOf(t, n - 1)
  }

  /** The last expiry handed out; zero once an outcome was recorded. */
  function LeaseOf(t: Run, n: nat): real
    requires Called(t, n)
  {
    if n == 0 || t.replies[n - 1].Done? then 0.0
    else if t.replies[n - 1].Claimed? then t.replies[n - 1].expiry
    else if t.replies[n - 1].Renewed? then t.replies[n - 1].expiry
    else LeaseOf(t, n - 1)
  }

  /** How often the resource was claimed. */
  function ClaimsOf(t: Run, n: nat): nat
    requires Called(t, n)
  {
    if n == 0 then 0 else ClaimsOf(t, n - 1) + if t.replies[n - 1].Claimed? then 1 else 0
  }

  /** Whether an answer says that something was written. */
  predicate Wrote(reply: Reply) {
    reply.Created? || reply.Claimed? || reply.Renewed? || reply.Done?
  }

  function UpdatedOf(t: Run, n: nat): real
    requires Called(t, n)
  {
    if n == 0 then 0.0 else if Wrote(t.replies[n - 1]) then t.ops[n - 1].now else UpdatedOf(t, n - 1)
  }

  /** One event for each admission, claim and outcome. */
  function EventsOf(t: Run, n: nat): seq<Event>
    requires Called(t, n)
  {
    if n == 0 then []
    else
      var before := EventsOf(t, n - 1);
      match t.replies[n - 1]
      case Created => before + [Event(Admitted, Queued, "admitted")]
      case Claimed(_, _) => before + [Event(Started, Running, "lease acquired")]
      case Done =>
        if t.ops[n - 1].Transition? then
          before + [Event(Finished, t.ops[n - 1].status, StatusText(t.ops[n - 1].status))]
        else if t.ops[n - 1].ScheduleRetry? then
          before + [Event(RetryScheduled, Retrying, Truncated(t.ops[n - 1].error))]
        else before
      case _ => before
  }

  /** The stored hash is the record of the calls, field by field. */
  predicate Recorded(t: Run, n: nat, h: RunHash)
    requires Called(t, n)
  {
    && AdmissionOf(t, n) == Some((h.requestHash, h.payload, h.createdAt))
    && h.status == StatusOf(t, n)
    && h.attempt == h.fencingToken == ClaimsOf(t, n)
    && h.owner == OwnerOf(t, n)
    && h.leaseUntil == LeaseOf(t, n)
    && h.result == ResultOf(t, n)
    && h.error == (if RetryOf(t, n).Some? then Some(Truncated(RetryOf(t, n).value.0)) else None)
    && h.retryAt == (if RetryOf(t, n).Some? then Some(RetryOf(t, n).value.1) else None)
    && h.updatedAt == UpdatedOf(t, n)
  }

  /** The resource holds what the calls recorded, and nothing before the first admission. */
  predicate ResourceRecorded(t: Run, n: nat, r: Resource)
    requires Called(t, n)
  {
    && (r.hash.Some? <==> AdmissionOf(t, n).Some?)
    && (r.hash.Some? ==> Recorded(t, n, r.hash.value))
    && (r.hash.None? ==> Untouched(t, n))
    && r.fence == ClaimsOf(t, n) && r.events == EventsOf(t, n)
  }

  lemma {:induction false} StoredIsRecorded(t: Run, n: nat)
    requires IsRun(t) && n <= |t.ops|
    ensures ResourceRecorded(t, n, t.states[n])
  {
    if n > 0 {
      StoredIsRecorded(t, n - 1);
      assert StepAt(t, n - 1);
      match t.ops[n - 1]
      case Admit(_, _, _) => AdmissionRecorded(t, n, t.states[n - 1]);
      case Claim(_, _, _) => ClaimRecorded(t, n, t.states[n - 1]);
      case Renew(_, _, _) => RenewalRecorded(t, n, t.states[n - 1]);
      case _ => OutcomeRecorded(t, n, t.states[n - 1]);
    }
  }

  lemma AdmissionRecorded(t: Run, n: nat, r: Resource)
    requires n > 0 && Called(t, n) && ResourceRecorded(t, n - 1, r)
    requires t.ops[n - 1].Admit? && t.replies[n - 1] == Apply(r, t.ops[n - 1]).1
    ensures ResourceRecorded(t, n, Apply(r, t.ops[n - 1]).0)
  {
  }

  lemma ClaimRecorded(t: Run, n: nat, r: Resource)
    requires n > 0 && Called(t, n) && ResourceRecorded(t, n - 1, r)
    requires t.ops[n - 1].Claim? && t.replies[n - 1] == Apply(r, t.ops[n - 1]).1
    ensures ResourceRecorded(t, n, Apply(r, t.ops[n - 1]).0)
  {
  }

  lemma RenewalRecorded(t: Run, n: nat, r: Resource)
    requires n > 0 && Called(t, n) && ResourceRecorded(t, n - 1, r)
    requires t.ops[n - 1].Renew? && t.replies[n - 1] == Apply(r, t.ops[n - 1]).1
    ensures ResourceRecorded(t, n, Apply(r, t.ops[n - 1]).0)
  {
  }

  lemma OutcomeRecorded(t: Run, n: nat, r: Resource)
    requires n > 0 && Called(t, n) && ResourceRecorded(t, n - 1, r)
    requires t.ops[n - 1].Transition? || t.ops[n - 1].ScheduleRetry?
    requires t.replies[n - 1] == Apply(r, t.ops[n - 1]).1
    ensures ResourceRecorded(t, n, Apply(r, t.ops[n - 1]).0)
  {
  }

  predicate Untouched(t: Run, n: nat)
    requires Called(t, n)
  {
    && StatusOf(t, n) == Queued && OwnerOf(t, n) == None && LeaseOf(t, n) == 0.0 && ClaimsOf(t, n) == 0
    && ResultOf(t, n) == None && RetryOf(t, n) == None
  }

  /** The statuses in which the resource is finished for good. */
  predicate FinishedForGood(s: Status) {
    s in {Succeeded, Partial, Failed, Cancelled, Completed}
  }

  /** Whether a lease names the last claimant and the last token while the resource runs. */
  predicate Current(t: Run, n: nat, lease: LeaseToken)
    requires Called(t, n)
  {
    && AdmissionOf(t, n).Some? && StatusOf(t, n) == Running
    && OwnerOf(t, n) == Some(lease.owner) && lease.fencingToken == ClaimsOf(t, n)
  }

  /** The answer a call must get after the first n calls. */
  function AnswerTo(t: Run, n: nat, op: Op): Reply
    requires Called(t, n)
  {
    match op
    case Admit(requestHash, _, _) =>
      if AdmissionOf(t, n).None? then Created
      else if AdmissionOf(t, n).value.0 == requestHash then Replay(StatusOf(t, n))
      else Conflict
    case Claim(_, leaseSeconds, now) =>
      if leaseSeconds <= 0.0 then InvalidLease
      else if AdmissionOf(t, n).None? then Missing
      else if FinishedForGood(StatusOf(t, n)) then Terminal(StatusOf(t, n))
      else if now < LeaseOf(t, n) then Busy
      else Claimed(ClaimsOf(t, n) + 1, now + leaseSeconds)
    case Renew(lease, leaseSeconds, now) =>
      if leaseSeconds <= 0.0 then InvalidLease
      else if Current(t, n, lease) then Renewed(now + leaseSeconds)
      else Stale
    case Transition(lease, _, _, _) => if Current(t, n, lease) then Done else Stale
    case ScheduleRetry(lease, _, _, _) => if Current(t, n, lease) then Done else Stale
  }

  /** Every call is answered from the record of the calls before it: exactly when it is granted, and why not. */
  lemma AnsweredFromRecord(t: Run, j: nat)
    requires IsRun(t) && j < |t.ops|
    ensures t.replies[j] == AnswerTo(t, j, t.ops[j])
  {
    StoredIsRecorded(t, j);
    assert StepAt(t, j);
  }

  /** A finished resource keeps the result of the transition that finished it. */
  lemma {:induction false} ResultOfFinish(t: Run, i: nat, n: nat)
    requires IsRun(t) && i < n <= |t.ops|
    requires t.ops[i].Transition? && t.replies[i].Done? && FinishedForGood(t.ops[i].status)
    ensures t.states[n].hash.Some?
    ensures t.states[n].hash.value.status == t.ops[i].status && t.states[n].hash.value.result == Some(t.ops[i].result)
  {
    assert StepAt(t, i);
    StoredIsRecorded(t, i + 1);
    TerminalForever(t, i + 1, n);
  }

  // ---------- texts ----------

  /** Reads a status back from its text. */
  function ParseStatus(text: string): Status {
    if text == "queued" then Queued
    else if text == "running" then Running
    else if text == "retrying" then Retrying
    else if text == "succeeded" then Succeeded
    else if text == "partial" then Partial
    else if text == "failed" then Failed
    else if text == "cancelled" then Cancelled
    else if text == "completed" then Completed
    else if text == "pending" then Pending
    else Other(text)
  }

  /** Statuses are written under the names the repository gives them, any other as it is. */
  lemma StatusTextParses(s: Status)
    ensures !s.Other? || ParseStatus(s.name).Other? ==> ParseStatus(StatusText(s)) == s
  {
  }

  /** A stored text is the beginning of the text given, cut at 2000 characters. */
  lemma TruncatedIsPrefix(s: string)
    ensures Truncated(s) <= s && |Truncated(s)| == if |s| <= 2000 then |s| else 2000
  {
  }
}
