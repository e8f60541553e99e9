/**
 * What every sequence of control-plane calls on one resource keeps: fencing, at-most-once
 * outcomes, frozen terminal states and disjoint lease windows. The clocks in the calls are
 * arbitrary and may disagree unless a lemma says otherwise.
 */
module LeaseHistory {
  import opened Options
  import opened LeaseStore

  /** A run of calls on one resource: the call, its reply, and the resource before and after each. */
  datatype Run = Run(states: seq<Resource>, ops: seq<Op>, replies: seq<Reply>)

  /** The run starts with nothing stored, and every reply and next state is the script's. */
  ghost predicate IsRun(t: Run) {
    && |t.states| == |t.ops| + 1 && |t.replies| == |t.ops|
    && t.states[0] == NO_RESOURCE
    && forall i :: 0 <= i < |t.ops| ==> StepAt(t, i)
  }

  ghost predicate StepAt(t: Run, i: nat)
    requires i < |t.ops| == |t.replies| && i + 1 < |t.states|
  {
    (t.states[i + 1], t.replies[i]) == Apply(t.states[i], t.ops[i])
  }

  /** Every sequence of calls has its run. */
  lemma {:induction false} RunExists(ops: seq<Op>) returns (t: Run)
    ensures IsRun(t) && t.ops == ops
  {
    if ops == [] {
      t := Run([NO_RESOURCE], [], []);
    } else {
      var p := RunExists(ops[..|ops| - 1]);
      var (r, reply) := Apply(p.states[|p.ops|], ops[|ops| - 1]);
      t := Run(p.states + [r], ops, p.replies + [reply]);
      forall i | 0 <= i < |ops| ensures StepAt(t, i) {
        if i < |p.ops| { assert StepAt(p, i); }
      }
    }
  }

  predicate Fenced(op: Op) {
    op.Renew? || op.Transition? || op.ScheduleRetry?
  }

  /** A renew, transition or retry that took effect. */
  ghost predicate Effective(t: Run, i: nat)
    requires IsRun(t) && i < |t.ops|
  {
    t.replies[i].Renewed? || t.replies[i].Done?
  }

  /**
   * Either nobody transitions to 'running', as the scheduler never does, or nobody presents the
   * empty owner, as generated worker ids never are.
   */
  ghost predicate Disciplined(t: Run) {
    NoRunningTransition(t) || NoEmptyOwner(t)
  }

  ghost predicate NoRunningTransition(t: Run) {
    forall i :: 0 <= i < |t.ops| && t.ops[i].Transition? ==> t.ops[i].status != Running
  }

  ghost predicate NoEmptyOwner(t: Run) {
    forall i :: 0 <= i < |t.ops| && Fenced(t.ops[i]) ==> t.ops[i].lease.owner != ""
  }

  // ---------- attempt, fence and event stream agree ----------

  function StartedEvents(events: seq<Event>): nat {
    if events == [] then 0
    else StartedEvents(events[..|events| - 1]) + (if events[|events| - 1].eventType.Started? then 1 else 0)
  }

  /** attempt = fencing token = fence counter = started events, and the last event names the status. */
  predicate Consistent(r: Resource) {
    match r.hash
    case None => r.fence == 0 && r.events == []
    case Some(h) =>
      && h.attempt == h.fencingToken == r.fence == StartedEvents(r.events)
      && r.events != [] && r.events[|r.events| - 1].status == h.status
      && (h.owner.Some? ==> r.fence > 0)
  }

  lemma AppendedEvent(events: seq<Event>, e: Event)
    ensures StartedEvents(events + [e]) == StartedEvents(events) + (if e.eventType.Started? then 1 else 0)
  {
    assert (events + [e])[..|events|] == events;
  }

  lemma ConsistentStep(r: Resource, op: Op)
    requires Consistent(r)
    ensures Consistent(Apply(r, op).0)
  {
    var r' := Apply(r, op).0;
    if r'.events != r.events {
      AppendedEvent(r.events, r'.events[|r.events|]);
    }
  }

  lemma {:induction false} AlwaysConsistent(t: Run, n: nat)
    requires IsRun(t) && n <= |t.ops|
    ensures Consistent(t.states[n])
  {
    if n > 0 {
      AlwaysConsistent(t, n - 1);
      assert StepAt(t, n - 1);
      ConsistentStep(t.states[n - 1], t.ops[n - 1]);
    }
  }

  // ---------- fencing ----------

  lemma {:induction false} FenceGrows(t: Run, i: nat, j: nat)
    requires IsRun(t) && i <= j <= |t.ops|
    ensures t.states[i].fence <= t.states[j].fence
    decreases j
  {
    if i < j {
      FenceGrows(t, i, j - 1);
      assert StepAt(t, j - 1);
    }
  }

  /** Tokens handed out for one resource strictly increase. */
  lemma TokensIncrease(t: Run, i: nat, j: nat)
    requires IsRun(t) && i < j < |t.ops| && t.replies[i].Claimed? && t.replies[j].Claimed?
    ensures t.replies[i].token < t.replies[j].token
  {
    assert StepAt(t, i) && StepAt(t, j);
    FenceGrows(t, i + 1, j);
  }

  /** Index of the last successful claim among the first n calls, or -1. */
  ghost function LastClaim(t: Run, n: nat): (i: int)
    requires IsRun(t) && n <= |t.ops|
    ensures -1 <= i < n
    ensures i >= 0 ==> t.replies[i].Claimed?
    ensures forall k :: i < k < n ==> !t.replies[k].Claimed?
  {
    if n == 0 then -1 else if t.replies[n - 1].Claimed? then n - 1 else LastClaim(t, n - 1)
  }

  lemma {:induction false} FenceIsLastToken(t: Run, n: nat)
    requires IsRun(t) && n <= |t.ops|
    ensures var i := LastClaim(t, n);
      t.states[n].fence == if i >= 0 then t.replies[i].token else 0
  {
    if n > 0 {
      FenceIsLastToken(t, n - 1);
      assert StepAt(t, n - 1);
    }
  }

  /** A renew, transition or retry takes effect only with the newest token ever handed out. */
  lemma OnlyNewestToken(t: Run, j: nat)
    requires IsRun(t) && j < |t.ops| && Effective(t, j)
    ensures Fenced(t.ops[j])
    ensures var i := LastClaim(t, j);
      && 0 <= i < j && t.replies[i].token == t.ops[j].lease.fencingToken == t.states[j].fence
    ensures forall k :: 0 <= k < j && t.replies[k].Claimed? ==> t.replies[k].token <= t.ops[j].lease.fencingToken
  {
    assert StepAt(t, j);
    AlwaysConsistent(t, j);
    FenceIsLastToken(t, j);
    var i := LastClaim(t, j);
    forall k | 0 <= k < j && t.replies[k].Claimed?
      ensures t.replies[k].token <= t.ops[j].lease.fencingToken
    {
      if k < i { TokensIncrease(t, k, i); }
    }
  }

  // ---------- one outcome per token ----------

  /** Whether the newest token has recorded its outcome within the first n calls. */
  ghost predicate Settled(t: Run, n: nat)
    requires IsRun(t) && n <= |t.ops|
  {
    n > 0 && !t.replies[n - 1].Claimed? && (t.replies[n - 1].Done? || Settled(t, n - 1))
  }

  /** Once settled, the resource has the empty owner and, short of a transition to it, is not running. */
  lemma {:induction false} SettledReleases(t: Run, n: nat)
    requires IsRun(t) && n <= |t.ops| && Settled(t, n)
    ensures t.states[n].hash.Some? && t.states[n].hash.value.owner == Some("")
    ensures NoRunningTransition(t) ==> t.states[n].hash.value.status != Running
  {
    assert StepAt(t, n - 1);
    if !t.replies[n - 1].Done? { SettledReleases(t, n - 1); }
  }

  /**
   * A call that takes effect although the newest token has recorded its outcome: it presents the
   * empty owner an outcome leaves behind, and the outcome was a transition to 'running'.
   */
  predicate Reopens(r: Resource, op: Op) {
    && Fenced(op) && op.lease.owner == "" && op.lease.fencingToken == r.fence
    && r.hash.Some? && r.hash.value.status == Running
    && (op.Renew? ==> op.leaseSeconds > 0.0)
  }

  /** After the token's outcome a renew, transition or retry takes effect exactly if it reopens the resource. */
  lemma EffectiveAfterOutcomeIff(t: Run, j: nat)
    requires IsRun(t) && j < |t.ops| && Settled(t, j)
    ensures Effective(t, j) <==> Reopens(t.states[j], t.ops[j])
  {
    assert StepAt(t, j);
    SettledReleases(t, j);
    AlwaysConsistent(t, j);
  }

  /** A disciplined run has no such call. */
  lemma SettledIsStale(t: Run, j: nat)
    requires IsRun(t) && j < |t.ops| && Disciplined(t) && Settled(t, j)
    ensures !Effective(t, j)
  {
    EffectiveAfterOutcomeIff(t, j);
    SettledReleases(t, j);
  }

  lemma {:induction false} SettledUntilClaim(t: Run, i: nat, n: nat)
    requires IsRun(t) && i < n <= |t.ops| && t.replies[i].Done?
    requires forall k :: i < k < n ==> !t.replies[k].Claimed?
    ensures Settled(t, n)
  {
    if i < n - 1 { SettledUntilClaim(t, i, n - 1); }
  }

  /** An outcome recorded before call n by the token that is newest then. */
  lemma {:induction false} OutcomeBefore(t: Run, n: nat) returns (i: nat)
    requires IsRun(t) && n <= |t.ops| && Settled(t, n)
    ensures i < n && t.replies[i].Done? && forall k :: i < k < n ==> !t.replies[k].Claimed?
  {
    if t.replies[n - 1].Done? {
      i := n - 1;
    } else {
      i := OutcomeBefore(t, n - 1);
    }
  }

  /** Without a claim in between the newest token stays the same. */
  lemma {:induction false} SameToken(t: Run, i: nat, n: nat)
    requires IsRun(t) && i <= n <= |t.ops| && forall k :: i <= k < n ==> !t.replies[k].Claimed?
    ensures t.states[n].fence == t.states[i].fence
    decreases n
  {
    if i < n {
      SameToken(t, i, n - 1);
      assert StepAt(t, n - 1);
    }
  }

  /** Outcomes are recorded under strictly increasing tokens: no token records two. */
  ghost predicate OneOutcomeEach(t: Run)
    requires IsRun(t)
  {
    forall i, j :: 0 <= i < j < |t.ops| && t.replies[i].Done? && t.replies[j].Done? ==>
      t.states[i].fence < t.states[j].fence
  }

  /** A transition or retry that reopens a resource whose newest token has its outcome already. */
  ghost predicate ReopenedAt(t: Run, j: nat)
    requires IsRun(t) && j < |t.ops|
  {
    Settled(t, j) && Reopens(t.states[j], t.ops[j]) && !t.ops[j].Renew?
  }

  /** Every token records at most one outcome if and only if no transition or retry reopens the resource. */
  lemma OneOutcomeIff(t: Run)
    requires IsRun(t)
    ensures OneOutcomeEach(t) <==> forall j :: 0 <= j < |t.ops| ==> !ReopenedAt(t, j)
  {
    if j :| 0 <= j < |t.ops| && ReopenedAt(t, j) {
      EffectiveAfterOutcomeIff(t, j);
      assert StepAt(t, j);
      var i := OutcomeBefore(t, j);
      assert StepAt(t, i);
      SameToken(t, i, j);
      assert !(t.states[i].fence < t.states[j].fence);
    }
    forall i, j | 0 <= i < j < |t.ops| && t.replies[i].Done? && t.replies[j].Done? && !ReopenedAt(t, j)
      ensures t.states[i].fence < t.states[j].fence
    {
      SecondOutcomeNeedsClaim(t, i, j);
    }
  }

  lemma SecondOutcomeNeedsClaim(t: Run, i: nat, j: nat)
    requires IsRun(t) && i < j < |t.ops| && t.replies[i].Done? && t.replies[j].Done? && !ReopenedAt(t, j)
    ensures t.states[i].fence < t.states[j].fence
  {
    assert StepAt(t, j);
    if forall k :: i < k < j ==> !t.replies[k].Claimed? {
      SettledUntilClaim(t, i, j);
      EffectiveAfterOutcomeIff(t, j);
    } else {
      var k :| i < k < j && t.replies[k].Claimed?;
      FenceGrows(t, i, k);
      assert StepAt(t, k);
      FenceGrows(t, k + 1, j);
    }
  }

  /** So in a disciplined run a later outcome carries a strictly larger token. */
  lemma OneOutcomePerToken(t: Run, i: nat, j: nat)
    requires IsRun(t) && Disciplined(t) && i < j < |t.ops| && t.replies[i].Done? && t.replies[j].Done?
    ensures Fenced(t.ops[i]) && Fenced(t.ops[j]) && t.ops[i].lease.fencingToken < t.ops[j].lease.fencingToken
  {
    OnlyNewestToken(t, i);
    OnlyNewestToken(t, j);
    if Settled(t, j) { SettledIsStale(t, j); }
    SecondOutcomeNeedsClaim(t, i, j);
  }

  /** Without the discipline a token can record two outcomes. */
  lemma UndisciplinedCounterexample() returns (t: Run)
    ensures IsRun(t) && |t.ops| == 4 && t.replies[2].Done? && t.replies[3].Done?
    ensures Fenced(t.ops[2]) && Fenced(t.ops[3]) && t.ops[2].lease.fencingToken == t.ops[3].lease.fencingToken
  {
    var o0, o1 := Admit("h", "p", 0.0), Claim("w", 1.0, 0.0);
    var o2 := Transition(LeaseToken("w", 1, 1.0), Running, "", 0.0);
    var o3 := Transition(LeaseToken("", 1, 1.0), Failed, "", 0.0);
    var (r1, p0) := Apply(NO_RESOURCE, o0);
    var (r2, p1) := Apply(r1, o1);
    var (r3, p2) := Apply(r2, o2);
    var (r4, p3) := Apply(r3, o3);
    t := Run([NO_RESOURCE, r1, r2, r3, r4], [o0, o1, o2, o3], [p0, p1, p2, p3]);
    assert StepAt(t, 0) && StepAt(t, 1) && StepAt(t, 2) && StepAt(t, 3);
  }

  // ---------- terminal states ----------

  ghost predicate TerminalAt(t: Run, n: nat)
    requires IsRun(t) && n <= |t.ops|
  {
    t.states[n].hash.Some? && SharedTerminal(t.states[n].hash.value.status)
  }

  /** A shared-terminal resource, its status and result included, never changes again. */
  lemma {:induction false} TerminalForever(t: Run, i: nat, j: nat)
    requires IsRun(t) && i <= j <= |t.ops| && TerminalAt(t, i)
    ensures t.states[j] == t.states[i]
    decreases j
  {
    if i < j {
      TerminalForever(t, i, j - 1);
      assert StepAt(t, j - 1);
    }
  }

  // ---------- lease windows ----------

  /** Expiry most recently returned by a claim or renew. */
  ghost function LastExpiry(t: Run, n: nat): real
    requires IsRun(t) && n <= |t.ops|
  {
    if n == 0 then 0.0
    else
      match t.replies[n - 1]
      case Claimed(_, expiry) => expiry
      case Renewed(expiry) => expiry
      case _ => LastExpiry(t, n - 1)
  }

  /** Until the newest token settles, the stored lease_until is the last expiry its holder was given. */
  lemma {:induction false} StoredExpiryIsPromised(t: Run, n: nat)
    requires IsRun(t) && n <= |t.ops| && !Settled(t, n)
    ensures (if t.states[n].hash.Some? then t.states[n].hash.value.leaseUntil else 0.0) == LastExpiry(t, n)
  {
    if n > 0 {
      assert StepAt(t, n - 1);
      if !t.replies[n - 1].Claimed? { StoredExpiryIsPromised(t, n - 1); }
    }
  }

  /** No claim succeeds before the promised expiry unless the holder has recorded its outcome. */
  lemma ClaimRespectsLease(t: Run, j: nat)
    requires IsRun(t) && j < |t.ops| && t.replies[j].Claimed?
    ensures Settled(t, j) || t.ops[j].now >= LastExpiry(t, j)
  {
    assert StepAt(t, j);
    if !Settled(t, j) { StoredExpiryIsPromised(t, j); }
  }

  /** No renew, transition or retry reopens a resource whose newest token has its outcome already. */
  ghost predicate NeverReopened(t: Run)
    requires IsRun(t)
  {
    forall j :: 0 <= j < |t.ops| && Settled(t, j) ==> !Reopens(t.states[j], t.ops[j])
  }

  /** A disciplined run never reopens a resource. */
  lemma DisciplinedNeverReopens(t: Run)
    requires IsRun(t) && Disciplined(t)
    ensures NeverReopened(t)
  {
    forall j | 0 <= j < |t.ops| && Settled(t, j) ensures !Reopens(t.states[j], t.ops[j]) {
      SettledIsStale(t, j);
      EffectiveAfterOutcomeIff(t, j);
    }
  }

  ghost predicate OneClock(t: Run) {
    forall i, j :: 0 <= i <= j < |t.ops| ==> t.ops[i].now <= t.ops[j].now
  }

  /**
   * End, after n calls, of the lease window of the token handed out by call i: the time of its
   * outcome if it recorded one, otherwise the last expiry it was given.
   */
  ghost function WindowEnd(t: Run, i: nat, n: nat): real
    requires IsRun(t) && i < n <= |t.ops| && t.replies[i].Claimed?
  {
    if n == i + 1 then t.replies[i].expiry
    else if Effective(t, n - 1) && Fenced(t.ops[n - 1]) && t.ops[n - 1].lease.fencingToken == t.replies[i].token then
      if t.replies[n - 1].Renewed? then t.replies[n - 1].expiry else t.ops[n - 1].now
    else WindowEnd(t, i, n - 1)
  }

  /** While claim i is the newest, its window ends at the promised expiry or, once settled, in the past. */
  lemma {:induction false} CurrentWindow(t: Run, i: nat, n: nat)
    requires IsRun(t) && NeverReopened(t) && OneClock(t)
    requires i < n <= |t.ops| && t.replies[i].Claimed? && forall k :: i < k < n ==> !t.replies[k].Claimed?
    ensures !Settled(t, n) ==> WindowEnd(t, i, n) == LastExpiry(t, n)
    ensures Settled(t, n) ==> WindowEnd(t, i, n) <= t.ops[n - 1].now
  {
    if i < n - 1 {
      CurrentWindow(t, i, n - 1);
      if Effective(t, n - 1) {
        OnlyNewestToken(t, n - 1);
        assert LastClaim(t, n - 1) == i;
      }
      if Settled(t, n - 1) {
        EffectiveAfterOutcomeIff(t, n - 1);
        assert t.ops[n - 2].now <= t.ops[n - 1].now;
      }
    }
  }

  /** After a later claim, an older token's window never moves again. */
  lemma {:induction false} OldWindowFixed(t: Run, i: nat, j: nat, n: nat)
    requires IsRun(t) && i < j <= n <= |t.ops| && t.replies[i].Claimed?
    requires j < n ==> t.replies[j].Claimed?
    ensures WindowEnd(t, i, n) == WindowEnd(t, i, j)
    decreases n
  {
    if j < n {
      OldWindowFixed(t, i, j, n - 1);
      if Effective(t, n - 1) {
        OnlyNewestToken(t, n - 1);
        TokensIncrease(t, i, j);
        assert StepAt(t, n - 1);
      }
    }
  }

  /** With one non-decreasing clock, the lease windows of different tokens never overlap. */
  lemma {:induction false} WindowsDisjoint(t: Run, i: nat, j: nat)
    requires IsRun(t) && NeverReopened(t) && OneClock(t)
    requires i < j < |t.ops| && t.replies[i].Claimed? && t.replies[j].Claimed?
    ensures WindowEnd(t, i, |t.ops|) <= t.ops[j].now
  {
    OldWindowFixed(t, i, j, |t.ops|);
    var k := LastClaim(t, j);
    if k == i {
      CurrentWindow(t, i, j);
      ClaimRespectsLease(t, j);
      assert t.ops[j - 1].now <= t.ops[j].now;
    } else {
      WindowsDisjoint(t, i, k);
      OldWindowFixed(t, i, k, |t.ops|);
      OldWindowFixed(t, i, k, j);
      assert t.ops[k].now <= t.ops[j].now;
    }
  }
}
