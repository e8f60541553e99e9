/** How often a run can be retried on one scheduler database, with or without heartbeats. */
module SchedulerRetries {
  import opened Options
  import opened RunQueue
  import opened SchedulerSafety

  /** Claims carry distinct attempts, none of which has been retried already. */
  ghost predicate ClaimsDistinct(s: State) {
    && (forall x :: Claimed(s, x) ==>
          s.row.Some? && 1 <= s.threads[x].attempt <= s.row.value.attempt && s.threads[x].attempt !in s.retried)
    && (forall x, y :: Claimed(s, x) && Claimed(s, y) && x != y ==> s.threads[x].attempt != s.threads[y].attempt)
  }

  /** Retried attempts are distinct, no later than the row's attempt, and below the limit. */
  ghost predicate RetriedDistinct(cfg: Settings, s: State) {
    && (forall i :: 0 <= i < |s.retried| ==> RetriedAt(cfg, s, i))
    && (forall i, j :: 0 <= i < j < |s.retried| ==> s.retried[i] != s.retried[j])
  }

  predicate RetriedAt(cfg: Settings, s: State, i: nat)
    requires i < |s.retried|
  {
    s.row.Some? && 1 <= s.retried[i] <= s.row.value.attempt && s.retried[i] < cfg.maxAttempts
  }

  ghost predicate AttemptsDistinct(cfg: Settings, s: State) {
    ClaimsDistinct(s) && RetriedDistinct(cfg, s)
  }

  lemma AttemptGrows(cfg: Settings, s: State, a: Action)
    requires Enabled(cfg, s, a) && s.row.Some?
    ensures Next(cfg, s, a).row.Some? && s.row.value.attempt <= Next(cfg, s, a).row.value.attempt
  {
  }

  lemma RetriedStep(cfg: Settings, s: State, a: Action)
    requires AttemptsDistinct(cfg, s) && Enabled(cfg, s, a)
    ensures RetriedDistinct(cfg, Next(cfg, s, a))
  {
    var s' := Next(cfg, s, a);
    if s.row.Some? { AttemptGrows(cfg, s, a); }
    if a.FinishRetry? { assert Claimed(s, a.thread); }
    assert s'.retried == s.retried || (a.FinishRetry? && s'.retried == s.retried + [s.threads[a.thread].attempt]);
    forall i | 0 <= i < |s'.retried| ensures RetriedAt(cfg, s', i) {
      if i < |s.retried| { assert RetriedAt(cfg, s, i); }
    }
  }

  lemma ClaimsStep(cfg: Settings, s: State, a: Action)
    requires AttemptsDistinct(cfg, s) && Enabled(cfg, s, a)
    ensures ClaimsDistinct(Next(cfg, s, a))
  {
    var s' := Next(cfg, s, a);
    if s.row.Some? { AttemptGrows(cfg, s, a); }
    forall x | Claimed(s', x)
      ensures (Claimed(s, x) && s'.threads[x].attempt == s.threads[x].attempt) ||
              (a.ClaimLocal? && x == a.thread && s'.threads[x].attempt == s.row.value.attempt + 1)
    {
    }
    if a.FinishRetry? { assert Claimed(s, a.thread); }
    forall i | 0 <= i < |s.retried| ensures s.row.Some? && s.retried[i] <= s.row.value.attempt {
      assert RetriedAt(cfg, s, i);
    }
  }

  lemma AttemptsStep(cfg: Settings, s: State, a: Action)
    requires AttemptsDistinct(cfg, s) && Enabled(cfg, s, a)
    ensures AttemptsDistinct(cfg, Next(cfg, s, a))
  {
    RetriedStep(cfg, s, a);
    ClaimsStep(cfg, s, a);
  }

  lemma {:induction false} AlwaysDistinct(cfg: Settings, t: Run, n: nat)
    requires IsRun(cfg, t) && n < |t.states|
    ensures AttemptsDistinct(cfg, t.states[n])
  {
    if n > 0 {
      AlwaysDistinct(cfg, t, n - 1);
      assert StepAt(cfg, t, n - 1);
      AttemptsStep(cfg, t.states[n - 1], t.actions[n - 1]);
    }
  }

  /** Distinct numbers between 1 and m - 1: there are at most m - 1 of them. */
  lemma {:induction false} DistinctBelow(s: seq<nat>, m: nat)
    requires forall i :: 0 <= i < |s| ==> 1 <= s[i] < m
    requires forall i, j :: 0 <= i < j < |s| ==> s[i] != s[j]
    ensures |s| < m || |s| == 0
    decreases m
  {
    if s != [] {
      assert 1 <= s[0] < m;
      if m - 1 in s {
        var k :| 0 <= k < |s| && s[k] == m - 1;
        DistinctBelow(s[..k] + s[k + 1..], m - 1);
      } else {
        DistinctBelow(s, m - 1);
      }
    }
  }

  function Retries(t: Run, n: nat): nat
    requires n <= |t.actions|
  {
    if n == 0 then 0 else Retries(t, n - 1) + (if t.actions[n - 1].FinishRetry? then 1 else 0)
  }

  lemma {:induction false} RetriedCountsRetries(cfg: Settings, t: Run, n: nat)
    requires IsRun(cfg, t) && n < |t.states|
    ensures |t.states[n].retried| == Retries(t, n)
  {
    if n > 0 {
      RetriedCountsRetries(cfg, t, n - 1);
      assert StepAt(cfg, t, n - 1);
    }
  }

  /** Across every crash, recovery and takeover, a run enters 'retrying' at most max_attempts - 1 times. */
  lemma RetriesBounded(cfg: Settings, t: Run)
    requires IsRun(cfg, t) && cfg.maxAttempts >= 1
    ensures Retries(t, |t.actions|) <= cfg.maxAttempts - 1
  {
    AlwaysDistinct(cfg, t, |t.actions|);
    RetriedCountsRetries(cfg, t, |t.actions|);
    var last := t.states[|t.actions|];
    forall i | 0 <= i < |last.retried| ensures 1 <= last.retried[i] < cfg.maxAttempts {
      assert RetriedAt(cfg, last, i);
    }
    DistinctBelow(t.states[|t.actions|].retried, cfg.maxAttempts);
  }

  // ---------- what the attempt counter counts ----------

  /** A local claim that takes the run, whether the shared lease is granted or refused afterwards. */
  ghost predicate ClaimsAt(t: Run, i: nat)
    requires i < |t.actions| && |t.states| == |t.actions| + 1
  {
    t.actions[i].ClaimLocal? && t.states[i].row.Some? && Claimable(t.states[i].row.value, t.actions[i].now)
  }

  ghost function Claims(t: Run, n: nat): nat
    requires n <= |t.actions| && |t.states| == |t.actions| + 1
  {
    if n == 0 then 0 else Claims(t, n - 1) + (if ClaimsAt(t, n - 1) then 1 else 0)
  }

  /** The attempt the row was inserted with. */
  function Inserted(t: Run, n: nat): nat
    requires n <= |t.actions|
  {
    if n == 0 then 0 else if t.actions[n - 1].Submit? then t.actions[n - 1].attempt else Inserted(t, n - 1)
  }

  /** The attempt counter is the inserted attempt plus every successful local claim, granted or refused. */
  lemma {:induction false} AttemptCountsClaims(cfg: Settings, t: Run, n: nat)
    requires IsRun(cfg, t) && n <= |t.actions|
    ensures if t.states[n].row.Some? then t.states[n].row.value.attempt == Inserted(t, n) + Claims(t, n)
            else Claims(t, n) == 0
  {
    if n > 0 {
      AttemptCountsClaims(cfg, t, n - 1);
      assert StepAt(cfg, t, n - 1);
      AttemptStep(cfg, t.states[n - 1], t.actions[n - 1]);
    }
  }

  lemma AttemptStep(cfg: Settings, s: State, a: Action)
    requires Enabled(cfg, s, a)
    ensures s.row.None? && !a.Submit? ==> Next(cfg, s, a).row.None? && !a.ClaimLocal?
    ensures a.Submit? ==> s.row.None? && Next(cfg, s, a).row.Some? && Next(cfg, s, a).row.value.attempt == a.attempt
    ensures s.row.Some? ==>
      && Next(cfg, s, a).row.Some?
      && Next(cfg, s, a).row.value.attempt ==
         s.row.value.attempt + if a.ClaimLocal? && Claimable(s.row.value, a.now) then 1 else 0
  {
  }
}
