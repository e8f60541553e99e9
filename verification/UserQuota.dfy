/**
 * The quota as a user meets it: what all requests of one user that were made in one UTC minute or
 * day hold together, in every run and without any mention of buckets.
 */
module UserQuota {
  import opened TokenQuota
  import opened QuotaRuns
  import SetSums

  /** Tokens a request counts for in its day: input and reservation while it may run, input and output at the end. */
  function DayTokens(cfg: Config, t: Task): int {
    var reservation := if cfg.maxReserved > 0 then cfg.maxReserved else 0;
    match t.phase
    case Admitted | Running | HalfReleased => t.input + reservation
    case Finalized(output) => t.input + output
    case _ => 0
  }

  /** Tokens a request counts for in its minute, from its first update to the end of its rollback. */
  function MinuteTokens(cfg: Config, t: Task): int {
    var reservation := if cfg.maxReserved > 0 then cfg.maxReserved else 0;
    match t.phase
    case MinuteHeld | DayReady | DayRefused | Admitted | Running => t.input + reservation
    case ReservedReturned => t.input
    case Finalized(output) => t.input + output
    case _ => 0
  }

  /** Whether a request counts as one of its minute. */
  function MinuteRequests(t: Task): int {
    match t.phase
    case MinuteHeld | DayReady | DayRefused | ReservedReturned | Admitted | Running | Finalized(_) => 1
    case _ => 0
  }

  predicate MadeIn(t: Task, user: nat, from: int, to: int) {
    t.user == user && from <= t.now < to
  }

  function DayTokensMade(cfg: Config, tasks: map<nat, Task>, user: nat, from: int, to: int): map<nat, int> {
    map k | k in tasks :: if MadeIn(tasks[k], user, from, to) then DayTokens(cfg, tasks[k]) else 0
  }

  function MinuteTokensMade(cfg: Config, tasks: map<nat, Task>, user: nat, from: int, to: int): map<nat, int> {
    map k | k in tasks :: if MadeIn(tasks[k], user, from, to) then MinuteTokens(cfg, tasks[k]) else 0
  }

  function MinuteRequestsMade(tasks: map<nat, Task>, user: nat, from: int, to: int): map<nat, int> {
    map k | k in tasks :: if MadeIn(tasks[k], user, from, to) then MinuteRequests(tasks[k]) else 0
  }

  /** A stored request is the one its first action made: its user, its clock and its input never change. */
  lemma RequestStays(cfg: Config, t: Run, i: nat, n: nat)
    requires IsRun(cfg, t) && i < n <= |t.actions| && t.actions[i].Begin?
    ensures var a := t.actions[i];
      && a.task in t.states[n].tasks
      && t.states[n].tasks[a.task].user == a.user && t.states[n].tasks[a.task].now == a.now
      && t.states[n].tasks[a.task].input == a.input
  {
    assert StepAt(cfg, t, i);
    TaskStays(cfg, t, i + 1, n, t.actions[i].task);
  }

  /** A request reserves in the buckets of its user and its clock. */
  predicate Named(t: Task) {
    t.minute == IdFor(t.user, Minute, t.now) && t.day == IdFor(t.user, Day, t.now)
  }

  lemma {:induction false} AlwaysNamed(cfg: Config, t: Run, n: nat, task: nat)
    requires IsRun(cfg, t) && n <= |t.actions| && task in t.states[n].tasks
    ensures Named(t.states[n].tasks[task])
  {
    assert StepAt(cfg, t, n - 1);
    OneTaskSet(cfg, t.states[n - 1], t.actions[n - 1]);
    if task in t.states[n - 1].tasks {
      AlwaysNamed(cfg, t, n - 1, task);
      SameTask(cfg, t.states[n - 1], t.actions[n - 1], task);
    }
  }

  /** The tokens of a bucket are the sum of the tokens that each request holds in it. */
  lemma TokensInBucket(cfg: Config, t: Run, n: nat, id: BucketId, held: map<nat, int>)
    requires IsRun(cfg, t) && AllPunctual(t) && n <= |t.actions| && held.Keys == t.states[n].tasks.Keys
    requires forall k :: k in held ==>
      var p := Part(cfg, t.states[n].tasks[k], id); held[k] == p.input + p.output + p.reserved
    ensures var b := CountOf(t.states[n].buckets, id);
      SetSums.Sum(held) == b.input + b.output + b.reserved
  {
    var s := t.states[n];
    AlwaysBalanced(cfg, t, n);
    assert BalancedAt(cfg, s, id, Input) && BalancedAt(cfg, s, id, Output) && BalancedAt(cfg, s, id, Reserved);
    var inputs, outputs := Parts(cfg, s.tasks, id, Input), Parts(cfg, s.tasks, id, Output);
    var used := map k | k in s.tasks :: inputs[k] + outputs[k];
    var reserved := Parts(cfg, s.tasks, id, Reserved);
    assert inputs.Keys == outputs.Keys == used.Keys == reserved.Keys == held.Keys;
    SetSums.SumPlus(held.Keys, inputs, outputs, used);
    SetSums.SumPlus(held.Keys, used, reserved, held);
  }

  /** A timestamp has its place in exactly one UTC day and one UTC minute. */
  lemma WindowOf(now: int, k: int)
    ensures 86_400_000 * k <= now < 86_400_000 * (k + 1) <==> now / 86_400_000 == 86_400_000 * k / 86_400_000
    ensures 60_000 * k <= now < 60_000 * (k + 1) <==> now / 60_000 == 60_000 * k / 60_000
  {
  }

  lemma DayNamed(t: Task, user: nat, day: int)
    requires Named(t)
    ensures IdFor(user, Day, 86_400_000 * day) == t.day <==>
            MadeIn(t, user, 86_400_000 * day, 86_400_000 * (day + 1))
    ensures IdFor(user, Day, 86_400_000 * day) != t.minute
  {
    SameBucketIff(t.user, Day, t.now, user, Day, 86_400_000 * day);
    WindowOf(t.now, day);
  }

  lemma MinuteNamed(t: Task, user: nat, minute: int)
    requires Named(t)
    ensures IdFor(user, Minute, 60_000 * minute) == t.minute <==>
            MadeIn(t, user, 60_000 * minute, 60_000 * (minute + 1))
    ensures IdFor(user, Minute, 60_000 * minute) != t.day
  {
    SameBucketIff(t.user, Minute, t.now, user, Minute, 60_000 * minute);
    WindowOf(t.now, minute);
  }

  /** What a request holds in its own buckets. */
  lemma OwnParts(cfg: Config, t: Task)
    ensures var m, d := MinutePart(cfg, t), DayPart(cfg, t);
      && m.input + m.output + m.reserved == MinuteTokens(cfg, t) && m.requests == MinuteRequests(t)
      && d.input + d.output + d.reserved == DayTokens(cfg, t)
  {
  }

  predicate Limited(cfg: Config) {
    cfg.tokensPerMinute >= 0 && cfg.tokensPerDay >= 0 && cfg.requestsPerMinute >= 0
  }

  /** All requests one user made on one UTC day hold at most the tokens of a day. */
  lemma DayQuotaHolds(cfg: Config, t: Run, n: nat, user: nat, day: int)
    requires IsRun(cfg, t) && AllPunctual(t) && AllBounded(cfg, t) && n <= |t.actions| && Limited(cfg)
    ensures
      SetSums.Sum(DayTokensMade(cfg, t.states[n].tasks, user, 86_400_000 * day, 86_400_000 * (day + 1)))
      <= cfg.tokensPerDay
  {
    var s, id := t.states[n], IdFor(user, Day, 86_400_000 * day);
    var held := DayTokensMade(cfg, s.tasks, user, 86_400_000 * day, 86_400_000 * (day + 1));
    forall k | k in held
      ensures var p := Part(cfg, s.tasks[k], id); held[k] == p.input + p.output + p.reserved
    {
      AlwaysNamed(cfg, t, n, k);
      DayNamed(s.tasks[k], user, day);
      OwnParts(cfg, s.tasks[k]);
    }
    TokensInBucket(cfg, t, n, id, held);
    QuotaHolds(cfg, t, n, id);
  }

  /** All requests one user made in one UTC minute hold at most the tokens of a minute... */
  lemma MinuteQuotaHolds(cfg: Config, t: Run, n: nat, user: nat, minute: int)
    requires IsRun(cfg, t) && AllPunctual(t) && AllBounded(cfg, t) && n <= |t.actions| && Limited(cfg)
    ensures
      SetSums.Sum(MinuteTokensMade(cfg, t.states[n].tasks, user, 60_000 * minute, 60_000 * (minute + 1)))
      <= cfg.tokensPerMinute
  {
    var s, id := t.states[n], IdFor(user, Minute, 60_000 * minute);
    var held := MinuteTokensMade(cfg, s.tasks, user, 60_000 * minute, 60_000 * (minute + 1));
    forall k | k in held
      ensures var p := Part(cfg, s.tasks[k], id); held[k] == p.input + p.output + p.reserved
    {
      AlwaysNamed(cfg, t, n, k);
      MinuteNamed(s.tasks[k], user, minute);
      OwnParts(cfg, s.tasks[k]);
    }
    TokensInBucket(cfg, t, n, id, held);
    QuotaHolds(cfg, t, n, id);
  }

  /** ...and are at most as many as the requests of a minute. */
  lemma MinuteRequestsHold(cfg: Config, t: Run, n: nat, user: nat, minute: int)
    requires IsRun(cfg, t) && AllPunctual(t) && AllBounded(cfg, t) && n <= |t.actions| && Limited(cfg)
    ensures
      SetSums.Sum(MinuteRequestsMade(t.states[n].tasks, user, 60_000 * minute, 60_000 * (minute + 1)))
      <= cfg.requestsPerMinute
  {
    var s, id := t.states[n], IdFor(user, Minute, 60_000 * minute);
    var held := MinuteRequestsMade(s.tasks, user, 60_000 * minute, 60_000 * (minute + 1));
    forall k | k in held ensures held[k] == Get(Part(cfg, s.tasks[k], id), Requests) {
      AlwaysNamed(cfg, t, n, k);
      MinuteNamed(s.tasks[k], user, minute);
      OwnParts(cfg, s.tasks[k]);
    }
    assert held == Parts(cfg, s.tasks, id, Requests);
    AlwaysBalanced(cfg, t, n);
    assert BalancedAt(cfg, s, id, Requests);
    QuotaHolds(cfg, t, n, id);
  }
}
