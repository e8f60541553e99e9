/**
 * Runs of the two-bucket quota: every interleaving of the single database updates of any number of
 * requests, from empty buckets.
 */
module QuotaRuns {
  import opened TokenQuota
  import SetSums

  datatype Run = Run(states: seq<State>, actions: seq<Action>)

  ghost predicate StepAt(cfg: Config, t: Run, i: nat)
    requires i < |t.actions| && i + 1 < |t.states|
  {
    Enabled(t.states[i], t.actions[i]) && t.states[i + 1] == Next(cfg, t.states[i], t.actions[i])
  }

  ghost predicate IsRun(cfg: Config, t: Run) {
    && |t.states| == |t.actions| + 1
    && t.states[0] == INITIAL
    && forall i :: 0 <= i < |t.actions| ==> StepAt(cfg, t, i)
  }

  /** Every `reservedAt` falls into the windows of the reserve step. */
  predicate Punctual(a: Action) {
    a.Begin? ==>
      a.now / 60_000 == a.reservedAt / 60_000 && a.now / 86_400_000 == a.reservedAt / 86_400_000
  }

  predicate OutputBounded(cfg: Config, a: Action) {
    a.Finalize? ==> a.output <= Reservation(cfg)
  }

  ghost predicate AllPunctual(t: Run) {
    forall i :: 0 <= i < |t.actions| ==> Punctual(t.actions[i])
  }

  ghost predicate AllBounded(cfg: Config, t: Run) {
    forall i :: 0 <= i < |t.actions| ==> OutputBounded(cfg, t.actions[i])
  }

  lemma {:induction false} BasicsHold(cfg: Config, t: Run, n: nat)
    requires IsRun(cfg, t) && n <= |t.actions|
    ensures BucketsExist(t.states[n]) && InputsNatural(t.states[n])
  {
    if n > 0 {
      BasicsHold(cfg, t, n - 1);
      assert StepAt(cfg, t, n - 1);
      BucketsExistStep(cfg, t.states[n - 1], t.actions[n - 1]);
    }
  }

  lemma {:induction false} WindowsStay(cfg: Config, t: Run, n: nat, task: nat)
    requires IsRun(cfg, t) && AllPunctual(t) && n <= |t.actions| && task in t.states[n].tasks
    ensures SameWindows(t.states[n].tasks[task])
  {
    assert StepAt(cfg, t, n - 1);
    assert Punctual(t.actions[n - 1]);
    OneTaskSet(cfg, t.states[n - 1], t.actions[n - 1]);
    if task in t.states[n - 1].tasks {
      WindowsStay(cfg, t, n - 1, task);
    }
  }

  /**
   * In every interleaving, half-finished rollbacks included, each counter of each bucket is the sum
   * of what the requests hold in it.
   */
  lemma {:induction false} AlwaysBalanced(cfg: Config, t: Run, n: nat)
    requires IsRun(cfg, t) && AllPunctual(t) && n <= |t.actions|
    ensures Balanced(cfg, t.states[n])
  {
    if n == 0 {
      InitiallyBalanced(cfg);
    } else {
      var s, a := t.states[n - 1], t.actions[n - 1];
      AlwaysBalanced(cfg, t, n - 1);
      BasicsHold(cfg, t, n - 1);
      assert StepAt(cfg, t, n - 1);
      if a.task in s.tasks { WindowsStay(cfg, t, n - 1, a.task); }
      BalancedStep(cfg, s, a);
    }
  }

  lemma InitiallyBalanced(cfg: Config)
    ensures Balanced(cfg, INITIAL)
  {
    forall id, f ensures BalancedAt(cfg, INITIAL, id, f) {
      SetSums.SumOfZeros({}, Parts(cfg, map[], id, f));
    }
  }

  lemma {:induction false} SumsWithinLimits(cfg: Config, t: Run, n: nat)
    requires IsRun(cfg, t) && AllBounded(cfg, t) && n <= |t.actions|
    requires cfg.tokensPerMinute >= 0 && cfg.tokensPerDay >= 0 && cfg.requestsPerMinute >= 0
    ensures WithinLimits(cfg, t.states[n])
  {
    if n > 0 {
      SumsWithinLimits(cfg, t, n - 1);
      BasicsHold(cfg, t, n - 1);
      assert StepAt(cfg, t, n - 1);
      assert OutputBounded(cfg, t.actions[n - 1]);
      WithinLimitsStep(cfg, t.states[n - 1], t.actions[n - 1]);
    } else {
      forall id ensures WithinLimit(cfg, CountOf(INITIAL.buckets, id), id.kind) {}
    }
  }

  lemma PartNatural(cfg: Config, t: Task, id: BucketId, f: Field)
    requires t.input >= 0 && (t.phase.Finalized? ==> t.phase.output >= 0)
    ensures Get(Part(cfg, t, id), f) >= 0
  {
  }

  lemma {:induction false} OutputsNatural(cfg: Config, t: Run, n: nat, task: nat)
    requires IsRun(cfg, t) && n <= |t.actions| && task in t.states[n].tasks
    ensures t.states[n].tasks[task].phase.Finalized? ==> t.states[n].tasks[task].phase.output >= 0
  {
    assert StepAt(cfg, t, n - 1);
    OneTaskSet(cfg, t.states[n - 1], t.actions[n - 1]);
    if task in t.states[n - 1].tasks {
      OutputsNatural(cfg, t, n - 1, task);
    }
  }

  predicate NaturalBucket(b: Bucket) {
    b.input >= 0 && b.output >= 0 && b.reserved >= 0 && b.requests >= 0
  }

  /** While the books balance, no counter is below zero. */
  lemma BalancedIsNatural(cfg: Config, t: Run, n: nat, id: BucketId)
    requires IsRun(cfg, t) && n <= |t.actions| && Balanced(cfg, t.states[n])
    ensures NaturalBucket(CountOf(t.states[n].buckets, id))
  {
    var s := t.states[n];
    BasicsHold(cfg, t, n);
    forall f ensures Get(CountOf(s.buckets, id), f) >= 0 {
      var parts := Parts(cfg, s.tasks, id, f);
      forall task | task in parts ensures parts[task] >= 0 {
        OutputsNatural(cfg, t, n, task);
        PartNatural(cfg, s.tasks[task], id, f);
      }
      SetSums.SumBounds(parts.Keys, parts, 0);
      assert BalancedAt(cfg, s, id, f);
    }
    var b := CountOf(s.buckets, id);
    assert Get(b, Input) >= 0 && Get(b, Output) >= 0 && Get(b, Reserved) >= 0 && Get(b, Requests) >= 0;
  }

  /** No counter ever drops below zero. */
  lemma CountersNatural(cfg: Config, t: Run, n: nat, id: BucketId)
    requires IsRun(cfg, t) && AllPunctual(t) && n <= |t.actions|
    ensures NaturalBucket(CountOf(t.states[n].buckets, id))
  {
    AlwaysBalanced(cfg, t, n);
    BalancedIsNatural(cfg, t, n, id);
  }

  /**
   * The quota: no counter ever drops below zero, and used plus reserved tokens never exceed the
   * limit of the bucket, nor the requests that of the minute.
   */
  lemma QuotaHolds(cfg: Config, t: Run, n: nat, id: BucketId)
    requires IsRun(cfg, t) && AllPunctual(t) && AllBounded(cfg, t) && n <= |t.actions|
    requires cfg.tokensPerMinute >= 0 && cfg.tokensPerDay >= 0 && cfg.requestsPerMinute >= 0
    ensures WithinLimit(cfg, CountOf(t.states[n].buckets, id), id.kind)
    ensures NaturalBucket(CountOf(t.states[n].buckets, id))
  {
    SumsWithinLimits(cfg, t, n);
    CountersNatural(cfg, t, n, id);
  }

  // ---------- what is left once requests settle ----------

  predicate Done(p: Phase) {
    p.Rejected? || p.Released? || p.Finalized?
  }

  /** What a finalized request is charged for in its two buckets; every other request nothing. */
  function Charge(t: Task, id: BucketId, f: Field): int {
    if t.phase.Finalized? && (id == t.minute || id == t.day) then Get(Bucket(t.input, t.phase.output, 0, 1), f) else 0
  }

  function Charges(tasks: map<nat, Task>, id: BucketId, f: Field): map<nat, int> {
    map task | task in tasks :: Charge(tasks[task], id, f)
  }

  lemma DonePart(cfg: Config, t: Task, id: BucketId, f: Field)
    requires Done(t.phase)
    ensures Get(Part(cfg, t, id), f) == Charge(t, id, f)
  {
  }

  /**
   * Once every request is done, each bucket holds exactly the finalized requests' input, output and
   * number, and no reservation.
   */
  lemma SettledBucketsHoldCharges(cfg: Config, t: Run, n: nat, id: BucketId, f: Field)
    requires IsRun(cfg, t) && AllPunctual(t) && n <= |t.actions|
    requires forall task :: task in t.states[n].tasks ==> Done(t.states[n].tasks[task].phase)
    ensures Get(CountOf(t.states[n].buckets, id), f) == SetSums.Sum(Charges(t.states[n].tasks, id, f))
    ensures CountOf(t.states[n].buckets, id).reserved == 0
  {
    var s := t.states[n];
    AlwaysBalanced(cfg, t, n);
    assert BalancedAt(cfg, s, id, f);
    forall task | task in s.tasks ensures Get(Part(cfg, s.tasks[task], id), f) == Charge(s.tasks[task], id, f) {
      DonePart(cfg, s.tasks[task], id, f);
    }
    assert Charges(s.tasks, id, f) == Parts(cfg, s.tasks, id, f);
    assert BalancedAt(cfg, s, id, Reserved);
    SetSums.SumOfZeros(Parts(cfg, s.tasks, id, Reserved).Keys, Parts(cfg, s.tasks, id, Reserved));
  }

  /** A rejected or released request has left no trace: the books balance without it. */
  lemma RefusedNetsToZero(cfg: Config, t: Run, n: nat, task: nat)
    requires IsRun(cfg, t) && AllPunctual(t) && n <= |t.actions| && task in t.states[n].tasks
    requires t.states[n].tasks[task].phase in {Rejected, Released}
    ensures Balanced(cfg, State(t.states[n].buckets, t.states[n].tasks - {task}))
  {
    var s := t.states[n];
    AlwaysBalanced(cfg, t, n);
    forall id, f ensures BalancedAt(cfg, State(s.buckets, s.tasks - {task}), id, f) {
      assert BalancedAt(cfg, s, id, f);
      SetSums.SumRemove(Parts(cfg, s.tasks, id, f), task);
      assert Parts(cfg, s.tasks - {task}, id, f) == Parts(cfg, s.tasks, id, f) - {task};
    }
  }

  /** Phases in which a reservation has started to leave its buckets. */
  predicate Leaving(p: Phase) {
    p.HalfReleased? || p.Released? || p.Finalized?
  }

  lemma {:induction false} LeavingStays(cfg: Config, t: Run, i: nat, j: nat, task: nat)
    requires IsRun(cfg, t) && i <= j <= |t.actions|
    requires task in t.states[i].tasks && Leaving(t.states[i].tasks[task].phase)
    ensures task in t.states[j].tasks && Leaving(t.states[j].tasks[task].phase)
    decreases j
  {
    if i < j {
      LeavingStays(cfg, t, i, j - 1, task);
      assert StepAt(cfg, t, j - 1);
    }
  }

  /** An admitted reservation is settled at most once, however often finalize or release is retried... */
  lemma SettledAtMostOnce(cfg: Config, t: Run, i: nat, j: nat)
    requires IsRun(cfg, t) && i < j < |t.actions| && t.actions[i].task == t.actions[j].task
    requires Settles(t.states[i], t.actions[i])
    ensures !Settles(t.states[j], t.actions[j])
  {
    assert StepAt(cfg, t, i) && StepAt(cfg, t, j);
    LeavingStays(cfg, t, i + 1, j, t.actions[i].task);
  }

  /** ...and exactly once by the time its request is finalized or released. */
  lemma {:induction false} SettledOnce(cfg: Config, t: Run, n: nat, task: nat) returns (i: nat)
    requires IsRun(cfg, t) && n <= |t.actions|
    requires task in t.states[n].tasks && Leaving(t.states[n].tasks[task].phase)
    ensures i < n && t.actions[i].task == task && Settles(t.states[i], t.actions[i])
    ensures t.states[n].tasks[task].phase.Finalized? <==> t.actions[i].Finalize?
    ensures t.actions[i].Finalize? ==> t.states[n].tasks[task].phase.output == t.actions[i].output
  {
    assert StepAt(cfg, t, n - 1);
    OneTaskSet(cfg, t.states[n - 1], t.actions[n - 1]);
    if task in t.states[n - 1].tasks && Leaving(t.states[n - 1].tasks[task].phase) {
      i := SettledOnce(cfg, t, n - 1, task);
    } else {
      i := n - 1;
    }
  }

  // ---------- what one request has put into a bucket and not taken out ----------

  /** What action k did to a bucket. */
  ghost function Change(t: Run, k: nat, id: BucketId): Bucket
    requires k + 1 < |t.states|
  {
    Minus(CountOf(t.states[k + 1].buckets, id), CountOf(t.states[k].buckets, id))
  }

  /** What those of the first n actions that belong to one request did to a bucket together. */
  ghost function OwnNet(t: Run, n: nat, id: BucketId, task: nat): Bucket
    requires n <= |t.actions| && |t.states| == |t.actions| + 1
  {
    if n == 0 then ZERO
    else if t.actions[n - 1].task == task then Plus(OwnNet(t, n - 1, id, task), Change(t, n - 1, id))
    else OwnNet(t, n - 1, id, task)
  }

  /** The same for the actions of all other requests. */
  ghost function OthersNet(t: Run, n: nat, id: BucketId, task: nat): Bucket
    requires n <= |t.actions| && |t.states| == |t.actions| + 1
  {
    if n == 0 then ZERO
    else if t.actions[n - 1].task == task then OthersNet(t, n - 1, id, task)
    else Plus(OthersNet(t, n - 1, id, task), Change(t, n - 1, id))
  }

  /** Without what one request left in it, a bucket is what all others left there. */
  lemma {:induction false} NetsAddUp(t: Run, n: nat, id: BucketId, task: nat)
    requires n <= |t.actions| && |t.states| == |t.actions| + 1 && t.states[0] == INITIAL
    ensures Minus(CountOf(t.states[n].buckets, id), OwnNet(t, n, id, task)) == OthersNet(t, n, id, task)
  {
    if n > 0 { NetsAddUp(t, n - 1, id, task); }
  }

  /** What a request keeps in its minute bucket when it settles elsewhere: everything it reserved. */
  function MinuteKept(cfg: Config, t: Task): Bucket {
    match t.phase
    case Begun => ZERO
    case MinuteReady => ZERO
    case Rejected => ZERO
    case ReservedReturned => Bucket(t.input, 0, 0, 1)
    case _ => Held(t.input, Reservation(cfg))
  }

  function DayKept(cfg: Config, t: Task): Bucket {
    match t.phase
    case Admitted => Held(t.input, Reservation(cfg))
    case Running => Held(t.input, Reservation(cfg))
    case Finalized(_) => Held(t.input, Reservation(cfg))
    case HalfReleased => Held(t.input, Reservation(cfg))
    case Released => Held(t.input, Reservation(cfg))
    case _ => ZERO
  }

  /** What a request holds in a bucket it reserves in, wherever it settles. */
  function Kept(cfg: Config, t: Task, id: BucketId): Bucket {
    if id == t.minute then (if t.settleMinute == t.minute then MinutePart(cfg, t) else MinuteKept(cfg, t))
    else if id == t.day then (if t.settleDay == t.day then DayPart(cfg, t) else DayKept(cfg, t))
    else ZERO
  }

  function KeptAt(cfg: Config, s: State, task: nat, id: BucketId): Bucket {
    if task in s.tasks then Kept(cfg, s.tasks[task], id) else ZERO
  }

  /** A reserve bucket moves exactly as what the request keeps in it. */
  ghost predicate KeepsWith(cfg: Config, s: State, s': State, task: nat, id: BucketId) {
    Minus(CountOf(s'.buckets, id), KeptAt(cfg, s', task, id)) == Minus(CountOf(s.buckets, id), KeptAt(cfg, s, task, id))
  }

  /** Before a request starts to settle, the settle windows play no part. */
  lemma KeptIsPart(cfg: Config, t: Task, id: BucketId)
    requires !Leaving(t.phase)
    ensures Kept(cfg, t, id) == Part(cfg, t, id)
  {
  }

  lemma KeptMoves(cfg: Config, s: State, a: Action, id: BucketId)
    requires BucketsExist(s) && Enabled(s, a)
    requires a.task in s.tasks ==> id == s.tasks[a.task].minute || id == s.tasks[a.task].day
    ensures KeepsWith(cfg, s, Next(cfg, s, a), a.task, id)
  {
    if a.ReleaseMinute? || a.ReleaseDay? {
      ReleaseKept(cfg, s, a, id);
    } else if a.Finalize? {
      FinalizeKept(cfg, s, a, id);
    } else {
      UnsettledKept(cfg, s, a, id);
    }
  }

  lemma UnsettledKept(cfg: Config, s: State, a: Action, id: BucketId)
    requires BucketsExist(s) && Enabled(s, a) && !(a.ReleaseMinute? || a.ReleaseDay? || a.Finalize?)
    ensures KeepsWith(cfg, s, Next(cfg, s, a), a.task, id)
  {
    var s' := Next(cfg, s, a);
    UnsettledPhases(cfg, s, a);
    if a.task in s.tasks { KeptIsPart(cfg, s.tasks[a.task], id); }
    KeptIsPart(cfg, s'.tasks[a.task], id);
    if a.ReserveMinute? || a.ReserveDay? {
      ReserveMoves(cfg, s, a, id);
    } else if a.ReturnReserved? || a.ReturnInput? {
      RollbackMoves(cfg, s, a, id);
    } else {
      QuietMoves(cfg, s, a, id);
    }
  }

  lemma UnsettledPhases(cfg: Config, s: State, a: Action)
    requires Enabled(s, a) && !(a.ReleaseMinute? || a.ReleaseDay? || a.Finalize?)
    ensures a.task in s.tasks ==> !Leaving(s.tasks[a.task].phase)
    ensures a.task in Next(cfg, s, a).tasks && !Leaving(Next(cfg, s, a).tasks[a.task].phase)
  {
  }

  lemma ReleaseKept(cfg: Config, s: State, a: Action, id: BucketId)
    requires BucketsExist(s) && Enabled(s, a) && (a.ReleaseMinute? || a.ReleaseDay?)
    requires id == s.tasks[a.task].minute || id == s.tasks[a.task].day
    ensures KeepsWith(cfg, s, Next(cfg, s, a), a.task, id)
  {
    var t := s.tasks[a.task];
    assert HasBuckets(s.buckets, t);
    IncCount(s.buckets, if a.ReleaseMinute? then t.settleMinute else t.settleDay,
             Bucket(-t.input, 0, -Reservation(cfg), -1), id);
  }

  lemma FinalizeKept(cfg: Config, s: State, a: Action, id: BucketId)
    requires BucketsExist(s) && Enabled(s, a) && a.Finalize?
    requires id == s.tasks[a.task].minute || id == s.tasks[a.task].day
    ensures KeepsWith(cfg, s, Next(cfg, s, a), a.task, id)
  {
    var t := s.tasks[a.task];
    assert HasBuckets(s.buckets, t);
    if !t.phase.Finalized? {
      var delta := Bucket(0, a.output, -Reservation(cfg), 0);
      IncCount(s.buckets, t.settleMinute, delta, id);
      IncCount(Inc(s.buckets, t.settleMinute, delta), t.settleDay, delta, id);
    }
  }

  /** The request's own net effect on a reserve bucket is what it keeps there. */
  lemma {:induction false} OwnNetIsKept(cfg: Config, t: Run, n: nat, task: nat, id: BucketId)
    requires IsRun(cfg, t) && n <= |t.actions| && ReservesIn(t.states[n], task, id)
    ensures OwnNet(t, n, id, task) == KeptAt(cfg, t.states[n], task, id)
  {
    if n > 0 {
      assert StepAt(cfg, t, n - 1);
      BasicsHold(cfg, t, n - 1);
      OthersStay(cfg, t.states[n - 1], t.actions[n - 1], task, id);
      if t.actions[n - 1].task == task { OwnMoves(cfg, t.states[n - 1], t.actions[n - 1], id); }
      OwnNetIsKept(cfg, t, n - 1, task, id);
    }
  }

  /** `id` is a bucket the request reserves in; before it begins, any. */
  predicate ReservesIn(s: State, task: nat, id: BucketId) {
    task in s.tasks ==> id == s.tasks[task].minute || id == s.tasks[task].day
  }

  /** The actions of a request move a bucket as what it keeps there. */
  lemma OwnMoves(cfg: Config, s: State, a: Action, id: BucketId)
    requires BucketsExist(s) && Enabled(s, a) && ReservesIn(s, a.task, id)
    ensures KeptAt(cfg, Next(cfg, s, a), a.task, id) ==
            Plus(KeptAt(cfg, s, a.task, id), Minus(CountOf(Next(cfg, s, a).buckets, id), CountOf(s.buckets, id)))
  {
    KeptMoves(cfg, s, a, id);
    NetFollows(CountOf(s.buckets, id), CountOf(Next(cfg, s, a).buckets, id),
               KeptAt(cfg, s, a.task, id), KeptAt(cfg, Next(cfg, s, a), a.task, id));
  }

  /** A request keeps the buckets it reserves in, and what it keeps there while others act. */
  lemma OthersStay(cfg: Config, s: State, a: Action, task: nat, id: BucketId)
    requires Enabled(s, a) && ReservesIn(Next(cfg, s, a), task, id)
    ensures ReservesIn(s, task, id)
    ensures a.task != task ==> KeptAt(cfg, Next(cfg, s, a), task, id) == KeptAt(cfg, s, task, id)
  {
    OneTaskSet(cfg, s, a);
    if task in s.tasks { SameTask(cfg, s, a, task); }
  }

  lemma NetFollows(before: Bucket, after: Bucket, kept: Bucket, keeps: Bucket)
    requires Minus(after, keeps) == Minus(before, kept)
    ensures Plus(kept, Minus(after, before)) == keeps
  {
  }

  /** An action changes at most the phase of a request. */
  lemma SameTask(cfg: Config, s: State, a: Action, task: nat)
    requires Enabled(s, a) && task in s.tasks
    ensures task in Next(cfg, s, a).tasks
      && Next(cfg, s, a).tasks[task] == s.tasks[task].(phase := Next(cfg, s, a).tasks[task].phase)
  {
  }

  lemma {:induction false} TaskStays(cfg: Config, t: Run, i: nat, n: nat, task: nat)
    requires IsRun(cfg, t) && i <= n <= |t.actions| && task in t.states[i].tasks
    ensures task in t.states[n].tasks
    ensures t.states[n].tasks[task] == t.states[i].tasks[task].(phase := t.states[n].tasks[task].phase)
    decreases n
  {
    if i < n {
      TaskStays(cfg, t, i, n - 1, task);
      assert StepAt(cfg, t, n - 1);
      SameTask(cfg, t.states[n - 1], t.actions[n - 1], task);
    }
  }

  /**
   * A request that settled in another minute than the one it reserved in: in every later state its
   * whole reservation is still in the minute bucket, on top of whatever the others left there.
   */
  lemma StraddlingReservationStays(cfg: Config, t: Run, i: nat, n: nat, task: nat)
    requires IsRun(cfg, t) && i <= n <= |t.actions| && task in t.states[i].tasks
    requires Leaving(t.states[i].tasks[task].phase)
      && t.states[i].tasks[task].settleMinute != t.states[i].tasks[task].minute
    ensures var request := t.states[i].tasks[task];
      && OwnNet(t, n, request.minute, task) == Held(request.input, Reservation(cfg))
      && Minus(CountOf(t.states[n].buckets, request.minute), Held(request.input, Reservation(cfg))) ==
         OthersNet(t, n, request.minute, task)
  {
    var minute := t.states[i].tasks[task].minute;
    TaskStays(cfg, t, i, n, task);
    LeavingStays(cfg, t, i, n, task);
    OwnNetIsKept(cfg, t, n, task, minute);
    NetsAddUp(t, n, minute, task);
  }

  /**
   * In every run, the reservation of a finalized or released request has left a bucket it was made
   * in if and only if `reservedAt` names that bucket.
   */
  lemma ReservationLeftIff(cfg: Config, t: Run, n: nat, task: nat)
    requires IsRun(cfg, t) && n <= |t.actions| && task in t.states[n].tasks && Reservation(cfg) > 0
    requires t.states[n].tasks[task].phase.Finalized? || t.states[n].tasks[task].phase.Released?
    ensures var request := t.states[n].tasks[task];
      && (OwnNet(t, n, request.minute, task).reserved == 0 <==> request.settleMinute == request.minute)
      && (OwnNet(t, n, request.day, task).reserved == 0 <==> request.settleDay == request.day)
  {
    var request := t.states[n].tasks[task];
    BasicsHold(cfg, t, n);
    assert HasBuckets(t.states[n].buckets, request);
    OwnNetIsKept(cfg, t, n, task, request.minute);
    OwnNetIsKept(cfg, t, n, task, request.day);
  }

  // ---------- which outputs keep the quota ----------

  /** A finalize keeps every state within its limits if and only if its output is within the reservation. */
  lemma FinalizeKeepsLimitsIff(cfg: Config, task: nat, output: int)
    requires output >= 0 && cfg.tokensPerMinute >= 0 && cfg.tokensPerDay >= 0 && cfg.requestsPerMinute >= 1
    ensures (forall s :: WithinLimits(cfg, s) && Enabled(s, Finalize(task, output)) ==>
              WithinLimits(cfg, Next(cfg, s, Finalize(task, output)))) <==> output <= Reservation(cfg)
  {
    if output <= Reservation(cfg) {
      forall s | WithinLimits(cfg, s) && Enabled(s, Finalize(task, output))
        ensures WithinLimits(cfg, Next(cfg, s, Finalize(task, output)))
      {
        FinalizeWithin(cfg, s, Finalize(task, output));
      }
    } else {
      var minute, day := BucketId(0, Minute, 0), BucketId(0, Day, 0);
      var full := State(map[minute := Bucket(cfg.tokensPerMinute, 0, 0, 1)],
              map[task := Task(0, 0, 0, minute, day, minute, day, Running)]);
      forall id ensures WithinLimit(cfg, CountOf(full.buckets, id), id.kind) {}
      FinalizeOverspends(cfg, full, task, output);
    }
  }

  /** An output above the reservation takes a full bucket over its limit. */
  lemma FinalizeOverspends(cfg: Config, s: State, task: nat, output: int)
    requires Enabled(s, Finalize(task, output)) && s.tasks[task].phase.Running? && output > Reservation(cfg)
    requires HasSettle(s, task)
    requires
      var t := s.tasks[task];
      Full(cfg, s.buckets, t.settleMinute) || (t.settleDay in s.buckets && Full(cfg, s.buckets, t.settleDay))
    ensures !WithinLimits(cfg, Next(cfg, s, Finalize(task, output)))
  {
    var t := s.tasks[task];
    var k := if Full(cfg, s.buckets, t.settleMinute) then t.settleMinute else t.settleDay;
    var delta := Bucket(0, output, -Reservation(cfg), 0);
    IncCount(s.buckets, t.settleMinute, delta, k);
    IncCount(Inc(s.buckets, t.settleMinute, delta), t.settleDay, delta, k);
    assert !WithinLimit(cfg, CountOf(Next(cfg, s, Finalize(task, output)).buckets, k), k.kind);
  }

  predicate HasSettle(s: State, task: nat)
    requires task in s.tasks
  {
    var t := s.tasks[task];
    t.settleMinute in s.buckets && t.settleMinute.kind == Minute && t.settleDay.kind == Day
  }

  /** A bucket with no token left. */
  predicate Full(cfg: Config, bs: Buckets, id: BucketId) {
    var b := CountOf(bs, id);
    b.input + b.output + b.reserved == TokenLimit(cfg, id.kind)
  }

  lemma Extend(cfg: Config, t: Run, a: Action) returns (t': Run)
    requires IsRun(cfg, t) && Enabled(t.states[|t.actions|], a)
    ensures IsRun(cfg, t')
    ensures t'.actions == t.actions + [a]
    ensures t'.states == t.states + [Next(cfg, t.states[|t.actions|], a)]
  {
    t' := Run(t.states + [Next(cfg, t.states[|t.actions|], a)], t.actions + [a]);
    forall i | 0 <= i < |t'.actions| ensures StepAt(cfg, t', i) {
      if i < |t.actions| { assert StepAt(cfg, t, i); }
    }
  }

  /** Whether an empty bucket has room for a request at all. */
  predicate CanAdmit(cfg: Config) {
    Reservation(cfg) <= cfg.tokensPerMinute && Reservation(cfg) <= cfg.tokensPerDay && cfg.requestsPerMinute >= 1
  }

  ghost predicate OutputsAtMost(t: Run, output: int) {
    forall i :: 0 <= i < |t.actions| && t.actions[i].Finalize? ==> t.actions[i].output <= output
  }

  ghost predicate RunWithin(cfg: Config, t: Run) {
    forall n :: 0 <= n < |t.states| ==> WithinLimits(cfg, t.states[n])
  }

  const MINUTE_ZERO := BucketId(0, Minute, 0)
  const DAY_ZERO := BucketId(0, Day, 0)

  function FirstRequest(cfg: Config, input: int, phase: Phase): State {
    State(map[MINUTE_ZERO := Held(input, Reservation(cfg)), DAY_ZERO := Held(input, Reservation(cfg))],
          map[0 := Task(0, 0, input, MINUTE_ZERO, DAY_ZERO, MINUTE_ZERO, DAY_ZERO, phase)])
  }

  /** One request admitted into empty buckets, and running. */
  lemma FirstRequestRuns(cfg: Config, input: int) returns (t: Run)
    requires input >= 0 && cfg.requestsPerMinute >= 1
    requires input + Reservation(cfg) <= cfg.tokensPerMinute && input + Reservation(cfg) <= cfg.tokensPerDay
    ensures IsRun(cfg, t) && AllPunctual(t) && OutputsAtMost(t, 0)
    ensures t.states[|t.actions|] == FirstRequest(cfg, input, Running)
  {
    t := FirstRequestHeld(cfg, input);
    t := Extend(cfg, t, UpsertDay(0));
    t := Extend(cfg, t, ReserveDay(0));
    assert t.states[|t.actions|] == FirstRequest(cfg, input, Admitted);
    t := Extend(cfg, t, StoreRun(0));
  }

  lemma FirstRequestHeld(cfg: Config, input: int) returns (t: Run)
    requires input >= 0 && cfg.requestsPerMinute >= 1 && input + Reservation(cfg) <= cfg.tokensPerMinute
    ensures IsRun(cfg, t) && AllPunctual(t) && OutputsAtMost(t, 0)
    ensures t.states[|t.actions|] ==
            State(map[MINUTE_ZERO := Held(input, Reservation(cfg))],
                  map[0 := Task(0, 0, input, MINUTE_ZERO, DAY_ZERO, MINUTE_ZERO, DAY_ZERO, MinuteHeld)])
  {
    t := Run([INITIAL], []);
    t := Extend(cfg, t, Begin(0, 0, input, 0, 0));
    t := Extend(cfg, t, UpsertMinute(0));
    t := Extend(cfg, t, ReserveMinute(0));
  }

  /** A request that fills a bucket and then gets more output than it reserved: a run over the limit. */
  lemma LongOutputOverspends(cfg: Config, output: int) returns (t: Run)
    requires CanAdmit(cfg) && output > Reservation(cfg)
    ensures IsRun(cfg, t) && AllPunctual(t) && OutputsAtMost(t, output) && !RunWithin(cfg, t)
  {
    var room := if cfg.tokensPerMinute <= cfg.tokensPerDay then cfg.tokensPerMinute else cfg.tokensPerDay;
    var running := FirstRequestRuns(cfg, room - Reservation(cfg));
    t := Extend(cfg, running, Finalize(0, output));
    FinalizeOverspends(cfg, running.states[|running.actions|], 0, output);
    assert !WithinLimits(cfg, t.states[|t.actions|]);
  }

  /** Phases a request can reach without ever being admitted. */
  predicate NotAdmitted(cfg: Config, p: Phase) {
    && (p.Begun? || p.MinuteReady? || p.MinuteHeld? || p.DayReady?
        || p.DayRefused? || p.ReservedReturned? || p.Rejected?)
    && ((Reservation(cfg) <= cfg.tokensPerMinute && cfg.requestsPerMinute >= 1)
        || p.Begun? || p.MinuteReady? || p.Rejected?)
  }

  ghost predicate NoneAdmitted(cfg: Config, s: State) {
    forall task :: task in s.tasks ==> NotAdmitted(cfg, s.tasks[task].phase)
  }

  /** A configuration without room for one reservation never admits a request, and so nothing ever settles. */
  lemma {:induction false} NobodyAdmitted(cfg: Config, t: Run, n: nat)
    requires IsRun(cfg, t) && n <= |t.actions| && !CanAdmit(cfg)
    ensures NoneAdmitted(cfg, t.states[n]) && Balanced(cfg, t.states[n])
  {
    if n == 0 {
      InitiallyBalanced(cfg);
    } else {
      var s, a := t.states[n - 1], t.actions[n - 1];
      NobodyAdmitted(cfg, t, n - 1);
      BasicsHold(cfg, t, n - 1);
      assert StepAt(cfg, t, n - 1);
      if a.task in s.tasks {
        assert NotAdmitted(cfg, s.tasks[a.task].phase);
        BalancedIsNatural(cfg, t, n - 1, s.tasks[a.task].minute);
        BalancedIsNatural(cfg, t, n - 1, s.tasks[a.task].day);
        StaysOut(cfg, s, a);
      }
      OneTaskSet(cfg, s, a);
      NothingLeaves(cfg, s, a);
      BalancedStep(cfg, s, a);
    }
  }

  lemma NothingLeaves(cfg: Config, s: State, a: Action)
    requires Enabled(s, a) && (a.task in s.tasks ==> NotAdmitted(cfg, s.tasks[a.task].phase))
    ensures !Leaves(s, a) && !a.Finalize?
  {
  }

  lemma StaysOut(cfg: Config, s: State, a: Action)
    requires Enabled(s, a) && BucketsExist(s) && InputsNatural(s) && !CanAdmit(cfg)
    requires a.task in s.tasks && NotAdmitted(cfg, s.tasks[a.task].phase)
    requires NaturalBucket(CountOf(s.buckets, s.tasks[a.task].minute))
      && NaturalBucket(CountOf(s.buckets, s.tasks[a.task].day))
    ensures a.task in Next(cfg, s, a).tasks && NotAdmitted(cfg, Next(cfg, s, a).tasks[a.task].phase)
  {
    assert HasBuckets(s.buckets, s.tasks[a.task]);
  }

  /**
   * The exact condition: outputs up to a bound keep every run within its limits if and only if the
   * bound is the reservation at most, or the configuration never admits anything.
   */
  lemma OutputsKeepLimitsIff(cfg: Config, output: int)
    requires output >= 0 && cfg.tokensPerMinute >= 0 && cfg.tokensPerDay >= 0 && cfg.requestsPerMinute >= 0
    ensures (forall t :: IsRun(cfg, t) && OutputsAtMost(t, output) ==> RunWithin(cfg, t)) <==>
            (output <= Reservation(cfg) || !CanAdmit(cfg))
  {
    if output <= Reservation(cfg) || !CanAdmit(cfg) {
      forall t | IsRun(cfg, t) && OutputsAtMost(t, output) ensures RunWithin(cfg, t) {
        forall i | 0 <= i < |t.actions| ensures OutputBounded(cfg, t.actions[i]) {
          assert StepAt(cfg, t, i);
          if !CanAdmit(cfg) {
            NobodyAdmitted(cfg, t, i);
            NothingLeaves(cfg, t.states[i], t.actions[i]);
          }
        }
        forall n | 0 <= n < |t.states| ensures WithinLimits(cfg, t.states[n]) { SumsWithinLimits(cfg, t, n); }
      }
    } else {
      var t := LongOutputOverspends(cfg, output);
    }
  }
}
