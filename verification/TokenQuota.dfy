/**
 * The two-bucket token quota: reserve in the minute bucket, then in the day bucket, roll back in
 * two updates, settle in one transaction or release in two updates.
 *
 * The first part is the rate limiter itself; the second part is the state machine of its single
 * database updates by any number of requests, with what each update keeps.
 */
module TokenQuota {
  import SetSums

  datatype Kind = Minute | Day

  /** Start of the window that contains a timestamp in milliseconds. */
  function WindowStart(kind: Kind, timestamp: int): int {
    if kind == Day then timestamp / 86_400_000 * 86_400_000 else timestamp / 60_000 * 60_000
  }

  datatype BucketId = BucketId(user: nat, kind: Kind, start: int)

  function IdFor(user: nat, kind: Kind, timestamp: int): BucketId {
    BucketId(user, kind, WindowStart(kind, timestamp))
  }

  /** A user's requests share a bucket of a kind exactly when they fall into the same UTC minute or day. */
  lemma SameBucketIff(user: nat, kind: Kind, timestamp: int, user': nat, kind': Kind, timestamp': int)
    ensures IdFor(user, kind, timestamp) == IdFor(user', kind', timestamp') <==>
            user == user' && kind == kind' &&
            (if kind == Day then timestamp / 86_400_000 == timestamp' / 86_400_000
             else timestamp / 60_000 == timestamp' / 60_000)
  {
  }

  datatype Bucket = Bucket(input: int, output: int, reserved: int, requests: int)

  const ZERO := Bucket(0, 0, 0, 0)

  type Buckets = map<BucketId, Bucket>

  datatype Config = Config(tokensPerMinute: int, tokensPerDay: int, requestsPerMinute: int, maxReserved: int)

  function TokenLimit(cfg: Config, kind: Kind): int {
    if kind == Day then cfg.tokensPerDay else cfg.tokensPerMinute
  }

  function Reservation(cfg: Config): (r: int)
    ensures r >= 0 && r >= cfg.maxReserved && (r == 0 || r == cfg.maxReserved)
  {
    if cfg.maxReserved > 0 then cfg.maxReserved else 0
  }

  function Plus(a: Bucket, b: Bucket): Bucket {
    Bucket(a.input + b.input, a.output + b.output, a.reserved + b.reserved, a.requests + b.requests)
  }

  function Minus(a: Bucket, b: Bucket): Bucket {
    Bucket(a.input - b.input, a.output - b.output, a.reserved - b.reserved, a.requests - b.requests)
  }

  /** `updateOne` with $inc: a missing document is left missing. */
  function Inc(bs: Buckets, id: BucketId, delta: Bucket): Buckets {
    if id in bs then bs[id := Plus(bs[id], delta)] else bs
  }

  /** The upsert: a missing bucket is inserted with zero counters. */
  function Upserted(bs: Buckets, id: BucketId): Buckets {
    if id in bs then bs else bs[id := ZERO]
  }

  /** The quota predicate of the conditional update. */
  predicate Fits(cfg: Config, b: Bucket, kind: Kind, input: int, reservation: int) {
    && b.input + b.output + b.reserved + (input + reservation) <= TokenLimit(cfg, kind)
    && (kind == Minute ==> b.requests + 1 <= cfg.requestsPerMinute)
  }

  function Held(input: int, reservation: int): Bucket {
    Bucket(input, 0, reservation, 1)
  }

  function CountOf(bs: Buckets, id: BucketId): Bucket {
    if id in bs then bs[id] else ZERO
  }

  /** Both buckets made and charged, as by an allowed `reserveQuota`. */
  function Charged(bs: Buckets, minute: BucketId, day: BucketId, held: Bucket): Buckets {
    Inc(Upserted(Inc(Upserted(bs, minute), minute, held), day), day, held)
  }

  // ---------- the rate limiter ----------

  class RateLimiter {
    const cfg: Config
    var buckets: Buckets

    constructor (cfg: Config)
      ensures this.cfg == cfg && buckets == map[]
    {
      this.cfg, buckets := cfg, map[];
    }

    /** `changeBucket` without `release`: upsert, then the conditional increment. */
    method Reserve(id: BucketId, input: int, reservation: int) returns (changed: bool)
      modifies this`buckets
      ensures
        var b := CountOf(old(buckets), id);
        changed <==>
        && b.input + b.output + b.reserved + input + reservation <=
           (if id.kind == Day then cfg.tokensPerDay else cfg.tokensPerMinute)
        && (id.kind == Minute ==> b.requests + 1 <= cfg.requestsPerMinute)
      ensures buckets == if changed then Inc(Upserted(old(buckets), id), id, Held(input, reservation))
                         else Upserted(old(buckets), id)
    {
      if id !in buckets { buckets := buckets[id := ZERO]; }
      var b := buckets[id];
      changed := Fits(cfg, b, id.kind, input, reservation);
      if changed {
        buckets := buckets[id := Bucket(b.input + input, b.output, b.reserved + reservation, b.requests + 1)];
      }
    }

    method Increment(id: BucketId, delta: Bucket)
      modifies this`buckets
      ensures buckets == Inc(old(buckets), id, delta)
    {
      if id in buckets {
        buckets := buckets[id := Plus(buckets[id], delta)];
      }
    }

    /**
     * `reserveQuota`: both buckets are charged, or neither is: a refused request leaves every
     * counter as it was.
     */
    method ReserveQuota(user: nat, input: int, now: int) returns (allowed: bool)
      modifies this`buckets
      ensures var m, d := IdFor(user, Minute, now), IdFor(user, Day, now);
        var minute, day := CountOf(old(buckets), m), CountOf(old(buckets), d);
        allowed <==>
          && minute.input + minute.output + minute.reserved + input + Reservation(cfg) <= cfg.tokensPerMinute
          && minute.requests + 1 <= cfg.requestsPerMinute
          && day.input + day.output + day.reserved + input + Reservation(cfg) <= cfg.tokensPerDay
      ensures forall id ::
        CountOf(buckets, id) ==
          if allowed && (id == IdFor(user, Minute, now) || id == IdFor(user, Day, now))
          then Plus(CountOf(old(buckets), id), Held(input, Reservation(cfg)))
          else CountOf(old(buckets), id)
      ensures allowed ==>
        buckets == Charged(old(buckets), IdFor(user, Minute, now), IdFor(user, Day, now), Held(input, Reservation(cfg)))
    {
      var reservation := Reservation(cfg);
      var minute, day := IdFor(user, Minute, now), IdFor(user, Day, now);
      var inMinute := Reserve(minute, input, reservation);
      if !inMinute { return false; }
      var inDay := Reserve(day, input, reservation);
      if !inDay {
        Increment(minute, Bucket(0, 0, -reservation, 0));
        Increment(minute, Bucket(-input, 0, 0, -1));
        return false;
      }
      allowed := true;
    }

    /** `finalizeQuota`, inside the task's transaction. */
    method FinalizeQuota(user: nat, reserved: int, output: int, reservedAt: int)
      modifies this`buckets
      ensures buckets == Inc(Inc(old(buckets), IdFor(user, Minute, reservedAt), Bucket(0, output, -reserved, 0)),
                             IdFor(user, Day, reservedAt), Bucket(0, output, -reserved, 0))
    {
      Increment(IdFor(user, Minute, reservedAt), Bucket(0, output, -reserved, 0));
      Increment(IdFor(user, Day, reservedAt), Bucket(0, output, -reserved, 0));
    }

    /** `releaseQuota`. */
    method ReleaseQuota(user: nat, input: int, reserved: int, reservedAt: int)
      modifies this`buckets
      ensures buckets == Returned(old(buckets), IdFor(user, Minute, reservedAt),
                IdFor(user, Day, reservedAt), input, reserved)
    {
      Increment(IdFor(user, Minute, reservedAt), Bucket(-input, 0, -reserved, -1));
      Increment(IdFor(user, Day, reservedAt), Bucket(-input, 0, -reserved, -1));
    }
  }

  /** Both updates of `releaseQuota`. */
  function Returned(bs: Buckets, minute: BucketId, day: BucketId, input: int, reserved: int): Buckets {
    Inc(Inc(bs, minute, Bucket(-input, 0, -reserved, -1)), day, Bucket(-input, 0, -reserved, -1))
  }

  /**
   * Releasing right after an allowed reserve brings every counter back if and only if it names the
   * two windows that were charged.
   */
  lemma ReleaseUndoesIffSameWindows(
    bs: Buckets, minute: BucketId, day: BucketId, minute': BucketId, day': BucketId, input: int, reserved: int)
    requires minute.kind == minute'.kind == Minute && day.kind == day'.kind == Day
    ensures var released := Returned(Charged(bs, minute, day, Held(input, reserved)), minute', day', input, reserved);
      (forall id :: CountOf(released, id) == CountOf(bs, id)) <==> (minute' == minute && day' == day)
  {
    var charged := Charged(bs, minute, day, Held(input, reserved));
    var released := Returned(charged, minute', day', input, reserved);
    forall id
      ensures CountOf(charged, id) ==
              if id == minute || id == day then Plus(CountOf(bs, id), Held(input, reserved)) else CountOf(bs, id)
    {
      ChargedCount(bs, minute, day, Held(input, reserved), id);
    }
    ReturnedCount(charged, minute', day', input, reserved, minute);
    ReturnedCount(charged, minute', day', input, reserved, day);
    if minute' == minute && day' == day {
      forall id ensures CountOf(released, id) == CountOf(bs, id) {
        ReturnedCount(charged, minute', day', input, reserved, id);
      }
    } else if minute' != minute {
      assert CountOf(released, minute).requests != CountOf(bs, minute).requests;
    } else {
      assert CountOf(released, day).requests != CountOf(bs, day).requests;
    }
  }

  lemma ChargedKeys(bs: Buckets, minute: BucketId, day: BucketId, held: Bucket)
    ensures Charged(bs, minute, day, held).Keys == bs.Keys + {minute, day}
  {
  }

  /** One bucket made and charged. */
  lemma MadeCount(bs: Buckets, k: BucketId, held: Bucket, id: BucketId)
    ensures CountOf(Inc(Upserted(bs, k), k, held), id) ==
            if id == k then Plus(CountOf(bs, id), held) else CountOf(bs, id)
  {
    UpsertCount(bs, k, id);
    IncCount(Upserted(bs, k), k, held, id);
  }

  lemma ChargedCount(bs: Buckets, minute: BucketId, day: BucketId, held: Bucket, id: BucketId)
    requires minute != day
    ensures minute in Charged(bs, minute, day, held) && day in Charged(bs, minute, day, held)
    ensures CountOf(Charged(bs, minute, day, held), id) ==
            if id == minute || id == day then Plus(CountOf(bs, id), held) else CountOf(bs, id)
  {
    ChargedKeys(bs, minute, day, held);
    MadeCount(bs, minute, held, id);
    MadeCount(Inc(Upserted(bs, minute), minute, held), day, held, id);
  }

  lemma ReturnedCount(bs: Buckets, minute: BucketId, day: BucketId, input: int, reserved: int, id: BucketId)
    requires minute != day
    ensures CountOf(Returned(bs, minute, day, input, reserved), id) ==
            if id in bs && (id == minute || id == day) then Plus(CountOf(bs, id), Bucket(-input, 0, -reserved, -1))
            else CountOf(bs, id)
  {
    var delta := Bucket(-input, 0, -reserved, -1);
    IncCount(bs, minute, delta, id);
    IncCount(Inc(bs, minute, delta), day, delta, id);
  }

  // ---------- requests under interleaving ----------

  /** Where a request stands between two database updates. */
  datatype Phase =
    | Begun                   // nothing written
    | MinuteReady             // minute bucket exists
    | MinuteHeld              // minute bucket charged
    | DayReady                // day bucket exists too
    | DayRefused              // day bucket full, or its update failed: roll back
    | ReservedReturned        // first rollback update done
    | Rejected
    | Admitted                // both buckets charged
    | Running                 // task stored with its run
    | Finalized(output: int)
    | HalfReleased            // minute bucket released
    | Released

  /**
   * The buckets a request reserves in are those of `now`, the clock its reserve step read; the
   * buckets it settles in are those of the `reservedAt` stored on the task.
   */
  datatype Task = Task(
    user: nat, now: int, input: int,
    minute: BucketId, day: BucketId, settleMinute: BucketId, settleDay: BucketId, phase: Phase)

  datatype State = State(buckets: Buckets, tasks: map<nat, Task>)

  const INITIAL := State(map[], map[])

  datatype Action =
    | Begin(task: nat, user: nat, input: int, now: int, reservedAt: int)
    | UpsertMinute(task: nat)
    | ReserveMinute(task: nat)
    | UpsertDay(task: nat)
    | ReserveDay(task: nat)
    | DayError(task: nat)
    | ReturnReserved(task: nat)
    | ReturnInput(task: nat)
    | StoreRun(task: nat)
    | ReleaseMinute(task: nat)
    | ReleaseDay(task: nat)
    | Finalize(task: nat, output: int)

  predicate At(s: State, task: nat, phase: Phase) {
    task in s.tasks && s.tasks[task].phase == phase
  }

  predicate Enabled(s: State, a: Action) {
    match a
    case Begin(task, _, input, _, _) => task !in s.tasks && input >= 0
    case UpsertMinute(task) => At(s, task, Begun)
    case ReserveMinute(task) => At(s, task, MinuteReady)
    case UpsertDay(task) => At(s, task, MinuteHeld)
    case ReserveDay(task) => At(s, task, DayReady)
    case DayError(task) => At(s, task, MinuteHeld) || At(s, task, DayReady)
    case ReturnReserved(task) => At(s, task, DayRefused)
    case ReturnInput(task) => At(s, task, ReservedReturned)
    case StoreRun(task) => At(s, task, Admitted)
    case ReleaseMinute(task) => At(s, task, Admitted)
    case ReleaseDay(task) => At(s, task, HalfReleased)
    case Finalize(task, output) =>
      task in s.tasks && (s.tasks[task].phase.Running? || s.tasks[task].phase.Finalized?) && output >= 0
  }

  function Moved(s: State, task: nat, bs: Buckets, phase: Phase): State
    requires task in s.tasks
  {
    State(bs, s.tasks[task := s.tasks[task].(phase := phase)])
  }

  function Next(cfg: Config, s: State, a: Action): State
    requires Enabled(s, a)
  {
    var r := Reservation(cfg);
    match a
    case Begin(task, user, input, now, reservedAt) =>
      s.(tasks := s.tasks[task := Task(user, now, input, IdFor(user, Minute, now), IdFor(user, Day, now),
                                       IdFor(user, Minute, reservedAt), IdFor(user, Day, reservedAt), Begun)])
    case UpsertMinute(task) =>
      Moved(s, task, Upserted(s.buckets, s.tasks[task].minute), MinuteReady)
    case ReserveMinute(task) =>
      var t := s.tasks[task];
      var id := t.minute;
      if id in s.buckets && Fits(cfg, s.buckets[id], Minute, t.input, r) then
        Moved(s, task, Inc(s.buckets, id, Held(t.input, r)), MinuteHeld)
      else Moved(s, task, s.buckets, Rejected)
    case UpsertDay(task) =>
      Moved(s, task, Upserted(s.buckets, s.tasks[task].day), DayReady)
    case ReserveDay(task) =>
      var t := s.tasks[task];
      var id := t.day;
      if id in s.buckets && Fits(cfg, s.buckets[id], Day, t.input, r) then
        Moved(s, task, Inc(s.buckets, id, Held(t.input, r)), Admitted)
      else Moved(s, task, s.buckets, DayRefused)
    case DayError(task) => Moved(s, task, s.buckets, DayRefused)
    case ReturnReserved(task) =>
      Moved(s, task, Inc(s.buckets, s.tasks[task].minute, Bucket(0, 0, -r, 0)), ReservedReturned)
    case ReturnInput(task) =>
      Moved(s, task, Inc(s.buckets, s.tasks[task].minute, Bucket(-s.tasks[task].input, 0, 0, -1)), Rejected)
    case StoreRun(task) => Moved(s, task, s.buckets, Running)
    case ReleaseMinute(task) =>
      Moved(s, task, Inc(s.buckets, s.tasks[task].settleMinute, Bucket(-s.tasks[task].input, 0, -r, -1)), HalfReleased)
    case ReleaseDay(task) =>
      Moved(s, task, Inc(s.buckets, s.tasks[task].settleDay, Bucket(-s.tasks[task].input, 0, -r, -1)), Released)
    case Finalize(task, output) =>
      var t := s.tasks[task];
      if t.phase.Finalized? then s
      else Moved(s, task, Settled(cfg, s.buckets, t, output), Finalized(output))
  }

  /** Both updates of `finalizeQuota`. */
  function Settled(cfg: Config, bs: Buckets, t: Task, output: int): Buckets {
    var delta := Bucket(0, output, -Reservation(cfg), 0);
    Inc(Inc(bs, t.settleMinute, delta), t.settleDay, delta)
  }

  /** What a request has put into its minute bucket and not taken out again. */
  function MinutePart(cfg: Config, t: Task): Bucket {
    match t.phase
    case MinuteHeld => Held(t.input, Reservation(cfg))
    case DayReady => Held(t.input, Reservation(cfg))
    case DayRefused => Held(t.input, Reservation(cfg))
    case ReservedReturned => Bucket(t.input, 0, 0, 1)
    case Admitted => Held(t.input, Reservation(cfg))
    case Running => Held(t.input, Reservation(cfg))
    case Finalized(output) => Bucket(t.input, output, 0, 1)
    case _ => ZERO
  }

  function DayPart(cfg: Config, t: Task): Bucket {
    match t.phase
    case Admitted => Held(t.input, Reservation(cfg))
    case Running => Held(t.input, Reservation(cfg))
    case HalfReleased => Held(t.input, Reservation(cfg))
    case Finalized(output) => Bucket(t.input, output, 0, 1)
    case _ => ZERO
  }

  function Part(cfg: Config, t: Task, id: BucketId): Bucket {
    if id == t.minute then MinutePart(cfg, t)
    else if id == t.day then DayPart(cfg, t)
    else ZERO
  }

  datatype Field = Input | Output | Reserved | Requests

  function Get(b: Bucket, f: Field): int {
    match f
    case Input => b.input
    case Output => b.output
    case Reserved => b.reserved
    case Requests => b.requests
  }

  function Parts(cfg: Config, tasks: map<nat, Task>, id: BucketId, f: Field): map<nat, int> {
    map task | task in tasks :: Get(Part(cfg, tasks[task], id), f)
  }

  /** Every counter of every bucket is the sum of what the requests hold in it. */
  ghost predicate Balanced(cfg: Config, s: State) {
    forall id, f :: BalancedAt(cfg, s, id, f)
  }

  ghost predicate BalancedAt(cfg: Config, s: State, id: BucketId, f: Field) {
    Get(CountOf(s.buckets, id), f) == SetSums.Sum(Parts(cfg, s.tasks, id, f))
  }

  /** `reservedAt` falls into the windows the request reserved in. */
  predicate SameWindows(t: Task) {
    t.settleMinute == t.minute && t.settleDay == t.day
  }

  /** A request that got as far as charging a bucket finds it there afterwards. */
  predicate HasBuckets(bs: Buckets, t: Task) {
    && t.minute.kind == t.settleMinute.kind == Minute && t.day.kind == t.settleDay.kind == Day
    && (t.phase.Begun? || t.phase.Rejected? || t.minute in bs)
    && (t.phase.DayReady? || t.phase.Admitted? || t.phase.Running? || t.phase.HalfReleased? || t.phase.Finalized?
        ==> t.day in bs)
  }

  ghost predicate BucketsExist(s: State) {
    forall task :: task in s.tasks ==> HasBuckets(s.buckets, s.tasks[task])
  }

  /** The request's part before and after an action; a request not begun has none. */
  function PartAt(cfg: Config, s: State, task: nat, id: BucketId): Bucket {
    if task in s.tasks then Part(cfg, s.tasks[task], id) else ZERO
  }

  /** Bucket `id` moves exactly as the part of request `task` in it moves: what is left without that part stays. */
  ghost predicate MovesWith(cfg: Config, s: State, s': State, task: nat, id: BucketId) {
    Minus(CountOf(s'.buckets, id), PartAt(cfg, s', task, id)) == Minus(CountOf(s.buckets, id), PartAt(cfg, s, task, id))
  }

  lemma SumMoves(cfg: Config, s: State, task: nat, t: Task, id: BucketId, f: Field)
    ensures SetSums.Sum(Parts(cfg, s.tasks[task := t], id, f)) ==
            SetSums.Sum(Parts(cfg, s.tasks, id, f)) - Get(PartAt(cfg, s, task, id), f) + Get(Part(cfg, t, id), f)
  {
    var v := Get(Part(cfg, t, id), f);
    SetSums.SumSet(Parts(cfg, s.tasks, id, f), task, v);
    assert Parts(cfg, s.tasks[task := t], id, f) == Parts(cfg, s.tasks, id, f)[task := v];
  }

  lemma OneTaskMoves(cfg: Config, s: State, s': State, task: nat, id: BucketId, f: Field)
    requires BalancedAt(cfg, s, id, f)
    requires task in s'.tasks && s'.tasks == s.tasks[task := s'.tasks[task]]
    requires MovesWith(cfg, s, s', task, id)
    ensures BalancedAt(cfg, s', id, f)
  {
    SumMoves(cfg, s, task, s'.tasks[task], id, f);
    GetMinus(CountOf(s'.buckets, id), PartAt(cfg, s', task, id), f);
    GetMinus(CountOf(s.buckets, id), PartAt(cfg, s, task, id), f);
  }

  lemma GetMinus(a: Bucket, b: Bucket, f: Field)
    ensures Get(Minus(a, b), f) == Get(a, f) - Get(b, f)
  {
  }

  lemma IncCount(bs: Buckets, k: BucketId, delta: Bucket, id: BucketId)
    ensures CountOf(Inc(bs, k, delta), id) ==
            if id == k && k in bs then Plus(CountOf(bs, id), delta) else CountOf(bs, id)
  {
  }

  lemma UpsertCount(bs: Buckets, k: BucketId, id: BucketId)
    ensures CountOf(Upserted(bs, k), id) == CountOf(bs, id)
  {
  }

  /** A move that increments bucket k by delta follows a request whose part grows by delta in k alone. */
  lemma IncMoves(cfg: Config, s: State, task: nat, k: BucketId, delta: Bucket, phase: Phase, id: BucketId)
    requires task in s.tasks && k in s.buckets
    requires Part(cfg, s.tasks[task].(phase := phase), id) ==
             if id == k then Plus(Part(cfg, s.tasks[task], id), delta) else Part(cfg, s.tasks[task], id)
    ensures MovesWith(cfg, s, Moved(s, task, Inc(s.buckets, k, delta), phase), task, id)
  {
    IncCount(s.buckets, k, delta, id);
  }

  /** A move that leaves every count alone follows a request whose part stays the same. */
  lemma StillMoves(cfg: Config, s: State, task: nat, bs: Buckets, phase: Phase, id: BucketId)
    requires task in s.tasks && CountOf(bs, id) == CountOf(s.buckets, id)
    requires Part(cfg, s.tasks[task].(phase := phase), id) == Part(cfg, s.tasks[task], id)
    ensures MovesWith(cfg, s, Moved(s, task, bs, phase), task, id)
  {
  }

  lemma ReserveMoves(cfg: Config, s: State, a: Action, id: BucketId)
    requires BucketsExist(s) && Enabled(s, a) && (a.ReserveMinute? || a.ReserveDay?)
    ensures MovesWith(cfg, s, Next(cfg, s, a), a.task, id)
  {
    var t := s.tasks[a.task];
    var held := Held(t.input, Reservation(cfg));
    var k := if a.ReserveMinute? then t.minute else t.day;
    assert HasBuckets(s.buckets, t);
    if Fits(cfg, s.buckets[k], k.kind, t.input, Reservation(cfg)) {
      IncMoves(cfg, s, a.task, k, held, if a.ReserveMinute? then MinuteHeld else Admitted, id);
    } else {
      StillMoves(cfg, s, a.task, s.buckets, if a.ReserveMinute? then Rejected else DayRefused, id);
    }
  }

  lemma RollbackMoves(cfg: Config, s: State, a: Action, id: BucketId)
    requires BucketsExist(s) && Enabled(s, a) && (a.ReturnReserved? || a.ReturnInput?)
    ensures MovesWith(cfg, s, Next(cfg, s, a), a.task, id)
  {
    var t := s.tasks[a.task];
    assert HasBuckets(s.buckets, t);
    if a.ReturnReserved? {
      IncMoves(cfg, s, a.task, t.minute, Bucket(0, 0, -Reservation(cfg), 0), ReservedReturned, id);
    } else {
      IncMoves(cfg, s, a.task, t.minute, Bucket(-t.input, 0, 0, -1), Rejected, id);
    }
  }

  lemma ReleaseMoves(cfg: Config, s: State, a: Action, id: BucketId)
    requires BucketsExist(s) && Enabled(s, a) && (a.ReleaseMinute? || a.ReleaseDay?)
    requires SettlesInPlace(s.tasks[a.task], a)
    ensures MovesWith(cfg, s, Next(cfg, s, a), a.task, id)
  {
    var t := s.tasks[a.task];
    var delta := Bucket(-t.input, 0, -Reservation(cfg), -1);
    assert HasBuckets(s.buckets, t);
    if a.ReleaseMinute? {
      IncMoves(cfg, s, a.task, t.minute, delta, HalfReleased, id);
    } else {
      IncMoves(cfg, s, a.task, t.day, delta, Released, id);
    }
  }

  lemma FinalizeMoves(cfg: Config, s: State, a: Action, id: BucketId)
    requires BucketsExist(s) && Enabled(s, a) && a.Finalize?
    requires s.tasks[a.task].phase.Finalized? || SettlesInPlace(s.tasks[a.task], a)
    ensures MovesWith(cfg, s, Next(cfg, s, a), a.task, id)
  {
    var t := s.tasks[a.task];
    assert HasBuckets(s.buckets, t);
    if !t.phase.Finalized? {
      var delta := Bucket(0, a.output, -Reservation(cfg), 0);
      IncCount(s.buckets, t.minute, delta, id);
      IncCount(Inc(s.buckets, t.minute, delta), t.day, delta, id);
      SettledPart(cfg, t, a.output, id);
    }
  }

  lemma SettledPart(cfg: Config, t: Task, output: int, id: BucketId)
    requires t.phase.Running? && t.minute.kind == Minute && t.day.kind == Day
    ensures var before, after := Part(cfg, t, id), Part(cfg, t.(phase := Finalized(output)), id);
      after == if id == t.minute || id == t.day then Plus(before, Bucket(0, output, -Reservation(cfg), 0)) else before
  {
  }

  lemma QuietMoves(cfg: Config, s: State, a: Action, id: BucketId)
    requires Enabled(s, a)
    requires a.Begin? || a.UpsertMinute? || a.UpsertDay? || a.DayError? || a.StoreRun?
    ensures MovesWith(cfg, s, Next(cfg, s, a), a.task, id)
  {
    if !a.Begin? {
      var t := s.tasks[a.task];
      match a
      case UpsertMinute(task) =>
        UpsertCount(s.buckets, t.minute, id);
        StillMoves(cfg, s, task, Upserted(s.buckets, t.minute), MinuteReady, id);
      case UpsertDay(task) =>
        UpsertCount(s.buckets, t.day, id);
        StillMoves(cfg, s, task, Upserted(s.buckets, t.day), DayReady, id);
      case DayError(task) => StillMoves(cfg, s, task, s.buckets, DayRefused, id);
      case StoreRun(task) => StillMoves(cfg, s, task, s.buckets, Running, id);
      case _ =>
    }
  }

  lemma ActionMoves(cfg: Config, s: State, a: Action, id: BucketId)
    requires BucketsExist(s) && Enabled(s, a)
    requires Leaves(s, a) ==> SettlesInPlace(s.tasks[a.task], a)
    ensures MovesWith(cfg, s, Next(cfg, s, a), a.task, id)
  {
    if a.ReserveMinute? || a.ReserveDay? {
      ReserveMoves(cfg, s, a, id);
    } else if a.ReturnReserved? || a.ReturnInput? {
      RollbackMoves(cfg, s, a, id);
    } else if a.ReleaseMinute? || a.ReleaseDay? {
      ReleaseMoves(cfg, s, a, id);
    } else if a.Finalize? {
      FinalizeMoves(cfg, s, a, id);
    } else {
      QuietMoves(cfg, s, a, id);
    }
  }

  lemma BalancedStep(cfg: Config, s: State, a: Action)
    requires Balanced(cfg, s) && BucketsExist(s) && Enabled(s, a)
    requires Leaves(s, a) ==> SettlesInPlace(s.tasks[a.task], a)
    ensures Balanced(cfg, Next(cfg, s, a))
  {
    var s' := Next(cfg, s, a);
    if s' != s {
      OneTaskSet(cfg, s, a);
      forall id, f ensures BalancedAt(cfg, s', id, f) {
        assert BalancedAt(cfg, s, id, f);
        ActionMoves(cfg, s, a, id);
        OneTaskMoves(cfg, s, s', a.task, id, f);
      }
    }
  }

  /** An action sets one request and drops no bucket. */
  lemma OneTaskSet(cfg: Config, s: State, a: Action)
    requires Enabled(s, a)
    ensures var s' := Next(cfg, s, a);
      a.task in s'.tasks && s'.tasks == s.tasks[a.task := s'.tasks[a.task]] && s.buckets.Keys <= s'.buckets.Keys
  {
  }

  lemma BucketsExistStep(cfg: Config, s: State, a: Action)
    requires BucketsExist(s) && Enabled(s, a)
    ensures BucketsExist(Next(cfg, s, a))
  {
    var s' := Next(cfg, s, a);
    OneTaskSet(cfg, s, a);
    if a.task in s.tasks {
      assert HasBuckets(s.buckets, s.tasks[a.task]);
    }
    OwnBuckets(cfg, s, a);
    forall task | task in s'.tasks ensures HasBuckets(s'.buckets, s'.tasks[task]) {
      if task != a.task { assert HasBuckets(s.buckets, s.tasks[task]); }
    }
  }

  lemma OwnBuckets(cfg: Config, s: State, a: Action)
    requires Enabled(s, a) && (a.task in s.tasks ==> HasBuckets(s.buckets, s.tasks[a.task]))
    ensures a.task in Next(cfg, s, a).tasks && HasBuckets(Next(cfg, s, a).buckets, Next(cfg, s, a).tasks[a.task])
  {
  }

  /** Whether an action takes a request's reservation out of its buckets; a repeated finalize does not. */
  predicate Settles(s: State, a: Action) {
    a.task in s.tasks && (a.ReleaseMinute? || (a.Finalize? && s.tasks[a.task].phase.Running?))
  }

  /** An update that takes a request out of a bucket: a settling one, or the second half of a release. */
  predicate Leaves(s: State, a: Action) {
    Settles(s, a) || (a.ReleaseDay? && At(s, a.task, HalfReleased))
  }

  /** The buckets the update names are the ones the request reserved in. */
  predicate SettlesInPlace(t: Task, a: Action) {
    && (a.ReleaseMinute? || a.Finalize? ==> t.settleMinute == t.minute)
    && (a.ReleaseDay? || a.Finalize? ==> t.settleDay == t.day)
  }

  /**
   * A finalize, or either half of a release, keeps the ledger balanced if and only if the stored
   * `reservedAt` names the windows the request reserved in, for each bucket the update touches.
   */
  lemma LeavesIffSameWindows(cfg: Config, s: State, a: Action)
    requires Balanced(cfg, s) && BucketsExist(s) && Enabled(s, a) && Leaves(s, a) && Reservation(cfg) > 0
    ensures Balanced(cfg, Next(cfg, s, a)) <==> SettlesInPlace(s.tasks[a.task], a)
  {
    if SettlesInPlace(s.tasks[a.task], a) {
      BalancedStep(cfg, s, a);
    } else {
      assert HasBuckets(s.buckets, s.tasks[a.task]);
      SettleElsewhereUnbalances(cfg, s, a);
    }
  }

  lemma SettleElsewhereUnbalances(cfg: Config, s: State, a: Action)
    requires Balanced(cfg, s) && Enabled(s, a) && Leaves(s, a) && Reservation(cfg) > 0
    requires HasBuckets(s.buckets, s.tasks[a.task])
    requires !SettlesInPlace(s.tasks[a.task], a)
    ensures !Balanced(cfg, Next(cfg, s, a))
  {
    var s', t := Next(cfg, s, a), s.tasks[a.task];
    var k := if !a.ReleaseDay? && t.settleMinute != t.minute then t.minute else t.day;
    SettleMisses(cfg, s, a, k);
    assert BalancedAt(cfg, s, k, Reserved);
    OneTaskSet(cfg, s, a);
    SumMoves(cfg, s, a.task, s'.tasks[a.task], k, Reserved);
    assert !BalancedAt(cfg, s', k, Reserved);
  }

  lemma SettleMisses(cfg: Config, s: State, a: Action, k: BucketId)
    requires Enabled(s, a) && Leaves(s, a) && Reservation(cfg) > 0
    requires HasBuckets(s.buckets, s.tasks[a.task])
    requires var t := s.tasks[a.task];
      || (!a.ReleaseDay? && k == t.minute && t.settleMinute != k)
      || (!a.ReleaseMinute? && k == t.day && t.settleDay != k)
    ensures CountOf(Next(cfg, s, a).buckets, k) == CountOf(s.buckets, k)
    ensures PartAt(cfg, Next(cfg, s, a), a.task, k).reserved == PartAt(cfg, s, a.task, k).reserved - Reservation(cfg)
  {
    var t := s.tasks[a.task];
    if a.Finalize? {
      var delta := Bucket(0, a.output, -Reservation(cfg), 0);
      IncCount(s.buckets, t.settleMinute, delta, k);
      IncCount(Inc(s.buckets, t.settleMinute, delta), t.settleDay, delta, k);
      SettledPart(cfg, t, a.output, k);
    } else {
      IncCount(s.buckets, if a.ReleaseDay? then t.settleDay else t.settleMinute,
               Bucket(-t.input, 0, -Reservation(cfg), -1), k);
    }
  }

  // ---------- limits ----------

  predicate WithinLimit(cfg: Config, b: Bucket, kind: Kind) {
    && b.input + b.output + b.reserved <= TokenLimit(cfg, kind)
    && (kind == Minute ==> b.requests <= cfg.requestsPerMinute)
  }

  ghost predicate BucketsWithin(cfg: Config, bs: Buckets) {
    forall id :: WithinLimit(cfg, CountOf(bs, id), id.kind)
  }

  ghost predicate WithinLimits(cfg: Config, s: State) {
    BucketsWithin(cfg, s.buckets)
  }

  predicate InputsNatural(s: State) {
    forall task :: task in s.tasks ==> s.tasks[task].input >= 0
  }

  /** A delta that fits, or that adds nothing, keeps every bucket within its limit. */
  lemma IncKeepsLimits(cfg: Config, bs: Buckets, k: BucketId, delta: Bucket)
    requires BucketsWithin(cfg, bs)
    requires (delta.input + delta.output + delta.reserved <= 0 && delta.requests <= 0)
      || WithinLimit(cfg, Plus(CountOf(bs, k), delta), k.kind)
    ensures BucketsWithin(cfg, Inc(bs, k, delta))
  {
    forall id ensures WithinLimit(cfg, CountOf(Inc(bs, k, delta), id), id.kind) {
      assert WithinLimit(cfg, CountOf(bs, id), id.kind);
      IncCount(bs, k, delta, id);
    }
  }

  lemma UpsertKeepsLimits(cfg: Config, bs: Buckets, k: BucketId)
    requires BucketsWithin(cfg, bs)
    ensures BucketsWithin(cfg, Upserted(bs, k))
  {
    forall id ensures WithinLimit(cfg, CountOf(Upserted(bs, k), id), id.kind) {
      UpsertCount(bs, k, id);
      assert WithinLimit(cfg, CountOf(bs, id), id.kind);
    }
  }

  lemma ReserveWithin(cfg: Config, s: State, a: Action)
    requires WithinLimits(cfg, s) && Enabled(s, a) && BucketsExist(s) && (a.ReserveMinute? || a.ReserveDay?)
    ensures WithinLimits(cfg, Next(cfg, s, a))
  {
    var t := s.tasks[a.task];
    assert HasBuckets(s.buckets, t);
    var k := if a.ReserveMinute? then t.minute else t.day;
    if Fits(cfg, s.buckets[k], k.kind, t.input, Reservation(cfg)) {
      IncKeepsLimits(cfg, s.buckets, k, Held(t.input, Reservation(cfg)));
    }
  }

  lemma FinalizeWithin(cfg: Config, s: State, a: Action)
    requires WithinLimits(cfg, s) && Enabled(s, a) && a.Finalize? && a.output <= Reservation(cfg)
    ensures WithinLimits(cfg, Next(cfg, s, a))
  {
    var t := s.tasks[a.task];
    var delta := Bucket(0, a.output, -Reservation(cfg), 0);
    IncKeepsLimits(cfg, s.buckets, t.settleMinute, delta);
    IncKeepsLimits(cfg, Inc(s.buckets, t.settleMinute, delta), t.settleDay, delta);
  }

  lemma ReturnWithin(cfg: Config, s: State, a: Action)
    requires WithinLimits(cfg, s) && InputsNatural(s) && Enabled(s, a)
    requires a.ReturnReserved? || a.ReturnInput? || a.ReleaseMinute? || a.ReleaseDay?
    ensures WithinLimits(cfg, Next(cfg, s, a))
  {
    var t, r := s.tasks[a.task], Reservation(cfg);
    IncKeepsLimits(cfg, s.buckets, t.minute, Bucket(0, 0, -r, 0));
    IncKeepsLimits(cfg, s.buckets, t.minute, Bucket(-t.input, 0, 0, -1));
    IncKeepsLimits(cfg, s.buckets, t.settleMinute, Bucket(-t.input, 0, -r, -1));
    IncKeepsLimits(cfg, s.buckets, t.settleDay, Bucket(-t.input, 0, -r, -1));
  }

  /** No assumption about windows: the sum in a bucket only grows under the conditional update. */
  lemma WithinLimitsStep(cfg: Config, s: State, a: Action)
    requires WithinLimits(cfg, s) && InputsNatural(s) && Enabled(s, a) && BucketsExist(s)
    requires a.Finalize? ==> a.output <= Reservation(cfg)
    ensures WithinLimits(cfg, Next(cfg, s, a))
  {
    if a.ReserveMinute? || a.ReserveDay? {
      ReserveWithin(cfg, s, a);
    } else if a.Finalize? {
      FinalizeWithin(cfg, s, a);
    } else if a.ReturnReserved? || a.ReturnInput? || a.ReleaseMinute? || a.ReleaseDay? {
      ReturnWithin(cfg, s, a);
    } else if a.UpsertMinute? {
      UpsertKeepsLimits(cfg, s.buckets, s.tasks[a.task].minute);
    } else if a.UpsertDay? {
      UpsertKeepsLimits(cfg, s.buckets, s.tasks[a.task].day);
    }
  }
}
