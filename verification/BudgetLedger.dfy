/**
 * The shared budget ledger: register, reserve, commit and release scripts over per-run budget
 * hashes and per-reservation hashes.
 */
module BudgetLedger {
  import opened Options
  import SetSums

  /** Run and reservation keys; only their identity matters. */
  type Key = nat

  /**
   * One vector of budgeted quantities, cost in its smallest unit; `concurrency` only occurs in
   * reservations.
   */
  datatype Amounts = Amounts(model: int, tools: int, wall: int, cost: int, concurrency: int)

  datatype Quantity = Model | Tools | Wall | Cost | Concurrency

  const ZERO := Amounts(0, 0, 0, 0, 0)

  function Get(a: Amounts, q: Quantity): int {
    match q
    case Model => a.model
    case Tools => a.tools
    case Wall => a.wall
    case Cost => a.cost
    case Concurrency => a.concurrency
  }

  function Plus(a: Amounts, b: Amounts): Amounts {
    Amounts(a.model + b.model, a.tools + b.tools, a.wall + b.wall, a.cost + b.cost, a.concurrency + b.concurrency)
  }

  function Minus(a: Amounts, b: Amounts): Amounts {
    Amounts(a.model - b.model, a.tools - b.tools, a.wall - b.wall, a.cost - b.cost, a.concurrency - b.concurrency)
  }

  predicate NonNegative(a: Amounts) {
    a.model >= 0 && a.tools >= 0 && a.wall >= 0 && a.cost >= 0 && a.concurrency >= 0
  }

  datatype Policy = Policy(maxModel: int, maxTools: int, maxWall: int, maxParallel: int, maxCost: Option<int>)

  /** A run's budget hash; `reserved.concurrency` is the active_concurrency field. */
  datatype Budget = Budget(policy: Policy, used: Amounts, reserved: Amounts)

  datatype Reservation = Reservation(run: Key, node: string, amounts: Amounts)

  datatype Ledger = Ledger(budgets: map<Key, Budget>, reservations: map<Key, Reservation>)

  const EMPTY_LEDGER := Ledger(map[], map[])

  datatype Code =
    | PolicyConflict | RunNotRegistered
    | TokenBudget | ToolBudget | WallTimeBudget | CostBudget | ConcurrencyBudget
    | ReservationNotFound | RunMismatch
    | TokenReservationExceeded | ToolReservationExceeded | WallTimeReservationExceeded | CostReservationExceeded

  datatype Reply = Ok | Error(code: Code)

  /** Usage of a commit carries no concurrency. */
  datatype Op =
    | Register(run: Key, policy: Policy)
    | Reserve(id: Key, run: Key, node: string, amounts: Amounts)
    | Commit(id: Key, run: Key, usage: Amounts)
    | Release(id: Key)

  /** Checks of the reserve script, in its order. */
  function ReserveCheck(b: Budget, a: Amounts): Reply {
    if b.used.model + b.reserved.model + a.model > b.policy.maxModel then Error(TokenBudget)
    else if b.used.tools + b.reserved.tools + a.tools > b.policy.maxTools then Error(ToolBudget)
    else if b.used.wall + b.reserved.wall + a.wall > b.policy.maxWall then Error(WallTimeBudget)
    else if b.policy.maxCost.Some? && b.used.cost + b.reserved.cost + a.cost > b.policy.maxCost.value
      then Error(CostBudget)
    else if b.reserved.concurrency + a.concurrency > b.policy.maxParallel then Error(ConcurrencyBudget)
    else Ok
  }

  /** Checks of the commit script: a zero-cost reservation does not limit the committed cost. */
  function CommitCheck(r: Amounts, u: Amounts): Reply {
    if u.model > r.model then Error(TokenReservationExceeded)
    else if u.tools > r.tools then Error(ToolReservationExceeded)
    else if u.wall > r.wall then Error(WallTimeReservationExceeded)
    else if r.cost > 0 && u.cost > r.cost then Error(CostReservationExceeded)
    else Ok
  }

  function OrEmpty(budgets: map<Key, Budget>, run: Key): Budget {
    if run in budgets then budgets[run] else Budget(Policy(0, 0, 0, 0, None), ZERO, ZERO)
  }

  function Apply(l: Ledger, op: Op): (Ledger, Reply) {
    match op
    case Register(run, policy) =>
      if run in l.budgets then
        (l, if l.budgets[run].policy != policy then Error(PolicyConflict) else Ok)
      else (l.(budgets := l.budgets[run := Budget(policy, ZERO, ZERO)]), Ok)
    case Reserve(id, run, node, amounts) =>
      if run !in l.budgets then (l, Error(RunNotRegistered))
      else
        var b := l.budgets[run];
        if ReserveCheck(b, amounts).Error? then (l, ReserveCheck(b, amounts))
        else
          (Ledger(l.budgets[run := b.(reserved := Plus(b.reserved, amounts))],
                  l.reservations[id := Reservation(run, node, amounts)]), Ok)
    case Commit(id, run, usage) =>
      if id !in l.reservations then (l, Error(ReservationNotFound))
      else
        var r := l.reservations[id];
        if r.run != run then (l, Error(RunMismatch))
        else if CommitCheck(r.amounts, usage).Error? then (l, CommitCheck(r.amounts, usage))
        else
          var b := OrEmpty(l.budgets, run);
          (Ledger(l.budgets[run := b.(reserved := Minus(b.reserved, r.amounts), used := Plus(b.used, usage))],
                  l.reservations - {id}), Ok)
    case Release(id) =>
      if id !in l.reservations then (l, Error(ReservationNotFound))
      else
        var r := l.reservations[id];
        var b := OrEmpty(l.budgets, r.run);
        (Ledger(l.budgets[r.run := b.(reserved := Minus(b.reserved, r.amounts))], l.reservations - {id}), Ok)
  }

  /** A failed script changes nothing. */
  lemma FailureChangesNothing(l: Ledger, op: Op)
    ensures Apply(l, op).1.Error? ==> Apply(l, op).0 == l
  {
  }

  class BudgetStore {
    var budgets: map<Key, Budget>
    var reservations: map<Key, Reservation>

    ghost function State(): Ledger
      reads this
    {
      Ledger(budgets, reservations)
    }

    constructor ()
      ensures State() == EMPTY_LEDGER
    {
      budgets, reservations := map[], map[];
    }

    method Register(run: Key, policy: Policy) returns (reply: Reply)
      modifies this
      ensures (State(), reply) == Apply(old(State()), Op.Register(run, policy))
    {
      if run in budgets {
        if budgets[run].policy != policy { return Error(PolicyConflict); }
        return Ok;
      }
      budgets := budgets[run := Budget(policy, ZERO, ZERO)];
      reply := Ok;
    }

    method Reserve(id: Key, run: Key, node: string, amounts: Amounts) returns (reply: Reply)
      modifies this
      ensures (State(), reply) == Apply(old(State()), Op.Reserve(id, run, node, amounts))
    {
      if run !in budgets { return Error(RunNotRegistered); }
      var b := budgets[run];
      if b.used.model + b.reserved.model + amounts.model > b.policy.maxModel { return Error(TokenBudget); }
      if b.used.tools + b.reserved.tools + amounts.tools > b.policy.maxTools { return Error(ToolBudget); }
      if b.used.wall + b.reserved.wall + amounts.wall > b.policy.maxWall { return Error(WallTimeBudget); }
      if b.policy.maxCost.Some? && b.used.cost + b.reserved.cost + amounts.cost > b.policy.maxCost.value {
        return Error(CostBudget);
      }
      if b.reserved.concurrency + amounts.concurrency > b.policy.maxParallel { return Error(ConcurrencyBudget); }
      var held := b.reserved;
      held := held.(model := held.model + amounts.model);
      held := held.(tools := held.tools + amounts.tools);
      held := held.(wall := held.wall + amounts.wall);
      held := held.(cost := held.cost + amounts.cost);
      held := held.(concurrency := held.concurrency + amounts.concurrency);
      budgets := budgets[run := b.(reserved := held)];
      reservations := reservations[id := Reservation(run, node, amounts)];
      reply := Ok;
    }

    method ReturnReserved(run: Key, amounts: Amounts)
      modifies this`budgets
      ensures var b := OrEmpty(old(budgets), run);
              budgets == old(budgets)[run := b.(reserved := Minus(b.reserved, amounts))]
    {
      var b := OrEmpty(budgets, run);
      var held := b.reserved;
      held := held.(model := held.model - amounts.model);
      held := held.(tools := held.tools - amounts.tools);
      held := held.(wall := held.wall - amounts.wall);
      held := held.(cost := held.cost - amounts.cost);
      held := held.(concurrency := held.concurrency - amounts.concurrency);
      budgets := budgets[run := b.(reserved := held)];
    }

    method Commit(id: Key, run: Key, usage: Amounts) returns (reply: Reply)
      modifies this
      ensures (State(), reply) == Apply(old(State()), Op.Commit(id, run, usage))
    {
      if id !in reservations { return Error(ReservationNotFound); }
      var r := reservations[id];
      if r.run != run { return Error(RunMismatch); }
      if usage.model > r.amounts.model { return Error(TokenReservationExceeded); }
      if usage.tools > r.amounts.tools { return Error(ToolReservationExceeded); }
      if usage.wall > r.amounts.wall { return Error(WallTimeReservationExceeded); }
      if r.amounts.cost > 0 && usage.cost > r.amounts.cost { return Error(CostReservationExceeded); }
      ReturnReserved(run, r.amounts);
      var b := budgets[run];
      budgets := budgets[run := b.(used := Plus(b.used, usage))];
      reservations := reservations - {id};
      reply := Ok;
      ghost var was := OrEmpty(old(budgets), run);
      assert budgets == old(budgets)[run := was.(reserved := Minus(was.reserved, r.amounts),
        used := Plus(was.used, usage))];
    }

    /** The run is read from the reservation before the script is sent. */
    method Release(id: Key) returns (reply: Reply)
      modifies this
      ensures (State(), reply) == Apply(old(State()), Op.Release(id))
    {
      if id !in reservations { return Error(ReservationNotFound); }
      ReturnReserved(reservations[id].run, reservations[id].amounts);
      reservations := reservations - {id};
      reply := Ok;
    }
  }

  // ---------- live reservations ----------

  /** What each live reservation holds of one quantity of a run. */
  function Shares(rs: map<Key, Reservation>, run: Key, q: Quantity): map<Key, int> {
    map id | id in rs :: if rs[id].run == run then Get(rs[id].amounts, q) else 0
  }

  /** Sum of the live reservations of a run. */
  ghost function LiveSum(rs: map<Key, Reservation>, run: Key, q: Quantity): int {
    SetSums.Sum(Shares(rs, run, q))
  }

  function Share(r: Reservation, run: Key, q: Quantity): int {
    if r.run == run then Get(r.amounts, q) else 0
  }

  lemma LiveSumRemove(rs: map<Key, Reservation>, run: Key, q: Quantity, id: Key)
    requires id in rs
    ensures LiveSum(rs - {id}, run, q) == LiveSum(rs, run, q) - Share(rs[id], run, q)
  {
    SetSums.SumRemove(Shares(rs, run, q), id);
    assert Shares(rs - {id}, run, q) == Shares(rs, run, q) - {id};
  }

  lemma LiveSumSet(rs: map<Key, Reservation>, run: Key, q: Quantity, id: Key, r: Reservation)
    ensures LiveSum(rs[id := r], run, q) ==
            LiveSum(rs, run, q) - (if id in rs then Share(rs[id], run, q) else 0) + Share(r, run, q)
  {
    SetSums.SumSet(Shares(rs, run, q), id, Share(r, run, q));
    assert Shares(rs[id := r], run, q) == Shares(rs, run, q)[id := Share(r, run, q)];
  }

  /** Reserved counters equal the sum of live reservations, all of them of registered runs. */
  ghost predicate Conserved(l: Ledger) {
    && (forall id :: id in l.reservations ==> l.reservations[id].run in l.budgets)
    && (forall run, q :: run in l.budgets ==> Get(l.budgets[run].reserved, q) == LiveSum(l.reservations, run, q))
  }

  /**
   * A successful reserve keeps the ledger conserved if and only if its id is not live, or the
   * reservation it overwrites holds nothing.
   */
  lemma ReserveConservesIffFresh(l: Ledger, id: Key, run: Key, node: string, amounts: Amounts)
    requires Conserved(l) && Apply(l, Reserve(id, run, node, amounts)).1.Ok?
    ensures Conserved(Apply(l, Reserve(id, run, node, amounts)).0) <==>
            (id in l.reservations ==> l.reservations[id].amounts == ZERO)
  {
    var l' := Apply(l, Reserve(id, run, node, amounts)).0;
    forall other, q
      ensures LiveSum(l'.reservations, other, q) == LiveSum(l.reservations, other, q)
        - (if id in l.reservations then Share(l.reservations[id], other, q) else 0)
        + (if other == run then Get(amounts, q) else 0)
    {
      LiveSumSet(l.reservations, other, q, id, Reservation(run, node, amounts));
    }
    forall other, q | other in l.budgets
      ensures Get(l'.budgets[other].reserved, q) == LiveSum(l'.reservations, other, q) <==>
              (id in l.reservations ==> Share(l.reservations[id], other, q) == 0)
    {
    }
    if id in l.reservations && Conserved(l') {
      var lost := l.reservations[id];
      assert lost.run in l.budgets;
      assert Share(lost, lost.run, Model) == 0 && Share(lost, lost.run, Tools) == 0;
      assert Share(lost, lost.run, Wall) == 0 && Share(lost, lost.run, Cost) == 0;
      assert Share(lost, lost.run, Concurrency) == 0;
    }
  }

  lemma NoneLive(l: Ledger, run: Key, q: Quantity)
    requires Conserved(l) && run !in l.budgets
    ensures LiveSum(l.reservations, run, q) == 0
  {
    SetSums.SumOfZeros(Shares(l.reservations, run, q).Keys, Shares(l.reservations, run, q));
  }

  lemma ConservedStep(l: Ledger, op: Op)
    requires Conserved(l) && (op.Reserve? ==> op.id !in l.reservations)
    ensures Conserved(Apply(l, op).0)
  {
    var l' := Apply(l, op).0;
    if Apply(l, op).1.Ok? {
      match op
      case Register(run, policy) =>
        forall q | run !in l.budgets ensures LiveSum(l.reservations, run, q) == 0 { NoneLive(l, run, q); }
      case Reserve(id, run, node, amounts) =>
        ReserveConservesIffFresh(l, id, run, node, amounts);
      case _ =>
        forall run, q
          ensures LiveSum(l'.reservations, run, q) ==
                  LiveSum(l.reservations, run, q) - Share(l.reservations[op.id], run, q)
        {
          LiveSumRemove(l.reservations, run, q, op.id);
        }
    }
  }

  // ---------- runs ----------

  datatype Run = Run(states: seq<Ledger>, ops: seq<Op>, replies: seq<Reply>)

  ghost predicate StepAt(t: Run, i: nat)
    requires i < |t.ops| == |t.replies| && i + 1 < |t.states|
  {
    (t.states[i + 1], t.replies[i]) == Apply(t.states[i], t.ops[i])
  }

  ghost predicate IsRun(t: Run) {
    && |t.states| == |t.ops| + 1 && |t.replies| == |t.ops|
    && t.states[0] == EMPTY_LEDGER
    && forall i :: 0 <= i < |t.ops| ==> StepAt(t, i)
  }

  /** No reservation id is ever used twice. */
  ghost predicate FreshIds(t: Run) {
    forall i, j :: 0 <= i < j < |t.ops| && t.ops[i].Reserve? && t.ops[j].Reserve? ==> t.ops[i].id != t.ops[j].id
  }

  /** Reservations and policy limits are not negative. */
  ghost predicate Sensible(t: Run) {
    forall i :: 0 <= i < |t.ops| ==>
      && (t.ops[i].Reserve? ==> NonNegative(t.ops[i].amounts))
      && (t.ops[i].Register? ==>
            var p := t.ops[i].policy;
            p.maxModel >= 0 && p.maxTools >= 0 && p.maxWall >= 0 && p.maxParallel >= 0 &&
            (p.maxCost.Some? ==> p.maxCost.value >= 0))
  }

  predicate Settles(op: Op, id: Key) {
    (op.Commit? || op.Release?) && op.id == id
  }

  /** A live reservation was made by an earlier successful reserve and not settled since. */
  lemma {:induction false} LiveWasReserved(t: Run, n: nat, id: Key) returns (i: nat)
    requires IsRun(t) && n <= |t.ops| && id in t.states[n].reservations
    ensures i < n && t.ops[i].Reserve? && t.ops[i].id == id && t.replies[i].Ok?
    ensures t.states[n].reservations[id] == Reservation(t.ops[i].run, t.ops[i].node, t.ops[i].amounts)
    ensures forall k :: i < k < n && Settles(t.ops[k], id) ==> t.replies[k].Error?
  {
    assert StepAt(t, n - 1);
    if t.ops[n - 1].Reserve? && t.ops[n - 1].id == id && t.replies[n - 1].Ok? {
      i := n - 1;
    } else {
      i := LiveWasReserved(t, n - 1, id);
    }
  }

  lemma {:induction false} AlwaysConserved(t: Run, n: nat)
    requires IsRun(t) && FreshIds(t) && n <= |t.ops|
    ensures Conserved(t.states[n])
  {
    if n > 0 {
      AlwaysConserved(t, n - 1);
      assert StepAt(t, n - 1);
      if t.ops[n - 1].Reserve? && t.ops[n - 1].id in t.states[n - 1].reservations {
        var i := LiveWasReserved(t, n - 1, t.ops[n - 1].id);
      }
      ConservedStep(t.states[n - 1], t.ops[n - 1]);
    }
  }

  /** Usage committed by the first n calls against a run. */
  ghost function Committed(t: Run, n: nat, run: Key): Amounts
    requires IsRun(t) && n <= |t.ops|
  {
    if n == 0 then ZERO
    else if t.ops[n - 1].Commit? && t.ops[n - 1].run == run && t.replies[n - 1].Ok?
    then Plus(Committed(t, n - 1, run), t.ops[n - 1].usage)
    else Committed(t, n - 1, run)
  }

  /** Used counters equal the sum of committed usage. */
  lemma {:induction false} UsedIsCommitted(t: Run, n: nat, run: Key)
    requires IsRun(t) && FreshIds(t) && n <= |t.ops|
    ensures (if run in t.states[n].budgets then t.states[n].budgets[run].used else ZERO) == Committed(t, n, run)
  {
    if n > 0 {
      UsedIsCommitted(t, n - 1, run);
      AlwaysConserved(t, n - 1);
      assert StepAt(t, n - 1);
    }
  }

  /** used + reserved <= max for tokens, tool calls and wall time; active concurrency within its limit. */
  predicate WithinLimits(b: Budget) {
    && b.used.model + b.reserved.model <= b.policy.maxModel
    && b.used.tools + b.reserved.tools <= b.policy.maxTools
    && b.used.wall + b.reserved.wall <= b.policy.maxWall
    && b.reserved.concurrency <= b.policy.maxParallel
  }

  lemma {:induction false} LimitsHold(t: Run, n: nat, run: Key)
    requires IsRun(t) && FreshIds(t) && Sensible(t) && n <= |t.ops| && run in t.states[n].budgets
    ensures WithinLimits(t.states[n].budgets[run])
  {
    assert n > 0;
    assert StepAt(t, n - 1);
    AlwaysConserved(t, n - 1);
    var op := t.ops[n - 1];
    if run in t.states[n - 1].budgets { LimitsHold(t, n - 1, run); }
    if (op.Commit? || op.Release?) && op.id in t.states[n - 1].reservations {
      var i := LiveWasReserved(t, n - 1, op.id);
      assert NonNegative(t.ops[i].amounts);
    }
  }

  // ---------- the cost limit ----------

  predicate CostWithin(b: Budget) {
    b.policy.maxCost.Some? ==> b.used.cost + b.reserved.cost <= b.policy.maxCost.value
  }

  ghost predicate CostsWithin(l: Ledger) {
    forall run :: run in l.budgets ==> CostWithin(l.budgets[run])
  }

  /** An accepted commit costs no more than the reservation it settles. */
  predicate WithinReservation(l: Ledger, op: Op) {
    op.Commit? && Apply(l, op).1.Ok? && op.id in l.reservations ==> op.usage.cost <= l.reservations[op.id].amounts.cost
  }

  ghost predicate CommitsWithinReservations(t: Run)
    requires IsRun(t)
  {
    forall i :: 0 <= i < |t.ops| ==> WithinReservation(t.states[i], t.ops[i])
  }

  /**
   * One commit keeps used + reserved cost from growing if and only if the usage's cost is within
   * the reservation's; the script enforces that only when the reservation's cost is positive.
   */
  lemma CommitCostGrowth(l: Ledger, id: Key, run: Key, usage: Amounts)
    requires Conserved(l) && Apply(l, Commit(id, run, usage)).1.Ok?
    ensures run in l.budgets && id in l.reservations
    ensures var b, b' := l.budgets[run], Apply(l, Commit(id, run, usage)).0.budgets[run];
      b'.used.cost + b'.reserved.cost <= b.used.cost + b.reserved.cost <==>
        WithinReservation(l, Commit(id, run, usage))
    ensures l.reservations[id].amounts.cost > 0 ==> WithinReservation(l, Commit(id, run, usage))
  {
  }

  /** A script keeps every cost limit if its commit stays within the reservation, and reservations are not negative. */
  lemma CostStep(l: Ledger, op: Op)
    requires Conserved(l) && CostsWithin(l) && WithinReservation(l, op)
    requires op.Register? && op.policy.maxCost.Some? ==> op.policy.maxCost.value >= 0
    requires op.Release? && op.id in l.reservations ==> l.reservations[op.id].amounts.cost >= 0
    ensures CostsWithin(Apply(l, op).0)
  {
    var l' := Apply(l, op).0;
    if op.Commit? && Apply(l, op).1.Ok? { CommitCostGrowth(l, op.id, op.run, op.usage); }
    forall run | run in l'.budgets ensures CostWithin(l'.budgets[run]) {
      if run in l.budgets { assert CostWithin(l.budgets[run]); }
    }
  }

  /** The cost limit holds for as long as every accepted commit stays within its reservation. */
  lemma {:induction false} CostLimitHolds(t: Run, n: nat)
    requires IsRun(t) && FreshIds(t) && Sensible(t) && CommitsWithinReservations(t) && n <= |t.ops|
    ensures CostsWithin(t.states[n])
  {
    if n > 0 {
      var l, op := t.states[n - 1], t.ops[n - 1];
      CostLimitHolds(t, n - 1);
      AlwaysConserved(t, n - 1);
      assert StepAt(t, n - 1) && WithinReservation(l, op);
      if op.Release? && op.id in l.reservations {
        var i := LiveWasReserved(t, n - 1, op.id);
        assert NonNegative(t.ops[i].amounts);
      }
      CostStep(l, op);
    }
  }

  /** The script itself keeps commits within their reservations when every reservation has a positive cost. */
  lemma PositiveReservationsSuffice(t: Run, n: nat)
    requires IsRun(t) && FreshIds(t) && Sensible(t) && n <= |t.ops|
    requires forall i :: 0 <= i < |t.ops| && t.ops[i].Reserve? ==> t.ops[i].amounts.cost > 0
    ensures CommitsWithinReservations(t) && CostsWithin(t.states[n])
  {
    forall i | 0 <= i < |t.ops| ensures WithinReservation(t.states[i], t.ops[i]) {
      if t.ops[i].Commit? && t.ops[i].id in t.states[i].reservations {
        var r := LiveWasReserved(t, i, t.ops[i].id);
        assert t.ops[r].amounts.cost > 0;
      }
    }
    CostLimitHolds(t, n);
  }

  /** An accepted commit of cost `cost` that settles a reservation of cost `reserved`. */
  predicate CommitsCost(l: Ledger, op: Op, reserved: int, cost: int) {
    && op.Commit? && Apply(l, op).1.Ok? && op.id in l.reservations
    && l.reservations[op.id].amounts.cost == reserved && op.usage.cost == cost
  }

  /**
   * Accepted commits of one cost against reservations of one cost keep every conserved ledger within
   * its cost limits if and only if the reservation is positive or the commit is free.
   */
  lemma CommitKeepsCostIff(reserved: int, cost: int)
    requires reserved >= 0 && cost >= 0
    ensures (forall l, op :: Conserved(l) && CostsWithin(l) && CommitsCost(l, op, reserved, cost) ==>
              CostsWithin(Apply(l, op).0)) <==> (reserved > 0 || cost == 0)
  {
    if reserved > 0 || cost == 0 {
      forall l, op | Conserved(l) && CostsWithin(l) && CommitsCost(l, op, reserved, cost)
        ensures CostsWithin(Apply(l, op).0)
      {
        CommitCostGrowth(l, op.id, op.run, op.usage);
        CostStep(l, op);
      }
    } else {
      var l, op := FreeReservation(), FreeOps(cost)[2];
      FreeReservationConserved();
      CommitOverspends(cost);
    }
  }

  /** A run without cost budget left, and a live reservation of cost zero against it. */
  function FreeReservation(): Ledger {
    Ledger(map[0 := Budget(FREE_POLICY, ZERO, ZERO)], map[7 := Reservation(0, "", ZERO)])
  }

  lemma FreeReservationConserved()
    ensures Conserved(FreeReservation()) && CostsWithin(FreeReservation())
  {
    var l := FreeReservation();
    forall run, q ensures LiveSum(l.reservations, run, q) == 0 {
      SetSums.SumOfZeros(Shares(l.reservations, run, q).Keys, Shares(l.reservations, run, q));
    }
  }

  /** Every reservation costs at least `reserved`, every commit at most `cost`. */
  ghost predicate CostsBounded(t: Run, reserved: int, cost: int) {
    forall i :: 0 <= i < |t.ops| ==>
      && (t.ops[i].Reserve? ==> t.ops[i].amounts.cost >= reserved)
      && (t.ops[i].Commit? ==> t.ops[i].usage.cost <= cost)
  }

  ghost predicate RunCostsWithin(t: Run) {
    forall n :: 0 <= n < |t.states| ==> CostsWithin(t.states[n])
  }

  ghost predicate SensibleRun(t: Run) {
    IsRun(t) && FreshIds(t) && Sensible(t)
  }

  /**
   * The exact condition over runs: reservations of at least one cost and commits of at most another
   * keep every run within its cost limits if and only if reservations are positive or commits free.
   */
  lemma CostBoundsKeepLimitIff(reserved: int, cost: int)
    requires reserved >= 0 && cost >= 0
    ensures (forall t :: SensibleRun(t) && CostsBounded(t, reserved, cost) ==> RunCostsWithin(t)) <==>
            (reserved > 0 || cost == 0)
  {
    if reserved > 0 || cost == 0 {
      forall t | SensibleRun(t) && CostsBounded(t, reserved, cost) ensures RunCostsWithin(t) {
        forall i | 0 <= i < |t.ops| ensures WithinReservation(t.states[i], t.ops[i]) {
          if t.ops[i].Commit? && t.ops[i].id in t.states[i].reservations {
            var r := LiveWasReserved(t, i, t.ops[i].id);
            assert t.ops[r].amounts.cost >= reserved;
          }
        }
        forall n | 0 <= n < |t.states| ensures CostsWithin(t.states[n]) { CostLimitHolds(t, n); }
      }
    } else {
      var t := FreeReservationOverspends(cost);
    }
  }

  const FREE_POLICY := Policy(0, 0, 0, 0, Some(0))

  /** Registers a run without cost budget, reserves nothing, and commits a cost. */
  function FreeOps(cost: int): seq<Op> {
    [Register(0, FREE_POLICY), Reserve(7, 0, "", ZERO), Commit(7, 0, Amounts(0, 0, 0, cost, 0))]
  }

  /** A free reservation lets a commit of any positive cost overspend: a run from the empty ledger. */
  lemma FreeReservationOverspends(cost: int) returns (t: Run)
    requires cost > 0
    ensures SensibleRun(t) && CostsBounded(t, 0, cost) && !RunCostsWithin(t)
  {
    FreeSteps(cost);
    CommitOverspends(cost);
    var ops := FreeOps(cost);
    t := ThreeSteps(ops[0], ops[1], ops[2], FreeRegistered(), FreeReservation(), Apply(FreeReservation(), ops[2]).0);
    FreeOpsSensible(t, cost);
    assert !CostsWithin(t.states[3]);
  }

  lemma ThreeSteps(op0: Op, op1: Op, op2: Op, l1: Ledger, l2: Ledger, l3: Ledger) returns (t: Run)
    requires Apply(EMPTY_LEDGER, op0) == (l1, Ok) && Apply(l1, op1) == (l2, Ok) && Apply(l2, op2) == (l3, Ok)
    ensures IsRun(t) && |t.ops| == 3 && t.ops[0] == op0 && t.ops[1] == op1 && t.ops[2] == op2 && t.states[3] == l3
  {
    t := Run([EMPTY_LEDGER, l1, l2, l3], [op0, op1, op2], [Ok, Ok, Ok]);
    assert StepAt(t, 0) && StepAt(t, 1) && StepAt(t, 2);
  }

  lemma FreeOpsSensible(t: Run, cost: int)
    requires |t.ops| == 3
    requires t.ops[0] == FreeOps(cost)[0] && t.ops[1] == FreeOps(cost)[1] && t.ops[2] == FreeOps(cost)[2]
    ensures FreshIds(t) && Sensible(t) && (cost >= 0 ==> CostsBounded(t, 0, cost))
  {
  }

  function FreeRegistered(): Ledger {
    Ledger(map[0 := Budget(FREE_POLICY, ZERO, ZERO)], map[])
  }

  lemma FreeSteps(cost: int)
    ensures Apply(EMPTY_LEDGER, FreeOps(cost)[0]) == (FreeRegistered(), Ok)
    ensures Apply(FreeRegistered(), FreeOps(cost)[1]) == (FreeReservation(), Ok)
  {
    PlusZero(ZERO);
    assert FreeRegistered().budgets[0 := Budget(FREE_POLICY, ZERO, ZERO)] == FreeReservation().budgets;
    assert FreeRegistered().reservations[7 := Reservation(0, "", ZERO)] == FreeReservation().reservations;
    assert ReserveCheck(FreeRegistered().budgets[0], ZERO) == Ok;
  }

  lemma CommitOverspends(cost: int)
    requires cost > 0
    ensures CommitsCost(FreeReservation(), FreeOps(cost)[2], 0, cost)
    ensures !CostsWithin(Apply(FreeReservation(), FreeOps(cost)[2]).0)
    ensures Apply(FreeReservation(), FreeOps(cost)[2]).1 == Ok
  {
    assert !CostWithin(Apply(FreeReservation(), FreeOps(cost)[2]).0.budgets[0]);
  }

  lemma PlusZero(a: Amounts)
    ensures Plus(a, ZERO) == a
  {
  }

  /** Each reservation settles at most once: between two settlements of an id it was reserved again. */
  lemma SettlesOnce(t: Run, i: nat, j: nat, id: Key)
    requires IsRun(t) && i < j < |t.ops|
    requires Settles(t.ops[i], id) && Settles(t.ops[j], id) && t.replies[i].Ok? && t.replies[j].Ok?
    ensures exists k :: i < k < j && t.ops[k].Reserve? && t.ops[k].id == id
    ensures !FreshIds(t)
  {
    assert StepAt(t, i) && StepAt(t, j);
    var r0 := LiveWasReserved(t, i, id);
    var k := LiveWasReserved(t, j, id);
    assert k > i;
  }

  /** ... and at least until it settles it stays live: a reservation is live exactly while unsettled. */
  lemma {:induction false} LiveUntilSettled(t: Run, i: nat, n: nat, id: Key)
    requires IsRun(t) && i < n <= |t.ops| && t.ops[i].Reserve? && t.ops[i].id == id && t.replies[i].Ok?
    requires forall k :: i < k < n && Settles(t.ops[k], id) ==> t.replies[k].Error?
    ensures id in t.states[n].reservations
  {
    assert StepAt(t, n - 1);
    if i < n - 1 { LiveUntilSettled(t, i, n - 1, id); }
  }
}
