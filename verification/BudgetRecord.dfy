/**
 * What the budget ledger holds and answers, read off the calls made so far and the answers given,
 * without the scripts. Ids may be used again.
 */
module BudgetRecord {
  import opened Options
  import opened BudgetLedger

  /** The calls and answers of a run; the functions below never look at its states. */
  predicate Called(t: Run, n: nat) {
    n <= |t.ops| == |t.replies|
  }

  /** The policy a run was first registered with. */
  function PolicyOf(t: Run, n: nat, run: Key): Option<Policy>
    requires Called(t, n)
  {
    if n == 0 then None
    else if PolicyOf(t, n - 1, run).Some? then PolicyOf(t, n - 1, run)
    else if t.ops[n - 1].Register? && t.ops[n - 1].run == run then Some(t.ops[n - 1].policy)
    else None
  }

  /** The last granted reservation under an id, until it is settled. */
  function LiveOf(t: Run, n: nat, id: Key): Option<Reservation>
    requires Called(t, n)
  {
    if n == 0 then None
    else
      var op, granted := t.ops[n - 1], t.replies[n - 1].Ok?;
      if granted && op.Reserve? && op.id == id then Some(Reservation(op.run, op.node, op.amounts))
      else if granted && (op.Commit? || op.Release?) && op.id == id then None
      else LiveOf(t, n - 1, id)
  }

  /** Everything reserved against a run less what its settled reservations held. */
  function HeldOf(t: Run, n: nat, run: Key, q: Quantity): int
    requires Called(t, n)
  {
    if n == 0 then 0
    else
      var op, granted, before := t.ops[n - 1], t.replies[n - 1].Ok?, HeldOf(t, n - 1, run, q);
      if granted && op.Reserve? && op.run == run then before + Get(op.amounts, q)
      else if granted && (op.Commit? || op.Release?) then
        match LiveOf(t, n - 1, op.id)
        case Some(r) => if r.run == run then before - Get(r.amounts, q) else before
        case None => before
      else before
  }

  /** All usage committed against a run. */
  function UsedOf(t: Run, n: nat, run: Key, q: Quantity): int
    requires Called(t, n)
  {
    if n == 0 then 0
    else
      var op := t.ops[n - 1];
      UsedOf(t, n - 1, run, q)
      + if t.replies[n - 1].Ok? && op.Commit? && op.run == run then Get(op.usage, q) else 0
  }

  /** One entry of the ledger agrees with the record. */
  ghost predicate RunRecorded(t: Run, n: nat, l: Ledger, run: Key, q: Quantity)
    requires Called(t, n)
  {
    && (run in l.budgets <==> PolicyOf(t, n, run).Some?)
    && (run in l.budgets ==>
          && l.budgets[run].policy == PolicyOf(t, n, run).value
          && Get(l.budgets[run].used, q) == UsedOf(t, n, run, q)
          && Get(l.budgets[run].reserved, q) == HeldOf(t, n, run, q))
    && (run !in l.budgets ==> UsedOf(t, n, run, q) == 0 && HeldOf(t, n, run, q) == 0)
  }

  ghost predicate IdRecorded(t: Run, n: nat, l: Ledger, id: Key)
    requires Called(t, n)
  {
    && (id in l.reservations <==> LiveOf(t, n, id).Some?)
    && (id in l.reservations ==>
          l.reservations[id] == LiveOf(t, n, id).value && l.reservations[id].run in l.budgets)
  }

  lemma {:induction false} IdIsRecorded(t: Run, n: nat, id: Key)
    requires IsRun(t) && n <= |t.ops|
    ensures IdRecorded(t, n, t.states[n], id)
  {
    if n > 0 {
      IdIsRecorded(t, n - 1, id);
      assert StepAt(t, n - 1);
    }
  }

  /** The ledger holds what the calls recorded: policies, live reservations, and both counters. */
  lemma {:induction false} RunIsRecorded(t: Run, n: nat, run: Key, q: Quantity)
    requires IsRun(t) && n <= |t.ops|
    ensures RunRecorded(t, n, t.states[n], run, q)
  {
    if n > 0 {
      var op := t.ops[n - 1];
      RunIsRecorded(t, n - 1, run, q);
      assert StepAt(t, n - 1);
      if op.Commit? || op.Release? { IdIsRecorded(t, n - 1, op.id); }
    }
  }

  /** The answer a call must get after the first n calls. */
  function AnswerTo(t: Run, n: nat, op: Op): Reply
    requires Called(t, n)
  {
    match op
    case Register(run, policy) =>
      if PolicyOf(t, n, run) in {None, Some(policy)} then Ok else Error(PolicyConflict)
    case Reserve(_, run, _, a) =>
      if PolicyOf(t, n, run).None? then Error(RunNotRegistered)
      else
        var p := PolicyOf(t, n, run).value;
        var taken := q => UsedOf(t, n, run, q) + HeldOf(t, n, run, q);
        if taken(Model) + a.model > p.maxModel then Error(TokenBudget)
        else if taken(Tools) + a.tools > p.maxTools then Error(ToolBudget)
        else if taken(Wall) + a.wall > p.maxWall then Error(WallTimeBudget)
        else if p.maxCost.Some? && taken(Cost) + a.cost > p.maxCost.value then Error(CostBudget)
        else if HeldOf(t, n, run, Concurrency) + a.concurrency > p.maxParallel then Error(ConcurrencyBudget)
        else Ok
    case Commit(id, run, u) =>
      if LiveOf(t, n, id).None? then Error(ReservationNotFound)
      else
        var r := LiveOf(t, n, id).value;
        if r.run != run then Error(RunMismatch)
        else if u.model > r.amounts.model then Error(TokenReservationExceeded)
        else if u.tools > r.amounts.tools then Error(ToolReservationExceeded)
        else if u.wall > r.amounts.wall then Error(WallTimeReservationExceeded)
        else if u.cost > r.amounts.cost > 0 then Error(CostReservationExceeded)
        else Ok
    case Release(id) => if LiveOf(t, n, id).None? then Error(ReservationNotFound) else Ok
  }

  /** Every call is answered from the record of the calls before it: exactly when it is granted, and why not. */
  lemma AnsweredFromRecord(t: Run, j: nat)
    requires IsRun(t) && j < |t.ops|
    ensures t.replies[j] == AnswerTo(t, j, t.ops[j])
  {
    var op := t.ops[j];
    assert StepAt(t, j);
    match op
    case Register(run, _) => RunIsRecorded(t, j, run, Model);
    case Reserve(_, run, _, _) =>
      RunIsRecorded(t, j, run, Model);
      if run in t.states[j].budgets { AllQuantities(t, j, run); }
    case Commit(id, _, _) => IdIsRecorded(t, j, id);
    case Release(id) => IdIsRecorded(t, j, id);
  }

  lemma AllQuantities(t: Run, n: nat, run: Key)
    requires IsRun(t) && n <= |t.ops| && run in t.states[n].budgets
    ensures var b := t.states[n].budgets[run];
      && b.used.model + b.reserved.model == UsedOf(t, n, run, Model) + HeldOf(t, n, run, Model)
      && b.used.tools + b.reserved.tools == UsedOf(t, n, run, Tools) + HeldOf(t, n, run, Tools)
      && b.used.wall + b.reserved.wall == UsedOf(t, n, run, Wall) + HeldOf(t, n, run, Wall)
      && b.used.cost + b.reserved.cost == UsedOf(t, n, run, Cost) + HeldOf(t, n, run, Cost)
      && b.reserved.concurrency == HeldOf(t, n, run, Concurrency)
  {
    RunIsRecorded(t, n, run, Model);
    RunIsRecorded(t, n, run, Tools);
    RunIsRecorded(t, n, run, Wall);
    RunIsRecorded(t, n, run, Cost);
    RunIsRecorded(t, n, run, Concurrency);
  }
}
