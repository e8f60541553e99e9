/**
 * The per-ingestion budget twice over: the in-process controller with its four dictionaries, and
 * the Redis scripts behind the same controller. The two simulate each other.
 */
module IngestionLedger {
  import opened Options

  datatype Stage = Parser | Ocr | Vision | Summary | Embedding

  /** `IngestionBudget`: the contract model rejects negative limits. */
  datatype Limits = Limits(
    tokenBudget: int, parserUnits: int, ocrCalls: int, visionCalls: int,
    summaryTokens: int, embeddingTokens: int, maxFanOut: int, wallTimeSeconds: int)

  predicate ValidLimits(b: Limits) {
    && b.tokenBudget >= 0 && b.parserUnits >= 0 && b.ocrCalls >= 0 && b.visionCalls >= 0
    && b.summaryTokens >= 0 && b.embeddingTokens >= 0 && b.maxFanOut >= 1 && b.wallTimeSeconds >= 1
  }

  /** A counter for each stage. */
  datatype PerStage = PerStage(parser: int, ocr: int, vision: int, summary: int, embedding: int)

  const NONE_USED := PerStage(0, 0, 0, 0, 0)

  function Get(c: PerStage, s: Stage): int {
    match s
    case Parser => c.parser
    case Ocr => c.ocr
    case Vision => c.vision
    case Summary => c.summary
    case Embedding => c.embedding
  }

  function Add(c: PerStage, s: Stage, n: int): PerStage {
    match s
    case Parser => c.(parser := c.parser + n)
    case Ocr => c.(ocr := c.ocr + n)
    case Vision => c.(vision := c.vision + n)
    case Summary => c.(summary := c.summary + n)
    case Embedding => c.(embedding := c.embedding + n)
  }

  function SumOf(c: PerStage): int {
    c.parser + c.ocr + c.vision + c.summary + c.embedding
  }

  function StageLimit(b: Limits, s: Stage): int {
    match s
    case Parser => b.parserUnits
    case Ocr => b.ocrCalls
    case Vision => b.visionCalls
    case Summary => b.summaryTokens
    case Embedding => b.embeddingTokens
  }

  predicate CountsTokens(s: Stage) {
    s == Summary || s == Embedding
  }

  datatype Code =
    | BudgetConflict | NotRegistered | InvalidBudget
    | StageTokenBudget | StageCallBudget | TokenBudget | FanOutBudget

  datatype Reply =
    | Snapshot(id: string, limits: Limits, units: PerStage, tokens: PerStage, fanOut: int, total: int)
    | Exceeded(code: Code)
    | ValueError

  /** `stage` is None when the caller passes a name outside the five stages. */
  datatype Op =
    | Register(id: string, limits: Limits)
    | Charge(id: string, stage: Option<Stage>, units: int, tokens: int, fanOut: int)

  /** The characters `str.strip` removes: those `str.isspace` accepts. */
  predicate IsSpace(c: char) {
    || '\t' <= c <= '\r' || '\U{1c}' <= c <= ' ' || c == '\U{85}' || c == '\U{a0}' || c == '\U{1680}'
    || '\U{2000}' <= c <= '\U{200a}' || c == '\U{2028}' || c == '\U{2029}' || c == '\U{202f}'
    || c == '\U{205f}' || c == '\U{3000}'
  }

  function StripLeft(s: string): string {
    if |s| > 0 && IsSpace(s[0]) then StripLeft(s[1..]) else s
  }

  function StripRight(s: string): string {
    if |s| > 0 && IsSpace(s[|s| - 1]) then StripRight(s[..|s| - 1]) else s
  }

  /** Python's `str.strip`. */
  function Strip(s: string): string {
    StripRight(StripLeft(s))
  }

  lemma {:induction false} StripRightTrims(s: string)
    ensures var r := StripRight(s);
      r <= s && (|r| > 0 ==> !IsSpace(r[|r| - 1]))
  {
    if |s| > 0 && IsSpace(s[|s| - 1]) { StripRightTrims(s[..|s| - 1]); }
  }

  lemma {:induction false} StripLeftTrims(s: string)
    ensures var r := StripLeft(s); |r| > 0 ==> !IsSpace(r[0])
  {
    if |s| > 0 && IsSpace(s[0]) { StripLeftTrims(s[1..]); }
  }

  lemma StripIdempotent(s: string)
    ensures Strip(Strip(s)) == Strip(s)
  {
    StripLeftTrims(s);
    StripRightTrims(StripLeft(s));
  }

  // ---------- the in-process controller ----------

  datatype Local = Local(
    budgets: map<string, Limits>,
    units: map<string, PerStage>,
    tokens: map<string, PerStage>,
    fanOut: map<string, int>)

  const EMPTY_LOCAL := Local(map[], map[], map[], map[])

  /** Every registered key has its three counters. */
  predicate Complete(l: Local) {
    l.budgets.Keys == l.units.Keys == l.tokens.Keys == l.fanOut.Keys
  }

  function LocalSnapshot(l: Local, key: string): Reply
    requires Complete(l) && key in l.budgets
  {
    Snapshot(key, l.budgets[key], l.units[key], l.tokens[key], l.fanOut[key], SumOf(l.tokens[key]))
  }

  function LocalCheck(b: Limits, units: PerStage, tokens: PerStage, fanOut: int, op: Op): Option<Code>
    requires op.Charge? && op.stage.Some?
  {
    var s := op.stage.value;
    if CountsTokens(s) && Get(tokens, s) + op.tokens > StageLimit(b, s) then Some(StageTokenBudget)
    else if !CountsTokens(s) && Get(units, s) + op.units > StageLimit(b, s) then Some(StageCallBudget)
    else if b.tokenBudget != 0 && SumOf(tokens) + op.tokens > b.tokenBudget then Some(TokenBudget)
    else if fanOut + op.fanOut > b.maxFanOut then Some(FanOutBudget)
    else None
  }

  function LocalRegister(l: Local, key: string, limits: Limits): (r: (Local, Reply))
    requires Complete(l)
    ensures Complete(r.0)
  {
    if |key| == 0 then (l, ValueError)
    else if key in l.budgets then
      (l, if l.budgets[key] != limits then Exceeded(BudgetConflict) else LocalSnapshot(l, key))
    else
      var l' := Local(l.budgets[key := limits], l.units[key := NONE_USED], l.tokens[key := NONE_USED],
          l.fanOut[key := 0]);
      (l', LocalSnapshot(l', key))
  }

  function LocalCharge(l: Local, key: string, op: Op): (r: (Local, Reply))
    requires Complete(l) && op.Charge? && op.stage.Some?
    ensures Complete(r.0)
  {
    if op.units < 0 || op.tokens < 0 || op.fanOut < 0 then (l, Exceeded(InvalidBudget))
    else if key !in l.budgets then (l, Exceeded(NotRegistered))
    else
      var refused := LocalCheck(l.budgets[key], l.units[key], l.tokens[key], l.fanOut[key], op);
      if refused.Some? then (l, Exceeded(refused.value))
      else
        var l' := Local(l.budgets,
                        l.units[key := Add(l.units[key], op.stage.value, op.units)],
                        l.tokens[key := Add(l.tokens[key], op.stage.value, op.tokens)],
                        l.fanOut[key := l.fanOut[key] + op.fanOut]);
        (l', LocalSnapshot(l', key))
  }

  function LocalApply(l: Local, op: Op): (r: (Local, Reply))
    requires Complete(l)
    ensures Complete(r.0)
  {
    match op
    case Register(id, limits) => LocalRegister(l, Strip(id), limits)
    case Charge(id, stage, _, _, _) =>
      if stage.None? then (l, ValueError) else LocalCharge(l, Strip(id), op)
  }

  class LocalController {
    var budgets: map<string, Limits>
    var stageUnits: map<string, PerStage>
    var stageTokens: map<string, PerStage>
    var fanOut: map<string, int>

    ghost function State(): Local
      reads this
    {
      Local(budgets, stageUnits, stageTokens, fanOut)
    }

    constructor ()
      ensures State() == EMPTY_LOCAL
    {
      budgets, stageUnits, stageTokens, fanOut := map[], map[], map[], map[];
    }

    method Register(id: string, limits: Limits) returns (reply: Reply)
      requires Complete(State())
      modifies this
      ensures Complete(State()) && (State(), reply) == LocalApply(old(State()), Op.Register(id, limits))
    {
      var key := Strip(id);
      if |key| == 0 { return ValueError; }
      if key in budgets && budgets[key] != limits { return Exceeded(BudgetConflict); }
      assert key in budgets ==> budgets[key := limits] == budgets;
      budgets := budgets[key := limits];
      if key !in stageUnits { stageUnits := stageUnits[key := NONE_USED]; }
      if key !in stageTokens { stageTokens := stageTokens[key := NONE_USED]; }
      if key !in fanOut { fanOut := fanOut[key := 0]; }
      reply := Snapshot(key, budgets[key], stageUnits[key], stageTokens[key], fanOut[key], SumOf(stageTokens[key]));
    }

    method Charge(id: string, stage: Option<Stage>, units: int, tokens: int, fan: int) returns (reply: Reply)
      requires Complete(State())
      modifies this
      ensures Complete(State())
        && (State(), reply) == LocalApply(old(State()), Op.Charge(id, stage, units, tokens, fan))
    {
      if stage.None? { return ValueError; }
      if units < 0 || tokens < 0 || fan < 0 { return Exceeded(InvalidBudget); }
      var key := Strip(id);
      if key !in budgets { return Exceeded(NotRegistered); }
      var budget, s := budgets[key], stage.value;
      if CountsTokens(s) {
        if Get(stageTokens[key], s) + tokens > StageLimit(budget, s) { return Exceeded(StageTokenBudget); }
      } else if Get(stageUnits[key], s) + units > StageLimit(budget, s) {
        return Exceeded(StageCallBudget);
      }
      var total := SumOf(stageTokens[key]) + tokens;
      if budget.tokenBudget != 0 && total > budget.tokenBudget { return Exceeded(TokenBudget); }
      if fanOut[key] + fan > budget.maxFanOut { return Exceeded(FanOutBudget); }
      stageUnits := stageUnits[key := Add(stageUnits[key], s, units)];
      stageTokens := stageTokens[key := Add(stageTokens[key], s, tokens)];
      fanOut := fanOut[key := fanOut[key] + fan];
      reply := Snapshot(key, budgets[key], stageUnits[key], stageTokens[key], fanOut[key], SumOf(stageTokens[key]));
    }
  }

  // ---------- the Redis scripts behind the controller ----------

  /** The ingestion hash: declared limits, stage counters and two running totals. */
  datatype Hash = Hash(limits: Limits, units: PerStage, tokens: PerStage, fanOutUsed: int, totalTokens: int)

  type Remote = map<string, Hash>

  /** The reply echoes the id as the caller gave it. */
  function RemoteSnapshot(id: string, h: Hash): Reply {
    Snapshot(id, h.limits, h.units, h.tokens, h.fanOutUsed, h.totalTokens)
  }

  /** Checks of the charge script; it tests the running total and a positive token limit. */
  function ScriptCheck(h: Hash, op: Op): Option<Code>
    requires op.Charge? && op.stage.Some?
  {
    var s := op.stage.value;
    if CountsTokens(s) && Get(h.tokens, s) + op.tokens > StageLimit(h.limits, s) then Some(StageTokenBudget)
    else if !CountsTokens(s) && Get(h.units, s) + op.units > StageLimit(h.limits, s) then Some(StageCallBudget)
    else if h.limits.tokenBudget > 0 && h.totalTokens + op.tokens > h.limits.tokenBudget then Some(TokenBudget)
    else if h.fanOutUsed + op.fanOut > h.limits.maxFanOut then Some(FanOutBudget)
    else None
  }

  function ScriptRegister(r: Remote, key: string, limits: Limits): (Remote, Reply) {
    if |key| == 0 then (r, ValueError)
    else if key in r then
      (r, if r[key].limits != limits then Exceeded(BudgetConflict) else RemoteSnapshot(key, r[key]))
    else
      var h := Hash(limits, NONE_USED, NONE_USED, 0, 0);
      (r[key := h], RemoteSnapshot(key, h))
  }

  /** The key is built from the stripped id, and an empty one is an error. */
  function ScriptCharge(r: Remote, id: string, op: Op): (Remote, Reply)
    requires op.Charge? && op.stage.Some?
  {
    var key := Strip(id);
    if op.units < 0 || op.tokens < 0 || op.fanOut < 0 then (r, Exceeded(InvalidBudget))
    else if |key| == 0 then (r, ValueError)
    else if key !in r then (r, Exceeded(NotRegistered))
    else
      var h := r[key];
      var refused := ScriptCheck(h, op);
      if refused.Some? then (r, Exceeded(refused.value))
      else
        var h' := Hash(h.limits, Add(h.units, op.stage.value, op.units), Add(h.tokens, op.stage.value, op.tokens),
                       h.fanOutUsed + op.fanOut, h.totalTokens + op.tokens);
        (r[key := h'], RemoteSnapshot(id, h'))
  }

  /** The controller with a control plane; only `register` strips the id before it passes it on. */
  function RemoteApply(r: Remote, op: Op): (Remote, Reply) {
    match op
    case Register(id, limits) => ScriptRegister(r, Strip(id), limits)
    case Charge(id, stage, _, _, _) =>
      if stage.None? then (r, ValueError) else ScriptCharge(r, id, op)
  }

  class RedisLedger {
    var hashes: map<string, Hash>

    constructor ()
      ensures hashes == map[]
    {
      hashes := map[];
    }

    method Register(id: string, limits: Limits) returns (reply: Reply)
      modifies this
      ensures (hashes, reply) == RemoteApply(old(hashes), Op.Register(id, limits))
    {
      var key := Strip(id);
      if |key| == 0 { return ValueError; }
      if key in hashes {
        if hashes[key].limits != limits { return Exceeded(BudgetConflict); }
      } else {
        hashes := hashes[key := Hash(limits, NONE_USED, NONE_USED, 0, 0)];
      }
      reply := RemoteSnapshot(key, hashes[key]);
    }

    method Charge(id: string, stage: Option<Stage>, units: int, tokens: int, fan: int) returns (reply: Reply)
      modifies this
      ensures (hashes, reply) == RemoteApply(old(hashes), Op.Charge(id, stage, units, tokens, fan))
    {
      if stage.None? { return ValueError; }
      if units < 0 || tokens < 0 || fan < 0 { return Exceeded(InvalidBudget); }
      var key := Strip(id);
      if |key| == 0 { return ValueError; }
      if key !in hashes { return Exceeded(NotRegistered); }
      var h, s := hashes[key], stage.value;
      if CountsTokens(s) {
        if Get(h.tokens, s) + tokens > StageLimit(h.limits, s) { return Exceeded(StageTokenBudget); }
      } else {
        if Get(h.units, s) + units > StageLimit(h.limits, s) { return Exceeded(StageCallBudget); }
      }
      if h.limits.tokenBudget > 0 && h.totalTokens + tokens > h.limits.tokenBudget { return Exceeded(TokenBudget); }
      if h.fanOutUsed + fan > h.limits.maxFanOut { return Exceeded(FanOutBudget); }
      h := h.(units := Add(h.units, s, units));
      h := h.(tokens := Add(h.tokens, s, tokens));
      h := h.(totalTokens := h.totalTokens + tokens);
      h := h.(fanOutUsed := h.fanOutUsed + fan);
      hashes := hashes[key := h];
      reply := RemoteSnapshot(id, h);
    }
  }

  // ---------- simulation ----------

  /** Key `key` is registered in both or neither, with the same counters. */
  ghost predicate RelatedAt(l: Local, r: Remote, key: string)
    requires Complete(l)
  {
    && (key in r <==> key in l.budgets)
    && (key in r ==> ValidLimits(r[key].limits) && r[key] == HashOf(l, key))
  }

  /** The hash that stands for a local entry: its running total is the sum of the stage tokens. */
  function HashOf(l: Local, key: string): Hash
    requires Complete(l) && key in l.budgets
  {
    Hash(l.budgets[key], l.units[key], l.tokens[key], l.fanOut[key], SumOf(l.tokens[key]))
  }

  /** Same keys and counters, none of them under the empty key. */
  ghost predicate Related(l: Local, r: Remote) {
    Complete(l) && "" !in l.budgets && forall key :: RelatedAt(l, r, key)
  }

  /** Two replies that differ at most in the id they echo. */
  predicate Alike(a: Reply, b: Reply) {
    if a.Snapshot? && b.Snapshot? then a == b.(id := a.id) else a == b
  }

  /** A well-formed charge of a blank id: a ValueError behind the control plane, NOT_REGISTERED without. */
  predicate BlankCharge(op: Op) {
    op.Charge? && op.stage.Some? && op.units >= 0 && op.tokens >= 0 && op.fanOut >= 0 && Strip(op.id) == ""
  }

  lemma SumOfAdd(c: PerStage, s: Stage, n: int)
    ensures SumOf(Add(c, s, n)) == SumOf(c) + n
  {
  }

  /** The local state with one key's entry written. */
  function Written(l: Local, key: string, limits: Limits, units: PerStage, tokens: PerStage, fanOut: int): Local {
    Local(l.budgets[key := limits], l.units[key := units], l.tokens[key := tokens], l.fanOut[key := fanOut])
  }

  /** Writing one key's entry on both sides keeps them related. */
  lemma UpdateKeepsRelated(
    l: Local, r: Remote, key: string, limits: Limits, units: PerStage, tokens: PerStage, fanOut: int)
    requires Related(l, r) && ValidLimits(limits) && key != ""
    ensures Related(Written(l, key, limits, units, tokens, fanOut),
                    r[key := Hash(limits, units, tokens, fanOut, SumOf(tokens))])
  {
    var l', r' := Written(l, key, limits, units, tokens, fanOut),
        r[key := Hash(limits, units, tokens, fanOut, SumOf(tokens))];
    forall k ensures RelatedAt(l', r', k) {
      assert RelatedAt(l, r, k);
    }
  }

  lemma RegisterSimulates(l: Local, r: Remote, key: string, limits: Limits)
    requires Related(l, r) && ValidLimits(limits)
    ensures LocalRegister(l, key, limits).1 == ScriptRegister(r, key, limits).1
    ensures Related(LocalRegister(l, key, limits).0, ScriptRegister(r, key, limits).0)
  {
    assert RelatedAt(l, r, key);
    if |key| > 0 && key !in r {
      NewEntry(l, r, key, limits);
      NewEntryRelated(l, r, key, limits);
    } else {
      assert LocalRegister(l, key, limits).0 == l && ScriptRegister(r, key, limits).0 == r;
    }
  }

  lemma NewEntryRelated(l: Local, r: Remote, key: string, limits: Limits)
    requires Related(l, r) && ValidLimits(limits) && |key| > 0
    ensures Related(Written(l, key, limits, NONE_USED, NONE_USED, 0),
                    r[key := Hash(limits, NONE_USED, NONE_USED, 0, 0)])
  {
    UpdateKeepsRelated(l, r, key, limits, NONE_USED, NONE_USED, 0);
    assert Hash(limits, NONE_USED, NONE_USED, 0, SumOf(NONE_USED)) == Hash(limits, NONE_USED, NONE_USED, 0, 0);
  }

  lemma NewEntry(l: Local, r: Remote, key: string, limits: Limits)
    requires Complete(l) && |key| > 0 && key !in r && key !in l.budgets
    ensures LocalRegister(l, key, limits) ==
            (Written(l, key, limits, NONE_USED, NONE_USED, 0), Snapshot(key, limits, NONE_USED, NONE_USED, 0, 0))
    ensures ScriptRegister(r, key, limits) ==
            (r[key := Hash(limits, NONE_USED, NONE_USED, 0, 0)], Snapshot(key, limits, NONE_USED, NONE_USED, 0, 0))
  {
  }

  lemma ChargeSimulates(l: Local, r: Remote, op: Op)
    requires Related(l, r) && op.Charge? && op.stage.Some?
    ensures var (l', here) := LocalCharge(l, Strip(op.id), op);
      var (r', there) := ScriptCharge(r, op.id, op);
      && Related(l', r')
      && (!BlankCharge(op) ==> Alike(here, there))
      && (here.Snapshot? ==> here.id == Strip(op.id))
      && (there.Snapshot? ==> there.id == op.id)
  {
    var key := Strip(op.id);
    assert RelatedAt(l, r, key);
    if key in r {
      ChecksAgree(l, r, key, op);
      if LocalCheck(l.budgets[key], l.units[key], l.tokens[key], l.fanOut[key], op).None? {
        if op.units >= 0 && op.tokens >= 0 && op.fanOut >= 0 { ChargedRelated(l, r, key, op); }
      }
    }
  }

  /** The running total stands for the sum of the stage tokens in the checks. */
  lemma ChecksAgree(l: Local, r: Remote, key: string, op: Op)
    requires Complete(l) && RelatedAt(l, r, key) && key in r && op.Charge? && op.stage.Some?
    ensures LocalCheck(l.budgets[key], l.units[key], l.tokens[key], l.fanOut[key], op) == ScriptCheck(r[key], op)
  {
  }

  lemma ChargedRelated(l: Local, r: Remote, key: string, op: Op)
    requires Related(l, r) && key in r && key in l.budgets && op.Charge? && op.stage.Some? && key == Strip(op.id)
    requires op.units >= 0 && op.tokens >= 0 && op.fanOut >= 0 && ScriptCheck(r[key], op).None?
    requires LocalCheck(l.budgets[key], l.units[key], l.tokens[key], l.fanOut[key], op).None?
    ensures Related(LocalCharge(l, key, op).0, ScriptCharge(r, op.id, op).0)
    ensures Alike(LocalCharge(l, key, op).1, ScriptCharge(r, op.id, op).1)
  {
    assert RelatedAt(l, r, key);
    var units, tokens := Add(l.units[key], op.stage.value, op.units), Add(l.tokens[key], op.stage.value, op.tokens);
    SumOfAdd(l.tokens[key], op.stage.value, op.tokens);
    UpdateKeepsRelated(l, r, key, l.budgets[key], units, tokens, l.fanOut[key] + op.fanOut);
    assert l.budgets[key := l.budgets[key]] == l.budgets;
  }

  /**
   * From related states the two forms stay related on every call. They answer alike, up to the id
   * echoed, if and only if the call is not a well-formed charge of a blank id; and an answer alike
   * echoes the same id if and only if it is not a charge granted for a padded one.
   */
  lemma StepSimulates(l: Local, r: Remote, op: Op)
    requires Related(l, r) && (op.Register? ==> ValidLimits(op.limits))
    ensures var (l', here) := LocalApply(l, op);
      var (r', there) := RemoteApply(r, op);
      && Related(l', r')
      && (Alike(here, there) <==> !BlankCharge(op))
      && (Alike(here, there) ==> (here == there <==> !(op.Charge? && here.Snapshot? && Strip(op.id) != op.id)))
  {
    match op
    case Register(id, limits) => RegisterSimulates(l, r, Strip(id), limits);
    case Charge(_, stage, _, _, _) =>
      if stage.Some? { ChargeSimulates(l, r, op); }
  }

  datatype Run = Run(locals: seq<Local>, remotes: seq<Remote>, ops: seq<Op>)

  /** Both ledgers run through the same calls from empty. */
  ghost predicate IsRun(t: Run) {
    && |t.locals| == |t.remotes| == |t.ops| + 1
    && t.locals[0] == EMPTY_LOCAL && t.remotes[0] == map[]
    && (forall i :: 0 <= i < |t.locals| ==> Complete(t.locals[i]))
    && (forall i :: 0 <= i < |t.ops| ==> StepAt(t, i))
    && (forall i :: 0 <= i < |t.ops| && t.ops[i].Register? ==> ValidLimits(t.ops[i].limits))
  }

  ghost predicate StepAt(t: Run, i: nat)
    requires i < |t.ops| && i + 1 < |t.locals| && i + 1 < |t.remotes| && Complete(t.locals[i])
  {
    && t.locals[i + 1] == LocalApply(t.locals[i], t.ops[i]).0
    && t.remotes[i + 1] == RemoteApply(t.remotes[i], t.ops[i]).0
  }

  /** After every sequence of calls the two forms have the same keys and counters. */
  lemma {:induction false} AlwaysRelated(t: Run, n: nat)
    requires IsRun(t) && n <= |t.ops|
    ensures Related(t.locals[n], t.remotes[n])
  {
    if n > 0 {
      AlwaysRelated(t, n - 1);
      assert StepAt(t, n - 1);
      StepSimulates(t.locals[n - 1], t.remotes[n - 1], t.ops[n - 1]);
    }
  }

  /** In every run the two forms answer a call alike if and only if it does not charge a blank id. */
  lemma SameAnswers(t: Run, n: nat)
    requires IsRun(t) && n < |t.ops|
    ensures Alike(LocalApply(t.locals[n], t.ops[n]).1, RemoteApply(t.remotes[n], t.ops[n]).1) <==>
      !BlankCharge(t.ops[n])
  {
    AlwaysRelated(t, n);
    StepSimulates(t.locals[n], t.remotes[n], t.ops[n]);
  }

  /** The same call with its id stripped. */
  function Bare(op: Op): Op {
    match op
    case Register(id, limits) => Register(Strip(id), limits)
    case Charge(id, stage, units, tokens, fanOut) => Charge(Strip(id), stage, units, tokens, fanOut)
  }

  /** Padding the id of a call changes nothing in process, and behind the control plane only the echo. */
  lemma PaddingIsIgnored(l: Local, r: Remote, op: Op)
    requires Complete(l)
    ensures LocalApply(l, Bare(op)) == LocalApply(l, op)
    ensures RemoteApply(r, Bare(op)).0 == RemoteApply(r, op).0
    ensures Alike(RemoteApply(r, Bare(op)).1, RemoteApply(r, op).1)
  {
    StripIdempotent(op.id);
    match op
    case Register(_, _) =>
    case Charge(id, stage, _, _, _) =>
      if stage.Some? {
        var key := Strip(id);
        assert key in l.budgets ==>
          LocalCheck(l.budgets[key], l.units[key], l.tokens[key], l.fanOut[key], Bare(op)) ==
          LocalCheck(l.budgets[key], l.units[key], l.tokens[key], l.fanOut[key], op);
        assert key in r ==> ScriptCheck(r[key], Bare(op)) == ScriptCheck(r[key], op);
      }
  }

  /** A blank id is not registered in process, and a ValueError behind the control plane. */
  lemma BlankIdDiverges()
    ensures var charge := Charge(" ", Some(Parser), 1, 0, 1);
      && BlankCharge(charge)
      && LocalApply(EMPTY_LOCAL, charge).1 == Exceeded(NotRegistered)
      && RemoteApply(map[], charge).1 == ValueError
  {
    assert " "[1..] == "";
    assert StripLeft(" ") == StripLeft("") == "";
  }

  // ---------- limits ----------

  /** Every stage, total and fan-out limit holds. */
  predicate WithinLimits(h: Hash) {
    && h.units.parser <= h.limits.parserUnits && h.units.ocr <= h.limits.ocrCalls
    && h.units.vision <= h.limits.visionCalls
    && h.tokens.summary <= h.limits.summaryTokens && h.tokens.embedding <= h.limits.embeddingTokens
    && (h.limits.tokenBudget > 0 ==> h.totalTokens <= h.limits.tokenBudget)
    && h.fanOutUsed <= h.limits.maxFanOut
  }

  lemma {:induction false} LimitsHold(t: Run, n: nat, key: string)
    requires IsRun(t) && n <= |t.ops| && key in t.remotes[n]
    ensures WithinLimits(t.remotes[n][key])
  {
    assert n > 0;
    assert StepAt(t, n - 1);
    if key in t.remotes[n - 1] { LimitsHold(t, n - 1, key); }
  }

  /** A rejected call leaves the ledger unchanged, in both forms. */
  lemma RejectedLocally(l: Local, op: Op)
    requires Complete(l)
    ensures !LocalApply(l, op).1.Snapshot? ==> LocalApply(l, op).0 == l
  {
  }

  lemma RejectedRemotely(r: Remote, op: Op)
    ensures !RemoteApply(r, op).1.Snapshot? ==> RemoteApply(r, op).0 == r
  {
  }
}
