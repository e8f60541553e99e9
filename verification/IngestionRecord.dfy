/**
 * What the ingestion ledger answers, read off the calls made so far and the answers given, without
 * its dictionaries; and what stripping an id means.
 */
module IngestionRecord {
  import opened Options
  import opened IngestionLedger

  // ---------- stripping ----------

  /** The 29 code points that Python counts as white space. */
  lemma SpacesAre(c: char)
    ensures IsSpace(c) <==>
      || c as int in {9, 10, 11, 12, 13, 28, 29, 30, 31, 32, 133, 160, 5760}
      || 8192 <= c as int <= 8202
      || c as int in {8232, 8233, 8239, 8287, 12288}
  {
  }

  /** Stripping takes the white space off both ends, all of it and nothing else. */
  lemma StripIs(s: string) returns (left: string, right: string)
    ensures s == left + Strip(s) + right
    ensures forall i :: 0 <= i < |left| ==> IsSpace(left[i])
    ensures forall i :: 0 <= i < |right| ==> IsSpace(right[i])
    ensures Strip(s) != "" ==> !IsSpace(Strip(s)[0]) && !IsSpace(Strip(s)[|Strip(s)| - 1])
  {
    left := StripLeftIs(s);
    right := StripRightIs(StripLeft(s));
    StripLeftTrims(s);
    StripRightTrims(StripLeft(s));
  }

  lemma {:induction false} StripLeftIs(s: string) returns (left: string)
    ensures s == left + StripLeft(s) && forall i :: 0 <= i < |left| ==> IsSpace(left[i])
  {
    if |s| > 0 && IsSpace(s[0]) {
      left := StripLeftIs(s[1..]);
      left := [s[0]] + left;
    } else {
      left := "";
    }
  }

  lemma {:induction false} StripRightIs(s: string) returns (right: string)
    ensures s == StripRight(s) + right && forall i :: 0 <= i < |right| ==> IsSpace(right[i])
  {
    if |s| > 0 && IsSpace(s[|s| - 1]) {
      right := StripRightIs(s[..|s| - 1]);
      right := right + [s[|s| - 1]];
    } else {
      right := "";
    }
  }

  // ---------- the record ----------

  predicate Called(ops: seq<Op>, replies: seq<Reply>, n: nat) {
    n <= |ops| == |replies|
  }

  /** The first limits granted to a key. */
  function LimitsOf(ops: seq<Op>, replies: seq<Reply>, n: nat, key: string): Option<Limits>
    requires Called(ops, replies, n)
  {
    if n == 0 then None
    else if LimitsOf(ops, replies, n - 1, key).Some? then LimitsOf(ops, replies, n - 1, key)
    else if ops[n - 1].Register? && Strip(ops[n - 1].id) == key && replies[n - 1].Snapshot? then Some(ops[n - 1].limits)
    else None
  }

  /** Whether a call is a granted charge of a key in one of the given stages. */
  predicate Charges(op: Op, reply: Reply, key: string, stages: set<Stage>) {
    op.Charge? && reply.Snapshot? && Strip(op.id) == key && op.stage.Some? && op.stage.value in stages
  }

  /** Units and tokens charged to a key in the given stages, and children of all of them. */
  function UnitsOf(ops: seq<Op>, replies: seq<Reply>, n: nat, key: string, stages: set<Stage>): int
    requires Called(ops, replies, n)
  {
    if n == 0 then 0
    else
      UnitsOf(ops, replies, n - 1, key, stages)
      + if Charges(ops[n - 1], replies[n - 1], key, stages) then ops[n - 1].units else 0
  }

  function TokensOf(ops: seq<Op>, replies: seq<Reply>, n: nat, key: string, stages: set<Stage>): int
    requires Called(ops, replies, n)
  {
    if n == 0 then 0
    else
      TokensOf(ops, replies, n - 1, key, stages)
      + if Charges(ops[n - 1], replies[n - 1], key, stages) then ops[n - 1].tokens else 0
  }

  const STAGES := {Parser, Ocr, Vision, Summary, Embedding}

  function FanOutOf(ops: seq<Op>, replies: seq<Reply>, n: nat, key: string): int
    requires Called(ops, replies, n)
  {
    if n == 0 then 0
    else
      FanOutOf(ops, replies, n - 1, key)
      + if Charges(ops[n - 1], replies[n - 1], key, STAGES) then ops[n - 1].fanOut else 0
  }

  /** The counters of a key after n calls, as a snapshot shows them. */
  function Shown(ops: seq<Op>, replies: seq<Reply>, n: nat, key: string, limits: Limits): Reply
    requires Called(ops, replies, n)
  {
    var units := s => UnitsOf(ops, replies, n, key, {s});
    var tokens := s => TokensOf(ops, replies, n, key, {s});
    Snapshot(key, limits,
      PerStage(units(Parser), units(Ocr), units(Vision), units(Summary), units(Embedding)),
      PerStage(tokens(Parser), tokens(Ocr), tokens(Vision), tokens(Summary), tokens(Embedding)),
      FanOutOf(ops, replies, n, key), TokensOf(ops, replies, n, key, STAGES))
  }

  // ---------- the answers ----------

  /** The answers of the in-process controller in a run. */
  ghost predicate Answered(t: Run, replies: seq<Reply>)
    requires IsRun(t)
  {
    |replies| == |t.ops| && forall i :: 0 <= i < |t.ops| ==> Answers(t, i, replies[i])
  }

  ghost predicate Answers(t: Run, i: nat, reply: Reply)
    requires IsRun(t) && i < |t.ops|
  {
    reply == LocalApply(t.locals[i], t.ops[i]).1
  }

  function EntryOf(l: Local, key: string): Option<Hash>
    requires Complete(l)
  {
    if key in l.budgets then Some(HashOf(l, key)) else None
  }

  /** What a granted call makes of the entry of its key. */
  function Granted(e: Option<Hash>, op: Op): Option<Hash> {
    match op
    case Register(_, limits) => if e.None? then Some(Hash(limits, NONE_USED, NONE_USED, 0, 0)) else e
    case Charge(_, stage, units, tokens, fan) =>
      if e.None? || stage.None? then e
      else
        Some(Hash(e.value.limits, Add(e.value.units, stage.value, units), Add(e.value.tokens, stage.value, tokens),
                  e.value.fanOutUsed + fan, e.value.totalTokens + tokens))
  }

  /** A call changes the entry of its key, if it is granted, and nothing else. */
  ghost predicate EntryMoves(l: Local, l': Local, op: Op, reply: Reply, key: string)
    requires Complete(l) && Complete(l')
  {
    && EntryOf(l', key) == (if Strip(op.id) == key && reply.Snapshot? then Granted(EntryOf(l, key), op)
                            else EntryOf(l, key))
    && (op.Charge? && Strip(op.id) == key && reply.Snapshot? ==> EntryOf(l, key).Some? && op.stage.Some?)
  }

  lemma RegisterMoves(l: Local, op: Op, key: string)
    requires Complete(l) && op.Register?
    ensures EntryMoves(l, LocalApply(l, op).0, op, LocalApply(l, op).1, key)
  {
    assert SumOf(NONE_USED) == 0;
  }

  lemma ChargeMoves(l: Local, op: Op, key: string)
    requires Complete(l) && op.Charge?
    ensures EntryMoves(l, LocalApply(l, op).0, op, LocalApply(l, op).1, key)
  {
    var (l', reply) := LocalApply(l, op);
    if reply.Snapshot? {
      var own := Strip(op.id);
      SumOfAdd(l.tokens[own], op.stage.value, op.tokens);
      assert l' == Local(l.budgets, l.units[own := Add(l.units[own], op.stage.value, op.units)],
                         l.tokens[own := Add(l.tokens[own], op.stage.value, op.tokens)],
                         l.fanOut[own := l.fanOut[own] + op.fanOut]);
    } else {
      assert l' == l;
    }
  }

  /** An entry agrees with the record in one stage. */
  ghost predicate EntryRecorded(
    e: Option<Hash>, ops: seq<Op>, replies: seq<Reply>, n: nat, key: string, s: Stage)
    requires Called(ops, replies, n)
  {
    var units, tokens := UnitsOf(ops, replies, n, key, {s}), TokensOf(ops, replies, n, key, {s});
    var fan, total := FanOutOf(ops, replies, n, key), TokensOf(ops, replies, n, key, STAGES);
    match e
    case None => LimitsOf(ops, replies, n, key).None? && units == tokens == fan == total == 0
    case Some(h) =>
      && LimitsOf(ops, replies, n, key) == Some(h.limits)
      && Get(h.units, s) == units && Get(h.tokens, s) == tokens && h.fanOutUsed == fan && h.totalTokens == total
  }

  lemma GetOfAdd(c: PerStage, at: Stage, n: int, s: Stage)
    ensures Get(Add(c, at, n), s) == Get(c, s) + if at in {s} then n else 0
    ensures at in STAGES && Get(NONE_USED, s) == 0
  {
  }

  lemma EntryStaysRecorded(e: Option<Hash>, ops: seq<Op>, replies: seq<Reply>, n: nat, key: string, s: Stage)
    requires Called(ops, replies, n) && n > 0 && EntryRecorded(e, ops, replies, n - 1, key, s)
    requires ops[n - 1].Charge? && Strip(ops[n - 1].id) == key && replies[n - 1].Snapshot? ==>
      e.Some? && ops[n - 1].stage.Some?
    ensures var granted := Strip(ops[n - 1].id) == key && replies[n - 1].Snapshot?;
      EntryRecorded(if granted then Granted(e, ops[n - 1]) else e, ops, replies, n, key, s)
  {
    var op := ops[n - 1];
    GetOfAdd(NONE_USED, s, 0, s);
    if op.Charge? && op.stage.Some? && e.Some? {
      GetOfAdd(e.value.units, op.stage.value, op.units, s);
      GetOfAdd(e.value.tokens, op.stage.value, op.tokens, s);
    }
  }

  /** Limits and counters of every key are those of the calls granted. */
  lemma {:induction false} KeyIsRecorded(t: Run, replies: seq<Reply>, n: nat, key: string, s: Stage)
    requires IsRun(t) && Answered(t, replies) && n <= |t.ops|
    ensures EntryRecorded(EntryOf(t.locals[n], key), t.ops, replies, n, key, s)
  {
    if n > 0 {
      KeyIsRecorded(t, replies, n - 1, key, s);
      assert StepAt(t, n - 1);
      assert Answers(t, n - 1, replies[n - 1]);
      if t.ops[n - 1].Charge? {
        ChargeMoves(t.locals[n - 1], t.ops[n - 1], key);
      } else {
        RegisterMoves(t.locals[n - 1], t.ops[n - 1], key);
      }
      EntryStaysRecorded(EntryOf(t.locals[n - 1], key), t.ops, replies, n, key, s);
    }
  }

  /** The answer a call must get after the first n calls. */
  function AnswerTo(ops: seq<Op>, replies: seq<Reply>, n: nat, op: Op): Reply
    requires Called(ops, replies, n)
  {
    var key := Strip(op.id);
    var limits := LimitsOf(ops, replies, n, key);
    match op
    case Register(_, wanted) =>
      if |key| == 0 then ValueError
      else if limits.None? then Snapshot(key, wanted, PerStage(0, 0, 0, 0, 0), PerStage(0, 0, 0, 0, 0), 0, 0)
      else if limits.value == wanted then Shown(ops, replies, n, key, wanted)
      else Exceeded(BudgetConflict)
    case Charge(_, stage, units, tokens, fan) =>
      if stage.None? then ValueError
      else if units < 0 || tokens < 0 || fan < 0 then Exceeded(InvalidBudget)
      else if limits.None? then Exceeded(NotRegistered)
      else
        var used := UnitsOf(ops, replies, n, key, {stage.value}) + units;
        var spent := TokensOf(ops, replies, n, key, {stage.value}) + tokens;
        var b := limits.value;
        var refused := match stage.value
                       case Parser => if used > b.parserUnits then Some(StageCallBudget) else None
                       case Ocr => if used > b.ocrCalls then Some(StageCallBudget) else None
                       case Vision => if used > b.visionCalls then Some(StageCallBudget) else None
                       case Summary => if spent > b.summaryTokens then Some(StageTokenBudget) else None
                       case Embedding => if spent > b.embeddingTokens then Some(StageTokenBudget) else None;
        if refused.Some? then Exceeded(refused.value)
        else if b.tokenBudget != 0 && TokensOf(ops, replies, n, key, STAGES) + tokens > b.tokenBudget
          then Exceeded(TokenBudget)
        else if FanOutOf(ops, replies, n, key) + fan > b.maxFanOut then Exceeded(FanOutBudget)
        else Charged(Shown(ops, replies, n, key, b), stage.value, units, tokens, fan)
  }

  /** A snapshot with one charge added to its counters. */
  function Charged(shown: Reply, s: Stage, units: int, tokens: int, fan: int): Reply
    requires shown.Snapshot?
  {
    var u, c := shown.units, shown.tokens;
    var more := match s
                case Parser => (u.(parser := u.parser + units), c.(parser := c.parser + tokens))
                case Ocr => (u.(ocr := u.ocr + units), c.(ocr := c.ocr + tokens))
                case Vision => (u.(vision := u.vision + units), c.(vision := c.vision + tokens))
                case Summary => (u.(summary := u.summary + units), c.(summary := c.summary + tokens))
                case Embedding => (u.(embedding := u.embedding + units), c.(embedding := c.embedding + tokens));
    shown.(units := more.0, tokens := more.1, fanOut := shown.fanOut + fan, total := shown.total + tokens)
  }

  /** The stored counters of a key, in one snapshot. */
  lemma StoredIsShown(t: Run, replies: seq<Reply>, n: nat, key: string)
    requires IsRun(t) && Answered(t, replies) && n <= |t.ops| && key in t.locals[n].budgets
    ensures LocalSnapshot(t.locals[n], key) == Shown(t.ops, replies, n, key, t.locals[n].budgets[key])
  {
    KeyIsRecorded(t, replies, n, key, Parser);
    KeyIsRecorded(t, replies, n, key, Ocr);
    KeyIsRecorded(t, replies, n, key, Vision);
    KeyIsRecorded(t, replies, n, key, Summary);
    KeyIsRecorded(t, replies, n, key, Embedding);
  }

  /** Every call is answered from the record of the calls before it: exactly when it is granted, and why not. */
  lemma AnsweredFromRecord(t: Run, replies: seq<Reply>, j: nat)
    requires IsRun(t) && Answered(t, replies) && j < |t.ops|
    ensures replies[j] == AnswerTo(t.ops, replies, j, t.ops[j])
  {
    var op, key := t.ops[j], Strip(t.ops[j].id);
    assert Answers(t, j, replies[j]);
    KeyIsRecorded(t, replies, j, key, if op.Charge? && op.stage.Some? then op.stage.value else Parser);
    if key in t.locals[j].budgets {
      StoredIsShown(t, replies, j, key);
      if op.Charge? && op.stage.Some? { ChargedIs(t.locals[j], op); }
    }
  }

  /** A granted charge, as the snapshot before it with the charge added. */
  lemma ChargedIs(l: Local, op: Op)
    requires Complete(l) && op.Charge? && op.stage.Some? && Strip(op.id) in l.budgets
    ensures var reply := LocalApply(l, op).1;
      reply.Snapshot? ==>
        reply == Charged(LocalSnapshot(l, Strip(op.id)), op.stage.value, op.units, op.tokens, op.fanOut)
  {
    SumOfAdd(l.tokens[Strip(op.id)], op.stage.value, op.tokens);
  }
}
