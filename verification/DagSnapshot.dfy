/**
 * The shared DAG snapshot: created once, then patched optimistically with WATCH, GET, EXEC.
 */
module DagSnapshot {
  import opened Options

  datatype NodeStatus = Pending | Running | Waiting | Succeeded | Failed | Blocked | Cancelled | OtherStatus

  /** A node's stored mapping; a missing status counts as pending. */
  datatype Node = Node(status: Option<NodeStatus>, fields: string)

  datatype DagStatus = DagSucceeded | DagWaiting | DagFailed | DagCancelled | DagRunning | DagQueued

  type Nodes = map<nat, Node>

  function StatusOf(n: Node): NodeStatus {
    if n.status.Some? then n.status.value else Pending
  }

  /** `_dag_status`. */
  function Status(nodes: Nodes): DagStatus {
    if nodes == map[] then DagSucceeded
    else if exists id :: id in nodes && StatusOf(nodes[id]) == Waiting then DagWaiting
    else if exists id :: id in nodes && StatusOf(nodes[id]) in {Failed, Blocked} then DagFailed
    else if forall id :: id in nodes ==> StatusOf(nodes[id]) in {Succeeded, Cancelled} then
      if forall id :: id in nodes ==> StatusOf(nodes[id]) == Succeeded then DagSucceeded else DagCancelled
    else if exists id :: id in nodes && StatusOf(nodes[id]) == Running then DagRunning
    else DagQueued
  }

  /**
   * What the status of a snapshot says of the stored statuses of its nodes; a node without one is
   * neither waiting, failed, blocked nor running, and not done.
   */
  ghost predicate Summarises(status: DagStatus, nodes: Nodes) {
    && (status == DagWaiting <==> exists id :: id in nodes && nodes[id].status == Some(Waiting))
    && (status == DagFailed <==>
          && (exists id :: id in nodes && nodes[id].status in {Some(Failed), Some(Blocked)})
          && (forall id :: id in nodes ==> nodes[id].status != Some(Waiting)))
    && (status == DagSucceeded <==> forall id :: id in nodes ==> nodes[id].status == Some(Succeeded))
    && (status == DagCancelled <==>
          && (forall id :: id in nodes ==> nodes[id].status in {Some(Succeeded), Some(Cancelled)})
          && (exists id :: id in nodes && nodes[id].status == Some(Cancelled)))
    && (status == DagRunning <==>
          && (exists id :: id in nodes && nodes[id].status == Some(Running))
          && (forall id :: id in nodes ==> nodes[id].status !in {Some(Waiting), Some(Failed), Some(Blocked)}))
    && (status == DagQueued <==>
          && (exists id :: id in nodes && nodes[id].status !in {Some(Succeeded), Some(Cancelled)})
          && (forall id :: id in nodes ==>
                nodes[id].status !in {Some(Waiting), Some(Failed), Some(Blocked), Some(Running)}))
  }

  lemma StatusSummarises(nodes: Nodes)
    ensures Summarises(Status(nodes), nodes)
  {
  }

  datatype Snapshot = Snapshot(nodes: Nodes, status: DagStatus, revision: int)

  const MAX_ATTEMPTS := 8

  function Created(nodes: Nodes): Snapshot {
    Snapshot(nodes, Status(nodes), 1)
  }

  /** One patch merged into a snapshot. */
  function Patched(s: Snapshot, patch: Nodes): Snapshot {
    Snapshot(s.nodes + patch, Status(s.nodes + patch), s.revision + 1)
  }

  /** Patches applied one after the other. */
  function Folded(s: Snapshot, patches: seq<Nodes>): Snapshot {
    if patches == [] then s else Patched(Folded(s, patches[..|patches| - 1]), patches[|patches| - 1])
  }

  lemma {:induction false} FoldedJoins(s: Snapshot, p: seq<Nodes>, q: seq<Nodes>)
    ensures Folded(Folded(s, p), q) == Folded(s, p + q)
  {
    if q == [] {
      assert p + q == p;
    } else {
      FoldedJoins(s, p, q[..|q| - 1]);
      assert (p + q)[..|p + q| - 1] == p + q[..|q| - 1];
    }
  }

  /** Revision and status of a folded snapshot. */
  lemma {:induction false} FoldedMeaning(s: Snapshot, patches: seq<Nodes>)
    ensures Folded(s, patches).revision == s.revision + |patches|
    ensures s.status == Status(s.nodes) || patches != [] ==>
      Summarises(Folded(s, patches).status, Folded(s, patches).nodes)
  {
    StatusSummarises(Folded(s, patches).nodes);
    if patches != [] { FoldedMeaning(s, patches[..|patches| - 1]); }
  }

  /** A node ends with the value of the last patch naming it, or keeps its first value. */
  lemma {:induction false} LastPatchWins(s: Snapshot, patches: seq<Nodes>, i: int, id: nat)
    requires -1 <= i < |patches| && forall k :: i < k < |patches| ==> id !in patches[k]
    requires i >= 0 ==> id in patches[i]
    ensures id in Folded(s, patches).nodes <==> i >= 0 || id in s.nodes
    ensures id in Folded(s, patches).nodes ==>
      Folded(s, patches).nodes[id] == if i >= 0 then patches[i][id] else s.nodes[id]
  {
    var n := |patches| - 1;
    if i < n { LastPatchWins(s, patches[..n], i, id); }
  }

  // ---------- clients under interleaving ----------

  datatype Result = Revision(revision: int) | Conflict

  datatype Phase =
    | Trying(patch: Nodes, left: nat)
    | Watching(patch: Nodes, left: nat, version: nat)
    | Prepared(patch: Nodes, left: nat, version: nat, merged: Snapshot)
    | Finished(patch: Nodes, result: Result)

  /**
   * The stored value with a version that every write bumps, the clients, and the history: the
   * nodes first put and the patches executed so far.
   */
  datatype State = State(
    stored: Option<Snapshot>,
    version: nat,
    clients: map<nat, Phase>,
    first: Nodes,
    history: seq<Nodes>)

  const INITIAL := State(None, 0, map[], map[], [])

  datatype Action =
    | Put(nodes: Nodes)
    | Begin(client: nat, patch: Nodes)
    | Watch(client: nat)
    | Read(client: nat)
    | Exec(client: nat)

  predicate Enabled(s: State, a: Action) {
    match a
    case Put(_) => true
    case Begin(client, _) => client !in s.clients
    case Watch(client) => client in s.clients && s.clients[client].Trying?
    case Read(client) => client in s.clients && s.clients[client].Watching?
    case Exec(client) => client in s.clients && s.clients[client].Prepared?
  }

  function Next(s: State, a: Action): State
    requires Enabled(s, a)
  {
    match a
    case Put(nodes) =>
      if s.stored.Some? then s
      else s.(stored := Some(Created(nodes)), version := s.version + 1, first := nodes, history := [])
    case Begin(client, patch) =>
      if patch == map[] then
        s.(clients := s.clients[client := Finished(patch,
             if s.stored.Some? then Revision(s.stored.value.revision) else Conflict)])
      else s.(clients := s.clients[client := Trying(patch, MAX_ATTEMPTS)])
    case Watch(client) =>
      var c := s.clients[client];
      s.(clients := s.clients[client := Watching(c.patch, c.left, s.version)])
    case Read(client) =>
      var c := s.clients[client];
      s.(clients := s.clients[client :=
           if s.stored.Some? then Prepared(c.patch, c.left, c.version, Patched(s.stored.value, c.patch))
           else Finished(c.patch, Conflict)])
    case Exec(client) =>
      var c := s.clients[client];
      if c.version == s.version then
        s.(stored := Some(c.merged), version := s.version + 1, history := s.history + [c.patch],
           clients := s.clients[client := Finished(c.patch, Revision(c.merged.revision))])
      else
        s.(clients := s.clients[client :=
             if c.left <= 1 then Finished(c.patch, Conflict) else Trying(c.patch, c.left - 1)])
  }

  datatype Run = Run(states: seq<State>, actions: seq<Action>)

  ghost predicate StepAt(t: Run, i: nat)
    requires i < |t.actions| && i + 1 < |t.states|
  {
    Enabled(t.states[i], t.actions[i]) && t.states[i + 1] == Next(t.states[i], t.actions[i])
  }

  ghost predicate IsRun(t: Run) {
    && |t.states| == |t.actions| + 1 && t.states[0] == INITIAL
    && forall i :: 0 <= i < |t.actions| ==> StepAt(t, i)
  }

  /** A prepared client whose watched version is still current holds the current value, patched. */
  ghost predicate PreparedAt(s: State, client: nat)
    requires client in s.clients
  {
    var c := s.clients[client];
    && (c.Watching? ==> c.version <= s.version)
    && (c.Prepared? ==>
        c.version <= s.version &&
        (c.version == s.version ==> s.stored.Some? && c.merged == Patched(s.stored.value, c.patch)))
  }

  ghost predicate NothingLost(s: State) {
    && (s.stored.Some? ==> s.stored.value == Folded(Created(s.first), s.history))
    && (s.stored.None? ==> s.history == [])
    && (forall client :: client in s.clients ==> PreparedAt(s, client))
  }

  lemma NothingLostStep(s: State, a: Action)
    requires NothingLost(s) && Enabled(s, a)
    ensures NothingLost(Next(s, a))
  {
    var s' := Next(s, a);
    if a.Exec? {
      assert PreparedAt(s, a.client);
      assert (s.history + [s.clients[a.client].patch])[..|s.history|] == s.history;
    }
    forall client | client in s'.clients
      ensures PreparedAt(s', client)
    {
      if client in s.clients { assert PreparedAt(s, client); }
    }
  }

  lemma {:induction false} AlwaysNothingLost(t: Run, n: nat)
    requires IsRun(t) && n <= |t.actions|
    ensures NothingLost(t.states[n])
  {
    if n > 0 {
      AlwaysNothingLost(t, n - 1);
      assert StepAt(t, n - 1);
      NothingLostStep(t.states[n - 1], t.actions[n - 1]);
    }
  }

  /**
   * No update is lost: in every interleaving the stored nodes are the fold of the executed patches
   * in revision order, the revision is one more than their number, and the status is that of the nodes.
   */
  lemma NoLostUpdate(t: Run, n: nat)
    requires IsRun(t) && n <= |t.actions| && t.states[n].stored.Some?
    ensures var s := t.states[n];
      && s.stored.value == Folded(Snapshot(s.first, Status(s.first), 1), s.history)
      && s.stored.value.revision == 1 + |s.history|
      && Summarises(s.stored.value.status, s.stored.value.nodes)
  {
    AlwaysNothingLost(t, n);
    FoldedMeaning(Created(t.states[n].first), t.states[n].history);
  }

  /** The executed patches are exactly the non-empty ones whose callers got a revision, each once. */
  ghost predicate PatchSucceeds(t: Run, i: nat)
    requires IsRun(t) && i < |t.actions|
  {
    && t.actions[i].Exec?
    && t.actions[i].client in t.states[i + 1].clients
    && t.states[i + 1].clients[t.actions[i].client].Finished?
    && t.states[i + 1].clients[t.actions[i].client].result.Revision?
  }

  ghost function Successes(t: Run, n: nat): seq<Nodes>
    requires IsRun(t) && n <= |t.actions|
  {
    if n == 0 then []
    else if PatchSucceeds(t, n - 1) then
      Successes(t, n - 1) + [t.states[n].clients[t.actions[n - 1].client].patch]
    else Successes(t, n - 1)
  }

  lemma {:induction false} HistoryIsSuccesses(t: Run, n: nat)
    requires IsRun(t) && n <= |t.actions|
    ensures t.states[n].history == Successes(t, n)
  {
    if n > 0 {
      HistoryIsSuccesses(t, n - 1);
      AlwaysNothingLost(t, n - 1);
      assert StepAt(t, n - 1);
    }
  }

  /** The revision a successful caller gets is its own position in the history. */
  lemma RevisionIsPosition(t: Run, i: nat)
    requires IsRun(t) && i < |t.actions| && PatchSucceeds(t, i)
    ensures t.states[i + 1].clients[t.actions[i].client].result.revision == 1 + |t.states[i + 1].history|
    ensures |t.states[i + 1].history| == |t.states[i].history| + 1
  {
    assert StepAt(t, i);
    AlwaysNothingLost(t, i);
    assert PreparedAt(t.states[i], t.actions[i].client);
    FoldedMeaning(Created(t.states[i].first), t.states[i].history);
  }

  /** How often a client got as far as EXEC. */
  ghost function Execs(t: Run, n: nat, client: nat): nat
    requires n <= |t.actions|
  {
    if n == 0 then 0
    else Execs(t, n - 1, client) + if t.actions[n - 1].Exec? && t.actions[n - 1].client == client then 1 else 0
  }

  /** What a client has left of its eight attempts, or how it ended. */
  ghost predicate AttemptsAt(s: State, client: nat, execs: nat) {
    && (s.stored.None? || client !in s.clients ==> execs == 0)
    && (client in s.clients ==>
          match s.clients[client]
          case Trying(_, left) => left > 0 && left + execs == 8
          case Watching(_, left, _) => left > 0 && left + execs == 8
          case Prepared(_, left, _, _) => s.stored.Some? && left > 0 && left + execs == 8
          case Finished(_, Conflict) => execs == 0 || execs == 8
          case Finished(_, Revision(_)) => execs <= 8)
  }

  /** A client gives up after exactly eight disturbed attempts, or because there is no snapshot. */
  lemma {:induction false} EightAttempts(t: Run, n: nat, client: nat)
    requires IsRun(t) && n <= |t.actions|
    ensures AttemptsAt(t.states[n], client, Execs(t, n, client))
  {
    if n > 0 {
      EightAttempts(t, n - 1, client);
      AlwaysNothingLost(t, n - 1);
      assert StepAt(t, n - 1);
    }
  }

  // ---------- the patch loop ----------

  /** Everything the other clients execute before attempt k ends. */
  function Before(others: seq<seq<Nodes>>, k: nat): seq<Nodes>
    requires k <= |others|
  {
    if k == 0 then [] else Before(others, k - 1) + others[k - 1]
  }

  /** What a patch stores on top of the patches before it. */
  lemma PatchLands(s: Snapshot, before: seq<Nodes>, patch: Nodes)
    ensures var was, now := Folded(s, before), Folded(s, before + [patch]);
      && now == Snapshot(was.nodes + patch, Status(was.nodes + patch), was.revision + 1)
      && (forall id :: id in patch ==> id in now.nodes && now.nodes[id] == patch[id])
      && Summarises(now.status, now.nodes)
      && now.revision == s.revision + |before| + 1
  {
    assert (before + [patch])[..|before|] == before;
    FoldedMeaning(s, before);
    FoldedMeaning(s, before + [patch]);
  }

  class SnapshotStore {
    var stored: Option<Snapshot>
    var version: nat

    constructor ()
      ensures stored == None && version == 0
    {
      stored, version := None, 0;
    }

    /** `dag_snapshot_put`: SET NX; false is the conflict. */
    method Put(nodes: Nodes) returns (created: bool)
      modifies this
      ensures created <==> old(stored).None?
      ensures !created ==> stored == old(stored)
      ensures created ==>
        && stored.Some? && stored.value.nodes == nodes && stored.value.revision == 1
        && Summarises(stored.value.status, nodes)
    {
      created := stored.None?;
      StatusSummarises(nodes);
      if created {
        stored, version := Some(Snapshot(nodes, Status(nodes), 1)), version + 1;
      }
    }

    /** What other clients write to the key between this client's WATCH and EXEC; empty patches write nothing. */
    method Interfere(patches: seq<Nodes>)
      requires stored.Some? && forall patch :: patch in patches ==> patch != map[]
      modifies this
      ensures stored == Some(Folded(old(stored).value, patches))
      ensures version == old(version) + |patches|
    {
      var i := 0;
      while i < |patches|
        invariant 0 <= i <= |patches|
        invariant stored == Some(Folded(old(stored).value, patches[..i]))
        invariant version == old(version) + i
      {
        assert patches[..i + 1][..i] == patches[..i];
        stored, version := Some(Patched(stored.value, patches[i])), version + 1;
        i := i + 1;
      }
      assert patches[..|patches|] == patches;
    }

    /**
     * `dag_snapshot_patch`: up to eight attempts; others[k] is what the other clients execute
     * during attempt k. The patch lands on top of everything executed before it, at the first
     * undisturbed attempt, or never.
     */
    method Patch(patch: Nodes, others: seq<seq<Nodes>>) returns (result: Result, ghost attempts: nat)
      requires |others| == 8 && forall k, p :: 0 <= k < |others| && p in others[k] ==> p != map[]
      modifies this
      ensures patch == map[] ==>
        stored == old(stored) &&
        result == if stored.Some? then Revision(stored.value.revision) else Conflict
      ensures old(stored).None? ==> stored.None? && result.Conflict?
      ensures patch != map[] && old(stored).Some? && result.Conflict? ==>
        && (forall k :: 0 <= k < 8 ==> others[k] != [])
        && stored == Some(Folded(old(stored).value, Before(others, 8)))
      ensures patch != map[] && old(stored).Some? && result.Revision? ==>
        && attempts < 8 && others[attempts] == []
        && (forall k :: 0 <= k < attempts ==> others[k] != [])
        && stored == Some(Folded(old(stored).value, Before(others, attempts) + [patch]))
        && (forall id :: id in patch ==> id in stored.value.nodes && stored.value.nodes[id] == patch[id])
        && Summarises(stored.value.status, stored.value.nodes)
        && result.revision == stored.value.revision == old(stored).value.revision + |Before(others, attempts)| + 1
    {
      attempts := 0;
      if patch == map[] {
        return if stored.Some? then Revision(stored.value.revision) else Conflict, 0;
      }
      if stored.None? { return Conflict, 0; }
      var attempt := 0;
      while attempt < MAX_ATTEMPTS
        invariant 0 <= attempt <= MAX_ATTEMPTS
        invariant forall k :: 0 <= k < attempt ==> others[k] != []
        invariant stored == Some(Folded(old(stored).value, Before(others, attempt)))
      {
        var watched := version;
        var snapshot := stored.value;
        var merged := snapshot.nodes + patch;
        var revision := snapshot.revision + 1;
        FoldedJoins(old(stored).value, Before(others, attempt), others[attempt]);
        Interfere(others[attempt]);
        if version == watched {
          PatchLands(old(stored).value, Before(others, attempt), patch);
          stored, version := Some(Snapshot(merged, Status(merged), revision)), version + 1;
          return Revision(revision), attempt;
        }
        attempt := attempt + 1;
      }
      result := Conflict;
    }
  }
}
