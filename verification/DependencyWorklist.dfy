/** The dependency worklist of the package benchmark: which packages an installation of the target reaches. */
module DependencyWorklist {
  import opened Options
  import Sorting

  /** Package names and versions; only identity and order matter. */
  type Package = nat
  type Version = nat

  /** Keys of the manifest sections; `optionalPeers` are the peers marked optional. */
  datatype Manifest = Manifest(
    dependencies: seq<Package>, optionalDependencies: seq<Package>, peers: seq<Package>, optionalPeers: set<Package>)

  datatype Registry = Registry(index: map<Package, map<Version, Manifest>>, versions: map<Package, Version>)

  /** The manifest of a package at its workspace version. */
  function ManifestOf(r: Registry, name: Package): Option<Manifest> {
    if name !in r.versions || name !in r.index || r.versions[name] !in r.index[name] then None
    else Some(r.index[name][r.versions[name]])
  }

  predicate Leq(a: Package, b: Package) {
    a <= b
  }

  function RequiredPeers(peers: seq<Package>, optional: set<Package>): seq<Package> {
    if peers == [] then []
    else (if peers[0] in optional then [] else [peers[0]]) + RequiredPeers(peers[1..], optional)
  }

  function Dedup(names: seq<Package>): seq<Package> {
    if names == [] then []
    else if names[0] in names[1..] then Dedup(names[1..])
    else [names[0]] + Dedup(names[1..])
  }

  /** The sorted keys of the merged install record. */
  function Installed(m: Manifest): seq<Package> {
    Sorting.Sort(Leq, Dedup(m.dependencies + m.optionalDependencies + RequiredPeers(m.peers, m.optionalPeers)))
  }

  lemma {:induction false} RequiredPeersMembers(peers: seq<Package>, optional: set<Package>, p: Package)
    ensures p in RequiredPeers(peers, optional) <==> p in peers && p !in optional
  {
    if peers != [] { RequiredPeersMembers(peers[1..], optional, p); }
  }

  lemma {:induction false} DedupOnce(names: seq<Package>, p: Package)
    ensures multiset(Dedup(names))[p] == if p in names then 1 else 0
  {
    if names != [] { DedupOnce(names[1..], p); }
  }

  /** Dependencies, optional dependencies and peers not marked optional. */
  predicate Requires(m: Manifest, d: Package) {
    d in m.dependencies || d in m.optionalDependencies || (d in m.peers && d !in m.optionalPeers)
  }

  /** The install record lists exactly the required packages, each once. */
  lemma InstalledOnce(m: Manifest, d: Package)
    ensures multiset(Installed(m))[d] == if Requires(m, d) then 1 else 0
  {
    RequiredPeersMembers(m.peers, m.optionalPeers, d);
    DedupOnce(m.dependencies + m.optionalDependencies + RequiredPeers(m.peers, m.optionalPeers), d);
  }

  lemma InstalledMember(m: Manifest, d: Package)
    ensures d in Installed(m) <==> Requires(m, d)
  {
    InstalledOnce(m, d);
    assert d in Installed(m) <==> d in multiset(Installed(m));
  }

  predicate DependsOn(r: Registry, p: Package, d: Package) {
    ManifestOf(r, p).Some? && Requires(ManifestOf(r, p).value, d)
  }

  /** `name` has a manifest and is reached from the target over n dependency edges between such packages. */
  ghost predicate ReachedIn(r: Registry, target: Package, name: Package, n: nat)
    decreases n
  {
    && ManifestOf(r, name).Some?
    && if n == 0 then name == target
       else exists p :: DependsOn(r, p, name) && ReachedIn(r, target, p, n - 1)
  }

  ghost predicate Reachable(r: Registry, target: Package, name: Package) {
    exists n: nat :: ReachedIn(r, target, name, n)
  }

  /** A set that holds the target and everything with a manifest that its members depend on. */
  ghost predicate Closed(r: Registry, target: Package, s: set<Package>) {
    && (ManifestOf(r, target).Some? ==> target in s)
    && (forall p, d :: p in s && DependsOn(r, p, d) && ManifestOf(r, d).Some? ==> d in s)
  }

  lemma {:induction false} ReachedInClosed(r: Registry, target: Package, s: set<Package>, name: Package, n: nat)
    requires Closed(r, target, s) && ReachedIn(r, target, name, n)
    ensures name in s
    decreases n
  {
    if n > 0 {
      var p :| DependsOn(r, p, name) && ReachedIn(r, target, p, n - 1);
      ReachedInClosed(r, target, s, p, n - 1);
    }
  }

  lemma ReachableStep(r: Registry, target: Package, p: Package, d: Package)
    requires Reachable(r, target, p) && DependsOn(r, p, d) && ManifestOf(r, d).Some?
    ensures Reachable(r, target, d)
  {
    var n: nat :| ReachedIn(r, target, p, n);
    assert ReachedIn(r, target, d, n + 1);
  }

  /** The package is in the registry at its workspace version. */
  predicate Listed(r: Registry, p: Package) {
    p in r.versions && p in r.index && r.versions[p] in r.index[p]
  }

  /** Packages from the target on, each listed, each required by the one before. */
  ghost predicate IsPath(r: Registry, target: Package, path: seq<Package>) {
    && path != [] && path[0] == target
    && (forall i :: 0 <= i < |path| ==> Listed(r, path[i]))
    && (forall i :: 0 < i < |path| ==>
          var m := r.index[path[i - 1]][r.versions[path[i - 1]]];
          path[i] in m.dependencies || path[i] in m.optionalDependencies ||
          (path[i] in m.peers && path[i] !in m.optionalPeers))
  }

  /** A package is reachable if and only if such a path ends in it. */
  lemma ReachableIffPath(r: Registry, target: Package, name: Package)
    ensures Reachable(r, target, name) <==> exists path :: IsPath(r, target, path) && path[|path| - 1] == name
  {
    if Reachable(r, target, name) {
      var n: nat :| ReachedIn(r, target, name, n);
      var path := PathOf(r, target, name, n);
    }
    if path :| IsPath(r, target, path) && path[|path| - 1] == name { PathReaches(r, target, path); }
  }

  lemma {:induction false} PathOf(r: Registry, target: Package, name: Package, n: nat) returns (path: seq<Package>)
    requires ReachedIn(r, target, name, n)
    ensures IsPath(r, target, path) && path[|path| - 1] == name
    decreases n
  {
    if n == 0 {
      path := [target];
    } else {
      var p :| DependsOn(r, p, name) && ReachedIn(r, target, p, n - 1);
      path := PathOf(r, target, p, n - 1);
      path := path + [name];
    }
  }

  lemma {:induction false} PathReaches(r: Registry, target: Package, path: seq<Package>)
    requires IsPath(r, target, path)
    ensures ReachedIn(r, target, path[|path| - 1], |path| - 1)
  {
    if |path| > 1 {
      var before := path[..|path| - 1];
      PathReaches(r, target, before);
      assert DependsOn(r, before[|before| - 1], path[|path| - 1]);
    }
  }

  /** What the loop keeps true of a discovered package and of the rest of the queue. */
  ghost predicate QueueSound(r: Registry, target: Package, queue: seq<Package>) {
    forall q :: q in queue && ManifestOf(r, q).Some? ==> Reachable(r, target, q)
  }

  ghost predicate Pending(r: Registry, reached: set<Package>, rest: seq<Package>, d: Package) {
    ManifestOf(r, d).Some? ==> d in reached || d in rest
  }

  ghost predicate QueueCovers(r: Registry, reached: set<Package>, rest: seq<Package>) {
    forall p, d :: p in reached && DependsOn(r, p, d) ==> Pending(r, reached, rest, d)
  }

  ghost predicate ReachedSound(r: Registry, target: Package, reached: set<Package>) {
    forall p :: p in reached ==> p in r.versions && ManifestOf(r, p).Some? && Reachable(r, target, p)
  }

  function Missing(names: seq<Package>, reached: set<Package>): seq<Package> {
    if names == [] then []
    else (if names[0] in reached then [] else [names[0]]) + Missing(names[1..], reached)
  }

  lemma {:induction false} MissingMembers(names: seq<Package>, reached: set<Package>)
    ensures forall d :: d in Missing(names, reached) <==> d in names && d !in reached
  {
    if names != [] { MissingMembers(names[1..], reached); }
  }

  /** The inner loop. */
  method Enqueue(queue: seq<Package>, names: seq<Package>, reached: set<Package>) returns (longer: seq<Package>)
    ensures longer == queue + Missing(names, reached)
  {
    longer := queue;
    ghost var rest := names;
    for i := 0 to |names|
      invariant rest == names[i..] && longer + Missing(rest, reached) == queue + Missing(names, reached)
    {
      if names[i] !in reached { longer := longer + [names[i]]; }
      rest := rest[1..];
    }
  }

  /** What the loop keeps: everything queued or reached is reachable, and nothing reachable is forgotten. */
  ghost predicate Inv(r: Registry, target: Package, reached: set<Package>, queue: seq<Package>, cursor: nat) {
    && cursor <= |queue|
    && QueueSound(r, target, queue)
    && ReachedSound(r, target, reached)
    && QueueCovers(r, reached, queue[cursor..])
    && Pending(r, reached, queue[cursor..], target)
  }

  lemma InvStart(r: Registry, target: Package)
    ensures Inv(r, target, {}, [target], 0)
  {
    assert [target][0..] == [target];
    assert ManifestOf(r, target).Some? ==> ReachedIn(r, target, target, 0);
  }

  /** An entry that is reached already, or has no manifest, can be skipped. */
  lemma InvSkip(r: Registry, target: Package, reached: set<Package>, queue: seq<Package>, cursor: nat)
    requires Inv(r, target, reached, queue, cursor) && cursor < |queue|
    requires queue[cursor] in reached || ManifestOf(r, queue[cursor]).None?
    ensures Inv(r, target, reached, queue, cursor + 1)
  {
    var name, rest := queue[cursor], queue[cursor + 1..];
    assert queue[cursor..] == [name] + rest;
    forall p, d | p in reached && DependsOn(r, p, d) ensures Pending(r, reached, rest, d) {
      assert Pending(r, reached, queue[cursor..], d);
    }
  }

  /** Expanding a package discharges its own queue entry and queues what it depends on. */
  lemma InvExpand(
    r: Registry, target: Package, reached: set<Package>, queue: seq<Package>, cursor: nat, added: seq<Package>)
    requires Inv(r, target, reached, queue, cursor) && cursor < |queue| && ManifestOf(r, queue[cursor]).Some?
    requires forall d :: d in added <==> DependsOn(r, queue[cursor], d) && d !in reached + {queue[cursor]}
    ensures Inv(r, target, reached + {queue[cursor]}, queue + added, cursor + 1)
  {
    var name, rest := queue[cursor], queue[cursor + 1..];
    QueueStaysSound(r, target, queue, name, added);
    Known(r, name);
    assert queue[cursor..] == [name] + rest && (queue + added)[cursor + 1..] == rest + added;
    Covers(r, reached, name, rest, added);
    assert Pending(r, reached, [name] + rest, target);
  }

  lemma AddedMembers(r: Registry, name: Package, reached: set<Package>)
    requires ManifestOf(r, name).Some?
    ensures forall d :: d in Missing(Installed(ManifestOf(r, name).value), reached) <==>
      DependsOn(r, name, d) && d !in reached
  {
    var m := ManifestOf(r, name).value;
    MissingMembers(Installed(m), reached);
    forall d ensures d in Installed(m) <==> Requires(m, d) { InstalledMember(m, d); }
  }

  lemma Known(r: Registry, name: Package)
    requires ManifestOf(r, name).Some?
    ensures name in r.versions
  {
  }

  lemma Covers(r: Registry, reached: set<Package>, name: Package, rest: seq<Package>, added: seq<Package>)
    requires QueueCovers(r, reached, [name] + rest)
    requires forall d :: DependsOn(r, name, d) ==> d in reached + {name} || d in added
    ensures QueueCovers(r, reached + {name}, rest + added)
  {
    forall p, d | p in reached + {name} && DependsOn(r, p, d) ensures Pending(r, reached + {name}, rest + added, d) {
      if p != name { assert Pending(r, reached, [name] + rest, d); }
    }
  }

  lemma QueueStaysSound(r: Registry, target: Package, queue: seq<Package>, name: Package, added: seq<Package>)
    requires QueueSound(r, target, queue) && name in queue && ManifestOf(r, name).Some?
    requires forall d :: d in added ==> DependsOn(r, name, d)
    ensures QueueSound(r, target, queue + added)
  {
    forall d | d in added && ManifestOf(r, d).Some? ensures Reachable(r, target, d) {
      ReachableStep(r, target, name, d);
    }
  }

  lemma Bounded(r: Registry, target: Package, reached: set<Package>)
    requires ReachedSound(r, target, reached)
    ensures |reached| <= |r.versions|
  {
    assert reached <= r.versions.Keys;
    assert |r.versions.Keys| == |reached| + |r.versions.Keys - reached| by {
      assert r.versions.Keys == reached + (r.versions.Keys - reached);
    }
  }

  /** Nothing pending: the reached set is closed, and no closed set is smaller. */
  lemma Finished(r: Registry, target: Package, reached: set<Package>)
    requires QueueCovers(r, reached, []) && Pending(r, reached, [], target) && ReachedSound(r, target, reached)
    ensures Closed(r, target, reached)
    ensures forall p :: p in reached <==> Reachable(r, target, p)
    ensures forall s :: Closed(r, target, s) ==> reached <= s
  {
    forall p, d | p in reached && DependsOn(r, p, d) && ManifestOf(r, d).Some? ensures d in reached {
      assert Pending(r, reached, [], d);
    }
    forall p | Reachable(r, target, p) ensures p in reached {
      var n: nat :| ReachedIn(r, target, p, n);
      ReachedInClosed(r, target, reached, p, n);
    }
    forall s, p | Closed(r, target, s) && p in reached ensures p in s {
      var n: nat :| ReachedIn(r, target, p, n);
      ReachedInClosed(r, target, s, p, n);
    }
  }

  /**
   * The worklist. It ends although the queue may hold a package many times, expands no package
   * twice, and reaches exactly the reachable packages, the least closed set.
   */
  method Discover(r: Registry, target: Package) returns (reached: set<Package>, order: seq<Package>)
    ensures forall p :: p in reached <==> Reachable(r, target, p)
    ensures Closed(r, target, reached) && forall s :: Closed(r, target, s) ==> reached <= s
    ensures multiset(order) == multiset(reached)
  {
    reached, order := {}, [];
    var queue := [target];
    var cursor := 0;
    InvStart(r, target);
    while cursor < |queue|
      invariant Inv(r, target, reached, queue, cursor)
      invariant multiset(order) == multiset(reached)
      decreases |r.versions| - |reached|, |queue| - cursor
    {
      var name := queue[cursor];
      var manifest := ManifestOf(r, name);
      if name in reached || manifest.None? {
        InvSkip(r, target, reached, queue, cursor);
        cursor := cursor + 1;
        continue;
      }
      AddedMembers(r, name, reached + {name});
      InvExpand(r, target, reached, queue, cursor, Missing(Installed(manifest.value), reached + {name}));
      Bounded(r, target, reached + {name});
      reached, order := reached + {name}, order + [name];
      queue := Enqueue(queue, Installed(manifest.value), reached);
      cursor := cursor + 1;
    }
    assert queue[cursor..] == [];
    Finished(r, target, reached);
  }

  // ---------- the candidates ----------

  predicate Candidate(r: Registry, release: set<Package>, policy: set<Package>, cordis: Package, name: Package) {
    && name !in policy && name in release
    && ManifestOf(r, name).Some? && exists p :: p in ManifestOf(r, name).value.peers && p != cordis
  }

  function Filtered(
    names: seq<Package>, r: Registry, release: set<Package>, policy: set<Package>, cordis: Package): seq<Package>
  {
    if names == [] then []
    else
      (if Candidate(r, release, policy, cordis, names[0]) then [names[0]] else [])
      + Filtered(names[1..], r, release, policy, cordis)
  }

  lemma {:induction false} FilteredCount(
    names: seq<Package>, r: Registry, release: set<Package>, policy: set<Package>, cordis: Package, p: Package)
    ensures multiset(Filtered(names, r, release, policy, cordis))[p] ==
            if Candidate(r, release, policy, cordis, p) then multiset(names)[p] else 0
  {
    if names != [] {
      FilteredCount(names[1..], r, release, policy, cordis, p);
      assert names == [names[0]] + names[1..];
    }
  }

  /**
   * The candidates: reachable packages under release but not under policy, with a peer other than
   * Cordis; sorted, each once.
   */
  method DiscoverCandidates(r: Registry, target: Package, release: set<Package>, policy: set<Package>, cordis: Package)
    returns (candidates: seq<Package>)
    ensures Sorting.SortedBy(Leq, candidates)
    ensures forall p :: multiset(candidates)[p] ==
              if Reachable(r, target, p) && Candidate(r, release, policy, cordis, p) then 1 else 0
    ensures forall p :: p in candidates <==>
              && Reachable(r, target, p) && p in release && p !in policy
              && Listed(r, p) && exists q :: q in r.index[p][r.versions[p]].peers && q != cordis
  {
    var reached, order := Discover(r, target);
    candidates := Sorting.Sort(Leq, Filtered(order, r, release, policy, cordis));
    Sorting.SortSorted(Leq, Filtered(order, r, release, policy, cordis));
    forall p
      ensures multiset(candidates)[p] ==
        if Reachable(r, target, p) && Candidate(r, release, policy, cordis, p) then 1 else 0
    {
      FilteredCount(order, r, release, policy, cordis, p);
      assert multiset(order)[p] == multiset(reached)[p];
    }
    forall p ensures p in candidates <==> Reachable(r, target, p) && Candidate(r, release, policy, cordis, p) {
      assert p in candidates <==> multiset(candidates)[p] > 0;
    }
  }
}
