/** Runs and snapshot manifests, internal/db/snapshots.go. Each transaction is one atomic step of a
    transition system over the tables; class Database holds the tables as the source does, and its
    methods are proved to take exactly those steps. */
module SnapshotStore {

  type Id = nat

  /** One producer's output for one city; rows are whatever it has written so far. */
  datatype Run = Run(city: Id, producer: string, hash: string, computedAt: int, rows: multiset<string>)

  /** A manifest: part -> run. */
  datatype Snapshot = Snapshot(city: Id, hash: string, parts: map<string, Id>)

  /** The tables. Ids come from AUTOINCREMENT counters, so they are never reused. */
  datatype Tables = Tables(runs: map<Id, Run>, snapshots: map<Id, Snapshot>, nextRun: Id, nextSnapshot: Id, now: int)

  const OrphanRunGrace := 86400

  const EmptyTables := Tables(map[], map[], 1, 1, 0)

  // ------------------------------------------------------------- resolution

  /** The largest id of a set, 0 when empty. */
  ghost function MaxId(ids: set<Id>): (m: Id)
    ensures ids == {} ==> m == 0
    ensures ids != {} ==> m in ids
    ensures forall i :: i in ids ==> i <= m
  {
    if ids == {} then 0
    else
      var i :| i in ids;
      var rest := MaxId(ids - {i});
      assert forall k :: k in ids ==> k == i || k in ids - {i};
      if i >= rest then i else rest
  }

  ghost function SnapshotsOf(t: Tables, city: Id, hash: string): set<Id> {
    set i | i in t.snapshots && t.snapshots[i].city == city && (hash == "" || t.snapshots[i].hash == hash)
  }

  /** newestSnapshotID: by id, any hash when hash is empty, 0 when none. */
  ghost function Newest(t: Tables, city: Id, hash: string): Id {
    MaxId(SnapshotsOf(t, city, hash))
  }

  function SnapshotParts(t: Tables, city: Id, snapshot: Id): map<string, Id> {
    if snapshot in t.snapshots && t.snapshots[snapshot].city == city then t.snapshots[snapshot].parts else map[]
  }

  /** applyParts: a run id of 0 removes the part, anything else sets it. */
  function Overlay(base: map<string, Id>, parts: map<string, Id>): map<string, Id> {
    map p | p in base.Keys + parts.Keys && !(p in parts && parts[p] == 0) :: if p in parts then parts[p] else base[p]
  }

  /** A store view: its city, pin, config hash and overlaid parts. */
  datatype View = View(city: Id, snapshot: Id, hash: string, overlay: map<string, Id>)

  function WithSnapshot(v: View, snapshot: Id): View {
    v.(snapshot := snapshot)
  }

  function WithConfigHash(v: View, hash: string): View {
    v.(hash := hash)
  }

  function WithParts(v: View, hash: string, parts: map<string, Id>): View {
    v.(snapshot := 0, hash := hash, overlay := parts)
  }

  ghost function ResolvedSnapshot(t: Tables, v: View): Id {
    if v.snapshot > 0 then v.snapshot else Newest(t, v.city, v.hash)
  }

  ghost function ViewParts(t: Tables, v: View): map<string, Id> {
    Overlay(SnapshotParts(t, v.city, ResolvedSnapshot(t, v)), v.overlay)
  }

  /** What a reader sees: the rows of its view's runs that belong to its city. */
  ghost function Visible(t: Tables, v: View): map<Id, multiset<string>> {
    map r | r in ViewParts(t, v).Values && r in t.runs && t.runs[r].city == v.city :: t.runs[r].rows
  }

  // ------------------------------------------------------------------ steps

  ghost predicate Referenced(t: Tables, run: Id) {
    exists s :: s in t.snapshots && run in t.snapshots[s].parts.Values
  }

  /** deleteRuns: those of the ids that belong to the city, with their rows. */
  function DeleteRuns(t: Tables, city: Id, ids: set<Id>): Tables {
    t.(runs := map r | r in t.runs && !(r in ids && t.runs[r].city == city) :: t.runs[r])
  }

  /** checkCommitRuns for one part. */
  predicate CommittablePart(t: Tables, city: Id, hash: string, part: string, run: Id) {
    run == 0 || (run in t.runs && t.runs[run].city == city && t.runs[run].producer == part && t.runs[run].hash == hash)
  }

  ghost predicate Committable(t: Tables, city: Id, hash: string, parts: map<string, Id>) {
    hash != "" && forall p :: p in parts ==> CommittablePart(t, city, hash, p, parts[p])
  }

  ghost function CommitManifest(t: Tables, city: Id, hash: string, parts: map<string, Id>): map<string, Id> {
    Overlay(SnapshotParts(t, city, Newest(t, city, hash)), parts)
  }

  /** The commit would change nothing: no snapshot is minted. */
  ghost predicate NoOpCommit(t: Tables, city: Id, hash: string, parts: map<string, Id>) {
    CommitManifest(t, city, hash, parts) == SnapshotParts(t, city, Newest(t, city, hash))
  }

  ghost function CommitTables(t: Tables, city: Id, hash: string, parts: map<string, Id>): Tables {
    if !Committable(t, city, hash, parts) || NoOpCommit(t, city, hash, parts) then t
    else t.(snapshots := t.snapshots[t.nextSnapshot := Snapshot(city, hash, CommitManifest(t, city, hash, parts))],
            nextSnapshot := t.nextSnapshot + 1)
  }

  /** The snapshot a successful commit returns, 0 for none. */
  ghost function CommitResult(t: Tables, city: Id, hash: string, parts: map<string, Id>): Id {
    if NoOpCommit(t, city, hash, parts) then Newest(t, city, hash) else t.nextSnapshot
  }

  ghost predicate Owns(t: Tables, city: Id, snapshot: Id) {
    snapshot in t.snapshots && t.snapshots[snapshot].city == city
  }

  ghost function WithoutSnapshot(t: Tables, snapshot: Id): Tables {
    t.(snapshots := map s | s in t.snapshots && s != snapshot :: t.snapshots[s])
  }

  /** DeleteSnapshot: drops the manifest, then the runs no other snapshot references. */
  ghost function DeleteTables(t: Tables, city: Id, snapshot: Id): Tables {
    if !Owns(t, city, snapshot) then t
    else
      var rest := WithoutSnapshot(t, snapshot);
      DeleteRuns(rest, city, set r | r in t.snapshots[snapshot].parts.Values && !Referenced(rest, r))
  }

  /** orphanRuns: unreferenced runs of the city older than the grace period. */
  ghost function Orphans(t: Tables, city: Id): set<Id> {
    set r | r in t.runs && t.runs[r].city == city && t.runs[r].computedAt < t.now - OrphanRunGrace && !Referenced(t, r)
  }

  datatype Step =
    | CreateRun(city: Id, producer: string, hash: string)
    | WriteRow(run: Id, row: string)
    | Commit(city: Id, hash: string, parts: map<string, Id>)
    | Discard(city: Id, run: Id)
    | Delete(city: Id, snapshot: Id)
    | Sweep(city: Id)
    | Tick(seconds: nat)

  ghost function CreateTables(t: Tables, city: Id, producer: string, hash: string): Tables {
    if producer == "" then t
    else t.(runs := t.runs[t.nextRun := Run(city, producer, hash, t.now, multiset{})], nextRun := t.nextRun + 1)
  }

  ghost function DiscardTables(t: Tables, city: Id, run: Id): Tables {
    if Referenced(t, run) then t else DeleteRuns(t, city, {run})
  }

  ghost function Next(t: Tables, step: Step): Tables {
    match step
    case CreateRun(city, producer, hash) => CreateTables(t, city, producer, hash)
    case WriteRow(run, row) =>
      if run in t.runs then t.(runs := t.runs[run := t.runs[run].(rows := t.runs[run].rows + multiset{row})]) else t
    case Commit(city, hash, parts) => CommitTables(t, city, hash, parts)
    case Discard(city, run) => DiscardTables(t, city, run)
    case Delete(city, snapshot) => DeleteTables(t, city, snapshot)
    case Sweep(city) => DeleteRuns(t, city, Orphans(t, city))
    case Tick(seconds) => t.(now := t.now + seconds)
  }

  /** Producers write only to runs no snapshot references yet. */
  ghost predicate Allowed(t: Tables, step: Step) {
    step.WriteRow? ==> !Referenced(t, step.run)
  }

  ghost function After(t: Tables, steps: seq<Step>): Tables {
    if steps == [] then t else Next(After(t, steps[..|steps| - 1]), steps[|steps| - 1])
  }

  ghost predicate AllowedRun(t: Tables, steps: seq<Step>) {
    steps == [] || (AllowedRun(t, steps[..|steps| - 1]) && Allowed(After(t, steps[..|steps| - 1]), steps[|steps| - 1]))
  }

  // -------------------------------------------------------------- invariant

  ghost predicate GoodEntry(t: Tables, s: Snapshot, part: string) {
    part in s.parts &&
    var r := s.parts[part];
    r in t.runs && t.runs[r].city == s.city && t.runs[r].producer == part && t.runs[r].hash == s.hash
  }

  /** Every manifest entry names an existing run of the same city, produced for the part it fills,
      under the snapshot's hash; ids stay below their counters. */
  ghost predicate Inv(t: Tables) {
    && t.nextRun >= 1 && t.nextSnapshot >= 1
    && (forall r :: r in t.runs ==> 1 <= r < t.nextRun)
    && (forall s :: s in t.snapshots ==> 1 <= s < t.nextSnapshot)
    && (forall s, p :: s in t.snapshots && p in t.snapshots[s].parts ==> GoodEntry(t, t.snapshots[s], p))
  }

  lemma EntriesReferenced(t: Tables, s: Id, p: string)
    requires s in t.snapshots && p in t.snapshots[s].parts
    ensures Referenced(t, t.snapshots[s].parts[p])
  {
  }

  /** Dropping unreferenced runs keeps the invariant and every manifest's runs. */
  lemma DeleteRunsKeepsInv(t: Tables, city: Id, ids: set<Id>)
    requires Inv(t) && forall r :: r in ids ==> !Referenced(t, r)
    ensures Inv(DeleteRuns(t, city, ids))
    ensures forall r :: Referenced(t, r) && r in t.runs ==> r in DeleteRuns(t, city, ids).runs
  {
    var t' := DeleteRuns(t, city, ids);
    forall s, p | s in t'.snapshots && p in t'.snapshots[s].parts
      ensures GoodEntry(t', t'.snapshots[s], p)
    {
      EntriesReferenced(t, s, p);
      assert GoodEntry(t, t.snapshots[s], p);
    }
  }

  lemma WithoutSnapshotKeepsInv(t: Tables, snapshot: Id)
    requires Inv(t)
    ensures Inv(WithoutSnapshot(t, snapshot))
  {
    var t' := WithoutSnapshot(t, snapshot);
    forall s, p | s in t'.snapshots && p in t'.snapshots[s].parts
      ensures GoodEntry(t', t'.snapshots[s], p)
    {
      assert GoodEntry(t, t.snapshots[s], p);
    }
  }

  lemma NewestIsOwn(t: Tables, city: Id, hash: string)
    ensures var n := Newest(t, city, hash);
            n == 0 || (n in t.snapshots && t.snapshots[n].city == city && (hash == "" || t.snapshots[n].hash == hash))
    ensures forall s :: s in SnapshotsOf(t, city, hash) ==> s <= Newest(t, city, hash)
    ensures Newest(t, city, hash) == 0 ==> 0 in t.snapshots || SnapshotsOf(t, city, hash) == {}
  {
  }

  lemma CommitKeepsInv(t: Tables, city: Id, hash: string, parts: map<string, Id>)
    requires Inv(t)
    ensures Inv(CommitTables(t, city, hash, parts))
  {
    var t' := CommitTables(t, city, hash, parts);
    NewestIsOwn(t, city, hash);
    forall s, p | s in t'.snapshots && p in t'.snapshots[s].parts
      ensures GoodEntry(t', t'.snapshots[s], p)
    {
      if s in t.snapshots && s != t.nextSnapshot {
        assert GoodEntry(t, t.snapshots[s], p);
      } else {
        var base := Newest(t, city, hash);
        if p in parts {
          assert CommittablePart(t, city, hash, p, parts[p]);
        } else {
          assert p in SnapshotParts(t, city, base);
          assert GoodEntry(t, t.snapshots[base], p);
        }
      }
    }
  }

  /** Writing rows or adding a run touches no manifest's entries. */
  lemma RunsOnlyKeepsInv(t: Tables, t': Tables)
    requires Inv(t) && t'.snapshots == t.snapshots && t'.nextSnapshot == t.nextSnapshot && t'.nextRun >= t.nextRun
    requires forall r :: r in t'.runs ==> 1 <= r < t'.nextRun
    requires forall r :: r in t.runs ==> r in t'.runs && t'.runs[r].city == t.runs[r].city &&
                                         t'.runs[r].producer == t.runs[r].producer && t'.runs[r].hash == t.runs[r].hash
    ensures Inv(t')
  {
    forall s, p | s in t'.snapshots && p in t'.snapshots[s].parts
      ensures GoodEntry(t', t'.snapshots[s], p)
    {
      assert GoodEntry(t, t.snapshots[s], p);
    }
  }

  /** Every step keeps the invariant. */
  lemma StepKeepsInv(t: Tables, step: Step)
    requires Inv(t)
    ensures Inv(Next(t, step))
  {
    match step
    case CreateRun(city, producer, hash) => RunsOnlyKeepsInv(t, Next(t, step));
    case WriteRow(run, row) => RunsOnlyKeepsInv(t, Next(t, step));
    case Commit(city, hash, parts) => CommitKeepsInv(t, city, hash, parts);
    case Discard(city, run) =>
      if !Referenced(t, run) {
        DeleteRunsKeepsInv(t, city, {run});
      }
    case Delete(city, snapshot) =>
      if Owns(t, city, snapshot) {
        var rest := WithoutSnapshot(t, snapshot);
        WithoutSnapshotKeepsInv(t, snapshot);
        DeleteRunsKeepsInv(rest, city, set r | r in t.snapshots[snapshot].parts.Values && !Referenced(rest, r));
      }
    case Sweep(city) => DeleteRunsKeepsInv(t, city, Orphans(t, city));
    case Tick(seconds) => RunsOnlyKeepsInv(t, Next(t, step));
  }

  /** The invariant holds in every reachable state, whatever the interleaving. */
  lemma {:induction false} RunKeepsInv(t: Tables, steps: seq<Step>)
    requires Inv(t)
    ensures Inv(After(t, steps))
  {
    hide Inv;
    if steps != [] {
      RunKeepsInv(t, steps[..|steps| - 1]);
      StepKeepsInv(After(t, steps[..|steps| - 1]), steps[|steps| - 1]);
    }
  }

  lemma EmptyIsGood()
    ensures Inv(EmptyTables)
  {
  }

  // ------------------------------------------------- pinned readers are stable

  function Pinned(city: Id, snapshot: Id): View {
    WithSnapshot(View(city, 0, "", map[]), snapshot)
  }

  /** What a pinned reader depends on: the manifest and the rows of its runs. */
  lemma SameManifestSameView(t: Tables, t': Tables, city: Id, snapshot: Id)
    requires snapshot > 0 && Owns(t, city, snapshot)
    requires snapshot in t'.snapshots && t'.snapshots[snapshot] == t.snapshots[snapshot]
    requires forall r :: r in t.snapshots[snapshot].parts.Values ==>
             r in t.runs && r in t'.runs && t'.runs[r] == t.runs[r]
    ensures Visible(t', Pinned(city, snapshot)) == Visible(t, Pinned(city, snapshot))
  {
    assert ViewParts(t, Pinned(city, snapshot)) == t.snapshots[snapshot].parts;
    assert ViewParts(t', Pinned(city, snapshot)) == t.snapshots[snapshot].parts;
  }

  /** Apart from deleting the snapshot, no step changes the snapshot or its runs. */
  lemma StepKeepsManifest(t: Tables, step: Step, city: Id, snapshot: Id)
    requires Inv(t) && Allowed(t, step) && Owns(t, city, snapshot)
    requires step != Delete(city, snapshot)
    ensures var t' := Next(t, step);
            && snapshot in t'.snapshots && t'.snapshots[snapshot] == t.snapshots[snapshot]
            && forall r :: r in t.snapshots[snapshot].parts.Values ==>
               r in t.runs && r in t'.runs && t'.runs[r] == t.runs[r]
  {
    var t' := Next(t, step);
    forall r | r in t.snapshots[snapshot].parts.Values
      ensures r in t.runs && r in t'.runs && t'.runs[r] == t.runs[r]
    {
      var p :| p in t.snapshots[snapshot].parts && t.snapshots[snapshot].parts[p] == r;
      assert GoodEntry(t, t.snapshots[snapshot], p);
      EntriesReferenced(t, snapshot, p);
      if step.Delete? && Owns(t, step.city, step.snapshot) {
        EntriesReferenced(WithoutSnapshot(t, step.snapshot), snapshot, p);
      }
    }
  }

  lemma StepKeepsPinnedView(t: Tables, step: Step, city: Id, snapshot: Id)
    requires Inv(t) && Allowed(t, step) && Owns(t, city, snapshot)
    requires step != Delete(city, snapshot)
    ensures Owns(Next(t, step), city, snapshot)
    ensures Visible(Next(t, step), Pinned(city, snapshot)) == Visible(t, Pinned(city, snapshot))
  {
    hide Next, Visible;
    StepKeepsManifest(t, step, city, snapshot);
    SameManifestSameView(t, Next(t, step), city, snapshot);
  }

  /** Until someone deletes it, a snapshot reads the same through any interleaving of commands. */
  lemma {:induction false} PinnedViewIsStable(t: Tables, steps: seq<Step>, city: Id, snapshot: Id)
    requires Inv(t) && AllowedRun(t, steps) && Owns(t, city, snapshot) && Delete(city, snapshot) !in steps
    ensures Owns(After(t, steps), city, snapshot)
    ensures After(t, steps).snapshots[snapshot] == t.snapshots[snapshot]
    ensures Visible(After(t, steps), Pinned(city, snapshot)) == Visible(t, Pinned(city, snapshot))
  {
    hide Next, Visible, Inv, Allowed;
    if steps != [] {
      var front := steps[..|steps| - 1];
      PinnedViewIsStable(t, front, city, snapshot);
      RunKeepsInv(t, front);
      StepKeepsPinnedView(After(t, front), steps[|steps| - 1], city, snapshot);
      StepKeepsManifest(After(t, front), steps[|steps| - 1], city, snapshot);
    }
  }

  // -------------------------------------------- previews agree with commits

  /** A WithParts view reads exactly what a WithConfigHash reader sees after committing the same
      parts: when the manifest changes, when it does not, and when there is no snapshot yet. */
  lemma PreviewMatchesCommit(t: Tables, v: View, hash: string, parts: map<string, Id>)
    requires Inv(t) && Committable(t, v.city, hash, parts) && v.snapshot == 0 && v.overlay == map[]
    ensures var t' := CommitTables(t, v.city, hash, parts);
            && ViewParts(t', WithConfigHash(v, hash)) == ViewParts(t, WithParts(v, hash, parts))
            && Visible(t', WithConfigHash(v, hash)) == Visible(t, WithParts(v, hash, parts))
  {
    hide Overlay, Newest, Inv, Committable, CommitTables, CommitResult, SnapshotParts;
    var t' := CommitTables(t, v.city, hash, parts);
    var manifest := CommitManifest(t, v.city, hash, parts);
    NewestAfterCommit(t, v.city, hash, parts);
    OverlayNothing(manifest);
    CommitKeepsRuns(t, v.city, hash, parts);
    assert ViewParts(t, WithParts(v, hash, parts)) == manifest;
    assert ViewParts(t', WithConfigHash(v, hash)) == manifest;
  }

  lemma OverlayNothing(base: map<string, Id>)
    ensures Overlay(base, map[]) == base
  {
  }

  lemma NewestAfterCommit(t: Tables, city: Id, hash: string, parts: map<string, Id>)
    requires Inv(t) && Committable(t, city, hash, parts)
    ensures Newest(CommitTables(t, city, hash, parts), city, hash) == CommitResult(t, city, hash, parts)
    ensures SnapshotParts(CommitTables(t, city, hash, parts), city, CommitResult(t, city, hash, parts)) ==
            CommitManifest(t, city, hash, parts)
  {
    var t' := CommitTables(t, city, hash, parts);
    if !NoOpCommit(t, city, hash, parts) {
      assert t.nextSnapshot in SnapshotsOf(t', city, hash);
      assert forall s :: s in SnapshotsOf(t', city, hash) ==> s <= t.nextSnapshot;
    }
  }

  /** A commit mints an empty snapshot exactly when it drops every part of a non-empty base and puts
      nothing; with no snapshot yet it never does. */
  lemma EmptySnapshotIff(t: Tables, city: Id, hash: string, parts: map<string, Id>)
    requires Inv(t) && Committable(t, city, hash, parts)
    ensures var base := SnapshotParts(t, city, Newest(t, city, hash));
            (!NoOpCommit(t, city, hash, parts) && CommitManifest(t, city, hash, parts) == map[]) <==>
            (base != map[] && (forall p :: p in base ==> p in parts) && (forall p :: p in parts ==> parts[p] == 0))
  {
    var base := SnapshotParts(t, city, Newest(t, city, hash));
    var manifest := CommitManifest(t, city, hash, parts);
    assert forall p :: p in manifest <==> p in base.Keys + parts.Keys && !(p in parts && parts[p] == 0);
    if manifest == map[] {
      forall p | p in parts
        ensures parts[p] == 0
      {
        assert p !in manifest;
      }
      forall p | p in base
        ensures p in parts
      {
        assert p !in manifest;
      }
    }
  }

  /** From a fresh store: create a run, commit it, commit a drop of it. The second snapshot is empty. */
  lemma DroppingTheLastPartMintsEmpty(city: Id, producer: string, hash: string)
    requires producer != "" && hash != ""
    ensures var steps := [CreateRun(city, producer, hash), Commit(city, hash, map[producer := 1]),
                          Commit(city, hash, map[producer := 0])];
            AllowedRun(EmptyTables, steps) && After(EmptyTables, steps).snapshots ==
              map[1 := Snapshot(city, hash, map[producer := 1]), 2 := Snapshot(city, hash, map[])]
  {
    hide Committable, NoOpCommit, CommitTables, Newest, Overlay;
    var create, put, drop :=
      CreateRun(city, producer, hash), Commit(city, hash, map[producer := 1]), Commit(city, hash, map[producer := 0]);
    var t1 := Next(EmptyTables, create);
    FirstCommit(city, producer, hash);
    var t2 := Next(t1, put);
    SecondCommit(t2, city, producer, hash);
    ThreeSteps(EmptyTables, create, put, drop);
  }

  lemma ThreeSteps(t: Tables, a: Step, b: Step, c: Step)
    requires !a.WriteRow? && !b.WriteRow? && !c.WriteRow?
    ensures AllowedRun(t, [a, b, c]) && After(t, [a, b, c]) == Next(Next(Next(t, a), b), c)
  {
    hide Next;
    assert [a, b, c][..2] == [a, b] && [a, b][..1] == [a] && [a][..0] == [];
    assert AllowedRun(t, [a]) && After(t, [a]) == Next(t, a);
    assert AllowedRun(t, [a, b]) && After(t, [a, b]) == Next(Next(t, a), b);
  }

  lemma FirstCommit(city: Id, producer: string, hash: string)
    requires producer != "" && hash != ""
    ensures var t := Next(EmptyTables, CreateRun(city, producer, hash));
            Next(t, Commit(city, hash, map[producer := 1])) ==
            t.(snapshots := map[1 := Snapshot(city, hash, map[producer := 1])], nextSnapshot := 2)
  {
    var t := Next(EmptyTables, CreateRun(city, producer, hash));
    assert SnapshotsOf(t, city, hash) == {};
    assert producer in map[producer := 1 as Id];
    CommitMints(t, city, hash, map[producer := 1], map[producer := 1]);
  }

  lemma SecondCommit(t: Tables, city: Id, producer: string, hash: string)
    requires producer != "" && hash != "" && t.nextSnapshot == 2
    requires t.snapshots == map[1 := Snapshot(city, hash, map[producer := 1])]
    ensures Next(t, Commit(city, hash, map[producer := 0])) ==
            t.(snapshots := t.snapshots[2 := Snapshot(city, hash, map[])], nextSnapshot := 3)
  {
    assert SnapshotsOf(t, city, hash) == {1};
    assert Newest(t, city, hash) == 1;
    assert producer in map[producer := 1 as Id];
    CommitMints(t, city, hash, map[producer := 0], map[]);
  }

  lemma CommitMints(t: Tables, city: Id, hash: string, parts: map<string, Id>, manifest: map<string, Id>)
    requires Committable(t, city, hash, parts)
    requires Overlay(SnapshotParts(t, city, Newest(t, city, hash)), parts) == manifest
    requires SnapshotParts(t, city, Newest(t, city, hash)) != manifest
    ensures Next(t, Commit(city, hash, parts)) ==
            t.(snapshots := t.snapshots[t.nextSnapshot := Snapshot(city, hash, manifest)],
               nextSnapshot := t.nextSnapshot + 1)
  {
  }

  // ------------------------------------------- what is read and what is written

  /** A snapshot of the city, with the config hash if one is given. */
  ghost predicate IsOf(t: Tables, s: Id, city: Id, hash: string) {
    s in t.snapshots && t.snapshots[s].city == city && (hash == "" || t.snapshots[s].hash == hash)
  }

  /** The manifest of the newest such snapshot, empty when there is none. */
  ghost predicate IsLatest(t: Tables, city: Id, hash: string, base: map<string, Id>) {
    if forall s :: !IsOf(t, s, city, hash) then base == map[]
    else exists n :: IsOf(t, n, city, hash) && t.snapshots[n].parts == base &&
                     forall o :: IsOf(t, o, city, hash) ==> o <= n
  }

  lemma NewestIsLatest(t: Tables, city: Id, hash: string)
    requires Inv(t)
    ensures IsLatest(t, city, hash, SnapshotParts(t, city, Newest(t, city, hash)))
  {
    NewestIsOwn(t, city, hash);
    var n := Newest(t, city, hash);
    if s :| IsOf(t, s, city, hash) {
      assert s in SnapshotsOf(t, city, hash);
      assert IsOf(t, n, city, hash);
      forall o | IsOf(t, o, city, hash)
        ensures o <= n
      {
        assert o in SnapshotsOf(t, city, hash);
      }
    }
  }

  /** The manifest with each listed part set to its run, or left out where the run is 0. */
  ghost predicate IsOverlaid(manifest: map<string, Id>, base: map<string, Id>, parts: map<string, Id>) {
    forall p :: (p in manifest <==> if p in parts then parts[p] != 0 else p in base) &&
                (p in manifest ==> manifest[p] == if p in parts then parts[p] else base[p])
  }

  lemma OverlayIs(base: map<string, Id>, parts: map<string, Id>)
    ensures IsOverlaid(Overlay(base, parts), base, parts)
  {
  }

  /** A part names no run, or a run of this city, made for it, under this config hash. */
  ghost predicate MayCommit(t: Tables, city: Id, hash: string, part: string, run: Id) {
    run != 0 ==>
      run in t.runs && t.runs[run].city == city && t.runs[run].producer == part && t.runs[run].hash == hash
  }

  /** A commit without a config hash, or with a part that it may not take, writes nothing; any other mints a
      snapshot of the latest manifest for the hash with the parts overlaid, where that is a change. */
  lemma CommitInFull(t: Tables, city: Id, hash: string, parts: map<string, Id>)
    returns (base: map<string, Id>, manifest: map<string, Id>)
    requires Inv(t)
    ensures var next := Next(t, Commit(city, hash, parts));
            if hash == "" || exists p :: p in parts && !MayCommit(t, city, hash, p, parts[p]) then next == t
            else
              && IsLatest(t, city, hash, base) && IsOverlaid(manifest, base, parts)
              && next == (if manifest == base then t
                          else t.(snapshots := t.snapshots[t.nextSnapshot := Snapshot(city, hash, manifest)],
                                  nextSnapshot := t.nextSnapshot + 1))
  {
    hide Inv, Overlay, Newest, SnapshotParts, IsLatest, IsOverlaid;
    base, manifest := SnapshotParts(t, city, Newest(t, city, hash)), CommitManifest(t, city, hash, parts);
    NewestIsLatest(t, city, hash);
    OverlayIs(base, parts);
    forall p | p in parts
      ensures MayCommit(t, city, hash, p, parts[p]) <==> CommittablePart(t, city, hash, p, parts[p])
    {
    }
  }

  /** A reader sees exactly the rows of its city's runs in the manifest it reads, which is that of the pinned
      snapshot if it is the city's, else the latest for its hash, with its own parts overlaid. */
  lemma VisibleIff(t: Tables, v: View) returns (base: map<string, Id>, manifest: map<string, Id>)
    requires Inv(t)
    ensures if v.snapshot > 0 then
              base == (if v.snapshot in t.snapshots && t.snapshots[v.snapshot].city == v.city
                       then t.snapshots[v.snapshot].parts else map[])
            else IsLatest(t, v.city, v.hash, base)
    ensures IsOverlaid(manifest, base, v.overlay)
    ensures forall r ::
              (r in Visible(t, v) <==> r in t.runs && t.runs[r].city == v.city &&
                                       exists p :: p in manifest && manifest[p] == r) &&
              (r in Visible(t, v) ==> Visible(t, v)[r] == t.runs[r].rows)
  {
    hide Inv, Overlay, Newest, IsLatest, IsOverlaid;
    base, manifest := SnapshotParts(t, v.city, ResolvedSnapshot(t, v)), ViewParts(t, v);
    NewestIsLatest(t, v.city, v.hash);
    OverlayIs(base, v.overlay);
    forall r
      ensures r in manifest.Values <==> exists p :: p in manifest && manifest[p] == r
    {
    }
  }

  // ----------------------------------------------------- runs come and go once

  /** Ids only ever grow, so a run that is gone never comes back. */
  lemma {:induction false} GoneForGood(t: Tables, steps: seq<Step>, run: Id)
    requires Inv(t) && run < t.nextRun && run !in t.runs
    ensures run !in After(t, steps).runs && After(t, steps).nextRun >= t.nextRun
  {
    if steps != [] {
      GoneForGood(t, steps[..|steps| - 1], run);
    }
  }

  /** A step destroys a run only if it names the run, deletes a snapshot holding it, or sweeps it
      unreferenced after its grace period. */
  lemma OnlyTheseDestroy(t: Tables, step: Step, run: Id)
    requires Inv(t) && run in t.runs && run !in Next(t, step).runs
    ensures !Referenced(Next(t, step), run)
    ensures var city := t.runs[run].city;
            || step == Discard(city, run)
            || (step.Delete? && Owns(t, city, step.snapshot) && step.city == city &&
                run in t.snapshots[step.snapshot].parts.Values)
            || (step == Sweep(city) && t.runs[run].computedAt < t.now - OrphanRunGrace)
  {
    StepKeepsInv(t, step);
    if Referenced(Next(t, step), run) {
      ReferencedExist(Next(t, step), run);
    }
  }

  /** Some snapshot other than this one holds the run. */
  ghost predicate HeldBeside(t: Tables, snapshot: Id, run: Id) {
    exists s, p :: s in t.snapshots && s != snapshot && p in t.snapshots[s].parts && t.snapshots[s].parts[p] == run
  }

  ghost predicate Holds(t: Tables, snapshot: Id, run: Id) {
    snapshot in t.snapshots && exists p :: p in t.snapshots[snapshot].parts && t.snapshots[snapshot].parts[p] == run
  }

  lemma HeldIff(t: Tables, snapshot: Id, run: Id)
    ensures Referenced(t, run) <==> Holds(t, snapshot, run) || HeldBeside(t, snapshot, run)
    ensures Referenced(WithoutSnapshot(t, snapshot), run) <==> HeldBeside(t, snapshot, run)
  {
    var rest := WithoutSnapshot(t, snapshot);
    if s, p :| s in t.snapshots && s != snapshot && p in t.snapshots[s].parts && t.snapshots[s].parts[p] == run {
      EntriesReferenced(t, s, p);
      EntriesReferenced(rest, s, p);
    }
    if Referenced(rest, run) {
      var s :| s in rest.snapshots && run in rest.snapshots[s].parts.Values;
      var p :| p in rest.snapshots[s].parts && rest.snapshots[s].parts[p] == run;
      assert t.snapshots[s].parts[p] == run;
    }
    if Referenced(t, run) {
      var s :| s in t.snapshots && run in t.snapshots[s].parts.Values;
      var p :| p in t.snapshots[s].parts && t.snapshots[s].parts[p] == run;
    }
  }

  /** A step removes a run exactly when it discards it or sweeps it after its grace period of a day, held by
      no snapshot, or deletes the only snapshot that holds it, in each case for the run's own city; and a run
      that stays keeps all but its rows, which only a write changes. */
  lemma RemovedIff(t: Tables, step: Step, run: Id)
    requires Inv(t) && run in t.runs
    ensures var city, held := t.runs[run].city, exists s :: Holds(t, s, run);
            run !in Next(t, step).runs <==>
            || (step == Discard(city, run) && !held)
            || (step == Sweep(city) && t.runs[run].computedAt < t.now - 86400 && !held)
            || (step.Delete? && step.city == city && Holds(t, step.snapshot, run) &&
                t.snapshots[step.snapshot].city == city && !HeldBeside(t, step.snapshot, run))
    ensures run in Next(t, step).runs ==>
              Next(t, step).runs[run] == (if step.WriteRow? && step.run == run
                                          then t.runs[run].(rows := t.runs[run].rows + multiset{step.row})
                                          else t.runs[run])
  {
    hide Referenced, Inv, CommitTables, Holds, HeldBeside, WithoutSnapshot;
    forall s
      ensures Holds(t, s, run) ==> Referenced(t, run)
    {
      HeldIff(t, s, run);
    }
    RunsBelow(t, run);
    if Referenced(t, run) {
      var s := HolderOf(t, run);
    }
    match step
    case Commit(city, hash, parts) => CommitKeepsRuns(t, city, hash, parts);
    case Delete(city, snapshot) =>
      HeldIff(t, snapshot, run);
      WithoutKeepsRuns(t, snapshot);
      HoldsIff(t, snapshot, run);
    case _ =>
  }

  lemma RunsBelow(t: Tables, run: Id)
    requires Inv(t) && run in t.runs
    ensures run < t.nextRun
  {
  }

  lemma HolderOf(t: Tables, run: Id) returns (s: Id)
    requires Referenced(t, run)
    ensures Holds(t, s, run)
  {
    s :| s in t.snapshots && run in t.snapshots[s].parts.Values;
  }

  lemma HoldsIff(t: Tables, snapshot: Id, run: Id)
    ensures Holds(t, snapshot, run) <==> snapshot in t.snapshots && run in t.snapshots[snapshot].parts.Values
  {
  }

  lemma WithoutKeepsRuns(t: Tables, snapshot: Id)
    ensures WithoutSnapshot(t, snapshot).runs == t.runs
  {
  }

  lemma ReferencedExist(t: Tables, run: Id)
    requires Inv(t) && Referenced(t, run)
    ensures run in t.runs
  {
    var s :| s in t.snapshots && run in t.snapshots[s].parts.Values;
    var p :| p in t.snapshots[s].parts && t.snapshots[s].parts[p] == run;
    assert GoodEntry(t, t.snapshots[s], p);
  }

  ghost predicate DeletesHolder(t: Tables, step: Step, city: Id, run: Id) {
    && step.Delete? && step.city == city && Owns(t, city, step.snapshot)
    && run in t.snapshots[step.snapshot].parts.Values
  }

  /** The step neither discards the run nor deletes the last snapshot of its city that holds it. */
  ghost predicate Spares(t: Tables, step: Step, run: Id) {
    run in t.runs ==>
      var city := t.runs[run].city;
      && step != Discard(city, run)
      && (DeletesHolder(t, step, city, run) ==> Referenced(Next(t, step), run))
  }

  ghost predicate SparedRun(t: Tables, steps: seq<Step>, run: Id) {
    steps == [] ||
    (SparedRun(t, steps[..|steps| - 1], run) && Spares(After(t, steps[..|steps| - 1]), steps[|steps| - 1], run))
  }

  /** A run within its grace period survives any interleaving that spares it, whatever else is deleted. */
  lemma {:induction false} YoungRunsSurvive(t: Tables, steps: seq<Step>, run: Id)
    requires Inv(t) && run in t.runs && SparedRun(t, steps, run)
    requires After(t, steps).now <= t.runs[run].computedAt + OrphanRunGrace
    ensures run in After(t, steps).runs
    ensures After(t, steps).runs[run].city == t.runs[run].city &&
            After(t, steps).runs[run].computedAt == t.runs[run].computedAt
  {
    if steps != [] {
      var front, last := steps[..|steps| - 1], steps[|steps| - 1];
      var mid := After(t, front);
      hide Inv, DeleteTables, CommitTables, CreateTables, Orphans, Spares;
      ClockRuns(mid, last);
      YoungRunsSurvive(t, front, run);
      RunKeepsInv(t, front);
      RunIdentity(mid, last, run);
    }
  }

  lemma ClockRuns(t: Tables, step: Step)
    ensures t.now <= Next(t, step).now
  {
  }

  lemma RunIdentity(t: Tables, step: Step, run: Id)
    requires Inv(t) && run in t.runs && Spares(t, step, run)
    requires Next(t, step).now <= t.runs[run].computedAt + OrphanRunGrace
    ensures run in Next(t, step).runs
    ensures var r := Next(t, step).runs[run];
            r.city == t.runs[run].city && r.computedAt == t.runs[run].computedAt
  {
    if run !in Next(t, step).runs {
      OnlyTheseDestroy(t, step, run);
      ClockRuns(t, step);
    }
  }

  lemma {:induction false} AfterSplit(t: Tables, steps: seq<Step>, k: nat)
    requires k <= |steps|
    ensures After(t, steps) == After(After(t, steps[..k]), steps[k..])
    decreases |steps| - k
  {
    if k == |steps| {
      assert steps[..k] == steps;
    } else {
      AfterSplit(t, steps, k + 1);
      assert steps[..k + 1][..k] == steps[..k];
      FirstStep(After(t, steps[..k]), steps[k..]);
      assert steps[k..][1..] == steps[k + 1..];
    }
  }

  lemma {:induction false} FirstStep(t: Tables, steps: seq<Step>)
    requires |steps| > 0
    ensures After(t, steps) == After(Next(t, steps[0]), steps[1..])
  {
    var front := steps[..|steps| - 1];
    if |steps| == 1 {
      assert front == [] && steps[1..] == [];
    } else {
      FirstStep(t, front);
      assert steps[1..][..|steps[1..]| - 1] == front[1..];
    }
  }

  /** A discard of this run that the store carried out, at step k. */
  ghost predicate DiscardedAt(t: Tables, steps: seq<Step>, city: Id, run: Id, k: nat) {
    k < |steps| && steps[k] == Discard(city, run) && !Referenced(After(t, steps[..k]), run)
  }

  /** Once a draft's commit has succeeded and its discards of the runs it did not put have gone
      through, with any other commands interleaved, every run it created is either in the committed
      manifest or gone. */
  lemma DraftSettles(t: Tables, city: Id, hash: string, parts: map<string, Id>, steps: seq<Step>, run: Id)
    requires Inv(t) && Committable(t, city, hash, parts) && AllowedRun(CommitTables(t, city, hash, parts), steps)
    requires Delete(city, CommitResult(t, city, hash, parts)) !in steps
    requires 1 <= run < t.nextRun && (run in t.runs ==> t.runs[run].city == city)
    requires run !in parts.Values ==>
               exists k: nat :: DiscardedAt(CommitTables(t, city, hash, parts), steps, city, run, k)
    ensures var end := After(CommitTables(t, city, hash, parts), steps);
            run !in end.runs || run in SnapshotParts(end, city, CommitResult(t, city, hash, parts)).Values
  {
    hide Inv, CommitTables, CommitResult, Committable, AllowedRun, Overlay;
    var t1 := CommitTables(t, city, hash, parts);
    CommitKeepsInv(t, city, hash, parts);
    if run in parts.Values {
      PutRunIsHeld(t, city, hash, parts, run);
      PinnedViewIsStable(t1, steps, city, CommitResult(t, city, hash, parts));
    } else {
      var k: nat :| DiscardedAt(t1, steps, city, run, k);
      CommitKeepsRuns(t, city, hash, parts);
      DiscardedIsGone(t1, steps, city, run, k);
    }
  }

  lemma CommitKeepsRuns(t: Tables, city: Id, hash: string, parts: map<string, Id>)
    ensures CommitTables(t, city, hash, parts).runs == t.runs && CommitTables(t, city, hash, parts).nextRun == t.nextRun
  {
  }

  lemma PutRunIsHeld(t: Tables, city: Id, hash: string, parts: map<string, Id>, run: Id)
    requires Inv(t) && Committable(t, city, hash, parts) && run >= 1 && run in parts.Values
    ensures var t1, snap := CommitTables(t, city, hash, parts), CommitResult(t, city, hash, parts);
            Owns(t1, city, snap) && run in t1.snapshots[snap].parts.Values
  {
    NewestAfterCommit(t, city, hash, parts);
    var p :| p in parts && parts[p] == run;
    assert p in CommitManifest(t, city, hash, parts);
  }

  lemma DiscardedIsGone(t: Tables, steps: seq<Step>, city: Id, run: Id, k: nat)
    requires Inv(t) && DiscardedAt(t, steps, city, run, k)
    requires run < t.nextRun && (run in t.runs ==> t.runs[run].city == city)
    ensures run !in After(t, steps).runs
  {
    hide Inv;
    var mid := After(t, steps[..k]);
    RunKeepsInv(t, steps[..k]);
    CityIsFixed(t, steps[..k], city, run);
    assert run !in Next(mid, steps[k]).runs;
    assert steps[..k + 1][..k] == steps[..k];
    StepKeepsInv(mid, steps[k]);
    AfterSplit(t, steps, k + 1);
    GoneForGood(Next(mid, steps[k]), steps[k + 1..], run);
  }

  /** A run's city never changes while it exists. */
  lemma {:induction false} CityIsFixed(t: Tables, steps: seq<Step>, city: Id, run: Id)
    requires Inv(t) && run < t.nextRun && (run in t.runs ==> t.runs[run].city == city)
    ensures run < After(t, steps).nextRun
    ensures run in After(t, steps).runs ==> After(t, steps).runs[run].city == city
  {
    if steps != [] {
      CityIsFixed(t, steps[..|steps| - 1], city, run);
    }
  }
}
