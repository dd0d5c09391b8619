/** The store's transactions as methods over mutable tables (internal/db/snapshots.go), each proved
    to take its step of the SnapshotStore transition system, and the draft one command assembles
    (internal/db/draft.go). */
module StoreCommands {
  import opened SnapshotStore

  function Without(parts: map<string, Id>, rest: set<string>): map<string, Id> {
    map p | p in parts && p !in rest :: parts[p]
  }

  /** Overlaying one more part is one edit of the manifest. */
  lemma OverlayOne(base: map<string, Id>, parts: map<string, Id>, rest: set<string>, p: string)
    requires p in rest && p in parts
    ensures Overlay(base, Without(parts, rest - {p})) ==
            if parts[p] == 0 then Overlay(base, Without(parts, rest)) - {p}
            else Overlay(base, Without(parts, rest))[p := parts[p]]
  {
    var more, done := Without(parts, rest - {p}), Without(parts, rest);
    assert forall q :: q != p ==> (q in more <==> q in done) && (q in more ==> more[q] == done[q]);
    assert p in more && p !in done;
  }

  class Database {
    var runs: map<Id, Run>
    var snapshots: map<Id, Snapshot>
    var nextRun: Id
    var nextSnapshot: Id
    var now: int

    function State(): Tables
      reads this
    {
      Tables(runs, snapshots, nextRun, nextSnapshot, now)
    }

    constructor ()
      ensures State() == EmptyTables
    {
      runs, snapshots, nextRun, nextSnapshot, now := map[], map[], 1, 1, 0;
    }

    /** newestSnapshotID. */
    method NewestSnapshotID(city: Id, hash: string) returns (id: Id)
      requires 0 !in snapshots
      ensures id == Newest(State(), city, hash)
    {
      ghost var of := SnapshotsOf(State(), city, hash);
      id := 0;
      var rest := snapshots.Keys;
      while rest != {}
        invariant rest <= snapshots.Keys
        invariant forall s :: s in of && s !in rest ==> s <= id
        invariant id == 0 || id in of
        decreases rest
      {
        var s :| s in rest;
        rest := rest - {s};
        if snapshots[s].city == city && (hash == "" || snapshots[s].hash == hash) && s > id {
          id := s;
        }
      }
      if of != {} {
        assert id != 0 by {
          var s :| s in of;
          assert s <= id;
        }
        assert MaxId(of) == id;
      }
    }

    /** applyParts, editing the manifest one part at a time. */
    method ApplyParts(base: map<string, Id>, parts: map<string, Id>) returns (manifest: map<string, Id>)
      ensures manifest == Overlay(base, parts)
    {
      hide Overlay;
      manifest := base;
      var rest := parts.Keys;
      OverlayNothing(base);
      assert Without(parts, rest) == map[];
      while rest != {}
        invariant rest <= parts.Keys
        invariant manifest == Overlay(base, Without(parts, rest))
        decreases rest
      {
        var p :| p in rest;
        OverlayOne(base, parts, rest, p);
        rest := rest - {p};
        if parts[p] == 0 {
          manifest := manifest - {p};
        } else {
          manifest := manifest[p := parts[p]];
        }
      }
      assert Without(parts, rest) == parts;
    }

    /** viewRunIDs: the resolved manifest with the overlay applied. */
    method ViewRunIDs(v: View) returns (ids: set<Id>)
      requires 0 !in snapshots
      ensures ids == ViewParts(State(), v).Values
    {
      var snapshot := v.snapshot;
      if snapshot == 0 {
        snapshot := NewestSnapshotID(v.city, v.hash);
      }
      var parts := ApplyParts(SnapshotParts(State(), v.city, snapshot), v.overlay);
      ids := parts.Values;
    }

    method CreateRun(city: Id, producer: string, hash: string) returns (ok: bool, id: Id)
      modifies this
      ensures State() == Next(old(State()), Step.CreateRun(city, producer, hash))
      ensures ok <==> producer != ""
      ensures ok ==> id == old(nextRun) && id in runs && runs[id] == Run(city, producer, hash, now, multiset{})
    {
      if producer == "" {
        return false, 0;
      }
      id := nextRun;
      runs := runs[id := Run(city, producer, hash, now, multiset{})];
      nextRun := nextRun + 1;
      ok := true;
    }

    /** The reference count of a run is positive. */
    predicate IsReferenced(run: Id)
      reads this
      ensures IsReferenced(run) <==> Referenced(State(), run)
    {
      exists s :: s in snapshots && run in snapshots[s].parts.Values
    }

    method DeleteOwned(city: Id, ids: set<Id>)
      modifies this
      ensures State() == DeleteRuns(old(State()), city, ids)
    {
      runs := map r | r in runs && !(r in ids && runs[r].city == city) :: runs[r];
    }

    method DiscardRun(city: Id, run: Id) returns (ok: bool)
      modifies this
      ensures State() == Next(old(State()), Step.Discard(city, run))
      ensures ok <==> !Referenced(old(State()), run)
    {
      if IsReferenced(run) {
        return false;
      }
      DeleteOwned(city, {run});
      ok := true;
    }

    /** checkCommitRuns: every non-zero part names a run of this city, producer and hash. */
    method CheckCommitRuns(city: Id, hash: string, parts: map<string, Id>) returns (ok: bool)
      ensures ok <==> forall p :: p in parts ==> CommittablePart(State(), city, hash, p, parts[p])
    {
      var rest := parts.Keys;
      while rest != {}
        invariant rest <= parts.Keys
        invariant forall p :: p in parts && p !in rest ==> CommittablePart(State(), city, hash, p, parts[p])
        decreases rest
      {
        var p :| p in rest;
        rest := rest - {p};
        var id := parts[p];
        if id == 0 {
          continue;
        }
        if id !in runs || runs[id].city != city || runs[id].producer != p || runs[id].hash != hash {
          return false;
        }
      }
      return true;
    }

    /** CommitSnapshot: an error or a no-op writes nothing. */
    method CommitSnapshot(city: Id, hash: string, parts: map<string, Id>) returns (ok: bool, snapshot: Id)
      requires Inv(State())
      modifies this
      ensures State() == Next(old(State()), Step.Commit(city, hash, parts))
      ensures ok <==> Committable(old(State()), city, hash, parts)
      ensures ok ==> snapshot == CommitResult(old(State()), city, hash, parts)
      ensures Inv(State())
    {
      StepKeepsInv(State(), Step.Commit(city, hash, parts));
      hide Inv, Overlay, CommittablePart;
      InvIds(State());
      if hash == "" {
        return false, 0;
      }
      var runsOk := CheckCommitRuns(city, hash, parts);
      if !runsOk {
        return false, 0;
      }
      var base := NewestSnapshotID(city, hash);
      var baseParts := SnapshotParts(State(), city, base);
      var manifest := ApplyParts(baseParts, parts);
      ok, snapshot := true, base;
      if manifest != baseParts {
        snapshot := nextSnapshot;
        snapshots := snapshots[snapshot := Snapshot(city, hash, manifest)];
        nextSnapshot := nextSnapshot + 1;
      }
    }

    /** unreferencedRuns. */
    method UnreferencedRuns(ids: set<Id>) returns (out: set<Id>)
      ensures out == set r | r in ids && !Referenced(State(), r)
    {
      out := {};
      var rest := ids;
      while rest != {}
        invariant rest <= ids
        invariant out == set r | r in ids - rest && !Referenced(State(), r)
        decreases rest
      {
        var r :| r in rest;
        rest := rest - {r};
        if !IsReferenced(r) {
          out := out + {r};
        }
      }
    }

    method DeleteSnapshot(city: Id, snapshot: Id) returns (ok: bool, deleted: bool)
      modifies this
      ensures ok <==> snapshot > 0
      ensures State() == if ok then Next(old(State()), Step.Delete(city, snapshot)) else old(State())
      ensures deleted <==> ok && Owns(old(State()), city, snapshot)
    {
      ok, deleted := snapshot > 0, false;
      if !ok || snapshot !in snapshots || snapshots[snapshot].city != city {
        return;
      }
      var parts := snapshots[snapshot].parts;
      ghost var before := State();
      snapshots := map s | s in snapshots && s != snapshot :: snapshots[s];
      assert State() == WithoutSnapshot(before, snapshot);
      var orphaned := UnreferencedRuns(parts.Values);
      DeleteOwned(city, orphaned);
      deleted := true;
    }

    method GCSweep(city: Id) returns (count: nat)
      modifies this
      ensures State() == Next(old(State()), Step.Sweep(city))
      ensures count == |Orphans(old(State()), city)|
    {
      var orphans := set r | r in runs && runs[r].city == city && runs[r].computedAt < now - OrphanRunGrace &&
                     !IsReferenced(r);
      assert orphans == Orphans(State(), city);
      DeleteOwned(city, orphans);
      count := |orphans|;
    }
  }

  lemma InvIds(t: Tables)
    requires Inv(t)
    ensures 0 !in t.snapshots && 0 !in t.runs
  {
  }

  // ---------------------------------------------------------------- drafts

  /** The snapshot one command is assembling for one city and config hash. */
  class Draft {
    const db: Database
    const city: Id
    const hash: string
    var parts: map<string, Id>
    var created: seq<Id>

    constructor (db: Database, city: Id, hash: string)
      ensures this.db == db && this.city == city && this.hash == hash
      ensures parts == map[] && created == []
    {
      this.db, this.city, this.hash := db, city, hash;
      parts, created := map[], [];
    }

    /** Every run this draft created is still its own city's, if it exists. */
    ghost predicate Valid()
      reads this, db
    {
      && Inv(db.State())
      && forall i :: 0 <= i < |created| ==>
           1 <= created[i] < db.nextRun && (created[i] in db.runs ==> db.runs[created[i]].city == city)
    }

    /** The view through which later producers of the command read earlier ones' output. */
    function Store(v: View): View
      reads this
    {
      WithParts(v, hash, parts)
    }

    method NewRun(producer: string) returns (ok: bool, id: Id)
      requires Valid()
      modifies this, db
      ensures Valid() && parts == old(parts)
      ensures db.State() == Next(old(db.State()), Step.CreateRun(city, producer, hash))
      ensures ok <==> producer != ""
      ensures created == if ok then old(created) + [id] else old(created)
    {
      StepKeepsInv(db.State(), Step.CreateRun(city, producer, hash));
      ok, id := db.CreateRun(city, producer, hash);
      if ok {
        created := created + [id];
      }
    }

    method Put(producer: string, id: Id)
      modifies this`parts
      ensures parts == old(parts)[producer := id]
    {
      parts := parts[producer := id];
    }

    method Drop(producer: string)
      modifies this`parts
      ensures parts == old(parts)[producer := 0]
    {
      parts := parts[producer := 0];
    }

    /** unusedRuns: the created runs no part names. */
    method UnusedRuns() returns (out: seq<Id>)
      ensures forall r :: r in out <==> r in created && r !in parts.Values
    {
      out := [];
      for i := 0 to |created|
        invariant forall r :: r in out <==> r in created[..i] && r !in parts.Values
      {
        if created[i] !in parts.Values {
          out := out + [created[i]];
        }
      }
      assert created[..|created|] == created;
    }

    /** Discards the listed runs: each is gone afterwards unless some snapshot references it, and no
        manifest changes. */
    method DiscardAll(ids: seq<Id>) returns (ok: bool)
      requires Inv(db.State())
      requires forall i :: 0 <= i < |ids| ==> ids[i] in db.runs ==> db.runs[ids[i]].city == city
      modifies db
      ensures Inv(db.State())
      ensures db.snapshots == old(db.snapshots)
      ensures db.nextRun == old(db.nextRun) && db.nextSnapshot == old(db.nextSnapshot) && db.now == old(db.now)
      ensures forall r :: r in db.runs <==> r in old(db.runs) && (r !in ids || Referenced(old(db.State()), r))
      ensures forall r :: r in db.runs ==> db.runs[r] == old(db.runs[r])
      ensures ok <==> forall r :: r in ids ==> !Referenced(old(db.State()), r)
    {
      hide Inv;
      ok := true;
      for i := 0 to |ids|
        invariant Inv(db.State())
        invariant db.snapshots == old(db.snapshots)
        invariant db.nextRun == old(db.nextRun) && db.nextSnapshot == old(db.nextSnapshot) && db.now == old(db.now)
        invariant forall r :: r in db.runs <==> r in old(db.runs) && (r !in ids[..i] || Referenced(old(db.State()), r))
        invariant forall r :: r in db.runs ==> db.runs[r] == old(db.runs[r])
        invariant ok <==> forall r :: r in ids[..i] ==> !Referenced(old(db.State()), r)
      {
        StepKeepsInv(db.State(), Step.Discard(city, ids[i]));
        SameReferences(db.State(), old(db.State()));
        var one := db.DiscardRun(city, ids[i]);
        ok := ok && one;
      }
      assert ids[..|ids|] == ids;
    }

    /** Commit: one snapshot with only the put parts swapped in. On error nothing is written and the
        draft is unchanged; on success every run the draft created is in the committed manifest,
        gone, or held by some other snapshot that refuses its discard. */
    method Commit() returns (ok: bool, snapshot: Id)
      requires Valid()
      modifies this, db
      ensures Valid()
      ensures ok <==> Committable(old(db.State()), city, hash, old(parts))
      ensures !ok ==> db.State() == old(db.State()) && parts == old(parts) && created == old(created)
      ensures ok ==> parts == map[] && created == []
      ensures ok ==> snapshot == CommitResult(old(db.State()), city, hash, old(parts))
      ensures ok ==> db.snapshots == CommitTables(old(db.State()), city, hash, old(parts)).snapshots
      ensures ok ==> forall r :: r in old(created) && r in db.runs ==>
        r in SnapshotParts(db.State(), city, snapshot).Values || Referenced(db.State(), r)
      ensures ok ==> forall r :: r in old(db.runs) && r !in old(created) ==>
              r in db.runs && db.runs[r] == old(db.runs[r])
    {
      hide Inv, CommitTables, CommitResult, Committable;
      var unused := UnusedRuns();
      assert forall r :: r in created && r in db.runs ==> db.runs[r].city == city;
      assert forall i :: 0 <= i < |unused| ==> unused[i] in created;
      ok, snapshot := db.CommitSnapshot(city, hash, parts);
      ghost var mid := db.State();
      CommitKeepsRuns(old(db.State()), city, hash, parts);
      if !ok {
        FailedCommitWritesNothing(old(db.State()), city, hash, parts);
        return;
      }
      ghost var was, put := created, parts;
      created, parts := [], map[];
      var _ := DiscardAll(unused);
      SameReferences(db.State(), mid);
      forall r | r in was && r in db.runs
        ensures r in SnapshotParts(db.State(), city, snapshot).Values || Referenced(db.State(), r)
      {
        if r in put.Values {
          PutRunIsHeld(old(db.State()), city, hash, put, r);
        }
      }
    }

    /** Discard: deletes every run the draft created that no snapshot references. */
    method Discard() returns (ok: bool)
      requires Valid()
      modifies this, db
      ensures Valid() && parts == map[] && created == []
      ensures db.snapshots == old(db.snapshots)
      ensures forall r :: r in db.runs <==> r in old(db.runs) && (r !in old(created) || Referenced(old(db.State()), r))
      ensures ok <==> forall r :: r in old(created) ==> !Referenced(old(db.State()), r)
    {
      ok := DiscardAll(created);
      created, parts := [], map[];
    }
  }

  lemma FailedCommitWritesNothing(t: Tables, city: Id, hash: string, parts: map<string, Id>)
    requires !Committable(t, city, hash, parts)
    ensures CommitTables(t, city, hash, parts) == t
  {
  }

  lemma SameReferences(t: Tables, u: Tables)
    requires t.snapshots == u.snapshots
    ensures forall r :: Referenced(t, r) <==> Referenced(u, r)
  {
  }
}
