/** A run without lasting failures can be completed from every reached state between runs. */
module Completion {
  import opened Options
  import opened Sprints
  import opened ChunkLog
  import opened ChunkBatches
  import opened FileStore
  import opened WorkerPool
  import opened Pipeline

  // -------------------------------------------------------------- registration

  const ACKNOWLEDGED := Outcome(true, true, true, true)

  /** Every pending record's file is in Drive, where the run can download it. */
  ghost predicate Downloadable(store: Store, drive: map<string, DriveFile>) {
    forall id :: id in store && store[id].syncStatus.Pending? ==> id in drive
  }

  lemma RegisterOne(h: Digests, w: World) returns (v: World)
    requires Reached(h, w) && w.phase.Discovering? && w.phase.todo != [] && w.phase.todo[0] in w.drive
    requires Downloadable(w.cloud.store, w.drive)
    ensures Reached(h, v) && v.drive == w.drive && v.phase.Discovering? && Downloadable(v.cloud.store, v.drive)
    ensures v.phase.todo == w.phase.todo[1..] && v.phase.registered == w.phase.registered + [w.phase.todo[0]]
    ensures v.phase.registrationFailures == w.phase.registrationFailures && v.phase.force == w.phase.force
  {
    v := Follow(h, w, Register(ACKNOWLEDGED));
  }

  lemma {:induction false} RegisterRest(h: Digests, w: World) returns (v: World)
    requires Reached(h, w) && w.phase.Discovering? && (forall id :: id in w.phase.todo ==> id in w.drive)
    requires Downloadable(w.cloud.store, w.drive)
    ensures Reached(h, v) && v.drive == w.drive && v.phase.Discovering? && Downloadable(v.cloud.store, v.drive)
    ensures v.phase.todo == [] && v.phase.registered == w.phase.registered + w.phase.todo
    ensures v.phase.registrationFailures == w.phase.registrationFailures && v.phase.force == w.phase.force
    decreases |w.phase.todo|
  {
    if w.phase.todo == [] {
      v := w;
    } else {
      v := RegisterOne(h, w);
      v := RegisterRest(h, v);
      assert w.phase.todo == [w.phase.todo[0]] + w.phase.todo[1..];
    }
  }

  // ------------------------------------------------------------------- listing

  /** The pending records among some IDs, as a listing. */
  ghost predicate ListsAmong(store: Store, ids: set<string>, files: seq<File>) {
    && (forall i :: 0 <= i < |files| ==>
          && files[i].driveFileId in ids && files[i].driveFileId in store
          && store[files[i].driveFileId] == DocOf(files[i]) && files[i].syncStatus == Pending)
    && (forall i, j :: 0 <= i < j < |files| ==> files[i].driveFileId != files[j].driveFileId)
    && (forall id :: id in ids && id in store && store[id].syncStatus == Pending
                     ==> exists i :: 0 <= i < |files| && files[i].driveFileId == id)
  }

  lemma ListOneMore(store: Store, ids: set<string>, files: seq<File>, id: string) returns (more: seq<File>)
    requires ListsAmong(store, ids, files) && id !in ids && id in store
    ensures ListsAmong(store, ids + {id}, more)
  {
    var doc := store[id];
    var f := File(id, doc.path, doc.checksum, doc.mimeType, Pending);
    more := if doc.syncStatus == Pending then files + [f] else files;
    forall other | other in ids + {id} && other in store && store[other].syncStatus == Pending
      ensures exists i :: 0 <= i < |more| && more[i].driveFileId == other
    {
      if other == id {
        assert more[|files|].driveFileId == id;
      } else {
        var i :| 0 <= i < |files| && files[i].driveFileId == other;
        assert more[i].driveFileId == other;
      }
    }
  }

  lemma {:induction false} ListingAmong(store: Store, ids: set<string>) returns (files: seq<File>)
    requires ids <= store.Keys
    ensures ListsAmong(store, ids, files)
    decreases ids
  {
    if ids == {} {
      files := [];
    } else {
      var id :| id in ids;
      files := ListingAmong(store, ids - {id});
      files := ListOneMore(store, ids - {id}, files, id);
      assert ids - {id} + {id} == ids;
    }
  }

  lemma ListingExists(store: Store) returns (files: seq<File>)
    ensures ListsPending(store, files)
  {
    files := ListingAmong(store, store.Keys);
  }

  // ---------------------------------------------------------------------- pool

  /** Only listed records are pending. */
  ghost predicate PendingListed(w: World) {
    w.phase.Pooling?
    && forall id :: id in w.cloud.store && w.cloud.store[id].syncStatus.Pending? ==> Queued(w.phase.pool, id)
  }

  lemma OneStep(h: Digests, w: World, a: Action) returns (v: World)
    requires Reached(h, w) && PendingListed(w) && Enabled(w.phase.setting, w.phase.pool, w.cloud, a)
    ensures Reached(h, v) && PendingListed(v)
    ensures var x, p := w.phase.setting, w.phase.pool;
            v == w.(cloud := CloudNext(x, p, w.cloud, a), phase := w.phase.(pool := PoolNext(x, p, w.cloud, a)))
  {
    ReachedInv(h, w);
    v := Follow(h, w, PoolStep(a));
    PoolStepOnlyListed(h, w.phase.setting, w.phase.pool, w.cloud, a);
    PendingKept(w.phase.pool, w.cloud, v.phase.pool, v.cloud);
  }

  lemma PendingKept(p: Pool, c: Cloud, q: Pool, d: Cloud)
    requires OnlyListed(p, c, d) && q.listed == p.listed
    requires forall id :: id in c.store && c.store[id].syncStatus.Pending? ==> Queued(p, id)
    ensures forall id :: id in d.store && d.store[id].syncStatus.Pending? ==> Queued(q, id)
  {
    forall id | id in d.store && d.store[id].syncStatus.Pending? ensures Queued(q, id) {
      assert Queued(p, id) <==> Queued(q, id);
    }
  }

  /** A run of the pool is a stretch of a history. */
  lemma {:induction false} FollowRun(h: Digests, w: World, run: seq<Action>) returns (v: World)
    requires Reached(h, w) && PendingListed(w) && ValidRun(w.phase.setting, w.phase.pool, w.cloud, run)
    ensures Reached(h, v) && PendingListed(v)
    ensures var (p, c) := After(w.phase.setting, w.phase.pool, w.cloud, run);
            v == w.(cloud := c, phase := w.phase.(pool := p))
    decreases |run|
  {
    if run == [] {
      v := w;
    } else {
      v := OneStep(h, w, run[0]);
      v := FollowRun(h, v, run[1..]);
    }
  }

  /** The pool of a run that has registered its files. */
  lemma FinishPool(h: Digests, w: World) returns (v: World)
    requires Reached(h, w) && w.phase.Discovering? && w.phase.todo == [] && Downloadable(w.cloud.store, w.drive)
    ensures Reached(h, v) && PendingListed(v) && v.drive == w.drive
    ensures v.phase.discovered == w.phase.registered && v.phase.force == w.phase.force
    ensures v.phase.registrationFailures == w.phase.registrationFailures && v.phase.pool.result.Succeeded?
  {
    var listed := ListingExists(w.cloud.store);
    var begun := Follow(h, w, StartPool(listed, false));
    var x, p, c := begun.phase.setting, begun.phase.pool, begun.cloud;
    assert PendingListed(begun);
    StartInv(listed, false);
    forall f | f in listed ensures f.driveFileId in x.drive {
      var i :| 0 <= i < |listed| && listed[i] == f;
    }
    var run := SmoothRunExists(x, p, c);
    SmoothRunSucceeds(x, listed, c, run);
    v := FollowRun(h, begun, run);
  }

  // -------------------------------------------------------------- main result

  /**
   * Progress: from every state a history reaches between runs, if the files of the pending
   * records are still in Drive, a run over any of Drive's files, forced or not, can get past
   * the pool without an error; then no record is pending.
   */
  lemma RunCompletes(h: Digests, w: World, ids: seq<string>, force: bool, policy: SprintPolicy) returns (v: World)
    requires Reached(h, w) && w.phase.Resting? && (forall id :: id in ids ==> id in w.drive)
    requires Downloadable(w.cloud.store, w.drive)
    ensures Reached(h, v) && Passed(v) && v.drive == w.drive
    ensures v.phase.discovered == ids && v.phase.force == force
    ensures forall id :: id in v.cloud.store ==> !v.cloud.store[id].syncStatus.Pending?
    ensures forall id :: id in ids ==> id in v.cloud.store && v.cloud.store[id].syncStatus.Done?
  {
    v := Follow(h, w, Begin(ids, force, policy));
    v := RegisterRest(h, v);
    v := FinishPool(h, v);
    NothingPending(h, v);
    forall id | id in ids ensures id in v.cloud.store && v.cloud.store[id].syncStatus.Done? {
      DiscoveredDone(h, v, id);
    }
  }

  /** Repair: hence from every such state some run makes the view show all these files as they are now. */
  lemma RepairExists(h: Digests, w: World, ids: seq<string>, policy: SprintPolicy) returns (v: World)
    requires Reached(h, w) && Collisionless(h) && w.phase.Resting? && (forall id :: id in ids ==> id in w.drive)
    requires Downloadable(w.cloud.store, w.drive)
    ensures Reached(h, v) && Passed(v) && v.drive == w.drive
    ensures forall id, table, legacy, view ::
              id in ids && id in v.cloud.store && v.cloud.store[id].mimeType == MARKDOWN
              && IsTable(table, legacy, LoadsOf(v.cloud.landed)) && IsChunksCurrent(table, view)
              ==> id in v.drive && Displays(h, view, id, v.drive[id].name, v.drive[id].content)
  {
    v := RunCompletes(h, w, ids, true, policy);
    forall id, table, legacy, view |
      id in ids && id in v.cloud.store && v.cloud.store[id].mimeType == MARKDOWN
      && IsTable(table, legacy, LoadsOf(v.cloud.landed)) && IsChunksCurrent(table, view)
      ensures id in v.drive && Displays(h, view, id, v.drive[id].name, v.drive[id].content)
    {
      ForcedRunConverges(h, v, id, table, legacy, view);
    }
  }

  lemma NothingPending(h: Digests, w: World)
    requires Reached(h, w) && PendingListed(w) && w.phase.pool.result.Succeeded?
    ensures forall id :: id in w.cloud.store ==> !w.cloud.store[id].syncStatus.Pending?
  {
    forall id | id in w.cloud.store ensures !w.cloud.store[id].syncStatus.Pending? {
      if w.cloud.store[id].syncStatus.Pending? {
        var k :| 0 <= k < |w.phase.pool.listed| && w.phase.pool.listed[k].driveFileId == id;
        SucceededDelivers(h, w, k);
      }
    }
  }

  lemma DiscoveredDone(h: Digests, w: World, id: string)
    requires Reached(h, w) && Passed(w) && id in w.phase.discovered
    ensures id in w.cloud.store && w.cloud.store[id].syncStatus.Done?
  {
    ReachedInv(h, w);
    assert Registration(w, w.phase.pool, id);
    if Queued(w.phase.pool, id) {
      var k :| 0 <= k < |w.phase.pool.listed| && w.phase.pool.listed[k].driveFileId == id;
      SucceededDelivers(h, w, k);
    }
  }
}
