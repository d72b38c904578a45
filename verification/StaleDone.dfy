/**
 * A history after which `chunks_current` shows an older document although the run
 * passed: a registration fails, the pool runs all the same, and the edit is undone.
 */
module StaleDone {
  import opened Options
  import opened Text
  import opened Sprints
  import opened ChunkLog
  import opened ChunkBatches
  import opened FileStore
  import opened WorkerPool
  import opened Pipeline

  const ID := "file"
  const NAME := "notes.md"
  const POLICY := SprintPolicy("")

  function Holding(h: Digests, content: string): map<string, DriveFile> {
    map[ID := DriveFile(NAME, h.md5(content), MARKDOWN, content)]
  }

  function Record(h: Digests, content: string, status: SyncStatus): Store {
    map[ID := FileDoc(NAME, h.md5(content), MARKDOWN, status)]
  }

  /** First run: the file is registered with content a, and the run ends before the pool. */
  lemma RegisterOnly(h: Digests, a: string) returns (w: World)
    requires h.md5(a) != ""
    ensures Reached(h, w) && w == World(Holding(h, a), Empty(h, a), Resting)
  {
    var drive := Holding(h, a);
    w := Initial(drive);
    assert ValidHistory(h, drive, []) && WorldAfter(h, drive, []) == w;
    Extend(h, w, Begin([ID], false, POLICY));
    w := Happens(h, w, Begin([ID], false, POLICY));
    var ok := Register(Outcome(true, true, false, false));
    Extend(h, w, ok);
    w := Happens(h, w, ok);
    Extend(h, w, Stop);
    w := Happens(h, w, Stop);
    assert w.cloud.store == Record(h, a, Pending);
  }

  function Listing(h: Digests, a: string): seq<File> {
    [File(ID, NAME, h.md5(a), MARKDOWN, Pending)]
  }

  /** The batch that the second run ingests: content b under the record of content a. */
  function StaleBatch(h: Digests, a: string, b: string): Batch {
    Batch(ID, NAME, b, h.sha256(b), 0, POLICY, h.md5(a))
  }

  /** The second run's worker 0 is at a stage, and the cloud is this. */
  ghost predicate AtWork(h: Digests, a: string, b: string, w: World, worker: Worker, cloud: Cloud) {
    && w.phase.Pooling? && w.drive == Holding(h, b)
    && w.phase.setting == Setting(Holding(h, b), POLICY, h.sha256)
    && w.phase.pool.listed == Listing(h, a) && !w.phase.pool.cancelled
    && |w.phase.pool.workers| == WORKER_COUNT && w.phase.pool.workers[0] == worker
    && w.cloud == cloud
  }

  lemma StepWork(h: Digests, a: string, b: string, w: World, worker: Worker, cloud: Cloud, r: Reply)
      returns (next: World)
    requires Reached(h, w) && AtWork(h, a, b, w, worker, cloud) && Busy(worker) && worker.job == 0
    requires Expects(w.phase.setting, cloud, false, Listing(h, a)[0], worker, r)
    ensures Reached(h, next)
    ensures var x, f := w.phase.setting, Listing(h, a)[0];
            AtWork(h, a, b, next, TurnOf(x, cloud, false, f, worker, r).worker,
                   CloudAfter(x, cloud, false, f, worker, r))
  {
    var x, p, f := w.phase.setting, w.phase.pool, Listing(h, a)[0];
    next := FollowWork(h, w, f, r);
    WorkedWorker(p, TurnOf(x, cloud, false, f, worker, r));
  }

  lemma FollowWork(h: Digests, w: World, f: File, r: Reply) returns (next: World)
    requires Reached(h, w) && w.phase.Pooling? && !w.phase.pool.cancelled && Holds(w.phase.pool, 0)
    requires f == JobFile(w.phase.pool, 0) && Expects(w.phase.setting, w.cloud, false, f, w.phase.pool.workers[0], r)
    ensures Reached(h, next)
    ensures var x, p := w.phase.setting, w.phase.pool;
            next == w.(cloud := CloudAfter(x, w.cloud, false, f, p.workers[0], r),
                       phase := w.phase.(pool := Worked(p, 0, TurnOf(x, w.cloud, false, f, p.workers[0], r))))
  {
    next := Follow(h, w, PoolStep(Work(0, r)));
  }

  lemma WorkedWorker(p: Pool, t: Turn)
    requires |p.workers| == WORKER_COUNT && Busy(p.workers[0])
    ensures var q := Worked(p, 0, t);
            q.workers[0] == t.worker && |q.workers| == WORKER_COUNT
            && q.listed == p.listed && q.cancelled == p.cancelled
  {
  }

  function Empty(h: Digests, a: string): Cloud {
    Cloud(Record(h, a, Pending), [], [], multiset{}, [])
  }

  /** Second run: Drive holds b, and the registration fails. */
  lemma FailRegistration(h: Digests, a: string, b: string, w0: World) returns (w: World)
    requires h.md5(a) != "" && Reached(h, w0) && w0 == World(Holding(h, a), Empty(h, a), Resting)
    ensures Reached(h, w)
    ensures w == World(Holding(h, b), Empty(h, a), Discovering(Record(h, a, Pending), false, [], [ID], {}, 1, POLICY))
  {
    w := Follow(h, w0, Edit(Holding(h, b)));
    w := Follow(h, w, Begin([ID], false, POLICY));
    w := Follow(h, w, Register(Outcome(false, false, false, false)));
    assert w.phase.todo == [] && w.phase.registered == [ID] && w.phase.acknowledged == {};
    assert w.cloud == Empty(h, a) && w.phase.registrationFailures == 1;
  }

  /** The pool runs all the same. */
  lemma StartStale(h: Digests, a: string, b: string, w0: World) returns (w: World)
    requires h.md5(a) != "" && Reached(h, w0) && w0 == World(Holding(h, a), Empty(h, a), Resting)
    ensures Reached(h, w) && AtWork(h, a, b, w, Downloading(0), Empty(h, a))
  {
    w := FailRegistration(h, a, b, w0);
    assert Listing(h, a)[0].driveFileId == ID;
    assert ListsPending(w.cloud.store, Listing(h, a));
    w := Follow(h, w, StartPool(Listing(h, a), false));
    w := Follow(h, w, PoolStep(Send));
    w := Follow(h, w, PoolStep(Take(0)));
  }

  /** It downloads b and loads it. */
  lemma LoadStale(h: Digests, a: string, b: string, w0: World) returns (w: World, cloud: Cloud)
    requires Reached(h, w0) && AtWork(h, a, b, w0, Downloading(0), Empty(h, a))
    ensures cloud == Empty(h, a).(ingested := [StaleBatch(h, a, b)], landed := [StaleBatch(h, a, b)])
    ensures Reached(h, w) && AtWork(h, a, b, w, LoadingMetadata(0, Some(StaleBatch(h, a, b))), cloud)
  {
    var batch := StaleBatch(h, a, b);
    cloud := Empty(h, a);
    w := StepWork(h, a, b, w0, Downloading(0), cloud, Downloads(0));
    cloud := cloud.(ingested := [batch]);
    assert AtWork(h, a, b, w, Checking(0, batch, 1), cloud);
    w := StepWork(h, a, b, w, Checking(0, batch, 1), cloud, ChecksContext);
    w := StepWork(h, a, b, w, Inserting(0, batch, 1), cloud, LoadReplies(None, true));
    cloud := cloud.(landed := [batch]);
  }

  /** Then it marks the record of a as done, and the run ends. */
  lemma ProcessStale(h: Digests, a: string, b: string, w0: World) returns (w: World)
    requires Reached(h, w0) && AtWork(h, a, b, w0, Downloading(0), Empty(h, a))
    ensures Reached(h, w) && w.drive == Holding(h, b) && w.phase == Resting
    ensures w.cloud.store == Record(h, a, Done)
    ensures w.cloud.landed == w.cloud.ingested == [StaleBatch(h, a, b)] && w.cloud.inDoubt == multiset{}
  {
    var batch, cloud := StaleBatch(h, a, b), Empty(h, a);
    w, cloud := LoadStale(h, a, b, w0);
    w := StepWork(h, a, b, w, LoadingMetadata(0, Some(batch)), cloud, MetadataReplies(true, true));
    cloud := cloud.(driveFiles := [MetadataRowOf(Listing(h, a)[0])]);
    assert AtWork(h, a, b, w, MarkingDone(0, Some(batch)), cloud);
    w := StepWork(h, a, b, w, MarkingDone(0, Some(batch)), cloud, DoneReplies(true, true));
    w := Follow(h, w, Stop);
    assert w.cloud.store == Record(h, a, Done);
  }

  /** The pool of an empty listing, after i workers have left. */
  function Draining(i: nat): Pool
    requires i <= WORKER_COUNT
  {
    Start([], false).(closed := true, workers := seq(i, _ => Left) + seq(WORKER_COUNT - i, _ => Idle))
  }

  lemma LeaveOne(h: Digests, w: World, i: nat) returns (next: World)
    requires i < WORKER_COUNT && Reached(h, w) && w.phase.Pooling? && w.phase.pool == Draining(i)
    ensures Reached(h, next) && next == w.(phase := w.phase.(pool := Draining(i + 1)))
  {
    next := Follow(h, w, PoolStep(LeaveClosed(i)));
    assert Draining(i).workers[i := Left] == Draining(i + 1).workers;
  }

  lemma {:induction false} LeaveAll(h: Digests, w: World, i: nat) returns (last: World)
    requires i <= WORKER_COUNT && Reached(h, w) && w.phase.Pooling? && w.phase.pool == Draining(i)
    ensures Reached(h, last) && last == w.(phase := w.phase.(pool := Draining(WORKER_COUNT)))
    decreases WORKER_COUNT - i
  {
    if i == WORKER_COUNT {
      last := w;
    } else {
      last := LeaveOne(h, w, i);
      last := LeaveAll(h, last, i + 1);
    }
  }

  /** An empty listing: the workers leave one by one and Run returns nil. */
  lemma DrainEmpty(h: Digests, w0: World) returns (w: World)
    requires Reached(h, w0) && w0.phase.Pooling? && w0.phase.pool == Start([], false)
    ensures Reached(h, w)
    ensures w == w0.(phase := w0.phase.(pool := Draining(WORKER_COUNT).(result := Succeeded)))
  {
    w := CloseEmpty(h, w0);
    w := LeaveAll(h, w, 0);
    w := ReturnEmpty(h, w);
  }

  lemma CloseEmpty(h: Digests, w0: World) returns (w: World)
    requires Reached(h, w0) && w0.phase.Pooling? && w0.phase.pool == Start([], false)
    ensures Reached(h, w) && w == w0.(phase := w0.phase.(pool := Draining(0)))
  {
    w := Follow(h, w0, PoolStep(Close));
    assert w.phase.pool.workers == Draining(0).workers;
  }

  lemma ReturnEmpty(h: Digests, w0: World) returns (w: World)
    requires Reached(h, w0) && w0.phase.Pooling? && w0.phase.pool == Draining(WORKER_COUNT)
    ensures Reached(h, w)
    ensures w == w0.(phase := w0.phase.(pool := Draining(WORKER_COUNT).(result := Succeeded)))
  {
    w := Follow(h, w0, PoolStep(Return));
  }

  /**
   * For any two documents with different, non-empty checksums there is a history whose
   * last run passes, yet the newest batch of the file is the older document: the
   * registration that failed left the record of a, and undoing the edit matched it.
   */
  lemma PassedButStale(h: Digests, a: string, b: string) returns (w: World)
    requires h.md5(a) != "" && a != b
    ensures Reached(h, w) && Passed(w) && ID in w.phase.discovered
    ensures ID in w.cloud.store && w.cloud.store[ID].mimeType == MARKDOWN
    ensures ID in w.drive && w.drive[ID].content == a
    ensures LandedNewest(w.cloud, ID, StaleBatch(h, a, b)) && StaleBatch(h, a, b).content == b != a
  {
    w := RegisterOnly(h, a);
    w := StartStale(h, a, b, w);
    w := ProcessStale(h, a, b, w);
    w := RunAgain(h, a, w);
    assert StaleBatch(h, a, b) in w.cloud.landed;
  }

  /** After such a history the view displays document b for the file, and not document a unless both are blank. */
  lemma StaleView(h: Digests, w: World, a: string, b: string,
                  table: seq<ChunkRow>, legacy: seq<ChunkRow>, view: multiset<CurrentRow>)
    requires Reached(h, w) && Collisionless(h) && a != b && LandedNewest(w.cloud, ID, StaleBatch(h, a, b))
    requires IsTable(table, legacy, LoadsOf(w.cloud.landed)) && IsChunksCurrent(table, view)
    ensures Displays(h, view, ID, NAME, b)
    ensures !(Blank(a) && Blank(b)) ==> !Displays(h, view, ID, NAME, a)
  {
    NewestLandedShows(h, w, ID, StaleBatch(h, a, b), table, legacy, view);
    if Displays(h, view, ID, NAME, a) {
      DisplaysOnce(h, view, StaleBatch(h, a, b), NAME, a);
    }
  }

  /** Third run: Drive holds a again, the registration finds the record up to date, nothing is queued. */
  lemma RunAgain(h: Digests, a: string, w0: World) returns (w: World)
    requires Reached(h, w0) && w0.phase == Resting && w0.cloud.store == Record(h, a, Done) && h.md5(a) != ""
    ensures Reached(h, w) && w.phase.Pooling? && w.phase.discovered == [ID] && Passed(w)
    ensures w.cloud == w0.cloud && w.drive == Holding(h, a)
  {
    w := Follow(h, w0, Edit(Holding(h, a)));
    w := Follow(h, w, Begin([ID], false, POLICY));
    w := Follow(h, w, Register(Outcome(true, true, false, false)));
    assert UpToDate(w0.cloud.store[ID], Discovered(ID, Holding(h, a)[ID]));
    assert w.cloud.store == w0.cloud.store && w.phase.todo == [] && w.phase.registered == [ID];
    w := Follow(h, w, StartPool([], false));
    w := DrainEmpty(h, w);
  }
}
