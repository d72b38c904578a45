/**
 * Whole histories of the worker command (cmd/worker/main.go): Drive edits, and runs
 * that discover and register files, then start the pool, over one state store and one
 * chunk log. One run at a time; Drive changes only between runs.
 */
module Pipeline {
  import opened Options
  import opened Text
  import opened RetroLabels
  import opened Sprints
  import opened ChunkLog
  import opened ChunkBatches
  import opened FileStore
  import opened WorkerPool

  /** The digests, as functions: SHA-256 of a document, and the MD5 that Drive reports. */
  datatype Digests = Digests(sha256: string -> string, md5: string -> string)

  ghost predicate Collisionless(h: Digests) {
    && (forall a, b :: h.sha256(a) == h.sha256(b) ==> a == b)
    && (forall a, b :: h.md5(a) == h.md5(b) ==> a == b)
  }

  /** Drive reports the MD5 of a file, or none for Workspace files. */
  ghost predicate ReportsChecksums(h: Digests, drive: map<string, DriveFile>) {
    forall id :: id in drive && drive[id].checksum != "" ==> drive[id].checksum == h.md5(drive[id].content)
  }

  // --------------------------------------------------------------- discovery

  /** How the two store calls for one discovered file went. */
  datatype Outcome = Outcome(upsertEffect: bool, upsertOk: bool, resetEffect: bool, resetOk: bool)

  predicate Honorable(o: Outcome) {
    (o.upsertOk ==> o.upsertEffect) && (o.resetOk ==> o.resetEffect)
  }

  function Discovered(id: string, d: DriveFile): File {
    File(id, d.name, d.checksum, d.mimeType, Pending)
  }

  /** One turn of the registration loop: the store after it, and the failures it counts. */
  function Registered(store: Store, f: File, force: bool, o: Outcome): (Store, nat) {
    var upserted := if o.upsertEffect then Upserted(store, f) else store;
    if !o.upsertOk then (upserted, 1)
    else if !force then (upserted, 0)
    else (if o.resetEffect then WithStatus(upserted, f.driveFileId, Pending) else upserted,
          if o.resetOk then 0 else 1)
  }

  function RegisteredAll(store: Store, files: seq<File>, force: bool, outcomes: seq<Outcome>): (Store, nat)
    requires |outcomes| == |files|
  {
    if files == [] then (store, 0)
    else
      var n := |files| - 1;
      var (before, failures) := RegisteredAll(store, files[..n], force, outcomes[..n]);
      var (after, failed) := Registered(before, files[n], force, outcomes[n]);
      (after, failures + failed)
  }

  /** The record is the one that discovery found, its MIME type and status aside. */
  predicate Records(store: Store, f: File) {
    f.driveFileId in store && store[f.driveFileId].path == f.path && store[f.driveFileId].checksum == f.checksum
  }

  /** No failure is counted exactly when every store call was acknowledged. */
  lemma {:induction false} NoFailures(store: Store, files: seq<File>, force: bool, outcomes: seq<Outcome>)
    requires |outcomes| == |files|
    ensures RegisteredAll(store, files, force, outcomes).1 == 0
            <==> forall i :: 0 <= i < |outcomes| ==> outcomes[i].upsertOk && (force ==> outcomes[i].resetOk)
  {
    if files != [] {
      var n := |files| - 1;
      NoFailures(store, files[..n], force, outcomes[..n]);
      assert forall i :: 0 <= i < n ==> outcomes[..n][i] == outcomes[i];
    }
  }

  lemma RegisteredRecords(store: Store, f: File, g: File, force: bool, o: Outcome)
    requires Honorable(o) && (f.driveFileId == g.driveFileId ==> f == g)
    requires (o.upsertOk && f == g) || Records(store, g)
    ensures Records(Registered(store, f, force, o).0, g)
  {
  }

  /** A file with an acknowledged upsert has Drive's name and checksum in its record. */
  lemma {:induction false} AcknowledgedRecords(store: Store, files: seq<File>, force: bool,
                                               outcomes: seq<Outcome>, k: nat)
    requires |outcomes| == |files| && (forall o :: o in outcomes ==> Honorable(o))
    requires k < |files| && outcomes[k].upsertOk
    requires forall j :: 0 <= j < |files| && files[j].driveFileId == files[k].driveFileId ==> files[j] == files[k]
    ensures Records(RegisteredAll(store, files, force, outcomes).0, files[k])
  {
    var n := |files| - 1;
    assert outcomes[n] in outcomes;
    if k < n {
      assert forall o :: o in outcomes[..n] ==> o in outcomes;
      assert forall j :: 0 <= j < n ==> files[..n][j] == files[j];
      AcknowledgedRecords(store, files[..n], force, outcomes[..n], k);
    }
    RegisteredRecords(RegisteredAll(store, files[..n], force, outcomes[..n]).0, files[n], files[k], force, outcomes[n]);
  }

  /** No two entries of a listing differ under one ID. */
  predicate Consistent(files: seq<File>) {
    forall i, j :: 0 <= i < |files| && 0 <= j < |files| && files[i].driveFileId == files[j].driveFileId
                   ==> files[i] == files[j]
  }

  lemma AllAcknowledgedRecords(store: Store, files: seq<File>, force: bool, outcomes: seq<Outcome>)
    requires |outcomes| == |files| && (forall o :: o in outcomes ==> Honorable(o)) && Consistent(files)
    ensures forall k :: 0 <= k < |files| && outcomes[k].upsertOk
                        ==> Records(RegisteredAll(store, files, force, outcomes).0, files[k])
  {
    forall k | 0 <= k < |files| && outcomes[k].upsertOk
      ensures Records(RegisteredAll(store, files, force, outcomes).0, files[k])
    {
      AcknowledgedRecords(store, files, force, outcomes, k);
    }
  }

  /**
   * The registration loop of runPipeline over the Firestore store. No failure is counted
   * exactly when every call was acknowledged, and the acknowledged records are Drive's.
   */
  method RegisterAll(repo: FirestoreFileRepository, files: seq<File>, force: bool, outcomes: seq<Outcome>)
      returns (registrationFailures: nat)
    requires |outcomes| == |files| && forall o :: o in outcomes ==> Honorable(o)
    modifies repo
    ensures (repo.docs, registrationFailures) == RegisteredAll(old(repo.docs), files, force, outcomes)
    ensures registrationFailures == 0
            <==> forall i :: 0 <= i < |outcomes| ==> outcomes[i].upsertOk && (force ==> outcomes[i].resetOk)
    ensures Consistent(files) ==>
              forall k :: 0 <= k < |files| && outcomes[k].upsertOk ==> Records(repo.docs, files[k])
  {
    registrationFailures := 0;
    for i := 0 to |files|
      invariant (repo.docs, registrationFailures) == RegisteredAll(old(repo.docs), files[..i], force, outcomes[..i])
    {
      var o := outcomes[i];
      assert files[..i + 1][..i] == files[..i] && outcomes[..i + 1][..i] == outcomes[..i];
      if o.upsertEffect {
        repo.Upsert(files[i]);
      }
      if !o.upsertOk {
        registrationFailures := registrationFailures + 1;
        continue;
      }
      if force {
        if o.resetEffect {
          var _ := repo.UpdateStatus(files[i].driveFileId, Pending);
        }
        if !o.resetOk {
          registrationFailures := registrationFailures + 1;
        }
      }
    }
    assert files[..|files|] == files && outcomes[..|files|] == outcomes;
    NoFailures(old(repo.docs), files, force, outcomes);
    if Consistent(files) { AllAcknowledgedRecords(old(repo.docs), files, force, outcomes); }
  }

  // --------------------------------------------------------------- histories

  /**
   * `before` is history: the store when the run began. `acknowledged` holds the files whose
   * upsert this run acknowledged.
   */
  datatype Phase =
    | Resting
    | Discovering(before: Store, force: bool, todo: seq<string>, registered: seq<string>, acknowledged: set<string>,
                  registrationFailures: nat, policy: SprintPolicy)
    | Pooling(before: Store, force: bool, discovered: seq<string>, acknowledged: set<string>,
              registrationFailures: nat, setting: Setting, pool: Pool)

  datatype World = World(drive: map<string, DriveFile>, cloud: Cloud, phase: Phase)

  datatype Event =
    | Edit(drive: map<string, DriveFile>)
    | Begin(ids: seq<string>, force: bool, policy: SprintPolicy)
    | Register(outcome: Outcome)
    | StartPool(listed: seq<File>, cancelled: bool)
    | PoolStep(action: Action)
    | Land(batch: Batch)
    | Stop

  ghost predicate CanHappen(h: Digests, w: World, e: Event) {
    match e
    case Edit(drive) => w.phase.Resting? && ReportsChecksums(h, drive)
    case Begin(ids, _, _) => w.phase.Resting? && forall id :: id in ids ==> id in w.drive
    case Register(o) => w.phase.Discovering? && w.phase.todo != [] && w.phase.todo[0] in w.drive && Honorable(o)
    case StartPool(listed, _) => w.phase.Discovering? && w.phase.todo == [] && ListsPending(w.cloud.store, listed)
    case PoolStep(a) => w.phase.Pooling? && Enabled(w.phase.setting, w.phase.pool, w.cloud, a)
    case Land(b) => b in w.cloud.inDoubt
    // A run ends at any point: it returns, or the process dies.
    case Stop => true
  }

  ghost function Happens(h: Digests, w: World, e: Event): World
    requires CanHappen(h, w, e)
  {
    match e
    case Edit(drive) => w.(drive := drive)
    case Begin(ids, force, policy) => w.(phase := Discovering(w.cloud.store, force, ids, [], {}, 0, policy))
    case Register(o) =>
      var id := w.phase.todo[0];
      var (store, failed) := Registered(w.cloud.store, Discovered(id, w.drive[id]), w.phase.force, o);
      w.(cloud := w.cloud.(store := store),
         phase := w.phase.(todo := w.phase.todo[1..], registered := w.phase.registered + [id],
                           acknowledged := w.phase.acknowledged + (if o.upsertOk then {id} else {}),
                           registrationFailures := w.phase.registrationFailures + failed))
    case StartPool(listed, cancelled) =>
      w.(phase := Pooling(w.phase.before, w.phase.force, w.phase.registered, w.phase.acknowledged,
                          w.phase.registrationFailures,
                          Setting(w.drive, w.phase.policy, h.sha256), Start(listed, cancelled)))
    case PoolStep(a) =>
      var x, p := w.phase.setting, w.phase.pool;
      w.(cloud := CloudNext(x, p, w.cloud, a), phase := w.phase.(pool := PoolNext(x, p, w.cloud, a)))
    case Land(b) =>
      w.(cloud := w.cloud.(landed := w.cloud.landed + [b], inDoubt := w.cloud.inDoubt - multiset{b}))
    case Stop => w.(phase := Resting)
  }

  /** A run about to register these files, with these outcomes of the store calls. */
  predicate CanRegister(w: World, outcomes: seq<Outcome>) {
    && w.phase.Discovering? && |outcomes| == |w.phase.todo|
    && (forall id :: id in w.phase.todo ==> id in w.drive)
    && (forall o :: o in outcomes ==> Honorable(o))
  }

  /** The first n registrations of a run. */
  ghost function AfterRegistrations(h: Digests, w: World, outcomes: seq<Outcome>, n: nat): (v: World)
    requires CanRegister(w, outcomes) && n <= |outcomes|
    ensures v.drive == w.drive && v.phase.Discovering?
    ensures v.phase.todo == w.phase.todo[n..] && v.phase.force == w.phase.force
  {
    if n == 0 then w
    else
      var before := AfterRegistrations(h, w, outcomes, n - 1);
      assert before.phase.todo[0] in w.phase.todo;
      Happens(h, before, Register(outcomes[n - 1]))
  }

  function DiscoveredFiles(w: World): seq<File>
    requires w.phase.Discovering? && forall id :: id in w.phase.todo ==> id in w.drive
  {
    seq(|w.phase.todo|, i requires 0 <= i < |w.phase.todo| => Discovered(w.phase.todo[i], w.drive[w.phase.todo[i]]))
  }

  /** What a registration phase has done so far. */
  function Registrations(w: World): (Store, nat)
    requires w.phase.Discovering?
  {
    (w.cloud.store, w.phase.registrationFailures)
  }

  /** The events of a registration phase do what the loop of runPipeline does. */
  lemma {:induction false} RegistrationLoop(h: Digests, w: World, outcomes: seq<Outcome>, n: nat)
    requires CanRegister(w, outcomes) && n <= |outcomes| && w.phase.registrationFailures == 0
    ensures var v := AfterRegistrations(h, w, outcomes, n);
            Registrations(v)
            == RegisteredAll(w.cloud.store, DiscoveredFiles(w)[..n], w.phase.force, outcomes[..n])
  {
    if n > 0 {
      RegistrationLoop(h, w, outcomes, n - 1);
      RegisteredNext(w.cloud.store, DiscoveredFiles(w), w.phase.force, outcomes, n - 1);
      RegistrationStep(h, w, outcomes, n - 1);
    }
  }

  lemma RegistrationStep(h: Digests, w: World, outcomes: seq<Outcome>, n: nat)
    requires CanRegister(w, outcomes) && n < |outcomes|
    ensures var v := AfterRegistrations(h, w, outcomes, n);
            var (store, failed) := Registered(v.cloud.store, DiscoveredFiles(w)[n], w.phase.force, outcomes[n]);
            Registrations(AfterRegistrations(h, w, outcomes, n + 1)) == (store, v.phase.registrationFailures + failed)
  {
    NextDiscovered(w, n);
    RegisterEvent(h, AfterRegistrations(h, w, outcomes, n), outcomes[n], DiscoveredFiles(w)[n]);
  }

  lemma NextDiscovered(w: World, k: nat)
    requires w.phase.Discovering? && k < |w.phase.todo| && forall id :: id in w.phase.todo ==> id in w.drive
    ensures var id := w.phase.todo[k..][0];
            id in w.drive && DiscoveredFiles(w)[k] == Discovered(id, w.drive[id])
  {
    assert w.phase.todo[k..][0] == w.phase.todo[k];
  }

  lemma RegisteredNext(store: Store, files: seq<File>, force: bool, outcomes: seq<Outcome>, k: nat)
    requires |outcomes| == |files| && k < |files|
    ensures var (before, failures) := RegisteredAll(store, files[..k], force, outcomes[..k]);
            var (after, failed) := Registered(before, files[k], force, outcomes[k]);
            RegisteredAll(store, files[..k + 1], force, outcomes[..k + 1]) == (after, failures + failed)
  {
    assert files[..k + 1][..k] == files[..k] && outcomes[..k + 1][..k] == outcomes[..k];
  }

  lemma RegisterEvent(h: Digests, w: World, o: Outcome, f: File)
    requires CanHappen(h, w, Register(o)) && f == Discovered(w.phase.todo[0], w.drive[w.phase.todo[0]])
    ensures var (store, failed) := Registered(w.cloud.store, f, w.phase.force, o);
            Happens(h, w, Register(o)).phase.Discovering?
            && Registrations(Happens(h, w, Register(o))) == (store, w.phase.registrationFailures + failed)
  {
  }

  /** Nothing registered and nothing loaded yet. */
  function Initial(drive: map<string, DriveFile>): World {
    World(drive, Cloud(map[], [], [], multiset{}, []), Resting)
  }

  ghost predicate ValidHistory(h: Digests, drive: map<string, DriveFile>, history: seq<Event>)
    decreases |history|, 0
  {
    if history == [] then ReportsChecksums(h, drive)
    else
      var n := |history| - 1;
      ValidHistory(h, drive, history[..n]) && CanHappen(h, WorldAfter(h, drive, history[..n]), history[n])
  }

  ghost function WorldAfter(h: Digests, drive: map<string, DriveFile>, history: seq<Event>): World
    requires ValidHistory(h, drive, history)
    decreases |history|, 1
  {
    if history == [] then Initial(drive)
    else
      var n := |history| - 1;
      Happens(h, WorldAfter(h, drive, history[..n]), history[n])
  }

  ghost predicate Reached(h: Digests, w: World) {
    exists drive, history :: ValidHistory(h, drive, history) && WorldAfter(h, drive, history) == w
  }

  lemma Extend(h: Digests, w: World, e: Event)
    requires Reached(h, w) && CanHappen(h, w, e)
    ensures Reached(h, Happens(h, w, e))
  {
    var drive, history :| ValidHistory(h, drive, history) && WorldAfter(h, drive, history) == w;
    var longer := history + [e];
    assert longer[..|longer| - 1] == history;
    assert ValidHistory(h, drive, longer) && WorldAfter(h, drive, longer) == Happens(h, w, e);
  }

  lemma Follow(h: Digests, w: World, e: Event) returns (next: World)
    requires Reached(h, w) && CanHappen(h, w, e)
    ensures Reached(h, next) && next == Happens(h, w, e)
  {
    Extend(h, w, e);
    next := Happens(h, w, e);
  }

  /** runPipeline got past the pool without an error. */
  predicate Passed(w: World) {
    w.phase.Pooling? && w.phase.pool.result.Succeeded? && w.phase.registrationFailures == 0
  }

  // ------------------------------------------------------- the store is honest

  function MetadataOf(id: string, doc: FileDoc): MetadataRow {
    MetadataRow(id, doc.path, doc.checksum, doc.mimeType)
  }

  /** b is the newest batch ever built for the file, and it landed. */
  ghost predicate LandedNewest(c: Cloud, id: string, b: Batch) {
    b in c.landed && b.fileId == id && NewestBatch(c.ingested, b)
  }

  /** The loads a `done` stands for. */
  ghost predicate Backed(c: Cloud, id: string)
    requires id in c.store
  {
    var doc := c.store[id];
    && MetadataOf(id, doc) in c.driveFiles
    && (doc.mimeType == MARKDOWN ==>
          exists b :: LandedNewest(c, id, b) && b.name == doc.path && b.recorded == doc.checksum)
  }

  ghost predicate LogInv(h: Digests, c: Cloud) {
    && (forall b :: b in c.landed || b in c.inDoubt ==> b in c.ingested)
    && (forall a, b :: a in c.ingested && b in c.ingested && a.fileId == b.fileId && a.stamp == b.stamp ==> a == b)
    && (forall b :: b in c.ingested ==> b.version == h.sha256(b.content))
  }

  ghost predicate RecordInv(c: Cloud, id: string) {
    && id in c.store && !c.store[id].syncStatus.Processing?
    && (c.store[id].syncStatus.Done? ==> Backed(c, id))
  }

  ghost predicate StoreInv(c: Cloud) {
    forall id :: id in c.store ==> RecordInv(c, id)
  }

  // ------------------------------------------------------------ the pool's jobs

  /** The record of a listed file is still the one that was listed. */
  predicate SameRecord(c: Cloud, f: File) {
    f.driveFileId in c.store
    && var doc := c.store[f.driveFileId];
    doc.path == f.path && doc.checksum == f.checksum && doc.mimeType == f.mimeType
  }

  /** b is this run's ingestion of f. */
  ghost predicate Prepared(x: Setting, c: Cloud, f: File, b: Batch) {
    && NewestBatch(c.ingested, b) && b.fileId == f.driveFileId
    && b.name == f.path && b.recorded == f.checksum && b.policy == x.policy
    && f.driveFileId in x.drive && b.content == x.drive[f.driveFileId].content
  }

  ghost predicate LoadedInv(x: Setting, c: Cloud, f: File, loaded: Option<Batch>) {
    && (loaded.Some? <==> f.mimeType == MARKDOWN)
    && (loaded.Some? ==> Prepared(x, c, f, loaded.value) && loaded.value in c.landed)
  }

  ghost predicate StageInv(x: Setting, c: Cloud, f: File, w: Worker) {
    match w
    case Checking(_, b, _) => f.mimeType == MARKDOWN && Prepared(x, c, f, b)
    case Inserting(_, b, _) => f.mimeType == MARKDOWN && Prepared(x, c, f, b)
    case Waiting(_, b, _) => f.mimeType == MARKDOWN && Prepared(x, c, f, b)
    case LoadingMetadata(_, loaded) => LoadedInv(x, c, f, loaded)
    case MarkingDone(_, loaded) =>
      LoadedInv(x, c, f, loaded) && MetadataRowOf(f) in c.driveFiles
    case _ => true
  }

  /** A file with an acknowledged `done`. */
  ghost predicate Delivered(x: Setting, c: Cloud, f: File)
    requires f.driveFileId in c.store
  {
    && c.store[f.driveFileId].syncStatus.Done?
    && (f.mimeType == MARKDOWN ==> exists b :: Prepared(x, c, f, b) && b in c.landed)
  }

  ghost predicate JobInv(x: Setting, p: Pool, c: Cloud, k: nat)
    requires k < |p.listed|
  {
    var f := p.listed[k];
    && SameRecord(c, f)
    && (k in p.fate && p.fate[k].Completed? ==> Delivered(x, c, f))
    && (k in p.fate && p.fate[k].FailedFile? && k !in p.unrecorded ==> c.store[f.driveFileId].syncStatus.Failed?)
    && (k in p.fate && p.fate[k].Dropped? ==> c.store[f.driveFileId].syncStatus.Pending?)
    && (k !in p.fate ==> c.store[f.driveFileId].syncStatus.Pending?)
    && (k in p.holder && k !in p.fate && p.holder[k] < |p.workers| ==> StageInv(x, c, f, p.workers[p.holder[k]]))
  }

  ghost predicate JobsInv(x: Setting, p: Pool, c: Cloud) {
    && (forall i, j :: 0 <= i < j < |p.listed| ==> p.listed[i].driveFileId != p.listed[j].driveFileId)
    && (forall k :: 0 <= k < |p.listed| ==> JobInv(x, p, c, k))
  }

  /** The cloud changed for one file at most; for the others it only gained loads. */
  ghost predicate Touches(c: Cloud, d: Cloud, who: Option<string>) {
    && d.store.Keys == c.store.Keys
    && (forall id :: id in c.store && who != Some(id) ==> d.store[id] == c.store[id])
    && (forall b :: b in c.landed ==> b in d.landed)
    && (forall b :: b in c.ingested ==> b in d.ingested)
    && (forall b :: b in d.ingested && b !in c.ingested ==> who == Some(b.fileId))
    && (forall m :: m in c.driveFiles ==> m in d.driveFiles)
  }

  lemma PreparedKept(x: Setting, c: Cloud, d: Cloud, who: Option<string>, f: File, b: Batch)
    requires Touches(c, d, who) && who != Some(f.driveFileId) && Prepared(x, c, f, b)
    ensures Prepared(x, d, f, b)
  {
  }

  lemma BackedKept(c: Cloud, d: Cloud, who: Option<string>, id: string)
    requires Touches(c, d, who) && who != Some(id) && id in c.store && Backed(c, id)
    ensures Backed(d, id)
  {
    var doc := c.store[id];
    if doc.mimeType == MARKDOWN {
      var b :| LandedNewest(c, id, b) && b.name == doc.path && b.recorded == doc.checksum;
      assert LandedNewest(d, id, b);
    }
  }

  /** The job of another file, whose place in the pool did not change. */
  lemma OtherJobKept(x: Setting, p: Pool, c: Cloud, q: Pool, d: Cloud, who: Option<string>, k: nat)
    requires k < |p.listed| && q.listed == p.listed && JobInv(x, p, c, k)
    requires Touches(c, d, who) && who != Some(p.listed[k].driveFileId)
    requires k in q.fate <==> k in p.fate
    requires k in p.fate ==> q.fate[k] == p.fate[k]
    requires k in q.unrecorded <==> k in p.unrecorded
    requires k in q.holder && k !in q.fate && q.holder[k] < |q.workers| ==>
               || q.workers[q.holder[k]].Downloading?
               || (k in p.holder && p.holder[k] < |p.workers| && q.workers[q.holder[k]] == p.workers[p.holder[k]])
    ensures JobInv(x, q, d, k)
  {
    var f := p.listed[k];
    if k in p.fate && p.fate[k].Completed? && f.mimeType == MARKDOWN {
      var b :| Prepared(x, c, f, b) && b in c.landed;
      PreparedKept(x, c, d, who, f, b);
    }
  }

  // -------------------------------------------------------- one worker's turn

  /** f's record is pending and its worker is at a sound stage. */
  ghost predicate Underway(x: Setting, c: Cloud, f: File, w: Worker) {
    SameRecord(c, f) && c.store[f.driveFileId].syncStatus.Pending? && StageInv(x, c, f, w)
  }

  /** What a turn leaves of its own file. */
  ghost predicate TurnSound(h: Digests, x: Setting, d: Cloud, f: File, t: Turn) {
    && LogInv(h, d) && SameRecord(d, f) && RecordInv(d, f.driveFileId)
    && (t.fate.None? ==> Underway(x, d, f, t.worker))
    && (t.fate == Some(Completed) ==> Delivered(x, d, f))
    && (t.fate == Some(FailedFile) && !t.unrecorded ==> d.store[f.driveFileId].syncStatus.Failed?)
    && (t.fate == Some(Dropped) ==> d.store[f.driveFileId].syncStatus.Pending?)
  }

  lemma TurnTouches(x: Setting, c: Cloud, cancelled: bool, f: File, w: Worker, r: Reply)
    requires Expects(x, c, cancelled, f, w, r) && SameRecord(c, f)
    ensures Touches(c, CloudAfter(x, c, cancelled, f, w, r), Some(f.driveFileId))
  {
  }

  /** A successful download starts a newest batch of its own. */
  lemma DownloadSound(h: Digests, x: Setting, c: Cloud, cancelled: bool, f: File, w: Worker, r: Reply)
    requires r.Downloads? && Expects(x, c, cancelled, f, w, r) && Underway(x, c, f, w)
    requires LogInv(h, c) && x.digest == h.sha256
    ensures TurnSound(h, x, CloudAfter(x, c, cancelled, f, w, r), f, TurnOf(x, c, cancelled, f, w, r))
  {
    var d := CloudAfter(x, c, cancelled, f, w, r);
    if f.mimeType == MARKDOWN {
      var b := Ingestion(x, f, r.stamp);
      assert forall e :: e in d.ingested <==> e in c.ingested || e == b;
      assert Prepared(x, d, f, b);
    }
  }

  lemma LoadSound(h: Digests, x: Setting, c: Cloud, cancelled: bool, f: File, w: Worker, r: Reply)
    requires r.LoadReplies? && Expects(x, c, cancelled, f, w, r) && Underway(x, c, f, w)
    requires LogInv(h, c)
    ensures TurnSound(h, x, CloudAfter(x, c, cancelled, f, w, r), f, TurnOf(x, c, cancelled, f, w, r))
  {
    var d, b := CloudAfter(x, c, cancelled, f, w, r), w.batch;
    assert d.ingested == c.ingested;
    assert forall e :: e in d.landed || e in d.inDoubt ==> e in c.landed || e in c.inDoubt || e == b;
    assert r.landed ==> b in d.landed;
    assert Prepared(x, d, f, b);
  }

  /** Recording `done` is backed by the loads before it. */
  lemma DoneSound(h: Digests, x: Setting, c: Cloud, cancelled: bool, f: File, w: Worker, r: Reply)
    requires r.DoneReplies? && Expects(x, c, cancelled, f, w, r) && Underway(x, c, f, w)
    requires LogInv(h, c)
    ensures TurnSound(h, x, CloudAfter(x, c, cancelled, f, w, r), f, TurnOf(x, c, cancelled, f, w, r))
  {
    var d := CloudAfter(x, c, cancelled, f, w, r);
    if f.mimeType == MARKDOWN {
      var b := w.loaded.value;
      assert Prepared(x, d, f, b) && LandedNewest(d, f.driveFileId, b);
    }
    assert r.effect ==> MetadataOf(f.driveFileId, d.store[f.driveFileId]) == MetadataRowOf(f);
  }

  lemma OtherSound(h: Digests, x: Setting, c: Cloud, cancelled: bool, f: File, w: Worker, r: Reply)
    requires !r.Downloads? && !r.LoadReplies? && !r.DoneReplies?
    requires Expects(x, c, cancelled, f, w, r) && Underway(x, c, f, w)
    requires LogInv(h, c)
    ensures TurnSound(h, x, CloudAfter(x, c, cancelled, f, w, r), f, TurnOf(x, c, cancelled, f, w, r))
  {
    var d := CloudAfter(x, c, cancelled, f, w, r);
    assert d.ingested == c.ingested && d.landed == c.landed && d.inDoubt == c.inDoubt;
    if r.MetadataReplies? && r.effect {
      assert d.driveFiles[|c.driveFiles|] == MetadataRowOf(f);
    }
  }

  lemma TurnKeeps(h: Digests, x: Setting, c: Cloud, cancelled: bool, f: File, w: Worker, r: Reply)
    requires Expects(x, c, cancelled, f, w, r) && Underway(x, c, f, w)
    requires LogInv(h, c) && x.digest == h.sha256
    ensures TurnSound(h, x, CloudAfter(x, c, cancelled, f, w, r), f, TurnOf(x, c, cancelled, f, w, r))
  {
    if r.Downloads? {
      DownloadSound(h, x, c, cancelled, f, w, r);
    } else if r.LoadReplies? {
      LoadSound(h, x, c, cancelled, f, w, r);
    } else if r.DoneReplies? {
      DoneSound(h, x, c, cancelled, f, w, r);
    } else {
      OtherSound(h, x, c, cancelled, f, w, r);
    }
  }

  // ---------------------------------------------------------- steps of the pool

  /** The data invariant of a run. */
  ghost predicate RunInvariant(h: Digests, x: Setting, p: Pool, c: Cloud) {
    Inv(p) && x.digest == h.sha256 && JobsInv(x, p, c) && LogInv(h, c) && StoreInv(c)
  }

  lemma StoreKept(c: Cloud, d: Cloud, who: Option<string>)
    requires StoreInv(c) && Touches(c, d, who) && (who.Some? ==> RecordInv(d, who.value))
    ensures StoreInv(d)
  {
    forall id | id in d.store && who != Some(id) ensures RecordInv(d, id) {
      assert RecordInv(c, id);
      if c.store[id].syncStatus.Done? { BackedKept(c, d, who, id); }
    }
  }

  /** After worker i's turn: its own job. */
  lemma OwnJobKept(h: Digests, x: Setting, p: Pool, d: Cloud, i: nat, t: Turn)
    requires WorkersInv(p) && Holds(p, i) && TurnSound(h, x, d, JobFile(p, i), t)
    requires FairTurn(p.cancelled, p.workers[i], t)
    ensures JobInv(x, Worked(p, i, t), d, p.workers[i].job)
  {
  }

  /** After worker i's turn: the job of another file. */
  lemma OtherPlaceKept(p: Pool, i: nat, t: Turn, k: nat)
    requires WorkersInv(p) && FateInv(p) && Holds(p, i) && k != p.workers[i].job
    ensures var q := Worked(p, i, t);
            && (k in q.fate <==> k in p.fate) && (k in p.fate ==> q.fate[k] == p.fate[k])
            && (k in q.unrecorded <==> k in p.unrecorded)
            && (k in q.holder && k !in q.fate && q.holder[k] < |q.workers| ==>
                  p.holder[k] < |p.workers| && q.workers[q.holder[k]] == p.workers[p.holder[k]])
  {
  }

  /** What worker i's turn does to the cloud. */
  lemma WorkTurn(h: Digests, x: Setting, p: Pool, c: Cloud, i: nat, r: Reply)
    requires RunInvariant(h, x, p, c) && Enabled(x, p, c, Work(i, r))
    ensures var f, w := JobFile(p, i), p.workers[i];
            var t, d := TurnOf(x, c, p.cancelled, f, w, r), CloudAfter(x, c, p.cancelled, f, w, r);
            && TurnSound(h, x, d, f, t) && FairTurn(p.cancelled, w, t)
            && Touches(c, d, Some(f.driveFileId)) && StoreInv(d)
  {
    var f, w := JobFile(p, i), p.workers[i];
    var d := CloudAfter(x, c, p.cancelled, f, w, r);
    assert AttemptInRange(w) && JobInv(x, p, c, w.job);
    TurnTouches(x, c, p.cancelled, f, w, r);
    TurnKeeps(h, x, c, p.cancelled, f, w, r);
    TurnsAreFair(x, c, p.cancelled, f, w, r);
    StoreKept(c, d, Some(f.driveFileId));
  }

  /** After worker i's turn: every job. */
  lemma WorkJobs(h: Digests, x: Setting, p: Pool, c: Cloud, d: Cloud, i: nat, t: Turn)
    requires WorkersInv(p) && FateInv(p) && JobsInv(x, p, c) && Holds(p, i)
    requires TurnSound(h, x, d, JobFile(p, i), t) && FairTurn(p.cancelled, p.workers[i], t)
    requires Touches(c, d, Some(JobFile(p, i).driveFileId))
    ensures JobsInv(x, Worked(p, i, t), d)
  {
    var q := Worked(p, i, t);
    OwnJobKept(h, x, p, d, i, t);
    forall k | 0 <= k < |p.listed| && k != p.workers[i].job ensures JobInv(x, q, d, k) {
      assert JobInv(x, p, c, k);
      OtherPlaceKept(p, i, t, k);
      OtherJobKept(x, p, c, q, d, Some(JobFile(p, i).driveFileId), k);
    }
  }

  lemma WorkKeeps(h: Digests, x: Setting, p: Pool, c: Cloud, i: nat, r: Reply)
    requires RunInvariant(h, x, p, c) && Enabled(x, p, c, Work(i, r))
    ensures RunInvariant(h, x, PoolNext(x, p, c, Work(i, r)), CloudNext(x, p, c, Work(i, r)))
    ensures Touches(c, CloudNext(x, p, c, Work(i, r)), Some(JobFile(p, i).driveFileId))
  {
    var f, w := JobFile(p, i), p.workers[i];
    StepInv(x, p, c, Work(i, r));
    WorkTurn(h, x, p, c, i, r);
    WorkJobs(h, x, p, c, CloudAfter(x, c, p.cancelled, f, w, r), i, TurnOf(x, c, p.cancelled, f, w, r));
  }

  lemma LandKeeps(h: Digests, c: Cloud, b: Batch)
    requires LogInv(h, c) && StoreInv(c) && b in c.inDoubt
    ensures var d := c.(landed := c.landed + [b], inDoubt := c.inDoubt - multiset{b});
            LogInv(h, d) && StoreInv(d) && Touches(c, d, None)
  {
    var d := c.(landed := c.landed + [b], inDoubt := c.inDoubt - multiset{b});
    assert forall a :: a in d.inDoubt ==> a in c.inDoubt;
    StoreKept(c, d, None);
  }

  lemma IdlePlaceKept(x: Setting, p: Pool, c: Cloud, a: Action, k: nat)
    requires ChannelInv(p) && WorkersInv(p) && FateInv(p) && Enabled(x, p, c, a) && !a.Work?
    ensures var q := PoolNext(x, p, c, a);
            && q.listed == p.listed && q.fate == p.fate && q.unrecorded == p.unrecorded
            && (k in q.holder && k !in q.fate && q.holder[k] < |q.workers| ==>
                  || q.workers[q.holder[k]].Downloading?
                  || (k in p.holder && p.holder[k] < |p.workers| && q.workers[q.holder[k]] == p.workers[p.holder[k]]))
  {
    if a.Take? {
      assert p.queue[0] == p.taken;
    }
  }

  /** Steps of the dispatcher, of the environment, and of workers without a file. */
  lemma OtherStepKeeps(h: Digests, x: Setting, p: Pool, c: Cloud, a: Action)
    requires RunInvariant(h, x, p, c) && Enabled(x, p, c, a) && !a.Work?
    ensures RunInvariant(h, x, PoolNext(x, p, c, a), CloudNext(x, p, c, a))
    ensures Touches(c, CloudNext(x, p, c, a), None)
  {
    var q, d := PoolNext(x, p, c, a), CloudNext(x, p, c, a);
    StepInv(x, p, c, a);
    if a.LateLand? { LandKeeps(h, c, a.batch); }
    forall k | 0 <= k < |p.listed| ensures JobInv(x, q, d, k) {
      assert JobInv(x, p, c, k);
      IdlePlaceKept(x, p, c, a, k);
      OtherJobKept(x, p, c, q, d, None, k);
    }
  }

  /** What a step of the pool may change in the store: the status of a listed record. */
  ghost predicate OnlyListed(p: Pool, c: Cloud, d: Cloud) {
    && d.store.Keys == c.store.Keys
    && (forall id :: id in c.store ==> d.store[id].(syncStatus := c.store[id].syncStatus) == c.store[id])
    && (forall id :: id in c.store && d.store[id] != c.store[id]
                     ==> exists k :: 0 <= k < |p.listed| && p.listed[k].driveFileId == id)
  }

  lemma PoolStepKeeps(h: Digests, x: Setting, p: Pool, c: Cloud, a: Action)
    requires RunInvariant(h, x, p, c) && Enabled(x, p, c, a)
    ensures RunInvariant(h, x, PoolNext(x, p, c, a), CloudNext(x, p, c, a))
  {
    if a.Work? {
      WorkKeeps(h, x, p, c, a.i, a.reply);
    } else {
      OtherStepKeeps(h, x, p, c, a);
    }
  }

  lemma TurnOnlyListed(p: Pool, x: Setting, c: Cloud, f: File, k: nat, w: Worker, r: Reply)
    requires k < |p.listed| && p.listed[k] == f && SameRecord(c, f) && Expects(x, c, p.cancelled, f, w, r)
    ensures OnlyListed(p, c, CloudAfter(x, c, p.cancelled, f, w, r))
  {
    TurnTouches(x, c, p.cancelled, f, w, r);
    StatusOnly(x, c, p.cancelled, f, w, r);
  }

  lemma PoolStepOnlyListed(h: Digests, x: Setting, p: Pool, c: Cloud, a: Action)
    requires RunInvariant(h, x, p, c) && Enabled(x, p, c, a)
    ensures OnlyListed(p, c, CloudNext(x, p, c, a))
  {
    if a.Work? {
      var k := p.workers[a.i].job;
      assert JobInv(x, p, c, k);
      TurnOnlyListed(p, x, c, p.listed[k], k, p.workers[a.i], a.reply);
    }
  }

  lemma StatusOnly(x: Setting, c: Cloud, cancelled: bool, f: File, w: Worker, r: Reply)
    requires Expects(x, c, cancelled, f, w, r) && SameRecord(c, f)
    ensures var d := CloudAfter(x, c, cancelled, f, w, r);
            && d.store.Keys == c.store.Keys
            && d.store[f.driveFileId].(syncStatus := c.store[f.driveFileId].syncStatus) == c.store[f.driveFileId]
  {
  }

  // ------------------------------------------------------- steps of discovery

  /** A registered record is what Drive has now, and queued unless it is done. */
  ghost predicate Fresh(c: Cloud, drive: map<string, DriveFile>, id: string) {
    && id in drive && id in c.store
    && var doc := c.store[id];
    && doc.path == drive[id].name && doc.checksum == drive[id].checksum
    && (doc.syncStatus.Pending? || (doc.syncStatus.Done? && doc.checksum != ""))
  }

  lemma RegisterKeeps(h: Digests, c: Cloud, f: File, force: bool, o: Outcome)
    requires LogInv(h, c) && StoreInv(c)
    ensures var d := c.(store := Registered(c.store, f, force, o).0);
            LogInv(h, d) && StoreInv(d)
  {
    var d := c.(store := Registered(c.store, f, force, o).0);
    forall id | id in d.store ensures RecordInv(d, id) {
      if id in c.store {
        assert RecordInv(c, id);
        if c.store[id].syncStatus.Done? && d.store[id] == c.store[id] {
          BackedStore(c, d, id);
        }
      }
    }
  }

  lemma BackedStore(c: Cloud, d: Cloud, id: string)
    requires id in c.store && id in d.store && d.store[id] == c.store[id] && Backed(c, id)
    requires d == c.(store := d.store)
    ensures Backed(d, id)
  {
    var doc := c.store[id];
    if doc.mimeType == MARKDOWN {
      var b :| LandedNewest(c, id, b) && b.name == doc.path && b.recorded == doc.checksum;
      assert LandedNewest(d, id, b);
    }
  }

  /** An acknowledged upsert makes the record fresh, and no registration spoils a fresh one. */
  lemma RegisterFresh(c: Cloud, drive: map<string, DriveFile>, id: string, force: bool, o: Outcome, other: string)
    requires id in drive && StoreInv(c) && Honorable(o)
    requires (other == id && o.upsertOk) || Fresh(c, drive, other)
    ensures Fresh(c.(store := Registered(c.store, Discovered(id, drive[id]), force, o).0), drive, other)
  {
    if id in c.store { assert RecordInv(c, id); }
  }

  // ------------------------------------------------------------- the invariant

  ghost predicate PhaseInv(h: Digests, w: World) {
    match w.phase
    case Resting => true
    case Discovering(before, force, todo, registered, acknowledged, failures, _) =>
      && (failures == 0 ==> ReadyInv(w, before, force, registered) && TypesInv(w, before, registered))
      && (forall id :: id in acknowledged ==> Fresh(w.cloud, w.drive, id))
      && (failures == 0 ==> forall id :: id in registered ==> id in acknowledged)
    case Pooling(before, force, discovered, acknowledged, failures, x, p) =>
      && (failures == 0 ==> QueueInv(w, before, force, discovered, p) && TypesInv(w, before, discovered))
      && x.drive == w.drive && x.digest == h.sha256 && Inv(p) && JobsInv(x, p, w.cloud)
      && (forall id :: id in acknowledged ==> Registration(w, p, id))
      && (failures == 0 ==> forall id :: id in discovered ==> id in acknowledged)
  }

  /** The run must process the file: the operator says so, or its record before the run does. */
  predicate Due(before: Store, force: bool, f: File) {
    force || f.driveFileId !in before
    || before[f.driveFileId].syncStatus.Pending? || !UpToDate(before[f.driveFileId], f)
  }

  predicate SameDoc(a: Store, b: Store, id: string) {
    (id in a <==> id in b) && (id in a ==> a[id] == b[id])
  }

  /** Without failures so far: the registered files are pending exactly if due, the others are as they were. */
  ghost predicate ReadyInv(w: World, before: Store, force: bool, registered: seq<string>) {
    forall id :: if id in registered
      then id in w.drive && id in w.cloud.store
           && (w.cloud.store[id].syncStatus.Pending? <==> Due(before, force, Discovered(id, w.drive[id])))
      else SameDoc(w.cloud.store, before, id)
  }

  /** The MIME type in the record after an acknowledged upsert: Drive's, unless the record was up to date. */
  function RecordedType(before: Store, id: string, file: DriveFile): string {
    if id in before && file.checksum != "" && before[id].checksum == file.checksum
       && before[id].syncStatus != Failed && before[id].path == file.name
    then before[id].mimeType else file.mimeType
  }

  /** Without failures so far: the registered files have these types in the store. */
  ghost predicate TypesInv(w: World, before: Store, registered: seq<string>) {
    forall id :: id in registered ==>
      id in w.drive && id in w.cloud.store && w.cloud.store[id].mimeType == RecordedType(before, id, w.drive[id])
  }

  /** Of the discovered files the run lists exactly those that were due. */
  ghost predicate QueueInv(w: World, before: Store, force: bool, discovered: seq<string>, p: Pool) {
    forall id :: id in discovered ==>
      id in w.drive && (Queued(p, id) <==> Due(before, force, Discovered(id, w.drive[id])))
  }

  /** A registered file during the pool: it is listed, or done with the checksum Drive has. */
  ghost predicate Registration(w: World, p: Pool, id: string) {
    && id in w.drive && id in w.cloud.store
    && var doc := w.cloud.store[id];
    && doc.path == w.drive[id].name && doc.checksum == w.drive[id].checksum
    && (Queued(p, id) || (doc.syncStatus.Done? && doc.checksum != ""))
  }

  /** The run lists the file. */
  ghost predicate Queued(p: Pool, id: string) {
    exists k :: 0 <= k < |p.listed| && p.listed[k].driveFileId == id
  }

  ghost predicate WorldInv(h: Digests, w: World) {
    ReportsChecksums(h, w.drive) && LogInv(h, w.cloud) && StoreInv(w.cloud) && PhaseInv(h, w)
  }

  lemma RegistrationKept(w: World, p: Pool, c: Cloud, q: Pool, d: Cloud, id: string)
    requires w.cloud == c && Registration(w, p, id) && OnlyListed(p, c, d) && q.listed == p.listed
    ensures Registration(w.(cloud := d), q, id)
  {
  }

  lemma PoolEventKeeps(h: Digests, w: World, a: Action)
    requires WorldInv(h, w) && CanHappen(h, w, PoolStep(a))
    ensures WorldInv(h, Happens(h, w, PoolStep(a)))
  {
    var x, p, c := w.phase.setting, w.phase.pool, w.cloud;
    PoolStepKeeps(h, x, p, c, a);
    PoolStepOnlyListed(h, x, p, c, a);
    var q, d := PoolNext(x, p, c, a), CloudNext(x, p, c, a);
    var v := Happens(h, w, PoolStep(a));
    assert q.listed == p.listed;
    if w.phase.registrationFailures == 0 { TypesKept(w, v, w.phase.before, w.phase.discovered); }
    forall id | id in w.phase.acknowledged ensures Registration(v, q, id) {
      RegistrationKept(w, p, c, q, d, id);
      assert Registration(w.(cloud := d), q, id);
    }
  }

  lemma TypesKept(w: World, v: World, before: Store, ids: seq<string>)
    requires TypesInv(w, before, ids) && v.drive == w.drive && v.cloud.store.Keys == w.cloud.store.Keys
    requires forall id :: id in w.cloud.store ==>
               v.cloud.store[id].(syncStatus := w.cloud.store[id].syncStatus) == w.cloud.store[id]
    ensures TypesInv(v, before, ids)
  {
    forall id | id in ids ensures v.cloud.store[id].mimeType == w.cloud.store[id].mimeType {
      assert v.cloud.store[id].(syncStatus := w.cloud.store[id].syncStatus) == w.cloud.store[id];
    }
  }

  lemma ListedIfDue(w: World, listed: seq<File>, p: Pool)
    requires w.phase.Discovering? && ReadyInv(w, w.phase.before, w.phase.force, w.phase.registered)
    requires ListsPending(w.cloud.store, listed) && p.listed == listed
    ensures QueueInv(w, w.phase.before, w.phase.force, w.phase.registered, p)
  {
    forall id | id in w.phase.registered
      ensures id in w.drive && (Queued(p, id) <==> Due(w.phase.before, w.phase.force, Discovered(id, w.drive[id])))
    {
      assert Queued(p, id) <==> id in w.cloud.store && w.cloud.store[id].syncStatus == Pending;
    }
  }

  lemma StartEventKeeps(h: Digests, w: World, listed: seq<File>, cancelled: bool)
    requires WorldInv(h, w) && CanHappen(h, w, StartPool(listed, cancelled))
    ensures WorldInv(h, Happens(h, w, StartPool(listed, cancelled)))
  {
    var v := Happens(h, w, StartPool(listed, cancelled));
    var p := v.phase.pool;
    StartInv(listed, cancelled);
    forall id | id in v.phase.acknowledged ensures Registration(v, p, id) {
      assert Fresh(w.cloud, w.drive, id);
    }
    if v.phase.registrationFailures == 0 {
      ListedIfDue(w, listed, p);
    }
  }

  /** One more acknowledged registration. */
  lemma RegisterReady(w: World, o: Outcome)
    requires w.phase.Discovering? && w.phase.todo != [] && w.phase.todo[0] in w.drive && Honorable(o)
    requires StoreInv(w.cloud) && ReadyInv(w, w.phase.before, w.phase.force, w.phase.registered)
    requires forall id :: id in w.phase.registered ==> Fresh(w.cloud, w.drive, id)
    requires Registered(w.cloud.store, Discovered(w.phase.todo[0], w.drive[w.phase.todo[0]]), w.phase.force, o).1 == 0
    ensures var id := w.phase.todo[0];
            var store := Registered(w.cloud.store, Discovered(id, w.drive[id]), w.phase.force, o).0;
            ReadyInv(w.(cloud := w.cloud.(store := store)), w.phase.before, w.phase.force, w.phase.registered + [id])
  {
    var id := w.phase.todo[0];
    var f := Discovered(id, w.drive[id]);
    var store := Registered(w.cloud.store, f, w.phase.force, o).0;
    RegisteredStatus(w, f, o);
    forall other | other != id ensures SameDoc(store, w.cloud.store, other) {}
  }

  lemma RegisterTypes(w: World, o: Outcome)
    requires w.phase.Discovering? && w.phase.todo != [] && w.phase.todo[0] in w.drive && Honorable(o)
    requires ReadyInv(w, w.phase.before, w.phase.force, w.phase.registered)
    requires TypesInv(w, w.phase.before, w.phase.registered)
    requires forall id :: id in w.phase.registered ==> Fresh(w.cloud, w.drive, id)
    requires Registered(w.cloud.store, Discovered(w.phase.todo[0], w.drive[w.phase.todo[0]]), w.phase.force, o).1 == 0
    ensures var id := w.phase.todo[0];
            var store := Registered(w.cloud.store, Discovered(id, w.drive[id]), w.phase.force, o).0;
            TypesInv(w.(cloud := w.cloud.(store := store)), w.phase.before, w.phase.registered + [id])
  {
    var id := w.phase.todo[0];
    var store := Registered(w.cloud.store, Discovered(id, w.drive[id]), w.phase.force, o).0;
    forall other | other != id ensures SameDoc(store, w.cloud.store, other) {}
    RegisteredType(w, o);
  }

  lemma RegisteredType(w: World, o: Outcome)
    requires w.phase.Discovering? && w.phase.todo != [] && w.phase.todo[0] in w.drive && Honorable(o)
    requires ReadyInv(w, w.phase.before, w.phase.force, w.phase.registered)
    requires TypesInv(w, w.phase.before, w.phase.registered)
    requires w.phase.todo[0] in w.phase.registered ==> Fresh(w.cloud, w.drive, w.phase.todo[0])
    requires Registered(w.cloud.store, Discovered(w.phase.todo[0], w.drive[w.phase.todo[0]]), w.phase.force, o).1 == 0
    ensures var id := w.phase.todo[0];
            var store := Registered(w.cloud.store, Discovered(id, w.drive[id]), w.phase.force, o).0;
            id in store && store[id].mimeType == RecordedType(w.phase.before, id, w.drive[id])
  {
    var id := w.phase.todo[0];
    if id !in w.phase.registered { assert SameDoc(w.cloud.store, w.phase.before, id); }
  }

  lemma RegisteredStatus(w: World, f: File, o: Outcome)
    requires w.phase.Discovering? && f.driveFileId in w.drive && f == Discovered(f.driveFileId, w.drive[f.driveFileId])
    requires StoreInv(w.cloud) && ReadyInv(w, w.phase.before, w.phase.force, w.phase.registered) && Honorable(o)
    requires f.driveFileId in w.phase.registered ==> Fresh(w.cloud, w.drive, f.driveFileId)
    requires Registered(w.cloud.store, f, w.phase.force, o).1 == 0
    ensures var store := Registered(w.cloud.store, f, w.phase.force, o).0;
            f.driveFileId in store
            && (store[f.driveFileId].syncStatus.Pending? <==> Due(w.phase.before, w.phase.force, f))
  {
    var id := f.driveFileId;
    if id in w.cloud.store { assert RecordInv(w.cloud, id); }
    if id !in w.phase.registered { assert SameDoc(w.cloud.store, w.phase.before, id); }
  }

  lemma RegisterEventKeeps(h: Digests, w: World, o: Outcome)
    requires WorldInv(h, w) && CanHappen(h, w, Register(o))
    ensures WorldInv(h, Happens(h, w, Register(o)))
  {
    var id, force := w.phase.todo[0], w.phase.force;
    var v := Happens(h, w, Register(o));
    RegisterKeeps(h, w.cloud, Discovered(id, w.drive[id]), force, o);
    forall other | other in v.phase.acknowledged ensures Fresh(v.cloud, v.drive, other) {
      RegisterFresh(w.cloud, w.drive, id, force, o, other);
    }
    if v.phase.registrationFailures == 0 {
      RegisterReady(w, o);
      RegisterTypes(w, o);
    }
  }

  lemma LandEventKeeps(h: Digests, w: World, b: Batch)
    requires WorldInv(h, w) && CanHappen(h, w, Land(b))
    ensures WorldInv(h, Happens(h, w, Land(b)))
  {
    var d := Happens(h, w, Land(b)).cloud;
    LandKeeps(h, w.cloud, b);
    LandPhase(h, w, d);
  }

  /** The phase's invariant looks at the store, the ingestions and what has landed, which only grows. */
  lemma LandPhase(h: Digests, w: World, d: Cloud)
    requires PhaseInv(h, w) && Touches(w.cloud, d, None) && d.store == w.cloud.store
    ensures PhaseInv(h, w.(cloud := d))
  {
    if w.phase.Pooling? { LandJobs(w.phase.setting, w.phase.pool, w.cloud, d); }
  }

  lemma LandJobs(x: Setting, p: Pool, c: Cloud, d: Cloud)
    requires JobsInv(x, p, c) && Touches(c, d, None)
    ensures JobsInv(x, p, d)
  {
    forall k | 0 <= k < |p.listed| ensures JobInv(x, p, d, k) {
      OtherJobKept(x, p, c, p, d, None, k);
    }
  }

  /** Every event keeps the invariant. */
  lemma EventKeeps(h: Digests, w: World, e: Event)
    requires WorldInv(h, w) && CanHappen(h, w, e)
    ensures WorldInv(h, Happens(h, w, e))
  {
    match e
    case Edit(_) =>
    case Begin(_, _, _) =>
    case Register(o) => RegisterEventKeeps(h, w, o);
    case StartPool(listed, cancelled) => StartEventKeeps(h, w, listed, cancelled);
    case PoolStep(a) => PoolEventKeeps(h, w, a);
    case Land(b) => LandEventKeeps(h, w, b);
    case Stop =>
  }

  lemma {:induction false} HistoryKeeps(h: Digests, drive: map<string, DriveFile>, history: seq<Event>)
    requires ValidHistory(h, drive, history)
    ensures WorldInv(h, WorldAfter(h, drive, history))
    decreases |history|
  {
    if history != [] {
      var n := |history| - 1;
      HistoryKeeps(h, drive, history[..n]);
      EventKeeps(h, WorldAfter(h, drive, history[..n]), history[n]);
    }
  }

  lemma ReachedInv(h: Digests, w: World)
    requires Reached(h, w)
    ensures WorldInv(h, w)
  {
    var drive, history :| ValidHistory(h, drive, history) && WorldAfter(h, drive, history) == w;
    HistoryKeeps(h, drive, history);
  }

  // -------------------------------------------------------------- main results

  /**
   * No lost work and an honest `done`: after any history, a record is pending, failed or
   * done; a done one has its metadata load, and if it is recorded as Markdown the newest
   * batch ever built for it landed, under the recorded name; a pending one is in every
   * listing, and a failed one is pending again after its next registration.
   */
  lemma HonestStore(h: Digests, w: World, id: string)
    requires Reached(h, w) && id in w.cloud.store
    ensures !w.cloud.store[id].syncStatus.Processing?
    ensures w.cloud.store[id].syncStatus.Done? ==> Backed(w.cloud, id)
    ensures w.cloud.store[id].syncStatus.Pending? ==>
              forall listed: seq<File> :: ListsPending(w.cloud.store, listed) ==>
                exists f: File :: f in listed && f.driveFileId == id
    ensures w.cloud.store[id].syncStatus.Failed? ==>
              forall f: File :: f.driveFileId == id ==> Upserted(w.cloud.store, f)[id].syncStatus.Pending?
  {
    ReachedInv(h, w);
    assert RecordInv(w.cloud, id);
    if w.cloud.store[id].syncStatus.Pending? {
      forall listed: seq<File> | ListsPending(w.cloud.store, listed)
        ensures exists f: File :: f in listed && f.driveFileId == id
      {
        var i :| 0 <= i < |listed| && listed[i].driveFileId == id;
        assert listed[i] in listed;
      }
    }
  }

  lemma AllCompleted(p: Pool, k: nat)
    requires Inv(p) && p.result.Succeeded? && k < |p.listed|
    ensures k in p.fate && p.fate[k].Completed?
  {
    UnfinishedCounted(p);
    assert k !in Unfinished(p);
  }

  /** When the pool has succeeded, every listed record is done, and none of them pending any more. */
  lemma SucceededDelivers(h: Digests, w: World, k: nat)
    requires Reached(h, w) && w.phase.Pooling? && w.phase.pool.result.Succeeded? && k < |w.phase.pool.listed|
    ensures w.phase.pool.listed[k].driveFileId in w.cloud.store
    ensures w.cloud.store[w.phase.pool.listed[k].driveFileId].syncStatus.Done?
  {
    ReachedInv(h, w);
    AllCompleted(w.phase.pool, k);
    assert JobInv(w.phase.setting, w.phase.pool, w.cloud, k);
  }

  /** The run's pool succeeded and the run's upsert of the file was acknowledged. */
  predicate Settled(w: World, id: string) {
    w.phase.Pooling? && w.phase.pool.result.Succeeded? && id in w.phase.acknowledged
  }

  /** A run that got past the pool without an error has settled every file it discovered. */
  lemma PassedSettles(h: Digests, w: World, id: string)
    requires Reached(h, w) && Passed(w) && id in w.phase.discovered
    ensures Settled(w, id)
  {
    ReachedInv(h, w);
  }

  /** The ingestion downloaded the content whose checksum the store had recorded. */
  predicate Matches(h: Digests, b: Batch) {
    b.recorded == h.md5(b.content)
  }

  /**
   * A file that a run has settled, recorded as Markdown: its newest batch landed under
   * its current name, and has its current content exactly when the run queued the file
   * or that batch had downloaded what the store had recorded.
   */
  lemma SettledNewest(h: Digests, w: World, id: string) returns (b: Batch)
    requires Reached(h, w) && Collisionless(h) && Settled(w, id)
    requires id in w.cloud.store && w.cloud.store[id].mimeType == MARKDOWN
    ensures id in w.drive && LandedNewest(w.cloud, id, b) && b.name == w.drive[id].name
    ensures b.content == w.drive[id].content <==> Queued(w.phase.pool, id) || Matches(h, b)
    ensures !Queued(w.phase.pool, id) ==> b.recorded == w.drive[id].checksum != ""
  {
    ReachedInv(h, w);
    var x, p, c := w.phase.setting, w.phase.pool, w.cloud;
    assert Registration(w, p, id) && RecordInv(c, id);
    if Queued(p, id) {
      var k :| 0 <= k < |p.listed| && p.listed[k].driveFileId == id;
      AllCompleted(p, k);
      assert JobInv(x, p, c, k);
      b :| Prepared(x, c, p.listed[k], b) && b in c.landed;
    } else {
      b :| LandedNewest(c, id, b) && b.name == c.store[id].path && b.recorded == c.store[id].checksum;
    }
  }

  /**
   * The same by the record the run found: after a run that got past the pool, the newest
   * batch of a discovered Markdown file has the current content exactly when the file was
   * due before the run, or that batch had downloaded what the store had recorded.
   */
  lemma ConvergenceExactly(h: Digests, w: World, id: string) returns (b: Batch)
    requires Reached(h, w) && Collisionless(h) && Passed(w) && id in w.phase.discovered
    requires id in w.cloud.store && w.cloud.store[id].mimeType == MARKDOWN
    ensures id in w.drive && LandedNewest(w.cloud, id, b) && b.name == w.drive[id].name
    ensures b.content == w.drive[id].content
            <==> Due(w.phase.before, w.phase.force, Discovered(id, w.drive[id])) || Matches(h, b)
  {
    PassedSettles(h, w, id);
    b := SettledNewest(h, w, id);
    ReachedInv(h, w);
  }

  /** The view shows exactly the chunks of this document for the file, once each, under its digest. */
  ghost predicate Displays(h: Digests, view: multiset<CurrentRow>, id: string, name: string, content: string) {
    exists b: Batch ::
      && b.fileId == id && b.name == name && b.content == content && b.version == h.sha256(content)
      && ShowsBatch(view, b)
  }

  ghost predicate ShowsBatch(view: multiset<CurrentRow>, b: Batch) {
    forall c: CurrentRow :: c.fileId == b.fileId ==> view[c] == if c in CurrentRows(b) then 1 else 0
  }

  /** A view displays one document of a file, blank ones aside. */
  lemma DisplaysOnce(h: Digests, view: multiset<CurrentRow>, b: Batch, name: string, content: string)
    requires Collisionless(h) && ShowsBatch(view, b) && b.version == h.sha256(b.content)
    requires Displays(h, view, b.fileId, name, content)
    ensures content == b.content || (Blank(content) && Blank(b.content))
  {
    var x: Batch :| x.fileId == b.fileId && x.name == name && x.content == content
                    && x.version == h.sha256(content) && ShowsBatch(view, x);
    SharedRow(view, x, b);
    SharedRow(view, b, x);
  }

  lemma SharedRow(view: multiset<CurrentRow>, x: Batch, y: Batch)
    requires x.fileId == y.fileId && ShowsBatch(view, x) && ShowsBatch(view, y)
    ensures Blank(x.content) || x.version == y.version
  {
    CurrentRowsSpec(x);
    CurrentRowsSpec(y);
    if !Blank(x.content) {
      var c := CurrentRows(x)[0];
      assert c in CurrentRows(x) && view[c] == 1;
      var i :| 0 <= i < |CurrentRows(y)| && CurrentRows(y)[i] == c;
    }
  }

  lemma DisplaysBlank(h: Digests, view: multiset<CurrentRow>, b: Batch, content: string)
    requires ShowsBatch(view, b) && Blank(b.content) && Blank(content)
    ensures Displays(h, view, b.fileId, b.name, content)
  {
    var x := b.(content := content, version := h.sha256(content));
    CurrentRowsSpec(x);
    CurrentRowsSpec(b);
    assert ShowsBatch(view, x);
  }

  lemma LogIsFaithful(h: Digests, w: World)
    requires Reached(h, w) && Collisionless(h)
    ensures Faithful(w.cloud.landed)
  {
    ReachedInv(h, w);
  }

  lemma NewestLandedShows(h: Digests, w: World, id: string, b: Batch,
                          table: seq<ChunkRow>, legacy: seq<ChunkRow>, view: multiset<CurrentRow>)
    requires Reached(h, w) && Collisionless(h) && LandedNewest(w.cloud, id, b)
    requires IsTable(table, legacy, LoadsOf(w.cloud.landed)) && IsChunksCurrent(table, view)
    ensures b.fileId == id && ShowsBatch(view, b) && Displays(h, view, id, b.name, b.content)
  {
    ReachedInv(h, w);
    LogIsFaithful(h, w);
    assert NewestBatch(w.cloud.landed, b);
    BatchView(table, legacy, w.cloud.landed, view, b);
  }

  /**
   * Convergence over whole histories, exactly: whatever the interleavings, failures,
   * ambiguous and late loads, cancellations and crashes before, after a run that got past
   * the pool `chunks_current` displays the current content of a discovered file recorded
   * as Markdown, under its current name, if and only if the file was due before the run,
   * or its newest batch had downloaded what the store had recorded, or both documents are blank.
   */
  lemma ViewConvergesExactly(h: Digests, w: World, id: string,
                             table: seq<ChunkRow>, legacy: seq<ChunkRow>, view: multiset<CurrentRow>)
      returns (b: Batch)
    requires Reached(h, w) && Collisionless(h) && Passed(w) && id in w.phase.discovered
    requires id in w.cloud.store && w.cloud.store[id].mimeType == MARKDOWN
    requires IsTable(table, legacy, LoadsOf(w.cloud.landed)) && IsChunksCurrent(table, view)
    ensures id in w.drive && LandedNewest(w.cloud, id, b)
    ensures Displays(h, view, id, w.drive[id].name, w.drive[id].content)
            <==> Due(w.phase.before, w.phase.force, Discovered(id, w.drive[id])) || Matches(h, b)
                 || (Blank(b.content) && Blank(w.drive[id].content))
  {
    PassedSettles(h, w, id);
    b := SettledViewExactly(h, w, id, table, legacy, view);
    ReachedInv(h, w);
  }

  /** The same for one file that a run has settled, by whether the run queued it. */
  lemma SettledViewExactly(h: Digests, w: World, id: string,
                           table: seq<ChunkRow>, legacy: seq<ChunkRow>, view: multiset<CurrentRow>)
      returns (b: Batch)
    requires Reached(h, w) && Collisionless(h) && Settled(w, id)
    requires id in w.cloud.store && w.cloud.store[id].mimeType == MARKDOWN
    requires IsTable(table, legacy, LoadsOf(w.cloud.landed)) && IsChunksCurrent(table, view)
    ensures id in w.drive && LandedNewest(w.cloud, id, b)
    ensures Displays(h, view, id, w.drive[id].name, w.drive[id].content)
            <==> Queued(w.phase.pool, id) || Matches(h, b) || (Blank(b.content) && Blank(w.drive[id].content))
    ensures !Queued(w.phase.pool, id) ==> b.recorded == w.drive[id].checksum != ""
  {
    b := SettledNewest(h, w, id);
    NewestLandedShows(h, w, id, b, table, legacy, view);
    NewestDigest(h, w, b);
    if Displays(h, view, id, w.drive[id].name, w.drive[id].content) {
      DisplaysOnce(h, view, b, w.drive[id].name, w.drive[id].content);
    }
    if Blank(b.content) && Blank(w.drive[id].content) {
      DisplaysBlank(h, view, b, w.drive[id].content);
    }
  }

  lemma NewestDigest(h: Digests, w: World, b: Batch)
    requires Reached(h, w) && b in w.cloud.landed
    ensures b.version == h.sha256(b.content)
  {
    ReachedInv(h, w);
  }

  /** Hence REPROCESS_ALL repairs: after any history, a forced run that passes leaves no stale document. */
  lemma ForcedRunConverges(h: Digests, w: World, id: string,
                           table: seq<ChunkRow>, legacy: seq<ChunkRow>, view: multiset<CurrentRow>)
    requires Reached(h, w) && Collisionless(h) && Passed(w) && w.phase.force && id in w.phase.discovered
    requires id in w.cloud.store && w.cloud.store[id].mimeType == MARKDOWN
    requires IsTable(table, legacy, LoadsOf(w.cloud.landed)) && IsChunksCurrent(table, view)
    ensures id in w.drive && Displays(h, view, id, w.drive[id].name, w.drive[id].content)
  {
    var _ := ViewConvergesExactly(h, w, id, table, legacy, view);
  }

  /** Convergence for a settled file whose ingestions so far all downloaded what the store had recorded. */
  lemma Convergence(h: Digests, w: World, id: string,
                    table: seq<ChunkRow>, legacy: seq<ChunkRow>, view: multiset<CurrentRow>)
    requires Reached(h, w) && Collisionless(h) && Settled(w, id)
    requires id in w.cloud.store && w.cloud.store[id].mimeType == MARKDOWN
    requires forall b: Batch :: b in w.cloud.ingested && b.fileId == id ==> b.recorded == "" || Matches(h, b)
    requires IsTable(table, legacy, LoadsOf(w.cloud.landed)) && IsChunksCurrent(table, view)
    ensures id in w.drive && Displays(h, view, id, w.drive[id].name, w.drive[id].content)
  {
    var b := SettledViewExactly(h, w, id, table, legacy, view);
    ReachedInv(h, w);
  }

  // ------------------------------------------------------------ MIME types

  /** An acknowledged upsert of a file that was absent, failed or not up to date writes what Drive reports. */
  lemma RegistrationWrites(h: Digests, w: World, o: Outcome)
    requires Reached(h, w) && CanHappen(h, w, Register(o)) && o.upsertOk
    requires var id := w.phase.todo[0];
             || id !in w.cloud.store || w.cloud.store[id].syncStatus == Failed
             || w.drive[id].checksum == "" || w.cloud.store[id].checksum != w.drive[id].checksum
             || w.cloud.store[id].path != w.drive[id].name
    ensures var id, store := w.phase.todo[0], Happens(h, w, Register(o)).cloud.store;
            id in store && store[id] == FileDoc(w.drive[id].name, w.drive[id].checksum, w.drive[id].mimeType, Pending)
  {
  }

  /** After a run that got past the pool: the recorded type of a discovered file. */
  lemma TypeAfterRun(h: Digests, w: World, id: string)
    requires Reached(h, w) && Passed(w) && id in w.phase.discovered
    ensures id in w.drive && id in w.cloud.store
    ensures w.cloud.store[id].mimeType == RecordedType(w.phase.before, id, w.drive[id])
  {
    ReachedInv(h, w);
  }

  /**
   * Convergence by Drive's own type: a file that Drive lists as text/markdown and that was
   * absent, failed or not up to date before a run is displayed as it is now once that run
   * has got past the pool, after any history.
   */
  lemma MarkdownInDriveConverges(h: Digests, w: World, id: string,
                                 table: seq<ChunkRow>, legacy: seq<ChunkRow>, view: multiset<CurrentRow>)
    requires Reached(h, w) && Collisionless(h) && Passed(w) && id in w.phase.discovered && id in w.drive
    requires w.drive[id].mimeType == "text/markdown"
    requires var before, file := w.phase.before, w.drive[id];
             || id !in before || before[id].syncStatus == Failed || file.checksum == ""
             || before[id].checksum != file.checksum || before[id].path != file.name
    requires IsTable(table, legacy, LoadsOf(w.cloud.landed)) && IsChunksCurrent(table, view)
    ensures Displays(h, view, id, w.drive[id].name, w.drive[id].content)
  {
    TypeAfterRun(h, w, id);
    assert Due(w.phase.before, w.phase.force, Discovered(id, w.drive[id]));
    var _ := ViewConvergesExactly(h, w, id, table, legacy, view);
  }

  /** Drive never lists the file as Markdown, before the history or in it. */
  ghost predicate NeverMarkdown(drive: map<string, DriveFile>, history: seq<Event>, id: string) {
    && (id in drive ==> drive[id].mimeType != "text/markdown")
    && forall i :: 0 <= i < |history| && history[i].Edit? && id in history[i].drive ==>
         history[i].drive[id].mimeType != "text/markdown"
  }

  /** The file is no Markdown anywhere, and nothing was ingested for it. */
  ghost predicate NoMarkdown(w: World, id: string) {
    && (id in w.drive ==> w.drive[id].mimeType != "text/markdown")
    && (id in w.cloud.store ==> w.cloud.store[id].mimeType != "text/markdown")
    && (forall b :: b in w.cloud.ingested ==> b.fileId != id)
  }

  lemma OtherTypeStep(h: Digests, w: World, e: Event, id: string)
    requires WorldInv(h, w) && CanHappen(h, w, e) && NoMarkdown(w, id)
    requires e.Edit? && id in e.drive ==> e.drive[id].mimeType != "text/markdown"
    ensures NoMarkdown(Happens(h, w, e), id)
  {
    match e
    case PoolStep(a) =>
      PoolStepOnlyListed(h, w.phase.setting, w.phase.pool, w.cloud, a);
      if a.Work? { OtherTypeWork(h, w, a.i, a.reply, id); }
    case _ =>
  }

  lemma OtherTypeWork(h: Digests, w: World, i: nat, r: Reply, id: string)
    requires WorldInv(h, w) && CanHappen(h, w, PoolStep(Work(i, r))) && NoMarkdown(w, id)
    ensures forall b :: b in Happens(h, w, PoolStep(Work(i, r))).cloud.ingested ==> b.fileId != id
  {
    var x, p, c := w.phase.setting, w.phase.pool, w.cloud;
    var f := JobFile(p, i);
    assert JobInv(x, p, c, p.workers[i].job);
    TurnIngests(x, c, p.cancelled, f, p.workers[i], r);
    if r.Downloads? { DownloadEffect(x, c, p.cancelled, f, p.workers[i], r); }
  }

  lemma {:induction false} OtherTypeHistory(h: Digests, drive: map<string, DriveFile>, history: seq<Event>, id: string)
    requires ValidHistory(h, drive, history) && NeverMarkdown(drive, history, id)
    ensures NoMarkdown(WorldAfter(h, drive, history), id)
    decreases |history|
  {
    if history != [] {
      var n := |history| - 1;
      assert forall i :: 0 <= i < n ==> history[..n][i] == history[i];
      OtherTypeHistory(h, drive, history[..n], id);
      HistoryKeeps(h, drive, history[..n]);
      OtherTypeStep(h, WorldAfter(h, drive, history[..n]), history[n], id);
    }
  }

  /** A file that Drive never lists as text/markdown never gets a batch, and the view shows nothing of it. */
  lemma OtherTypesStayOut(h: Digests, drive: map<string, DriveFile>, history: seq<Event>, id: string,
                          table: seq<ChunkRow>, legacy: seq<ChunkRow>, view: multiset<CurrentRow>)
    requires ValidHistory(h, drive, history) && NeverMarkdown(drive, history, id) && Collisionless(h)
    requires var c := WorldAfter(h, drive, history).cloud;
             IsTable(table, legacy, LoadsOf(c.landed)) && IsChunksCurrent(table, view)
    ensures forall b :: b in WorldAfter(h, drive, history).cloud.ingested ==> b.fileId != id
    ensures forall c :: c in view ==> c.fileId != id
  {
    var w := WorldAfter(h, drive, history);
    OtherTypeHistory(h, drive, history, id);
    assert Reached(h, w);
    LogIsFaithful(h, w);
    ReachedInv(h, w);
    forall c | c in view ensures c.fileId != id {
      var b := RowOfBatch(table, legacy, w.cloud.landed, view, c);
    }
  }

  // -------------------------------------------------------- failures, periods

  /** A file whose last status update of the run was acknowledged is recorded as failed if it failed. */
  lemma FailureRecorded(h: Digests, w: World, k: nat)
    requires Reached(h, w) && w.phase.Pooling? && k < |w.phase.pool.listed| && k in w.phase.pool.fate
    ensures w.phase.pool.listed[k].driveFileId in w.cloud.store
    ensures var p, status := w.phase.pool, w.cloud.store[w.phase.pool.listed[k].driveFileId].syncStatus;
            && (p.fate[k].FailedFile? && k !in p.unrecorded ==> status == Failed)
            && (p.fate[k].Completed? ==> status == Done)
            && (p.fate[k].Dropped? ==> status == Pending)
  {
    ReachedInv(h, w);
    assert JobInv(w.phase.setting, w.phase.pool, w.cloud, k);
  }

  /** What may happen besides the program's steps: crashes, late loads, failed store calls, edits between runs. */
  lemma Surroundings(h: Digests, w: World, b: Batch, o: Outcome, drive: map<string, DriveFile>)
    ensures CanHappen(h, w, Stop) && Happens(h, w, Stop) == w.(phase := Resting)
    ensures CanHappen(h, w, Land(b)) <==> b in w.cloud.inDoubt
    ensures b in w.cloud.inDoubt ==> Happens(h, w, Land(b)).cloud.landed == w.cloud.landed + [b]
    ensures w.phase.Discovering? && w.phase.todo != [] && w.phase.todo[0] in w.drive ==>
              (CanHappen(h, w, Register(o)) <==> (o.upsertOk ==> o.upsertEffect) && (o.resetOk ==> o.resetEffect))
    ensures CanHappen(h, w, Edit(drive)) <==>
              w.phase.Resting? && forall id :: id in drive && drive[id].checksum != "" ==>
                                    drive[id].checksum == h.md5(drive[id].content)
  {
  }

  /** The policy a run began with is the one its batches carry. */
  lemma RunPolicy(h: Digests, w: World, e: Event)
    requires CanHappen(h, w, e)
    ensures e.Begin? ==> Happens(h, w, e).phase.policy == e.policy
    ensures e.Register? ==> Happens(h, w, e).phase.policy == w.phase.policy
    ensures e.StartPool? ==> Happens(h, w, e).phase.setting == Setting(w.drive, w.phase.policy, h.sha256)
    ensures e.PoolStep? ==> Happens(h, w, e).phase.setting == w.phase.setting
  {
  }

  /** What the view shows of a file the run has queued and finished has the label and the period of the run's policy. */
  lemma ViewPeriod(h: Digests, w: World, id: string,
                   table: seq<ChunkRow>, legacy: seq<ChunkRow>, view: multiset<CurrentRow>, c: CurrentRow)
    requires Reached(h, w) && Collisionless(h) && Settled(w, id) && Queued(w.phase.pool, id)
    requires id in w.cloud.store && w.cloud.store[id].mimeType == MARKDOWN && id in w.drive
    requires IsTable(table, legacy, LoadsOf(w.cloud.landed)) && IsChunksCurrent(table, view)
    requires c in view && c.fileId == id
    ensures match Extracted(w.drive[id].content)
            case Some(l) => c.retroMonth == Some(l.month) && c.retroSequence == Some(l.sequence)
            case None => c.retroMonth == None && c.retroSequence == None
    ensures match Period(w.phase.setting.policy, Extracted(w.drive[id].content))
            case Some(p) => c.retroStartDate == Some(p.startDate) && c.retroEndDate == Some(p.endDate)
            case None => c.retroStartDate == None && c.retroEndDate == None
  {
    var b := QueuedNewest(h, w, id);
    NewestLandedShows(h, w, id, b, table, legacy, view);
    assert c in CurrentRows(b);
    CurrentRowsLabel(b);
  }

  lemma QueuedNewest(h: Digests, w: World, id: string) returns (b: Batch)
    requires Reached(h, w) && Settled(w, id) && Queued(w.phase.pool, id)
    requires id in w.cloud.store && w.cloud.store[id].mimeType == MARKDOWN
    ensures LandedNewest(w.cloud, id, b) && b.policy == w.phase.setting.policy
    ensures id in w.drive && b.content == w.drive[id].content
  {
    ReachedInv(h, w);
    var x, p, c := w.phase.setting, w.phase.pool, w.cloud;
    var k :| 0 <= k < |p.listed| && p.listed[k].driveFileId == id;
    AllCompleted(p, k);
    assert JobInv(x, p, c, k);
    b :| Prepared(x, c, p.listed[k], b) && b in c.landed;
  }

  // ------------------------------------------------- which downloads match

  /** The file a download event ingests, and what it gets. */
  ghost predicate DownloadMatches(h: Digests, w: World, e: Event)
    requires CanHappen(h, w, e)
  {
    e.PoolStep? && e.action.Work? && e.action.reply.Downloads? ==>
      var f := JobFile(w.phase.pool, e.action.i);
      f.checksum == "" || f.checksum == h.md5(w.phase.setting.drive[f.driveFileId].content)
  }

  /** Every download of the history got the content whose checksum the store had recorded. */
  ghost predicate MatchingHistory(h: Digests, drive: map<string, DriveFile>, history: seq<Event>)
    requires ValidHistory(h, drive, history)
    decreases |history|
  {
    history == []
    || (var n := |history| - 1;
        MatchingHistory(h, drive, history[..n]) && DownloadMatches(h, WorldAfter(h, drive, history[..n]), history[n]))
  }

  lemma {:induction false} MatchingIngestions(h: Digests, drive: map<string, DriveFile>, history: seq<Event>)
    requires ValidHistory(h, drive, history) && MatchingHistory(h, drive, history)
    ensures forall b :: b in WorldAfter(h, drive, history).cloud.ingested ==> b.recorded == "" || Matches(h, b)
    decreases |history|
  {
    if history != [] {
      var n := |history| - 1;
      MatchingIngestions(h, drive, history[..n]);
      var w := WorldAfter(h, drive, history[..n]);
      HistoryKeeps(h, drive, history[..n]);
      OneIngestion(h, w, history[n]);
    }
  }

  lemma OneIngestion(h: Digests, w: World, e: Event)
    requires WorldInv(h, w) && CanHappen(h, w, e) && DownloadMatches(h, w, e)
    ensures forall b :: b in Happens(h, w, e).cloud.ingested && b !in w.cloud.ingested ==>
              b.recorded == "" || Matches(h, b)
  {
    if e.PoolStep? && e.action.Work? {
      var p, i := w.phase.pool, e.action.i;
      TurnIngests(w.phase.setting, w.cloud, p.cancelled, JobFile(p, i), p.workers[i], e.action.reply);
    }
  }

  /** A turn ingests nothing but a download. */
  lemma TurnIngests(x: Setting, c: Cloud, cancelled: bool, f: File, w: Worker, r: Reply)
    requires Expects(x, c, cancelled, f, w, r)
    ensures forall b :: b in CloudAfter(x, c, cancelled, f, w, r).ingested && b !in c.ingested ==>
              r.Downloads? && b == Ingestion(x, f, r.stamp)
  {
  }

  /** The file of a download event is one whose upsert the same run acknowledged. */
  predicate DownloadRegistered(w: World, e: Event)
    requires e.PoolStep? && w.phase.Pooling?
  {
    e.action.Work? && e.action.reply.Downloads? && Holds(w.phase.pool, e.action.i)
    ==> JobFile(w.phase.pool, e.action.i).driveFileId in w.phase.acknowledged
  }

  /** A run downloads, of a file it has registered, what the store recorded. */
  lemma RegisteredDownloadMatches(h: Digests, w: World, e: Event)
    requires Reached(h, w) && CanHappen(h, w, e)
    requires e.PoolStep? ==> DownloadRegistered(w, e)
    ensures DownloadMatches(h, w, e)
  {
    ReachedInv(h, w);
    if e.PoolStep? && e.action.Work? && e.action.reply.Downloads? {
      var p := w.phase.pool;
      var f := JobFile(p, e.action.i);
      assert Registration(w, p, f.driveFileId);
      assert JobInv(w.phase.setting, p, w.cloud, p.workers[e.action.i].job);
    }
  }

  /** No run of the history downloaded a file that it had failed to register. */
  ghost predicate RegisteredHistory(h: Digests, drive: map<string, DriveFile>, history: seq<Event>)
    requires ValidHistory(h, drive, history)
    decreases |history|
  {
    history == []
    || (var n := |history| - 1;
        && RegisteredHistory(h, drive, history[..n])
        && (history[n].PoolStep? ==> DownloadRegistered(WorldAfter(h, drive, history[..n]), history[n])))
  }

  lemma {:induction false} RegisteredIsMatching(h: Digests, drive: map<string, DriveFile>, history: seq<Event>)
    requires ValidHistory(h, drive, history) && RegisteredHistory(h, drive, history)
    ensures MatchingHistory(h, drive, history)
    decreases |history|
  {
    if history != [] {
      var n := |history| - 1;
      RegisteredIsMatching(h, drive, history[..n]);
      var w := WorldAfter(h, drive, history[..n]);
      assert Reached(h, w);
      RegisteredDownloadMatches(h, w, history[n]);
    }
  }

  /**
   * Convergence, by the guard of the branch that fails: if no run of the history
   * downloaded a file after failing to register it, then after a run that got past the
   * pool the view shows every discovered file recorded as Markdown as it is now.
   */
  lemma ConvergenceOfRegisteredHistory(h: Digests, drive: map<string, DriveFile>, history: seq<Event>, id: string,
                                       table: seq<ChunkRow>, legacy: seq<ChunkRow>, view: multiset<CurrentRow>)
    requires ValidHistory(h, drive, history) && RegisteredHistory(h, drive, history) && Collisionless(h)
    requires var w := WorldAfter(h, drive, history);
             && Passed(w) && id in w.phase.discovered
             && id in w.cloud.store && w.cloud.store[id].mimeType == MARKDOWN
             && IsTable(table, legacy, LoadsOf(w.cloud.landed)) && IsChunksCurrent(table, view)
    ensures var w := WorldAfter(h, drive, history);
            id in w.drive && Displays(h, view, id, w.drive[id].name, w.drive[id].content)
  {
    var w := WorldAfter(h, drive, history);
    assert Reached(h, w);
    RegisteredIsMatching(h, drive, history);
    MatchingIngestions(h, drive, history);
    PassedSettles(h, w, id);
    Convergence(h, w, id, table, legacy, view);
  }
}
