/**
 * `Run` of internal/etl/worker_pool.go as a step relation: a dispatcher, a channel,
 * five workers, a context that is cancelled at most once, and external calls that may
 * fail with or without having taken effect.
 */
module WorkerPool {
  import opened Options
  import opened Sprints
  import opened ChunkBatches
  import opened LoadRetry
  import opened FileStore

  const MARKDOWN := "text/markdown"
  const QUEUE_CAPACITY: nat := 100
  const WORKER_COUNT: nat := 5

  /** A file of the Drive folder, with the checksum Drive reports ("" for Workspace files). */
  datatype DriveFile = DriveFile(name: string, checksum: string, mimeType: string, content: string)

  /** What a run reads and nothing in it changes: Drive, the sprint policy, the content digest. */
  datatype Setting = Setting(drive: map<string, DriveFile>, policy: SprintPolicy, digest: string -> string)

  /** A row of the `drive_files` table, its time aside. */
  datatype MetadataRow = MetadataRow(driveFileId: string, path: string, checksum: string, mimeType: string)

  /**
   * The services outside the process. `ingested` holds every batch ever built, and
   * `inDoubt` the load jobs that reported an error and have not landed, yet may.
   */
  datatype Cloud = Cloud(
    store: Store, ingested: seq<Batch>, landed: seq<Batch>, inDoubt: multiset<Batch>, driveFiles: seq<MetadataRow>)

  /** Where a worker is. A job is an index into the listing. */
  datatype Worker =
    | Idle
    | Downloading(job: nat)
    | Checking(job: nat, batch: Batch, attempt: nat)
    | Inserting(job: nat, batch: Batch, attempt: nat)
    | Waiting(job: nat, batch: Batch, attempt: nat)
    | LoadingMetadata(job: nat, loaded: Option<Batch>)
    | MarkingDone(job: nat, loaded: Option<Batch>)
    | CountingFailure(job: nat)
    | MarkingFailed(job: nat)
    | Left

  predicate Busy(w: Worker) {
    !w.Idle? && !w.Left?
  }

  datatype Fate = Completed | FailedFile | Dropped

  datatype RunResult = Running | Succeeded | Cancelled | PartialFailure(files: nat, statusUpdates: nat)

  /**
   * `next` files have been sent and `taken` received. The rest is history: `holder`
   * says which worker received each file, `fate` how each finished file ended,
   * `counted` which files the first counter counts, and `unrecorded` the second.
   */
  datatype Pool = Pool(
    listed: seq<File>, next: nat, queue: seq<nat>, taken: nat, closed: bool, aborted: bool,
    workers: seq<Worker>, cancelled: bool, failedFiles: nat, failedStatusUpdates: nat,
    holder: map<nat, nat>, fate: map<nat, Fate>, counted: set<nat>, unrecorded: set<nat>, result: RunResult)

  /** How the stage of a busy worker ends, as the context and the outside world choose. */
  datatype Reply =
    | DownloadFails
    | Downloads(stamp: int)
    | ChecksContext
    | LoadReplies(err: Option<LoadError>, landed: bool)
    | TimerFires
    | WaitInterrupted
    | MetadataReplies(ok: bool, effect: bool)
    | DoneReplies(ok: bool, effect: bool)
    | CountsFailure
    | FailedReplies(ok: bool, effect: bool)

  /** Every choice of the scheduler and of the outside world. */
  datatype Action =
    | Cancel
    | LateLand(batch: Batch)
    | Send | Abort | Close | Return
    | Take(i: nat) | LeaveClosed(i: nat) | LeaveCancelled(i: nat)
    | Work(i: nat, reply: Reply)

  predicate Environment(a: Action) {
    a.Cancel? || a.LateLand?
  }

  function Start(listed: seq<File>, cancelled: bool): Pool {
    Pool(listed, 0, [], 0, false, false, seq(WORKER_COUNT, _ => Idle), cancelled, 0, 0, map[], map[], {}, {}, Running)
  }

  /** The ingestion of a downloaded Markdown file. */
  function Ingestion(x: Setting, f: File, stamp: int): Batch
    requires f.driveFileId in x.drive
  {
    var content := x.drive[f.driveFileId].content;
    Batch(f.driveFileId, f.path, content, x.digest(content), stamp, x.policy, f.checksum)
  }

  function Bit(b: bool): nat {
    if b then 1 else 0
  }

  // -------------------------------------------------------- one worker's turn

  /** The replies a stage can meet. A new ingestion is taken after all earlier ones of its file. */
  predicate Expects(x: Setting, c: Cloud, cancelled: bool, f: File, w: Worker, r: Reply) {
    match r
    case DownloadFails => w.Downloading?
    case Downloads(stamp) =>
      w.Downloading? && f.driveFileId in x.drive
      && forall b :: b in c.ingested && b.fileId == f.driveFileId ==> b.stamp < stamp
    case ChecksContext => w.Checking?
    case LoadReplies(err, landed) => w.Inserting? && (err.None? ==> landed)
    case TimerFires => w.Waiting?
    case WaitInterrupted => w.Waiting? && cancelled
    case MetadataReplies(ok, effect) => w.LoadingMetadata? && (ok ==> effect)
    case DoneReplies(ok, effect) => w.MarkingDone? && (ok ==> effect)
    case CountsFailure => w.CountingFailure?
    case FailedReplies(ok, effect) => w.MarkingFailed? && (ok ==> effect)
  }

  /**
   * The worker's next stage, the fate of its file if it is through with it, and
   * whether `failedFiles` and `failedStatusUpdates` go up.
   */
  datatype Turn = Turn(worker: Worker, fate: Option<Fate>, counts: bool, unrecorded: bool)

  function Goes(w: Worker): Turn {
    Turn(w, None, false, false)
  }

  /** A stage failed: on cancellation the worker returns, otherwise the file is marked failed. */
  function GivesUp(cancelled: bool, k: nat): Turn {
    if cancelled then Turn(Left, Some(Dropped), false, false) else Goes(CountingFailure(k))
  }

  function TurnOf(x: Setting, c: Cloud, cancelled: bool, f: File, w: Worker, r: Reply): Turn
    requires Expects(x, c, cancelled, f, w, r)
  {
    match r
    case DownloadFails => GivesUp(cancelled, w.job)
    case Downloads(stamp) =>
      if f.mimeType == MARKDOWN then Goes(Checking(w.job, Ingestion(x, f, stamp), 1))
      else Goes(LoadingMetadata(w.job, None))
    case ChecksContext =>
      if cancelled then Turn(Left, Some(Dropped), false, false) else Goes(Inserting(w.job, w.batch, w.attempt))
    case LoadReplies(err, _) =>
      if err.None? then Goes(LoadingMetadata(w.job, Some(w.batch)))
      else if IsRetryable(err) && w.attempt < BIGQUERY_LOAD_MAX_ATTEMPTS
      then Goes(Waiting(w.job, w.batch, w.attempt))
      else GivesUp(cancelled, w.job)
    case TimerFires => Goes(Checking(w.job, w.batch, w.attempt + 1))
    case WaitInterrupted => Turn(Left, Some(Dropped), false, false)
    case MetadataReplies(ok, _) =>
      if ok then Goes(MarkingDone(w.job, w.loaded)) else GivesUp(cancelled, w.job)
    case DoneReplies(ok, _) =>
      if ok then Turn(Idle, Some(Completed), false, false) else Turn(Idle, Some(FailedFile), true, true)
    case CountsFailure => Turn(MarkingFailed(w.job), None, true, false)
    case FailedReplies(ok, _) => Turn(Idle, Some(FailedFile), false, !ok)
  }

  function MetadataRowOf(f: File): MetadataRow {
    MetadataRow(f.driveFileId, f.path, f.checksum, f.mimeType)
  }

  function CloudAfter(x: Setting, c: Cloud, cancelled: bool, f: File, w: Worker, r: Reply): Cloud
    requires Expects(x, c, cancelled, f, w, r)
  {
    match r
    case Downloads(stamp) =>
      if f.mimeType == MARKDOWN then c.(ingested := c.ingested + [Ingestion(x, f, stamp)]) else c
    case LoadReplies(_, landed) =>
      if landed then c.(landed := c.landed + [w.batch]) else c.(inDoubt := c.inDoubt + multiset{w.batch})
    case MetadataReplies(_, effect) =>
      if effect then c.(driveFiles := c.driveFiles + [MetadataRowOf(f)]) else c
    case DoneReplies(_, effect) =>
      if effect then c.(store := WithStatus(c.store, f.driveFileId, Done)) else c
    case FailedReplies(_, effect) =>
      if effect then c.(store := WithStatus(c.store, f.driveFileId, Failed)) else c
    case _ => c
  }

  /** The load stages of one worker, met with these answers from attempt n on. */
  function LoadLoop(x: Setting, c: Cloud, f: File, k: nat, b: Batch, answers: seq<Answer>, n: nat): Worker
    requires 1 <= n <= BIGQUERY_LOAD_MAX_ATTEMPTS <= |answers| && Truthful(answers)
    decreases BIGQUERY_LOAD_MAX_ATTEMPTS - n
  {
    var a := answers[n - 1];
    var checked := TurnOf(x, c, a.done, f, Checking(k, b, n), ChecksContext).worker;
    if !checked.Inserting? then checked
    else
      var replied := TurnOf(x, c, false, f, checked, LoadReplies(a.err, a.landed)).worker;
      if !replied.Waiting? then replied
      else if a.interrupted then TurnOf(x, c, true, f, replied, WaitInterrupted).worker
      else
        var next := TurnOf(x, c, false, f, replied, TimerFires).worker;
        if next.Checking? && next.attempt == n + 1 then LoadLoop(x, c, f, next.job, next.batch, answers, n + 1)
        else next
  }

  /** The worker's load stages succeed exactly when insertRowsWithRetry returns nil. */
  lemma {:induction false} LoadStagesRetry(x: Setting, c: Cloud, f: File, k: nat, b: Batch,
                                           answers: seq<Answer>, n: nat)
    requires 1 <= n <= BIGQUERY_LOAD_MAX_ATTEMPTS <= |answers| && Truthful(answers)
    requires forall m :: 0 <= m < n - 1 ==> Continues(answers[m])
    ensures LoadLoop(x, c, f, k, b, answers, n) == LoadingMetadata(k, Some(b))
            <==> exists m :: 0 <= m < BIGQUERY_LOAD_MAX_ATTEMPTS && SucceedsAt(answers, m)
    decreases BIGQUERY_LOAD_MAX_ATTEMPTS - n
  {
    var a := answers[n - 1];
    assert forall m :: 0 <= m < n - 1 ==> !SucceedsAt(answers, m);
    if !a.done && a.err.None? {
      assert SucceedsAt(answers, n - 1);
    } else if Continues(a) && n < BIGQUERY_LOAD_MAX_ATTEMPTS {
      LoadStagesRetry(x, c, f, k, b, answers, n + 1);
    } else {
      assert !SucceedsAt(answers, n - 1);
      assert forall m :: n - 1 < m < BIGQUERY_LOAD_MAX_ATTEMPTS ==> !SucceedsAt(answers, m);
    }
  }

  // ------------------------------------------------------------------- steps

  predicate Holds(p: Pool, i: nat) {
    i < |p.workers| && Busy(p.workers[i]) && p.workers[i].job < |p.listed|
  }

  function JobFile(p: Pool, i: nat): File
    requires Holds(p, i)
  {
    p.listed[p.workers[i].job]
  }

  predicate Enabled(x: Setting, p: Pool, c: Cloud, a: Action) {
    match a
    case Cancel => !p.cancelled && p.result.Running?
    case LateLand(b) => b in c.inDoubt
    case Send => !p.closed && p.next < |p.listed| && |p.queue| < QUEUE_CAPACITY
    case Abort => !p.closed && p.next < |p.listed| && p.cancelled
    case Close => !p.closed && p.next == |p.listed|
    case Return => p.result.Running? && p.closed && forall w :: w in p.workers ==> w.Left?
    case Take(i) => i < |p.workers| && p.workers[i].Idle? && p.queue != []
    case LeaveClosed(i) => i < |p.workers| && p.workers[i].Idle? && p.queue == [] && p.closed
    case LeaveCancelled(i) => i < |p.workers| && p.workers[i].Idle? && p.cancelled
    case Work(i, r) => Holds(p, i) && Expects(x, c, p.cancelled, JobFile(p, i), p.workers[i], r)
  }

  function Move(p: Pool, i: nat, w: Worker): Pool
    requires i < |p.workers|
  {
    p.(workers := p.workers[i := w])
  }

  function Worked(p: Pool, i: nat, t: Turn): Pool
    requires i < |p.workers| && Busy(p.workers[i])
  {
    var k := p.workers[i].job;
    p.(workers := p.workers[i := t.worker],
       fate := if t.fate.Some? then p.fate[k := t.fate.value] else p.fate,
       failedFiles := p.failedFiles + Bit(t.counts),
       counted := if t.counts then p.counted + {k} else p.counted,
       failedStatusUpdates := p.failedStatusUpdates + Bit(t.unrecorded),
       unrecorded := if t.unrecorded then p.unrecorded + {k} else p.unrecorded)
  }

  function PoolNext(x: Setting, p: Pool, c: Cloud, a: Action): Pool
    requires Enabled(x, p, c, a)
  {
    match a
    case Cancel => p.(cancelled := true)
    case LateLand(_) => p
    case Send => p.(queue := p.queue + [p.next], next := p.next + 1)
    case Abort => p.(closed := true, aborted := true)
    case Close => p.(closed := true)
    case Return =>
      p.(result := if p.cancelled then Cancelled
                   else if p.failedFiles > 0 then PartialFailure(p.failedFiles, p.failedStatusUpdates)
                   else Succeeded)
    case Take(i) => Move(p, i, Downloading(p.queue[0])).(
      queue := p.queue[1..], taken := p.taken + 1, holder := p.holder[p.queue[0] := i])
    case LeaveClosed(i) => Move(p, i, Left)
    case LeaveCancelled(i) => Move(p, i, Left)
    case Work(i, r) => Worked(p, i, TurnOf(x, c, p.cancelled, JobFile(p, i), p.workers[i], r))
  }

  function CloudNext(x: Setting, p: Pool, c: Cloud, a: Action): Cloud
    requires Enabled(x, p, c, a)
  {
    match a
    case LateLand(b) => c.(landed := c.landed + [b], inDoubt := c.inDoubt - multiset{b})
    case Work(i, r) => CloudAfter(x, c, p.cancelled, JobFile(p, i), p.workers[i], r)
    case _ => c
  }

  // --------------------------------------------------------------- invariant

  predicate AttemptInRange(w: Worker) {
    && (w.Checking? || w.Inserting? ==> 1 <= w.attempt <= BIGQUERY_LOAD_MAX_ATTEMPTS)
    && (w.Waiting? ==> 1 <= w.attempt < BIGQUERY_LOAD_MAX_ATTEMPTS)
  }

  /** The channel is a FIFO of consecutive jobs. */
  ghost predicate ChannelInv(p: Pool) {
    && p.taken <= p.next <= |p.listed|
    && |p.queue| == p.next - p.taken <= QUEUE_CAPACITY
    && (forall j :: 0 <= j < |p.queue| ==> p.queue[j] == p.taken + j)
    && (p.aborted ==> p.cancelled && p.closed)
    && (p.closed && !p.aborted ==> p.next == |p.listed|)
  }

  predicate HeldBy(p: Pool, i: nat, k: nat) {
    i < |p.workers| && Busy(p.workers[i]) && p.workers[i].job == k
  }

  ghost predicate WorkersInv(p: Pool) {
    && |p.workers| == WORKER_COUNT
    && (forall i :: 0 <= i < |p.workers| ==> AttemptInRange(p.workers[i]))
    && (forall i :: 0 <= i < |p.workers| && Busy(p.workers[i]) ==>
          var k := p.workers[i].job;
          k !in p.fate && k in p.holder && p.holder[k] == i)
    && (forall i :: 0 <= i < |p.workers| && p.workers[i].Left? ==> p.cancelled || (p.closed && p.queue == []))
  }

  /** Every received file is held by its receiver until it has a fate. */
  ghost predicate FateInv(p: Pool) {
    && (forall k :: k in p.holder <==> 0 <= k < p.taken)
    && (forall k :: k in p.fate ==> k in p.holder)
    && (forall k :: k in p.holder && k !in p.fate ==> HeldBy(p, p.holder[k], k))
    && (forall k :: k in p.fate && p.fate[k].Dropped? ==> p.cancelled)
  }

  /** The first counter counts the files that failed and those being marked as failed. */
  predicate Counts(p: Pool, k: nat) {
    k in p.holder && if k in p.fate then p.fate[k].FailedFile?
                     else p.holder[k] < |p.workers| && p.workers[p.holder[k]].MarkingFailed?
  }

  ghost predicate CountersInv(p: Pool) {
    && p.failedFiles == |p.counted| && p.failedStatusUpdates == |p.unrecorded|
    && (forall k :: k in p.counted <==> 0 <= k && Counts(p, k))
    && (forall k :: k in p.unrecorded ==> k in p.fate && k in p.counted)
  }

  ghost predicate ResultInv(p: Pool) {
    !p.result.Running? ==>
      && p.closed && (forall w :: w in p.workers ==> w.Left?)
      && p.result == (if p.cancelled then Cancelled
                      else if p.failedFiles > 0 then PartialFailure(p.failedFiles, p.failedStatusUpdates)
                      else Succeeded)
  }

  ghost predicate Inv(p: Pool) {
    ChannelInv(p) && WorkersInv(p) && FateInv(p) && CountersInv(p) && ResultInv(p)
  }

  lemma StartInv(listed: seq<File>, cancelled: bool)
    ensures Inv(Start(listed, cancelled))
  {
  }

  /** What a turn may do to a busy worker w. */
  predicate FairTurn(cancelled: bool, w: Worker, t: Turn)
    requires Busy(w)
  {
    && (t.fate.None? ==> Busy(t.worker) && t.worker.job == w.job && AttemptInRange(t.worker))
    && (t.fate.Some? ==> t.worker.Idle? || (t.worker.Left? && cancelled))
    && (t.fate == Some(Dropped) ==> cancelled)
    && (w.MarkingFailed? ==> t.fate == Some(FailedFile))
    && (t.counts <==> !w.MarkingFailed? && (t.worker.MarkingFailed? || t.fate == Some(FailedFile)))
    && (t.unrecorded ==> t.fate == Some(FailedFile))
  }

  lemma TurnsAreFair(x: Setting, c: Cloud, cancelled: bool, f: File, w: Worker, r: Reply)
    requires Expects(x, c, cancelled, f, w, r) && AttemptInRange(w)
    ensures FairTurn(cancelled, w, TurnOf(x, c, cancelled, f, w, r))
  {
  }

  /** Everything but the counters. */
  ghost predicate FrameInv(p: Pool) {
    ChannelInv(p) && WorkersInv(p) && FateInv(p) && ResultInv(p)
  }

  lemma WorkedFrame(p: Pool, i: nat, t: Turn)
    requires FrameInv(p) && i < |p.workers| && Busy(p.workers[i]) && FairTurn(p.cancelled, p.workers[i], t)
    ensures FrameInv(Worked(p, i, t))
  {
    assert p.workers[i] in p.workers;
  }

  lemma WorkedCounts(p: Pool, i: nat, t: Turn)
    requires WorkersInv(p) && FateInv(p)
    requires i < |p.workers| && Busy(p.workers[i]) && FairTurn(p.cancelled, p.workers[i], t)
    ensures var k := p.workers[i].job;
            && (forall l :: l != k ==> Counts(Worked(p, i, t), l) == Counts(p, l))
            && Counts(Worked(p, i, t), k) == (t.counts || p.workers[i].MarkingFailed?)
            && Counts(p, k) == p.workers[i].MarkingFailed?
  {
  }

  lemma WorkedInv(p: Pool, i: nat, t: Turn)
    requires Inv(p) && i < |p.workers| && Busy(p.workers[i]) && FairTurn(p.cancelled, p.workers[i], t)
    ensures Inv(Worked(p, i, t))
  {
    WorkedFrame(p, i, t);
    WorkedCounts(p, i, t);
  }

  lemma TakeInv(x: Setting, p: Pool, c: Cloud, i: nat)
    requires Inv(p) && Enabled(x, p, c, Take(i))
    ensures Inv(PoolNext(x, p, c, Take(i)))
  {
    TakeFrame(x, p, c, i);
    TakeCounts(x, p, c, i);
  }

  lemma TakeFrame(x: Setting, p: Pool, c: Cloud, i: nat)
    requires FrameInv(p) && Enabled(x, p, c, Take(i))
    ensures FrameInv(PoolNext(x, p, c, Take(i)))
  {
    assert p.workers[i] in p.workers;
    assert p.queue[0] == p.taken;
  }

  lemma TakeCounts(x: Setting, p: Pool, c: Cloud, i: nat)
    requires ChannelInv(p) && WorkersInv(p) && FateInv(p) && Enabled(x, p, c, Take(i))
    ensures forall k :: Counts(PoolNext(x, p, c, Take(i)), k) == Counts(p, k)
  {
    assert p.queue[0] == p.taken;
  }

  lemma LeaveInv(p: Pool, i: nat)
    requires Inv(p) && i < |p.workers| && p.workers[i].Idle? && (p.cancelled || (p.closed && p.queue == []))
    ensures Inv(Move(p, i, Left))
  {
    assert p.workers[i] in p.workers;
  }

  /** Actions that no worker performs. */
  predicate Central(a: Action) {
    a.Cancel? || a.LateLand? || a.Send? || a.Abort? || a.Close? || a.Return?
  }

  lemma CentralInv(x: Setting, p: Pool, c: Cloud, a: Action)
    requires Inv(p) && Enabled(x, p, c, a) && Central(a)
    ensures Inv(PoolNext(x, p, c, a))
  {
  }

  /** Every step keeps the invariant. */
  lemma StepInv(x: Setting, p: Pool, c: Cloud, a: Action)
    requires Inv(p) && Enabled(x, p, c, a)
    ensures Inv(PoolNext(x, p, c, a))
  {
    match a
    case Take(i) => TakeInv(x, p, c, i);
    case LeaveClosed(i) => LeaveInv(p, i);
    case LeaveCancelled(i) => LeaveInv(p, i);
    case Work(i, r) =>
      TurnsAreFair(x, c, p.cancelled, JobFile(p, i), p.workers[i], r);
      WorkedInv(p, i, TurnOf(x, c, p.cancelled, JobFile(p, i), p.workers[i], r));
    case _ => CentralInv(x, p, c, a);
  }

  // ------------------------------------------------------------- whole runs

  /** The actions are enabled one after the other. */
  ghost predicate ValidRun(x: Setting, p: Pool, c: Cloud, run: seq<Action>)
    decreases |run|
  {
    run == [] || (Enabled(x, p, c, run[0])
                  && ValidRun(x, PoolNext(x, p, c, run[0]), CloudNext(x, p, c, run[0]), run[1..]))
  }

  ghost function After(x: Setting, p: Pool, c: Cloud, run: seq<Action>): (Pool, Cloud)
    requires ValidRun(x, p, c, run)
    decreases |run|
  {
    if run == [] then (p, c) else After(x, PoolNext(x, p, c, run[0]), CloudNext(x, p, c, run[0]), run[1..])
  }

  lemma {:induction false} RunInv(x: Setting, p: Pool, c: Cloud, run: seq<Action>)
    requires Inv(p) && ValidRun(x, p, c, run)
    ensures Inv(After(x, p, c, run).0)
    decreases |run|
  {
    if run != [] {
      StepInv(x, p, c, run[0]);
      RunInv(x, PoolNext(x, p, c, run[0]), CloudNext(x, p, c, run[0]), run[1..]);
    }
  }

  /** The state some run from the start has reached. */
  ghost predicate Reachable(x: Setting, p: Pool) {
    exists listed, cancelled, c, run ::
      ValidRun(x, Start(listed, cancelled), c, run) && After(x, Start(listed, cancelled), c, run).0 == p
  }

  lemma ReachableInv(x: Setting, p: Pool)
    requires Reachable(x, p)
    ensures Inv(p)
  {
    var listed, cancelled, c, run :|
      ValidRun(x, Start(listed, cancelled), c, run) && After(x, Start(listed, cancelled), c, run).0 == p;
    StartInv(listed, cancelled);
    RunInv(x, Start(listed, cancelled), c, run);
  }

  ghost predicate InFlight(p: Pool, k: nat) {
    exists i :: HeldBy(p, i, k)
  }

  /**
   * Pool conservation: in every reachable state each listed file is in exactly one
   * place (undispatched, queued, held by a worker, finished), by one worker at most;
   * the queue holds at most 100 and each file once; a file without a final status was
   * dropped only after cancellation; no file is taken that was taken before.
   */
  lemma Conservation(x: Setting, p: Pool)
    requires Reachable(x, p)
    ensures forall k :: 0 <= k < |p.listed| ==>
              Bit(p.next <= k) + Bit(k in p.queue) + Bit(InFlight(p, k)) + Bit(k in p.fate) == 1
    ensures forall i, j, k :: HeldBy(p, i, k) && HeldBy(p, j, k) ==> i == j
    ensures |p.workers| == 5 && |p.queue| <= 100
    ensures forall i, j :: 0 <= i < j < |p.queue| ==> p.queue[i] != p.queue[j]
    ensures forall k :: k in p.fate && p.fate[k].Dropped? ==> p.cancelled
    ensures forall c: Cloud, i: nat :: Enabled(x, p, c, Take(i)) ==> p.queue[0] !in p.holder && p.queue[0] !in p.fate
  {
    ReachableInv(x, p);
    assert p.queue != [] ==> p.queue[0] == p.taken;
    forall k | 0 <= k < |p.listed|
      ensures Bit(p.next <= k) + Bit(k in p.queue) + Bit(InFlight(p, k)) + Bit(k in p.fate) == 1
    {
      assert k in p.queue <==> p.taken <= k < p.next by {
        if p.taken <= k < p.next { assert p.queue[k - p.taken] == k; }
      }
      if k < p.taken && k !in p.fate {
        assert HeldBy(p, p.holder[k], k);
      }
    }
  }

  // -------------------------------------------- deadlock freedom, termination

  /** Run has returned. */
  predicate Finished(p: Pool) {
    !p.result.Running?
  }

  lemma WorkerMoves(x: Setting, p: Pool, c: Cloud, i: nat) returns (a: Action)
    requires Inv(p) && i < |p.workers| && Busy(p.workers[i])
    ensures Enabled(x, p, c, a) && !Environment(a)
  {
    var r :=
      match p.workers[i]
      case Downloading(_) => DownloadFails
      case Checking(_, _, _) => ChecksContext
      case Inserting(_, _, _) => LoadReplies(Some(Other), false)
      case Waiting(_, _, _) => TimerFires
      case LoadingMetadata(_, _) => MetadataReplies(false, false)
      case MarkingDone(_, _) => DoneReplies(false, false)
      case CountingFailure(_) => CountsFailure
      case MarkingFailed(_) => FailedReplies(false, false);
    assert p.holder[p.workers[i].job] == i;
    a := Work(i, r);
  }

  /**
   * Deadlock freedom: until Run has returned some step of the program is enabled, also
   * when the queue is full and every worker has left; then the context is cancelled.
   */
  lemma NoDeadlock(x: Setting, p: Pool, c: Cloud) returns (a: Action)
    requires Reachable(x, p) && !Finished(p)
    ensures Enabled(x, p, c, a) && !Environment(a)
    ensures !p.closed && |p.queue| == QUEUE_CAPACITY && (forall w :: w in p.workers ==> w.Left?)
            ==> p.cancelled && (Enabled(x, p, c, Abort) || Enabled(x, p, c, Close))
  {
    ReachableInv(x, p);
    assert p.workers[0] in p.workers;
    if i :| 0 <= i < |p.workers| && Busy(p.workers[i]) {
      a := WorkerMoves(x, p, c, i);
    } else if i :| 0 <= i < |p.workers| && p.workers[i].Idle? {
      a := if p.queue != [] then Take(i)
           else if p.closed then LeaveClosed(i)
           else if p.next == |p.listed| then Close
           else Send;
    } else {
      assert forall w :: w in p.workers ==> w.Left?;
      a := if p.closed then Return else if p.next == |p.listed| then Close else Abort;
    }
  }

  /** Steps from the download of a file on. */
  const DOWNLOAD_STEPS: nat := 8 + 5 * (BIGQUERY_LOAD_MAX_ATTEMPTS - 1)

  /** Load attempts after the n-th. */
  function AttemptsLeft(n: nat): nat {
    if n <= BIGQUERY_LOAD_MAX_ATTEMPTS then BIGQUERY_LOAD_MAX_ATTEMPTS - n else 0
  }

  /** Steps a worker may still take before it is idle again; a failed load also puts a batch in doubt. */
  function Rank(w: Worker): nat {
    match w
    case Left => 0
    case Idle => 1
    case MarkingFailed(_) => 2
    case CountingFailure(_) => 3
    case MarkingDone(_, _) => 2
    case LoadingMetadata(_, _) => 4
    case Inserting(_, _, n) => 6 + 5 * AttemptsLeft(n)
    case Checking(_, _, n) => 7 + 5 * AttemptsLeft(n)
    case Waiting(_, _, n) => 4 + 5 * AttemptsLeft(n)
    case Downloading(_) => DOWNLOAD_STEPS
  }

  function Ranks(workers: seq<Worker>): nat {
    if workers == [] then 0 else Rank(workers[0]) + Ranks(workers[1..])
  }

  lemma {:induction false} RanksUpdate(workers: seq<Worker>, i: nat, w: Worker)
    requires i < |workers|
    ensures Ranks(workers[i := w]) + Rank(workers[i]) == Ranks(workers) + Rank(w)
  {
    if i == 0 {
      assert workers[0 := w][1..] == workers[1..];
    } else {
      assert workers[i := w][1..] == workers[1..][i - 1 := w];
      RanksUpdate(workers[1..], i - 1, w);
    }
  }

  /** Steps that files not sent yet and queued files may still cost. */
  function Backlog(unsent: nat, queued: nat): nat {
    DOWNLOAD_STEPS * (unsent + queued) + unsent
  }

  lemma BacklogSteps(unsent: nat, queued: nat)
    ensures unsent > 0 ==> Backlog(unsent - 1, queued + 1) == Backlog(unsent, queued) - 1
    ensures queued > 0 ==> Backlog(unsent, queued - 1) == Backlog(unsent, queued) - DOWNLOAD_STEPS
  {
  }

  function Measure(p: Pool, c: Cloud): nat
    requires p.next <= |p.listed|
  {
    Backlog(|p.listed| - p.next, |p.queue|) + Ranks(p.workers) + |c.inDoubt|
    + Bit(!p.closed) + Bit(!p.cancelled) + Bit(p.result.Running?)
  }

  /** A turn lowers the worker's rank by more than what it puts in doubt. */
  lemma TurnRank(x: Setting, c: Cloud, cancelled: bool, f: File, w: Worker, r: Reply)
    requires Expects(x, c, cancelled, f, w, r) && AttemptInRange(w)
    ensures Rank(TurnOf(x, c, cancelled, f, w, r).worker) + |CloudAfter(x, c, cancelled, f, w, r).inDoubt|
            < Rank(w) + |c.inDoubt|
  {
  }

  lemma CentralDecreases(x: Setting, p: Pool, c: Cloud, a: Action)
    requires Inv(p) && Enabled(x, p, c, a) && Central(a)
    ensures PoolNext(x, p, c, a).next <= |PoolNext(x, p, c, a).listed|
    ensures Measure(PoolNext(x, p, c, a), CloudNext(x, p, c, a)) < Measure(p, c)
  {
    BacklogSteps(|p.listed| - p.next, |p.queue|);
  }

  lemma TakeDecreases(x: Setting, p: Pool, c: Cloud, i: nat)
    requires Inv(p) && Enabled(x, p, c, Take(i))
    ensures Measure(PoolNext(x, p, c, Take(i)), c) < Measure(p, c)
  {
    RanksUpdate(p.workers, i, Downloading(p.queue[0]));
    BacklogSteps(|p.listed| - p.next, |p.queue|);
  }

  lemma LeaveDecreases(p: Pool, c: Cloud, i: nat)
    requires Inv(p) && i < |p.workers| && p.workers[i].Idle?
    ensures Measure(Move(p, i, Left), c) < Measure(p, c)
  {
    RanksUpdate(p.workers, i, Left);
  }

  lemma WorkDecreases(x: Setting, p: Pool, c: Cloud, i: nat, r: Reply)
    requires Inv(p) && Enabled(x, p, c, Work(i, r))
    ensures Measure(PoolNext(x, p, c, Work(i, r)), CloudNext(x, p, c, Work(i, r))) < Measure(p, c)
  {
    assert AttemptInRange(p.workers[i]);
    TurnRank(x, c, p.cancelled, JobFile(p, i), p.workers[i], r);
    RanksUpdate(p.workers, i, TurnOf(x, c, p.cancelled, JobFile(p, i), p.workers[i], r).worker);
  }

  /** Every step decreases the measure, those of the environment included. */
  lemma StepDecreases(x: Setting, p: Pool, c: Cloud, a: Action)
    requires Inv(p) && Enabled(x, p, c, a)
    ensures PoolNext(x, p, c, a).next <= |PoolNext(x, p, c, a).listed|
    ensures Measure(PoolNext(x, p, c, a), CloudNext(x, p, c, a)) < Measure(p, c)
  {
    match a
    case Take(i) => TakeDecreases(x, p, c, i);
    case LeaveClosed(i) => LeaveDecreases(p, c, i);
    case LeaveCancelled(i) => LeaveDecreases(p, c, i);
    case Work(i, r) => WorkDecreases(x, p, c, i, r);
    case _ => CentralDecreases(x, p, c, a);
  }

  /** Termination: no run is longer than the measure of its first state. */
  lemma {:induction false} RunTerminates(x: Setting, p: Pool, c: Cloud, run: seq<Action>)
    requires Inv(p) && ValidRun(x, p, c, run)
    ensures |run| <= Measure(p, c)
    decreases |run|
  {
    if run != [] {
      StepDecreases(x, p, c, run[0]);
      StepInv(x, p, c, run[0]);
      RunTerminates(x, PoolNext(x, p, c, run[0]), CloudNext(x, p, c, run[0]), run[1..]);
    }
  }

  // -------------------------------------------------------------- accounting

  /** Listed files whose `done` was not acknowledged. */
  ghost function Unfinished(p: Pool): set<nat> {
    set k | 0 <= k < |p.listed| && !(k in p.fate && p.fate[k].Completed?)
  }

  lemma {:induction false} SubsetSize<T>(a: set<T>, b: set<T>)
    requires a <= b
    ensures |a| <= |b|
  {
    if a != {} {
      var e :| e in a;
      SubsetSize(a - {e}, b - {e});
    }
  }

  /**
   * Exact accounting: failed status updates never outnumber failed files; Run returns
   * nil exactly when the context is not cancelled at the final check and every listed
   * file has an acknowledged `done`, and otherwise, uncancelled, it reports exactly the
   * number of files without one.
   */
  lemma ExactAccounting(x: Setting, p: Pool)
    requires Reachable(x, p)
    ensures p.failedStatusUpdates <= p.failedFiles
    ensures Finished(p) ==> (p.result.Succeeded? <==> !p.cancelled && Unfinished(p) == {})
    ensures Finished(p) && !p.cancelled ==> |Unfinished(p)| == p.failedFiles
    ensures Finished(p) && !p.cancelled && Unfinished(p) != {}
            ==> p.result == PartialFailure(|Unfinished(p)|, p.failedStatusUpdates)
    ensures Finished(p) ==> (p.result.Cancelled? <==> p.cancelled)
  {
    ReachableInv(x, p);
    SubsetSize(p.unrecorded, p.counted);
    if Finished(p) && !p.cancelled {
      UnfinishedCounted(p);
    }
  }

  lemma UnfinishedCounted(p: Pool)
    requires Inv(p) && Finished(p) && !p.cancelled
    ensures Unfinished(p) == p.counted
  {
    assert p.workers[0] in p.workers;
    forall i: nat, k: nat ensures !HeldBy(p, i, k) {
      if i < |p.workers| { assert p.workers[i] in p.workers; }
    }
    assert p.taken == |p.listed|;
    assert forall k :: 0 <= k < |p.listed| ==> k in p.fate;
  }

  /** The replies that report a failed status update. */
  predicate StatusFails(a: Action) {
    a.Work? && ((a.reply.DoneReplies? && !a.reply.ok) || (a.reply.FailedReplies? && !a.reply.ok))
  }

  /** The turns that count a failed file: one before it is marked as failed, one when `done` is not acknowledged. */
  predicate FileFails(a: Action) {
    a.Work? && (a.reply.CountsFailure? || (a.reply.DoneReplies? && !a.reply.ok))
  }

  function Occurrences(run: seq<Action>, which: Action -> bool): nat {
    if run == [] then 0 else Bit(which(run[0])) + Occurrences(run[1..], which)
  }

  lemma StepCounts(x: Setting, p: Pool, c: Cloud, a: Action)
    requires Enabled(x, p, c, a)
    ensures PoolNext(x, p, c, a).failedStatusUpdates == p.failedStatusUpdates + Bit(StatusFails(a))
    ensures PoolNext(x, p, c, a).failedFiles == p.failedFiles + Bit(FileFails(a))
  {
  }

  /** The counters count what happened: the failed status updates, and the failed files. */
  lemma {:induction false} RunCounts(x: Setting, p: Pool, c: Cloud, run: seq<Action>)
    requires ValidRun(x, p, c, run)
    ensures After(x, p, c, run).0.failedStatusUpdates == p.failedStatusUpdates + Occurrences(run, StatusFails)
    ensures After(x, p, c, run).0.failedFiles == p.failedFiles + Occurrences(run, FileFails)
    decreases |run|
  {
    if run != [] {
      StepCounts(x, p, c, run[0]);
      RunCounts(x, PoolNext(x, p, c, run[0]), CloudNext(x, p, c, run[0]), run[1..]);
    }
  }

  /** The reply ends the stage in a failure of the file, with the context as it is. */
  predicate FailsStage(w: Worker, r: Reply) {
    || r.DownloadFails?
    || (r.LoadReplies? && w.Inserting? && r.err.Some? && !(IsRetryable(r.err) && w.attempt < 3))
    || (r.MetadataReplies? && !r.ok)
  }

  /**
   * A failed stage: uncancelled, the file goes on to be counted and marked as failed;
   * cancelled, the worker leaves and drops the file, counting and marking nothing.
   */
  lemma FailedStage(x: Setting, c: Cloud, cancelled: bool, f: File, w: Worker, r: Reply)
    requires Expects(x, c, cancelled, f, w, r) && FailsStage(w, r)
    ensures var t := TurnOf(x, c, cancelled, f, w, r);
            && t.worker == (if cancelled then Left else CountingFailure(w.job))
            && t.fate == (if cancelled then Some(Dropped) else None)
            && !t.counts && !t.unrecorded && CloudAfter(x, c, cancelled, f, w, r).store == c.store
  {
  }

  /** Cancelled before an attempt or in the wait after it, the worker leaves in the same way. */
  lemma InterruptedStage(x: Setting, c: Cloud, cancelled: bool, f: File, w: Worker, r: Reply)
    requires Expects(x, c, cancelled, f, w, r) && cancelled && (r.ChecksContext? || r.WaitInterrupted?)
    ensures TurnOf(x, c, cancelled, f, w, r) == Turn(Left, Some(Dropped), false, false)
    ensures CloudAfter(x, c, cancelled, f, w, r) == c
  {
  }

  /** The status updates that take effect write the record's status and nothing else. */
  lemma StatusWritten(x: Setting, c: Cloud, cancelled: bool, f: File, w: Worker, r: Reply)
    requires Expects(x, c, cancelled, f, w, r) && f.driveFileId in c.store
    ensures r.DoneReplies? && r.effect ==>
              CloudAfter(x, c, cancelled, f, w, r).store
              == c.store[f.driveFileId := c.store[f.driveFileId].(syncStatus := Done)]
    ensures r.FailedReplies? && r.effect ==>
              CloudAfter(x, c, cancelled, f, w, r).store
              == c.store[f.driveFileId := c.store[f.driveFileId].(syncStatus := Failed)]
    ensures !((r.DoneReplies? || r.FailedReplies?) && r.effect) ==>
              CloudAfter(x, c, cancelled, f, w, r).store == c.store
  {
  }

  /** A load job that fails without landing may land later; one that lands has its rows in the log at once. */
  lemma LoadEffect(x: Setting, c: Cloud, cancelled: bool, f: File, w: Worker, r: Reply)
    requires Expects(x, c, cancelled, f, w, r) && r.LoadReplies?
    ensures var d := CloudAfter(x, c, cancelled, f, w, r);
            if r.landed then d.landed == c.landed + [w.batch] && d.inDoubt == c.inDoubt
            else d.landed == c.landed && d.inDoubt == c.inDoubt + multiset{w.batch}
  {
  }

  /** Only files of this type are chunked; their batches are made of what the run reads. */
  lemma DownloadEffect(x: Setting, c: Cloud, cancelled: bool, f: File, w: Worker, r: Reply)
    requires Expects(x, c, cancelled, f, w, r) && r.Downloads?
    ensures var d, t := CloudAfter(x, c, cancelled, f, w, r), TurnOf(x, c, cancelled, f, w, r);
            if f.mimeType == "text/markdown" then
              var b := Batch(f.driveFileId, f.path, x.drive[f.driveFileId].content,
                             x.digest(x.drive[f.driveFileId].content), r.stamp, x.policy, f.checksum);
              d.ingested == c.ingested + [b] && t.worker == Checking(w.job, b, 1)
            else d.ingested == c.ingested && t.worker == LoadingMetadata(w.job, None)
  {
  }

  /** Every external call may fail with or without effect; only success implies it. */
  lemma EveryReply(x: Setting, c: Cloud, cancelled: bool, f: File, w: Worker, err: LoadError)
    ensures w.Downloading? ==> Expects(x, c, cancelled, f, w, DownloadFails)
    ensures w.Inserting? ==>
              && Expects(x, c, cancelled, f, w, LoadReplies(None, true))
              && Expects(x, c, cancelled, f, w, LoadReplies(Some(err), true))
              && Expects(x, c, cancelled, f, w, LoadReplies(Some(err), false))
              && !Expects(x, c, cancelled, f, w, LoadReplies(None, false))
    ensures w.LoadingMetadata? ==> forall ok, effect ::
              Expects(x, c, cancelled, f, w, MetadataReplies(ok, effect)) <==> (ok ==> effect)
    ensures w.MarkingDone? ==> forall ok, effect ::
              Expects(x, c, cancelled, f, w, DoneReplies(ok, effect)) <==> (ok ==> effect)
    ensures w.MarkingFailed? ==> forall ok, effect ::
              Expects(x, c, cancelled, f, w, FailedReplies(ok, effect)) <==> (ok ==> effect)
    ensures w.Waiting? ==> Expects(x, c, cancelled, f, w, TimerFires)
                           && (Expects(x, c, cancelled, f, w, WaitInterrupted) <==> cancelled)
  {
  }

  /** What each branch of the two selects needs: cancellation adds branches and takes none away. */
  lemma SelectBranches(x: Setting, p: Pool, c: Cloud, i: nat)
    requires i < |p.workers|
    ensures Enabled(x, p, c, Send) <==> !p.closed && p.next < |p.listed| && |p.queue| < 100
    ensures Enabled(x, p, c, Abort) <==> !p.closed && p.next < |p.listed| && p.cancelled
    ensures Enabled(x, p, c, Take(i)) <==> p.workers[i].Idle? && p.queue != []
    ensures Enabled(x, p, c, LeaveClosed(i)) <==> p.workers[i].Idle? && p.queue == [] && p.closed
    ensures Enabled(x, p, c, LeaveCancelled(i)) <==> p.workers[i].Idle? && p.cancelled
    ensures Enabled(x, p, c, Cancel) <==> !p.cancelled && p.result.Running?
    ensures forall b :: Enabled(x, p, c, LateLand(b)) <==> b in c.inDoubt
  {
  }

  // ------------------------------------------------------------ smooth runs

  /** A reply that fails no file: a load job may still fail while it is retried. */
  predicate Smooth(w: Worker, r: Reply) {
    match r
    case DownloadFails => false
    case LoadReplies(err, _) =>
      err.None? || (IsRetryable(err) && w.Inserting? && w.attempt < BIGQUERY_LOAD_MAX_ATTEMPTS)
    case MetadataReplies(ok, _) => ok
    case DoneReplies(ok, _) => ok
    case _ => true
  }

  predicate SmoothAction(p: Pool, a: Action) {
    !a.Cancel? && (a.Work? && Holds(p, a.i) ==> Smooth(p.workers[a.i], a.reply))
  }

  /** A run without cancellation in which no external call fails for good. */
  ghost predicate SmoothRun(x: Setting, p: Pool, c: Cloud, run: seq<Action>)
    requires ValidRun(x, p, c, run)
    decreases |run|
  {
    run == [] || (SmoothAction(p, run[0])
                  && SmoothRun(x, PoolNext(x, p, c, run[0]), CloudNext(x, p, c, run[0]), run[1..]))
  }

  predicate Unfailed(p: Pool) {
    !p.cancelled && p.failedFiles == 0 && forall w :: w in p.workers ==> !w.CountingFailure? && !w.MarkingFailed?
  }

  lemma SmoothTurn(x: Setting, c: Cloud, f: File, w: Worker, r: Reply)
    requires Expects(x, c, false, f, w, r) && Smooth(w, r) && !w.CountingFailure? && !w.MarkingFailed?
    ensures var t := TurnOf(x, c, false, f, w, r);
            !t.counts && !t.worker.CountingFailure? && !t.worker.MarkingFailed?
  {
  }

  lemma SmoothStep(x: Setting, p: Pool, c: Cloud, a: Action)
    requires Unfailed(p) && Enabled(x, p, c, a) && SmoothAction(p, a)
    ensures Unfailed(PoolNext(x, p, c, a))
  {
    if a.Work? {
      assert p.workers[a.i] in p.workers;
      SmoothTurn(x, c, JobFile(p, a.i), p.workers[a.i], a.reply);
    }
    var q := PoolNext(x, p, c, a);
    forall w | w in q.workers ensures !w.CountingFailure? && !w.MarkingFailed? {
      var i :| 0 <= i < |q.workers| && q.workers[i] == w;
      assert q.workers[i] == p.workers[i] ==> w in p.workers;
    }
  }

  lemma {:induction false} SmoothRunUnfailed(x: Setting, p: Pool, c: Cloud, run: seq<Action>)
    requires Unfailed(p) && ValidRun(x, p, c, run) && SmoothRun(x, p, c, run)
    ensures Unfailed(After(x, p, c, run).0)
    decreases |run|
  {
    if run != [] {
      SmoothStep(x, p, c, run[0]);
      SmoothRunUnfailed(x, PoolNext(x, p, c, run[0]), CloudNext(x, p, c, run[0]), run[1..]);
    }
  }

  /** A smooth run that has ended returned nil, with an acknowledged `done` for every listed file. */
  lemma SmoothRunSucceeds(x: Setting, listed: seq<File>, c: Cloud, run: seq<Action>)
    requires ValidRun(x, Start(listed, false), c, run) && SmoothRun(x, Start(listed, false), c, run)
    ensures var p := After(x, Start(listed, false), c, run).0;
            Finished(p) ==> p.result.Succeeded? && Unfinished(p) == {}
  {
    var p := After(x, Start(listed, false), c, run).0;
    SmoothRunUnfailed(x, Start(listed, false), c, run);
    assert Reachable(x, p);
    ExactAccounting(x, p);
  }

  lemma LaterStamp(batches: seq<Batch>) returns (stamp: int)
    ensures forall b :: b in batches ==> b.stamp < stamp
  {
    stamp := 0;
    for i := 0 to |batches|
      invariant forall j :: 0 <= j < i ==> batches[j].stamp < stamp
    {
      if batches[i].stamp >= stamp {
        stamp := batches[i].stamp + 1;
      }
    }
  }

  /** A busy worker's call may succeed, if the file is still there. */
  lemma SmoothWork(x: Setting, p: Pool, c: Cloud, i: nat) returns (a: Action)
    requires Inv(p) && Unfailed(p) && i < |p.workers| && Busy(p.workers[i])
    requires forall f :: f in p.listed ==> f.driveFileId in x.drive
    ensures Enabled(x, p, c, a) && SmoothAction(p, a)
  {
    assert p.workers[i] in p.workers;
    assert p.holder[p.workers[i].job] == i;
    assert JobFile(p, i) in p.listed;
    var stamp := LaterStamp(c.ingested);
    var r :=
      match p.workers[i]
      case Downloading(_) => Downloads(stamp)
      case Checking(_, _, _) => ChecksContext
      case Inserting(_, _, _) => LoadReplies(None, true)
      case Waiting(_, _, _) => TimerFires
      case LoadingMetadata(_, _) => MetadataReplies(true, true)
      case _ => DoneReplies(true, true);
    a := Work(i, r);
  }

  lemma SmoothNext(x: Setting, p: Pool, c: Cloud) returns (a: Action)
    requires Inv(p) && Unfailed(p) && !Finished(p)
    requires forall f :: f in p.listed ==> f.driveFileId in x.drive
    ensures Enabled(x, p, c, a) && SmoothAction(p, a)
  {
    assert p.workers[0] in p.workers;
    if i :| 0 <= i < |p.workers| && Busy(p.workers[i]) {
      a := SmoothWork(x, p, c, i);
    } else if i :| 0 <= i < |p.workers| && p.workers[i].Idle? {
      a := if p.queue != [] then Take(i)
           else if p.closed then LeaveClosed(i)
           else if p.next == |p.listed| then Close
           else Send;
    } else {
      assert p.workers[0].Left?;
      a := Return;
    }
  }

  /** From every unfailed state, as long as the listed files exist, a smooth run leads to the end. */
  lemma {:induction false} SmoothRunExists(x: Setting, p: Pool, c: Cloud) returns (run: seq<Action>)
    requires Inv(p) && Unfailed(p) && forall f :: f in p.listed ==> f.driveFileId in x.drive
    ensures ValidRun(x, p, c, run) && SmoothRun(x, p, c, run) && Finished(After(x, p, c, run).0)
    decreases Measure(p, c)
  {
    if Finished(p) {
      run := [];
    } else {
      var a := SmoothNext(x, p, c);
      StepInv(x, p, c, a);
      StepDecreases(x, p, c, a);
      SmoothStep(x, p, c, a);
      var rest := SmoothRunExists(x, PoolNext(x, p, c, a), CloudNext(x, p, c, a));
      run := [a] + rest;
      assert run[1..] == rest;
    }
  }
}
