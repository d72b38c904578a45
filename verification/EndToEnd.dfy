/** From a history of runs to the Gold views: what the pieces give together. */
module EndToEnd {
  import opened Options
  import opened Text
  import opened Markdown
  import opened ChunkLog
  import opened ChunkBatches
  import opened WorkerPool
  import opened Pipeline
  import opened GoldMarts
  import opened RetroDocuments
  import opened GoldDelivery

  /** The document `retro_documents` builds for a file whose newest batch b landed, and whether it is this content. */
  lemma DocumentOfLanded(h: Digests, w: World, id: string, b: Batch, content: string, table: seq<ChunkRow>,
                         legacy: seq<ChunkRow>, view: multiset<CurrentRow>, rows: seq<CurrentRow>)
    requires Reached(h, w) && Collisionless(h) && LandedNewest(w.cloud, id, b)
    requires IsTable(table, legacy, LoadsOf(w.cloud.landed)) && IsChunksCurrent(table, view)
    requires InChunkOrder(view, id, rows)
    ensures Contents(rows) == Markdown.Chunks(b.content) && (rows == [] <==> Blank(b.content))
    ensures rows != [] ==> (rows[0].contentVersion == Some(h.sha256(content)) <==> b.content == content)
    ensures forall c :: MayBeMetadata(rows, c) ==> c == rows[0] && c.documentName == Some(b.name)
  {
    ReachedInv(h, w);
    LogIsFaithful(h, w);
    assert NewestBatch(w.cloud.landed, b);
    DocumentOfNewest(table, legacy, w.cloud.landed, view, b, rows);
    DocumentRows(table, legacy, w.cloud.landed, view, b, rows);
    CurrentRowsSpec(b);
    NewestDigest(h, w, b);
  }

  /**
   * After a run that got past the pool: the document of a discovered Markdown file has the
   * chunks of the current content in order, none exactly for a blank one, if the file was
   * due before the run or its newest batch matched its record; and only then does a document
   * that is there carry the digest of the current content. It always carries the current name.
   */
  lemma DocumentOfPassedRun(h: Digests, w: World, id: string, table: seq<ChunkRow>, legacy: seq<ChunkRow>,
                            view: multiset<CurrentRow>, rows: seq<CurrentRow>) returns (b: Batch)
    requires Reached(h, w) && Collisionless(h) && Passed(w) && id in w.phase.discovered
    requires id in w.cloud.store && w.cloud.store[id].mimeType == MARKDOWN
    requires IsTable(table, legacy, LoadsOf(w.cloud.landed)) && IsChunksCurrent(table, view)
    requires InChunkOrder(view, id, rows)
    ensures id in w.drive && LandedNewest(w.cloud, id, b)
    ensures var current := w.drive[id].content;
            Due(w.phase.before, w.phase.force, Discovered(id, w.drive[id])) || Matches(h, b)
            ==> Contents(rows) == Markdown.Chunks(current) && (rows == [] <==> Blank(current))
    ensures rows != [] ==>
              (Due(w.phase.before, w.phase.force, Discovered(id, w.drive[id])) || Matches(h, b)
               <==> rows[0].contentVersion == Some(h.sha256(w.drive[id].content)))
    ensures forall c :: MayBeMetadata(rows, c) ==> c == rows[0] && c.documentName == Some(w.drive[id].name)
  {
    b := ConvergenceExactly(h, w, id);
    DocumentOfLanded(h, w, id, b, w.drive[id].content, table, legacy, view, rows);
  }

  /** The same for one file that a run has settled, by whether the run queued it. */
  lemma DocumentOfSettledFile(h: Digests, w: World, id: string, table: seq<ChunkRow>, legacy: seq<ChunkRow>,
                              view: multiset<CurrentRow>, rows: seq<CurrentRow>) returns (b: Batch)
    requires Reached(h, w) && Collisionless(h) && Settled(w, id)
    requires id in w.cloud.store && w.cloud.store[id].mimeType == MARKDOWN
    requires IsTable(table, legacy, LoadsOf(w.cloud.landed)) && IsChunksCurrent(table, view)
    requires InChunkOrder(view, id, rows)
    ensures id in w.drive && LandedNewest(w.cloud, id, b)
    ensures Queued(w.phase.pool, id) || Matches(h, b) ==>
              && Contents(rows) == Markdown.Chunks(w.drive[id].content)
              && (rows == [] <==> Blank(w.drive[id].content))
    ensures rows != [] ==> (Queued(w.phase.pool, id) || Matches(h, b)
                            <==> rows[0].contentVersion == Some(h.sha256(w.drive[id].content)))
    ensures forall c :: MayBeMetadata(rows, c) ==> c == rows[0] && c.documentName == Some(w.drive[id].name)
  {
    b := SettledNewest(h, w, id);
    DocumentOfLanded(h, w, id, b, w.drive[id].content, table, legacy, view, rows);
  }

  /** Hence a forced run that passes leaves the current document, after any history. */
  lemma DocumentOfForcedRun(h: Digests, w: World, id: string, table: seq<ChunkRow>, legacy: seq<ChunkRow>,
                            view: multiset<CurrentRow>, rows: seq<CurrentRow>)
    requires Reached(h, w) && Collisionless(h) && Passed(w) && w.phase.force && id in w.phase.discovered
    requires id in w.cloud.store && w.cloud.store[id].mimeType == MARKDOWN
    requires IsTable(table, legacy, LoadsOf(w.cloud.landed)) && IsChunksCurrent(table, view)
    requires InChunkOrder(view, id, rows)
    ensures id in w.drive && Contents(rows) == Markdown.Chunks(w.drive[id].content)
    ensures rows == [] <==> Blank(w.drive[id].content)
    ensures forall c :: MayBeMetadata(rows, c) ==> c == rows[0] && c.documentName == Some(w.drive[id].name)
  {
    var _ := DocumentOfPassedRun(h, w, id, table, legacy, view, rows);
  }

  /**
   * After any history whatever, Silver determines both marts: each query of the refresh has
   * one result, and the daily file counts sum to the number of files.
   */
  lemma MartsOfHistory(h: Digests, w: World, table: seq<ChunkRow>, legacy: seq<ChunkRow>,
                       view: multiset<CurrentRow>, rows: seq<CurrentRow>)
    requires Reached(h, w) && Collisionless(h)
    requires IsTable(table, legacy, LoadsOf(w.cloud.landed)) && IsChunksCurrent(table, view) && multiset(rows) == view
    ensures var s := SilverRows(rows);
            && VersionsAgree(s)
            && (forall a, b :: IsLatest(s, a) && IsLatest(s, b) ==> a == b)
            && SumOver(Daily(s), FileCount()) == |Files(s)|
  {
    LogIsFaithful(h, w);
    SilverAgrees(table, legacy, w.cloud.landed, view, rows);
    MartsWellDefined(table, legacy, w.cloud.landed, view, rows);
  }

  /**
   * The history and the verifier together: over the Silver of any history whatever, not
   * empty or allowed to be, a refreshing run without API failures on a tidy folder succeeds,
   * and leaves both marts delivered.
   */
  method VerifyAfterHistory(service: GoldService, o: Settings, f: Faults, ghost h: Digests, ghost w: World,
                            ghost table: seq<ChunkRow>, ghost legacy: seq<ChunkRow>,
                            ghost view: multiset<CurrentRow>, ghost rows: seq<CurrentRow>)
      returns (ok: bool, r: Report)
    requires Reached(h, w) && Collisionless(h)
    requires IsTable(table, legacy, LoadsOf(w.cloud.landed)) && IsChunksCurrent(table, view) && multiset(rows) == view
    requires service.Valid() && service.silver == SilverRows(rows)
    requires o.mutate && NoFaults(f) && service.folderId != "" && Tidy(service.files)
    requires o.allowEmpty || rows != []
    modifies service
    ensures ok && r == CompleteReport(o) && service.InOrder(o.allowEmpty)
    ensures forall t: Table :: KeptId(old(service.files), service.files, t)
  {
    MartsOfHistory(h, w, table, legacy, view, rows);
    assert service.silver == [] ==> rows == [];
    ok, r := service.Verify(o, f);
  }
}
