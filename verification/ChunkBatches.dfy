/** The batches the workers append to the chunk log, as internal/etl/worker_pool.go builds them. */
module ChunkBatches {
  import opened Options
  import opened Text
  import opened Markdown
  import opened RetroLabels
  import opened Sprints
  import opened ChunkLog

  /**
   * One ingestion of a Markdown file: its content, the digest of that content, the
   * time it was taken, the policy in force, and the checksum the state store had
   * recorded for the file then.
   */
  datatype Batch = Batch(
    fileId: string, name: string, content: string, version: string, stamp: int,
    policy: SprintPolicy, recorded: string)

  // ------------------------------------------------------ what a worker appends

  function DriveUrl(fileId: string): string {
    "https://drive.google.com/file/d/" + fileId + "/view"
  }

  function ChunkRowOf(b: Batch, index: int, chunk: string): ChunkRow {
    var title := Extracted(b.content);
    var period := Period(b.policy, title);
    ChunkRow(
      b.fileId, index, chunk, "pending", Some(b.version), Some(b.stamp), Some(false),
      if period.Some? then Some(period.value.startDate) else None,
      if period.Some? then Some(period.value.endDate) else None,
      Some(b.name), Some(DriveUrl(b.fileId)),
      if title.Some? then Some(title.value.month) else None,
      if title.Some? then Some(title.value.sequence) else None)
  }

  /** Marks a file whose content has no chunks. */
  function Tombstone(b: Batch): ChunkRow {
    ChunkRow(b.fileId, 0, "", "pending", Some(b.version), Some(b.stamp), Some(true),
             None, None, Some(b.name), Some(DriveUrl(b.fileId)), None, None)
  }

  /** The rows of an ingestion: one per chunk, or a tombstone. */
  function RowsOf(b: Batch): (rows: seq<ChunkRow>)
    ensures rows != []
  {
    var chunks := Chunks(b.content);
    if chunks == [] then [Tombstone(b)]
    else seq(|chunks|, i requires 0 <= i < |chunks| => ChunkRowOf(b, i, chunks[i]))
  }

  method BuildRows(b: Batch) returns (rows: seq<ChunkRow>)
    ensures rows == RowsOf(b)
  {
    var title := ExtractRetroLabel(b.content);
    var period := Period(b.policy, title);
    var chunks := Parse(b.content);
    rows := [];
    for index := 0 to |chunks|
      invariant |rows| == index
      invariant forall i :: 0 <= i < index ==> rows[i] == ChunkRowOf(b, i, chunks[i])
    {
      var row := ChunkRow(b.fileId, index, chunks[index], "pending", Some(b.version), Some(b.stamp), Some(false),
                          None, None, Some(b.name), Some(DriveUrl(b.fileId)), None, None);
      if title.Some? {
        row := row.(retroMonth := Some(title.value.month), retroSequence := Some(title.value.sequence));
      }
      if period.Some? {
        row := row.(retroStartDate := Some(period.value.startDate), retroEndDate := Some(period.value.endDate));
      }
      rows := rows + [row];
    }
    if |rows| == 0 {
      rows := rows + [Tombstone(b)];
    }
  }

  /** The load job of a batch. */
  function LoadOf(b: Batch): Load {
    Load(b.fileId, b.version, b.stamp, RowsOf(b))
  }

  function LoadsOf(landed: seq<Batch>): (loads: seq<Load>)
    ensures |loads| == |landed|
  {
    seq(|landed|, i requires 0 <= i < |landed| => LoadOf(landed[i]))
  }

  /**
   * What ingestion guarantees: ingestions of one file have their own times, and
   * equal digests mean equal content.
   */
  ghost predicate Faithful(batches: seq<Batch>) {
    forall a, b :: a in batches && b in batches && a.fileId == b.fileId ==>
      (a.stamp == b.stamp ==> a == b) && (a.version == b.version ==> a.content == b.content)
  }

  /** No batch of the file was taken later. */
  ghost predicate NewestBatch(batches: seq<Batch>, b: Batch) {
    b in batches && forall a :: a in batches && a.fileId == b.fileId ==> a.stamp <= b.stamp
  }

  /** The tombstone: chunk 0, empty and deleted, without label and period. */
  lemma TombstoneSpec(b: Batch)
    requires Blank(b.content)
    ensures |RowsOf(b)| == 1
    ensures var r := RowsOf(b)[0];
            && r.fileId == b.fileId && r.chunkIndex == 0 && r.content == "" && r.isDeleted == Some(true)
            && r.contentVersion == Some(b.version) && r.ingestedAt == Some(b.stamp) && r.embeddingStatus == "pending"
            && r.documentName == Some(b.name)
            && r.driveUrl == Some("https://drive.google.com/file/d/" + b.fileId + "/view")
            && r.retroMonth == None && r.retroSequence == None && r.retroStartDate == None && r.retroEndDate == None
  {
    ChunksEmpty(b.content);
  }

  lemma BatchRow(b: Batch, i: nat)
    requires i < |RowsOf(b)|
    ensures RowsOf(b)[i] == if Chunks(b.content) == [] then Tombstone(b) else ChunkRowOf(b, i, Chunks(b.content)[i])
    ensures Chunks(b.content) == [] ==> i == 0
  {
  }

  /** Every batch is one ingestion in the sense of the view. */
  lemma BatchIsSound(b: Batch)
    ensures Sound(LoadOf(b))
  {
    var rows := RowsOf(b);
    forall i | 0 <= i < |rows|
      ensures rows[i].fileId == b.fileId && rows[i].contentVersion == Some(b.version)
      ensures rows[i].ingestedAt == Some(b.stamp) && rows[i].chunkIndex == i
    {
      BatchRow(b, i);
    }
  }

  lemma SameLength(a: Batch, b: Batch)
    requires a.content == b.content
    ensures |RowsOf(a)| == |RowsOf(b)|
  {
  }

  lemma LoadsMember(landed: seq<Batch>, l: Load) returns (b: Batch)
    requires l in LoadsOf(landed)
    ensures b in landed && l == LoadOf(b)
  {
    var i :| 0 <= i < |landed| && LoadsOf(landed)[i] == l;
    b := landed[i];
  }

  lemma MemberLoads(landed: seq<Batch>, b: Batch)
    requires b in landed
    ensures LoadOf(b) in LoadsOf(landed)
  {
    var i :| 0 <= i < |landed| && landed[i] == b;
    assert LoadsOf(landed)[i] == LoadOf(b);
  }

  /** The workers' batches meet the view's requirements. */
  lemma BatchesWellFormed(landed: seq<Batch>)
    requires Faithful(landed)
    ensures WellFormed(LoadsOf(landed))
  {
    forall l | l in LoadsOf(landed) ensures Sound(l) {
      var b := LoadsMember(landed, l);
      BatchIsSound(b);
    }
    forall l, k | l in LoadsOf(landed) && k in LoadsOf(landed) && l.fileId == k.fileId
      ensures (l.stamp == k.stamp ==> l == k) && (l.version == k.version ==> |l.rows| == |k.rows|)
    {
      var a := LoadsMember(landed, l);
      var b := LoadsMember(landed, k);
      if a.content == b.content { SameLength(a, b); }
    }
  }

  lemma NewestBatchLoad(landed: seq<Batch>, b: Batch)
    requires NewestBatch(landed, b)
    ensures Newest(LoadsOf(landed), LoadOf(b))
  {
    MemberLoads(landed, b);
    forall l | l in LoadsOf(landed) && l.fileId == b.fileId ensures l.stamp <= b.stamp {
      var a := LoadsMember(landed, l);
    }
  }

  /** What the view must show of a file whose newest batch is b. */
  function CurrentRows(b: Batch): seq<CurrentRow> {
    var chunks := Chunks(b.content);
    seq(|chunks|, i requires 0 <= i < |chunks| => Project(ChunkRowOf(b, i, chunks[i])))
  }

  /** The chunks of a batch as the view shows them: indices 0..n-1 in order, under its name. */
  lemma CurrentRowsSpec(b: Batch)
    ensures |CurrentRows(b)| == |Chunks(b.content)|
    ensures forall i :: 0 <= i < |CurrentRows(b)| ==>
              var c := CurrentRows(b)[i];
              && c.fileId == b.fileId && c.chunkIndex == i && c.content == Chunks(b.content)[i]
              && c.documentName == Some(b.name) && c.contentVersion == Some(b.version)
              && c.ingestedAt == Some(b.stamp) && c.embeddingStatus == "pending"
              && c.driveUrl == Some("https://drive.google.com/file/d/" + b.fileId + "/view")
    ensures CurrentRows(b) == [] <==> Blank(b.content)
  {
    ChunksEmpty(b.content);
  }

  /** One label and one period for all chunks of a file, taken before the document is cut. */
  lemma CurrentRowsLabel(b: Batch)
    ensures var title, period := Extracted(b.content), Period(b.policy, Extracted(b.content));
            forall c :: c in CurrentRows(b) ==>
              && (match title
                  case Some(l) => c.retroMonth == Some(l.month) && c.retroSequence == Some(l.sequence)
                  case None => c.retroMonth == None && c.retroSequence == None)
              && (match period
                  case Some(p) => c.retroStartDate == Some(p.startDate) && c.retroEndDate == Some(p.endDate)
                  case None => c.retroStartDate == None && c.retroEndDate == None)
              && (c.retroStartDate.Some? ==> c.retroMonth.Some?)
  {
  }

  lemma VisibleRows(b: Batch, c: CurrentRow)
    ensures Visible(LoadOf(b), c) <==> c in CurrentRows(b)
  {
    if Visible(LoadOf(b), c) {
      var i :| 0 <= i < |RowsOf(b)| && RowsOf(b)[i].isDeleted != Some(true) && Project(RowsOf(b)[i]) == c;
      BatchRow(b, i);
      assert c == CurrentRows(b)[i];
    }
    if c in CurrentRows(b) {
      var i :| 0 <= i < |CurrentRows(b)| && CurrentRows(b)[i] == c;
      BatchRow(b, i);
      assert LoadOf(b).rows[i].isDeleted != Some(true) && Project(LoadOf(b).rows[i]) == c;
    }
  }

  /**
   * The view over any table the workers can have written, legacy rows included: a
   * file shows the chunks of its newest landed batch, once each, and nothing else.
   */
  lemma BatchView(table: seq<ChunkRow>, legacy: seq<ChunkRow>, landed: seq<Batch>,
                  view: multiset<CurrentRow>, b: Batch)
    requires IsTable(table, legacy, LoadsOf(landed)) && Faithful(landed)
    requires IsChunksCurrent(table, view) && NewestBatch(landed, b)
    ensures forall c: CurrentRow :: c.fileId == b.fileId ==> view[c] == if c in CurrentRows(b) then 1 else 0
  {
    BatchesWellFormed(landed);
    ViewRefinement(table, legacy, LoadsOf(landed), view);
    NewestBatchLoad(landed, b);
    forall c: CurrentRow | c.fileId == b.fileId ensures view[c] == if c in CurrentRows(b) then 1 else 0 {
      FileView(LoadsOf(landed), view, LoadOf(b), c);
      VisibleRows(b, c);
    }
  }

  function Repeat(b: Batch, n: nat): seq<Batch> {
    seq(n, i => b)
  }

  /** One landing of a batch or many: the view is the same. */
  lemma RepeatedLanding(landed: seq<Batch>, b: Batch, n: nat, view: multiset<CurrentRow>)
    requires n >= 1
    ensures IsReference(LoadsOf(landed + Repeat(b, n)), view) <==> IsReference(LoadsOf(landed + [b]), view)
  {
    var once, many := landed + [b], landed + Repeat(b, n);
    assert Repeat(b, n)[0] == b;
    assert forall a :: a in once <==> a in many;
    forall l ensures l in LoadsOf(once) <==> l in LoadsOf(many) {
      if l in LoadsOf(once) {
        var a := LoadsMember(once, l);
        MemberLoads(many, a);
      }
      if l in LoadsOf(many) {
        var a := LoadsMember(many, l);
        MemberLoads(once, a);
      }
    }
    RetriesInvisible(LoadsOf(once), LoadsOf(many), view);
  }

  /** Every row of the view is a row of a landed batch. */
  lemma RowOfBatch(table: seq<ChunkRow>, legacy: seq<ChunkRow>, landed: seq<Batch>,
                   view: multiset<CurrentRow>, c: CurrentRow) returns (b: Batch)
    requires IsTable(table, legacy, LoadsOf(landed)) && Faithful(landed) && IsChunksCurrent(table, view) && c in view
    ensures b in landed && b.fileId == c.fileId && c in CurrentRows(b)
  {
    BatchesWellFormed(landed);
    ViewRefinement(table, legacy, LoadsOf(landed), view);
    var l :| Newest(LoadsOf(landed), l) && Visible(l, c);
    b := LoadsMember(landed, l);
    VisibleRows(b, c);
    CurrentRowsSpec(b);
    var i :| 0 <= i < |CurrentRows(b)| && CurrentRows(b)[i] == c;
  }

  /** All rows the view shows of a file share one content_version and one ingested_at. */
  lemma OneVersionPerFile(table: seq<ChunkRow>, legacy: seq<ChunkRow>, landed: seq<Batch>,
                          view: multiset<CurrentRow>, c: CurrentRow, d: CurrentRow)
    requires IsTable(table, legacy, LoadsOf(landed)) && Faithful(landed) && IsChunksCurrent(table, view)
    requires c in view && d in view && c.fileId == d.fileId
    ensures c.contentVersion == d.contentVersion && c.contentVersion.Some?
    ensures c.ingestedAt == d.ingestedAt && c.ingestedAt.Some?
  {
    BatchesWellFormed(landed);
    ViewRefinement(table, legacy, LoadsOf(landed), view);
    var k :| Newest(LoadsOf(landed), k) && Visible(k, c);
    var l :| Newest(LoadsOf(landed), l) && Visible(l, d);
  }
}
