/** The Gold view retro_documents of iac/silver_gold.tf: one document per file. */
module RetroDocuments {
  import opened Options
  import opened Text
  import opened Markdown
  import opened ChunkLog
  import opened ChunkBatches

  function Contents(rows: seq<CurrentRow>): seq<string> {
    seq(|rows|, i requires 0 <= i < |rows| => rows[i].content)
  }

  /** The rows a view shows of a file, in `ORDER BY chunk_index`; ties in any order. */
  ghost predicate InChunkOrder(view: multiset<CurrentRow>, id: string, rows: seq<CurrentRow>) {
    && (forall c: CurrentRow :: multiset(rows)[c] == if c.fileId == id then view[c] else 0)
    && (forall i, j :: 0 <= i < j < |rows| ==> rows[i].chunkIndex <= rows[j].chunkIndex)
  }

  /** The row that `ORDER BY ingested_at DESC, chunk_index ASC LIMIT 1` may pick. */
  ghost predicate MayBeMetadata(rows: seq<CurrentRow>, c: CurrentRow) {
    && c in rows
    && forall r :: r in rows ==> !Below(c.ingestedAt, r.ingestedAt)
                                 && (r.ingestedAt == c.ingestedAt ==> c.chunkIndex <= r.chunkIndex)
  }

  /** Rows sorted by an index that takes each of 0..n-1 once are in that order. */
  lemma {:induction false} OrderedByIndex(rows: seq<CurrentRow>, sorted: seq<CurrentRow>, i: nat)
    requires forall k :: 0 <= k < |sorted| ==> sorted[k].chunkIndex == k
    requires forall c :: c in rows <==> c in sorted
    requires forall c :: multiset(rows)[c] <= 1
    requires forall k, j :: 0 <= k < j < |rows| ==> rows[k].chunkIndex <= rows[j].chunkIndex
    ensures i <= |rows| && i <= |sorted| ==> rows[..i] == sorted[..i]
  {
    if 0 < i && i <= |rows| && i <= |sorted| {
      var n := i - 1;
      OrderedByIndex(rows, sorted, n);
      assert sorted[n] in rows && rows[n] in sorted;
      var j :| 0 <= j < |rows| && rows[j] == sorted[n];
      var m :| 0 <= m < |sorted| && sorted[m] == rows[n];
      assert forall k :: 0 <= k < n ==> rows[..n][k] == sorted[..n][k];
      assert j >= n;
      assert m >= n by {
        if m < n { Twice(rows, m, n); }
      }
      assert rows[..i] == rows[..n] + [rows[n]] && sorted[..i] == sorted[..n] + [sorted[n]];
    }
  }

  lemma Twice(rows: seq<CurrentRow>, m: nat, n: nat)
    requires m < n < |rows| && rows[m] == rows[n]
    ensures multiset(rows)[rows[m]] >= 2
  {
    assert rows == rows[..n] + [rows[n]] + rows[n + 1..];
    assert rows[m] == rows[..n][m];
  }

  lemma IndexFits(rows: seq<CurrentRow>, sorted: seq<CurrentRow>, k: nat)
    requires forall i :: 0 <= i < |sorted| ==> sorted[i].chunkIndex == i
    requires forall c :: c in rows <==> c in sorted
    requires forall c :: multiset(rows)[c] <= 1
    requires forall i, j :: 0 <= i < j < |rows| ==> rows[i].chunkIndex <= rows[j].chunkIndex
    requires k < |sorted|
    ensures k < |rows|
  {
    var n := if |rows| < |sorted| then |rows| else |sorted|;
    OrderedByIndex(rows, sorted, n);
    assert sorted[k] in rows;
    var j :| 0 <= j < |rows| && rows[j] == sorted[k];
    if j < n { assert rows[..n][j] == sorted[..n][j]; }
  }

  lemma SameRows(rows: seq<CurrentRow>, sorted: seq<CurrentRow>)
    requires forall k :: 0 <= k < |sorted| ==> sorted[k].chunkIndex == k
    requires forall c :: c in rows <==> c in sorted
    requires forall c :: multiset(rows)[c] <= 1
    requires forall k, j :: 0 <= k < j < |rows| ==> rows[k].chunkIndex <= rows[j].chunkIndex
    ensures rows == sorted
  {
    var n := if |rows| < |sorted| then |rows| else |sorted|;
    OrderedByIndex(rows, sorted, n);
    if sorted != [] { IndexFits(rows, sorted, |sorted| - 1); }
    assert sorted[..n] == sorted;
    if n < |rows| {
      assert rows[n] in sorted;
      var j :| 0 <= j < n && sorted[j] == rows[n];
      assert rows[..n][j] == sorted[j];
      Twice(rows, j, n);
    }
    assert rows[..|rows|] == rows;
  }

  /** The rows of a file in chunk order are the rows of its newest landed batch. */
  lemma DocumentRows(table: seq<ChunkRow>, legacy: seq<ChunkRow>, landed: seq<Batch>,
                     view: multiset<CurrentRow>, b: Batch, rows: seq<CurrentRow>)
    requires IsTable(table, legacy, LoadsOf(landed)) && Faithful(landed)
    requires IsChunksCurrent(table, view) && NewestBatch(landed, b)
    requires InChunkOrder(view, b.fileId, rows)
    ensures rows == CurrentRows(b)
  {
    BatchView(table, legacy, landed, view, b);
    CurrentRowsSpec(b);
    var sorted := CurrentRows(b);
    forall c: CurrentRow
      ensures c in rows <==> c in sorted
      ensures multiset(rows)[c] <= 1
    {
      assert c in rows <==> c in multiset(rows);
    }
    SameRows(rows, sorted);
  }

  /**
   * The document of a file whose newest landed batch is b: whatever order ties come in,
   * its text is b's chunks joined by an empty line, and its metadata row is b's first chunk.
   */
  lemma DocumentOfBatch(table: seq<ChunkRow>, legacy: seq<ChunkRow>, landed: seq<Batch>,
                        view: multiset<CurrentRow>, b: Batch, rows: seq<CurrentRow>, c: CurrentRow)
    requires IsTable(table, legacy, LoadsOf(landed)) && Faithful(landed)
    requires IsChunksCurrent(table, view) && NewestBatch(landed, b)
    requires InChunkOrder(view, b.fileId, rows) && MayBeMetadata(rows, c)
    ensures Contents(rows) == Chunks(b.content)
    ensures c == CurrentRows(b)[0] && c.documentName == Some(b.name) && c.contentVersion == Some(b.version)
  {
    DocumentRows(table, legacy, landed, view, b, rows);
    DocumentOfRows(b, c);
  }

  /** The whole document of a file: its chunks, its name, and no row exactly for a blank content. */
  lemma DocumentOfNewest(table: seq<ChunkRow>, legacy: seq<ChunkRow>, landed: seq<Batch>,
                         view: multiset<CurrentRow>, b: Batch, rows: seq<CurrentRow>)
    requires IsTable(table, legacy, LoadsOf(landed)) && Faithful(landed)
    requires IsChunksCurrent(table, view) && NewestBatch(landed, b) && InChunkOrder(view, b.fileId, rows)
    ensures Contents(rows) == Chunks(b.content) && (rows == [] <==> Blank(b.content))
    ensures forall c :: MayBeMetadata(rows, c) ==> c == rows[0] && c.documentName == Some(b.name)
  {
    DocumentRows(table, legacy, landed, view, b, rows);
    ContentsOfRows(b);
    forall c | MayBeMetadata(rows, c) ensures c == rows[0] && c.documentName == Some(b.name) {
      DocumentOfRows(b, c);
    }
  }

  lemma ContentsOfRows(b: Batch)
    ensures Contents(CurrentRows(b)) == Chunks(b.content) && (CurrentRows(b) == [] <==> Blank(b.content))
  {
    CurrentRowsSpec(b);
  }

  lemma DocumentOfRows(b: Batch, c: CurrentRow)
    requires MayBeMetadata(CurrentRows(b), c)
    ensures Contents(CurrentRows(b)) == Chunks(b.content)
    ensures c == CurrentRows(b)[0] && c.documentName == Some(b.name) && c.contentVersion == Some(b.version)
  {
    CurrentRowsSpec(b);
    var rows := CurrentRows(b);
    assert rows[0] in rows;
    var i :| 0 <= i < |rows| && rows[i] == c;
  }
}
