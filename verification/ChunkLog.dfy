/** The append-only `chunks` table and the `chunks_current` view of iac/bigquery.tf. */
module ChunkLog {
  import opened Options
  import opened Text

  datatype ChunkRow = ChunkRow(
    fileId: string, chunkIndex: int, content: string, embeddingStatus: string,
    contentVersion: Option<string>, ingestedAt: Option<int>, isDeleted: Option<bool>,
    retroStartDate: Option<string>, retroEndDate: Option<string>,
    documentName: Option<string>, driveUrl: Option<string>,
    retroMonth: Option<string>, retroSequence: Option<int>)

  /** A row of the view: every column but is_deleted. */
  datatype CurrentRow = CurrentRow(
    fileId: string, chunkIndex: int, content: string, embeddingStatus: string,
    contentVersion: Option<string>, ingestedAt: Option<int>,
    retroStartDate: Option<string>, retroEndDate: Option<string>,
    documentName: Option<string>, driveUrl: Option<string>,
    retroMonth: Option<string>, retroSequence: Option<int>)

  /** The rows that one load job appends; it lands whole or not at all. */
  datatype Load = Load(fileId: string, version: string, stamp: int, rows: seq<ChunkRow>)

  // ----------------------------------------------------------------- the view

  /** SQL's order on a nullable column: NULL below every value. */
  predicate Below(a: Option<int>, b: Option<int>) {
    b.Some? && (a.None? || a.value < b.value)
  }

  /** MAX(ingested_at) of one group of version_candidates; NULLs are ignored. */
  function VersionIngestedAt(table: seq<ChunkRow>, fileId: string, version: string): Option<int> {
    if table == [] then None
    else
      var max := VersionIngestedAt(table[1..], fileId, version);
      if table[0].fileId == fileId && table[0].contentVersion == Some(version) && Below(max, table[0].ingestedAt)
      then table[0].ingestedAt else max
  }

  /** (file_id, content_version) is a row of version_candidates. */
  ghost predicate IsCandidate(table: seq<ChunkRow>, fileId: string, version: string) {
    exists r :: r in table && r.fileId == fileId && r.contentVersion == Some(version)
  }

  /** v sorts before w in `ORDER BY version_ingested_at DESC, content_version DESC`. */
  predicate SortsBefore(table: seq<ChunkRow>, fileId: string, v: string, w: string) {
    var tv, tw := VersionIngestedAt(table, fileId, v), VersionIngestedAt(table, fileId, w);
    Below(tw, tv) || (tv == tw && LexLess(w, v))
  }

  /** latest_versions: the first candidate of every file. */
  ghost predicate IsLatestVersions(table: seq<ChunkRow>, latest: map<string, string>) {
    && (forall r :: r in table && r.contentVersion.Some? ==> r.fileId in latest)
    && (forall f :: f in latest ==> IsCandidate(table, f, latest[f]))
    && (forall f, v :: f in latest && IsCandidate(table, f, v) ==> !SortsBefore(table, f, v, latest[f]))
  }

  /** `PARTITION BY file_id, content_version, chunk_index`. */
  datatype Partition = Partition(fileId: string, version: Option<string>, chunkIndex: int)

  function PartitionOf(r: ChunkRow): Partition {
    Partition(r.fileId, r.contentVersion, r.chunkIndex)
  }

  /** deduplicated_chunks: one row of every partition, none newer; ties are broken arbitrarily. */
  ghost predicate IsDeduplicated(table: seq<ChunkRow>, kept: map<Partition, ChunkRow>) {
    && (forall p :: p in kept ==> kept[p] in table && PartitionOf(kept[p]) == p)
    && (forall r :: r in table ==> PartitionOf(r) in kept && !Below(kept[PartitionOf(r)].ingestedAt, r.ingestedAt))
  }

  function Project(r: ChunkRow): CurrentRow {
    CurrentRow(r.fileId, r.chunkIndex, r.content, r.embeddingStatus, r.contentVersion, r.ingestedAt,
               r.retroStartDate, r.retroEndDate, r.documentName, r.driveUrl, r.retroMonth, r.retroSequence)
  }

  /** The rows that survive the join and the tombstone filter. */
  predicate Survives(latest: map<string, string>, r: ChunkRow) {
    r.fileId in latest && r.contentVersion == Some(latest[r.fileId]) && r.isDeleted != Some(true)
  }

  /** A possible result of the view, as a bag of rows. */
  ghost predicate IsChunksCurrent(table: seq<ChunkRow>, view: multiset<CurrentRow>) {
    exists latest, kept :: IsLatestVersions(table, latest) && IsDeduplicated(table, kept)
                           && IsSelection(latest, kept, view)
  }

  /** The kept rows that appear in the view as c. */
  function Selected(latest: map<string, string>, kept: map<Partition, ChunkRow>, c: CurrentRow): set<Partition> {
    set p | p in kept && Survives(latest, kept[p]) && Project(kept[p]) == c
  }

  ghost predicate IsSelection(latest: map<string, string>, kept: map<Partition, ChunkRow>, view: multiset<CurrentRow>) {
    forall c :: view[c] == |Selected(latest, kept, c)|
  }

  // ------------------------------------------------------------ the reference

  /** No landed load of the file was taken later. */
  ghost predicate Newest(landed: seq<Load>, l: Load) {
    l in landed && forall a :: a in landed && a.fileId == l.fileId ==> a.stamp <= l.stamp
  }

  /** c is a row of the load that is no tombstone. */
  ghost predicate Visible(l: Load, c: CurrentRow) {
    exists i :: 0 <= i < |l.rows| && l.rows[i].isDeleted != Some(true) && Project(l.rows[i]) == c
  }

  ghost predicate Shown(landed: seq<Load>, c: CurrentRow) {
    exists l :: Newest(landed, l) && Visible(l, c)
  }

  /** A file's rows of the landed load with the greatest ingested_at, once each. */
  ghost predicate IsReference(landed: seq<Load>, view: multiset<CurrentRow>) {
    forall c :: view[c] == if Shown(landed, c) then 1 else 0
  }

  /** One ingestion: at least one row, numbered from 0, all with one file, version and time. */
  ghost predicate Sound(l: Load) {
    && l.rows != []
    && forall i :: 0 <= i < |l.rows| ==>
         && l.rows[i].fileId == l.fileId && l.rows[i].contentVersion == Some(l.version)
         && l.rows[i].ingestedAt == Some(l.stamp) && l.rows[i].chunkIndex == i
  }

  /**
   * What the writers guarantee: ingestions of one file have their own times, and
   * equal versions have equally many rows.
   */
  ghost predicate WellFormed(landed: seq<Load>) {
    && (forall l :: l in landed ==> Sound(l))
    && (forall a, b :: a in landed && b in landed && a.fileId == b.fileId ==>
          (a.stamp == b.stamp ==> a == b) && (a.version == b.version ==> |a.rows| == |b.rows|))
  }

  /** A row of the table before content_version existed, or a row of a landed load. */
  ghost predicate Appended(legacy: seq<ChunkRow>, landed: seq<Load>, r: ChunkRow) {
    r in legacy || exists l :: l in landed && r in l.rows
  }

  /** The table holds these rows and no others, in any order and multiplicity. */
  ghost predicate IsTable(table: seq<ChunkRow>, legacy: seq<ChunkRow>, landed: seq<Load>) {
    && (forall r :: r in legacy ==> r.contentVersion == None)
    && (forall r :: r in table <==> Appended(legacy, landed, r))
  }

  // ------------------------------------------------------ stage one: versions

  lemma {:induction false} VersionIngestedAtBound(table: seq<ChunkRow>, r: ChunkRow)
    requires r in table && r.contentVersion.Some?
    ensures !Below(VersionIngestedAt(table, r.fileId, r.contentVersion.value), r.ingestedAt)
  {
    if r in table[1..] {
      VersionIngestedAtBound(table[1..], r);
    }
  }

  lemma {:induction false} VersionIngestedAtRow(table: seq<ChunkRow>, fileId: string, version: string)
      returns (r: ChunkRow)
    requires VersionIngestedAt(table, fileId, version).Some?
    ensures r in table && r.fileId == fileId && r.contentVersion == Some(version)
    ensures r.ingestedAt == VersionIngestedAt(table, fileId, version)
  {
    if VersionIngestedAt(table, fileId, version) == VersionIngestedAt(table[1..], fileId, version) {
      r := VersionIngestedAtRow(table[1..], fileId, version);
    } else {
      r := table[0];
    }
  }

  /** Versioned rows come from loads. */
  lemma RowOrigin(table: seq<ChunkRow>, legacy: seq<ChunkRow>, landed: seq<Load>, r: ChunkRow) returns (l: Load)
    requires IsTable(table, legacy, landed) && WellFormed(landed) && r in table && r.contentVersion.Some?
    ensures l in landed && r in l.rows && l.fileId == r.fileId
    ensures Some(l.version) == r.contentVersion && Some(l.stamp) == r.ingestedAt
    ensures 0 <= r.chunkIndex < |l.rows| && r == l.rows[r.chunkIndex]
  {
    assert Appended(legacy, landed, r);
    l :| l in landed && r in l.rows;
  }

  lemma RowInTable(table: seq<ChunkRow>, legacy: seq<ChunkRow>, landed: seq<Load>, l: Load, i: nat)
    requires IsTable(table, legacy, landed) && l in landed && i < |l.rows|
    ensures l.rows[i] in table
  {
    assert Appended(legacy, landed, l.rows[i]);
  }

  lemma NewestVersionTime(table: seq<ChunkRow>, legacy: seq<ChunkRow>, landed: seq<Load>, b: Load)
    requires IsTable(table, legacy, landed) && WellFormed(landed) && Newest(landed, b)
    ensures VersionIngestedAt(table, b.fileId, b.version) == Some(b.stamp)
    ensures IsCandidate(table, b.fileId, b.version)
  {
    RowInTable(table, legacy, landed, b, 0);
    VersionIngestedAtBound(table, b.rows[0]);
    var r := VersionIngestedAtRow(table, b.fileId, b.version);
    var a := RowOrigin(table, legacy, landed, r);
  }

  /** Every candidate's time is the stamp of one of the file's loads. */
  lemma CandidateTime(table: seq<ChunkRow>, legacy: seq<ChunkRow>, landed: seq<Load>, b: Load, v: string)
    requires IsTable(table, legacy, landed) && WellFormed(landed) && Newest(landed, b)
    ensures !Below(Some(b.stamp), VersionIngestedAt(table, b.fileId, v))
    ensures VersionIngestedAt(table, b.fileId, v) == Some(b.stamp) ==> v == b.version
  {
    if VersionIngestedAt(table, b.fileId, v).Some? {
      var r := VersionIngestedAtRow(table, b.fileId, v);
      var a := RowOrigin(table, legacy, landed, r);
    }
  }

  /** The first window picks the version of the newest load. */
  lemma LatestIsNewest(table: seq<ChunkRow>, legacy: seq<ChunkRow>, landed: seq<Load>,
                       latest: map<string, string>, b: Load)
    requires IsTable(table, legacy, landed) && WellFormed(landed)
    requires IsLatestVersions(table, latest) && Newest(landed, b)
    ensures b.fileId in latest && latest[b.fileId] == b.version
  {
    NewestVersionTime(table, legacy, landed, b);
    RowInTable(table, legacy, landed, b, 0);
    NothingSortsAhead(table, legacy, landed, b, latest[b.fileId]);
  }

  /** The version of the newest load sorts before every other candidate. */
  lemma NothingSortsAhead(table: seq<ChunkRow>, legacy: seq<ChunkRow>, landed: seq<Load>, b: Load, v: string)
    requires IsTable(table, legacy, landed) && WellFormed(landed) && Newest(landed, b)
    requires IsCandidate(table, b.fileId, v)
    ensures v != b.version ==> SortsBefore(table, b.fileId, b.version, v)
  {
    NewestVersionTime(table, legacy, landed, b);
    CandidateTime(table, legacy, landed, b, v);
  }

  // ---------------------------------------------------------- stage two: rows

  /** The second window keeps exactly the rows of the newest load among those of its version. */
  lemma KeptIsNewest(table: seq<ChunkRow>, legacy: seq<ChunkRow>, landed: seq<Load>,
                     kept: map<Partition, ChunkRow>, b: Load, p: Partition)
    requires IsTable(table, legacy, landed) && WellFormed(landed)
    requires IsDeduplicated(table, kept) && Newest(landed, b)
    requires p in kept && p.fileId == b.fileId && p.version == Some(b.version)
    ensures kept[p] in b.rows && kept[p] == b.rows[p.chunkIndex]
  {
    var k := kept[p];
    var a := RowOrigin(table, legacy, landed, k);
    var i := k.chunkIndex;
    RowInTable(table, legacy, landed, b, i);
    assert PartitionOf(b.rows[i]) == p;
  }

  lemma NewestIsKept(table: seq<ChunkRow>, legacy: seq<ChunkRow>, landed: seq<Load>,
                     kept: map<Partition, ChunkRow>, b: Load, i: nat)
    requires IsTable(table, legacy, landed) && WellFormed(landed)
    requires IsDeduplicated(table, kept) && Newest(landed, b) && i < |b.rows|
    ensures PartitionOf(b.rows[i]) in kept && kept[PartitionOf(b.rows[i])] == b.rows[i]
  {
    RowInTable(table, legacy, landed, b, i);
    KeptIsNewest(table, legacy, landed, kept, b, PartitionOf(b.rows[i]));
  }

  // ------------------------------------------------------------- both stages

  lemma {:induction false} NewestExists(batches: seq<Load>, fileId: string) returns (b: Load)
    requires exists a :: a in batches && a.fileId == fileId
    ensures Newest(batches, b) && b.fileId == fileId
  {
    var rest := batches[1..];
    assert batches == [batches[0]] + rest;
    if exists a :: a in rest && a.fileId == fileId {
      b := NewestExists(rest, fileId);
      if batches[0].fileId == fileId && batches[0].stamp > b.stamp {
        b := batches[0];
      }
    } else {
      b := batches[0];
    }
  }

  lemma SurvivorShown(table: seq<ChunkRow>, legacy: seq<ChunkRow>, landed: seq<Load>,
                      latest: map<string, string>, kept: map<Partition, ChunkRow>, p: Partition) returns (b: Load)
    requires IsTable(table, legacy, landed) && WellFormed(landed)
    requires IsLatestVersions(table, latest) && IsDeduplicated(table, kept)
    requires p in kept && Survives(latest, kept[p])
    ensures Newest(landed, b) && Visible(b, Project(kept[p]))
  {
    var a := RowOrigin(table, legacy, landed, kept[p]);
    b := NewestExists(landed, p.fileId);
    LatestIsNewest(table, legacy, landed, latest, b);
    KeptIsNewest(table, legacy, landed, kept, b, p);
  }

  /** The rows selected for one row of the view. */
  lemma SelectedCount(table: seq<ChunkRow>, legacy: seq<ChunkRow>, landed: seq<Load>,
                      latest: map<string, string>, kept: map<Partition, ChunkRow>, c: CurrentRow)
    requires IsTable(table, legacy, landed) && WellFormed(landed)
    requires IsLatestVersions(table, latest) && IsDeduplicated(table, kept)
    ensures |Selected(latest, kept, c)| == if Shown(landed, c) then 1 else 0
  {
    if Shown(landed, c) {
      ShownSelected(table, legacy, landed, latest, kept, c);
    } else {
      forall q | q in kept && Survives(latest, kept[q]) ensures Project(kept[q]) != c {
        var b := SurvivorShown(table, legacy, landed, latest, kept, q);
      }
      assert Selected(latest, kept, c) == {};
    }
  }

  lemma ShownSelected(table: seq<ChunkRow>, legacy: seq<ChunkRow>, landed: seq<Load>,
                      latest: map<string, string>, kept: map<Partition, ChunkRow>, c: CurrentRow)
    requires IsTable(table, legacy, landed) && WellFormed(landed) && Shown(landed, c)
    requires IsLatestVersions(table, latest) && IsDeduplicated(table, kept)
    ensures |Selected(latest, kept, c)| == 1
  {
    var b :| Newest(landed, b) && Visible(b, c);
    var i :| 0 <= i < |b.rows| && b.rows[i].isDeleted != Some(true) && Project(b.rows[i]) == c;
    NewestIsKept(table, legacy, landed, kept, b, i);
    LatestIsNewest(table, legacy, landed, latest, b);
    OnePartition(table, latest, kept, PartitionOf(b.rows[i]), c);
  }

  lemma OnePartition(table: seq<ChunkRow>, latest: map<string, string>, kept: map<Partition, ChunkRow>,
                     p: Partition, c: CurrentRow)
    requires IsDeduplicated(table, kept)
    requires p in kept && Survives(latest, kept[p]) && Project(kept[p]) == c
    ensures |Selected(latest, kept, c)| == 1
  {
    assert forall q :: q in Selected(latest, kept, c) ==> q == p;
    assert Selected(latest, kept, c) == {p};
  }

  // ---------------------------------------------------- the view has a result

  lemma {:induction false} DeduplicatedExists(table: seq<ChunkRow>) returns (kept: map<Partition, ChunkRow>)
    ensures IsDeduplicated(table, kept)
  {
    if table == [] {
      kept := map[];
    } else {
      var rest := DeduplicatedExists(table[1..]);
      kept := WithRow(rest, table[0]);
      OneMoreRow(table[1..], rest, table[0]);
      assert table == [table[0]] + table[1..];
    }
  }

  function WithRow(kept: map<Partition, ChunkRow>, row: ChunkRow): map<Partition, ChunkRow> {
    var p := PartitionOf(row);
    if p !in kept || Below(kept[p].ingestedAt, row.ingestedAt) then kept[p := row] else kept
  }

  lemma OneMoreRow(table: seq<ChunkRow>, kept: map<Partition, ChunkRow>, row: ChunkRow)
    requires IsDeduplicated(table, kept)
    ensures IsDeduplicated([row] + table, WithRow(kept, row))
  {
    assert forall r :: r in [row] + table <==> r == row || r in table;
  }

  /** The version of the newest load of every file. */
  lemma {:induction false} NewestVersions(landed: seq<Load>, ids: set<string>) returns (latest: map<string, string>)
    requires forall f :: f in ids ==> exists a :: a in landed && a.fileId == f
    ensures latest.Keys == ids
    ensures forall f :: f in ids ==> exists b :: Newest(landed, b) && b.fileId == f && b.version == latest[f]
    decreases ids
  {
    if ids == {} {
      latest := map[];
    } else {
      var f :| f in ids;
      var rest := NewestVersions(landed, ids - {f});
      var b := NewestExists(landed, f);
      latest := rest[f := b.version];
    }
  }

  lemma LatestVersionsExist(table: seq<ChunkRow>, legacy: seq<ChunkRow>, landed: seq<Load>)
      returns (latest: map<string, string>)
    requires IsTable(table, legacy, landed) && WellFormed(landed)
    ensures IsLatestVersions(table, latest)
  {
    latest := NewestVersions(landed, set b | b in landed :: b.fileId);
    forall r | r in table && r.contentVersion.Some? ensures r.fileId in latest {
      var b := RowOrigin(table, legacy, landed, r);
    }
    forall f | f in latest
      ensures IsCandidate(table, f, latest[f])
      ensures forall v :: IsCandidate(table, f, v) ==> !SortsBefore(table, f, v, latest[f])
    {
      var b :| Newest(landed, b) && b.fileId == f && b.version == latest[f];
      NewestVersionTime(table, legacy, landed, b);
      forall v | IsCandidate(table, f, v) ensures !SortsBefore(table, f, v, latest[f]) {
        CandidateTime(table, legacy, landed, b, v);
        LexIrreflexive(v);
      }
    }
  }

  // -------------------------------------------------------------- main results

  /**
   * The two-stage window query refines the latest-document map: over any table made
   * of legacy rows and landed loads, in any order and with any repetitions, the
   * results of the view are exactly the bag that shows, once each, the rows of
   * every file's newest landed load. In particular ties do not matter.
   */
  lemma ViewRefinement(table: seq<ChunkRow>, legacy: seq<ChunkRow>, landed: seq<Load>, view: multiset<CurrentRow>)
    requires IsTable(table, legacy, landed) && WellFormed(landed)
    ensures IsChunksCurrent(table, view) <==> IsReference(landed, view)
  {
    if IsChunksCurrent(table, view) {
      var latest, kept :| IsLatestVersions(table, latest) && IsDeduplicated(table, kept)
                          && IsSelection(latest, kept, view);
      forall c ensures view[c] == if Shown(landed, c) then 1 else 0 {
        SelectedCount(table, legacy, landed, latest, kept, c);
      }
    }
    if IsReference(landed, view) {
      var latest := LatestVersionsExist(table, legacy, landed);
      var kept := DeduplicatedExists(table);
      forall c ensures view[c] == |Selected(latest, kept, c)| {
        SelectedCount(table, legacy, landed, latest, kept, c);
      }
      assert IsSelection(latest, kept, view);
    }
  }

  /** The view has a result over every such table; by ViewRefinement it is the only one. */
  lemma ViewExists(table: seq<ChunkRow>, legacy: seq<ChunkRow>, landed: seq<Load>) returns (view: multiset<CurrentRow>)
    requires IsTable(table, legacy, landed) && WellFormed(landed)
    ensures IsChunksCurrent(table, view)
    ensures forall other :: IsChunksCurrent(table, other) ==> other == view
  {
    view := ReferenceBag(table, legacy, landed);
    ViewRefinement(table, legacy, landed, view);
    forall other | IsChunksCurrent(table, other) ensures other == view {
      ViewRefinement(table, legacy, landed, other);
      assert forall c :: other[c] == view[c];
    }
  }

  lemma ReferenceBag(table: seq<ChunkRow>, legacy: seq<ChunkRow>, landed: seq<Load>) returns (bag: multiset<CurrentRow>)
    requires IsTable(table, legacy, landed)
    ensures IsReference(landed, bag)
  {
    var rows := set r | r in table :: Project(r);
    var shown := set c | c in rows && Shown(landed, c);
    forall c | Shown(landed, c) ensures c in rows {
      var l :| Newest(landed, l) && Visible(l, c);
      var i :| 0 <= i < |l.rows| && l.rows[i].isDeleted != Some(true) && Project(l.rows[i]) == c;
      RowInTable(table, legacy, landed, l, i);
    }
    bag := multiset(shown);
  }

  /** What the view shows of one file: the rows of its newest landed load and nothing else. */
  lemma FileView(landed: seq<Load>, view: multiset<CurrentRow>, l: Load, c: CurrentRow)
    requires WellFormed(landed) && IsReference(landed, view) && Newest(landed, l) && c.fileId == l.fileId
    ensures view[c] == if Visible(l, c) then 1 else 0
  {
    if a :| Newest(landed, a) && Visible(a, c) {
      assert a == l;
    }
  }

  /** The landing order and repeated landings, as ambiguous retries make them, change nothing. */
  lemma RetriesInvisible(landed: seq<Load>, again: seq<Load>, view: multiset<CurrentRow>)
    requires forall l :: l in landed <==> l in again
    ensures IsReference(again, view) <==> IsReference(landed, view)
  {
    assert forall l :: Newest(again, l) <==> Newest(landed, l);
    assert forall c :: Shown(again, c) <==> Shown(landed, c);
  }

  /** A load landing late, after a newer one of its file, changes nothing either. */
  lemma LateLandingInvisible(landed: seq<Load>, late: Load, newer: Load, view: multiset<CurrentRow>)
    requires newer in landed && newer.fileId == late.fileId && late.stamp < newer.stamp
    ensures IsReference(landed + [late], view) <==> IsReference(landed, view)
  {
    forall b ensures Newest(landed + [late], b) <==> Newest(landed, b) {
      assert forall a :: a in landed + [late] <==> a in landed || a == late;
      if Newest(landed, b) && b.fileId == late.fileId {
        assert newer.stamp <= b.stamp;
      }
    }
    assert forall c :: Shown(landed + [late], c) <==> Shown(landed, c);
  }
}
