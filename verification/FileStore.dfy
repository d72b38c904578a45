/** The state store of internal/repository: its contract and its two backends. */
module FileStore {
  datatype SyncStatus = Pending | Processing | Done | Failed

  datatype File = File(driveFileId: string, path: string, checksum: string, mimeType: string, syncStatus: SyncStatus)

  /** A record, the update time aside. */
  datatype FileDoc = FileDoc(path: string, checksum: string, mimeType: string, syncStatus: SyncStatus)

  type Store = map<string, FileDoc>

  function DocOf(f: File): FileDoc {
    FileDoc(f.path, f.checksum, f.mimeType, f.syncStatus)
  }

  // ------------------------------------------------------------ the contract

  /** Discovery leaves a record alone: same non-empty checksum, same name, not failed. */
  predicate UpToDate(doc: FileDoc, f: File) {
    f.checksum != "" && doc.checksum == f.checksum && doc.syncStatus != Failed && doc.path == f.path
  }

  function Upserted(store: Store, f: File): Store {
    if f.driveFileId in store && UpToDate(store[f.driveFileId], f) then store
    else store[f.driveFileId := FileDoc(f.path, f.checksum, f.mimeType, Pending)]
  }

  function WithStatus(store: Store, id: string, status: SyncStatus): Store {
    if id in store then store[id := store[id].(syncStatus := status)] else store
  }

  /** files lists the pending records of a store, each once. */
  ghost predicate ListsPending(store: Store, files: seq<File>) {
    && (forall i :: 0 <= i < |files| ==>
          && files[i].driveFileId in store
          && store[files[i].driveFileId] == DocOf(files[i]) && files[i].syncStatus == Pending)
    && (forall i, j :: 0 <= i < j < |files| ==> files[i].driveFileId != files[j].driveFileId)
    && (forall id :: id in store && store[id].syncStatus == Pending
                     ==> exists i :: 0 <= i < |files| && files[i].driveFileId == id)
  }

  // --------------------------------------------------------------- Firestore

  class FirestoreFileRepository {
    var docs: Store

    constructor ()
      ensures docs == map[]
    {
      docs := map[];
    }

    /** One transaction: read the document, then replace it unless it is up to date. */
    method Upsert(f: File)
      modifies this
      ensures docs == Upserted(old(docs), f)
    {
      if f.driveFileId !in docs {
        docs := docs[f.driveFileId := FileDoc(f.path, f.checksum, f.mimeType, Pending)];
        return;
      }
      var existing := docs[f.driveFileId];
      if f.checksum != "" && existing.checksum == f.checksum
         && existing.syncStatus != Failed && existing.path == f.path {
        return;
      }
      docs := docs[f.driveFileId := FileDoc(f.path, f.checksum, f.mimeType, Pending)];
    }

    /** Updating a missing document is an error. */
    method UpdateStatus(id: string, status: SyncStatus) returns (found: bool)
      modifies this
      ensures docs == WithStatus(old(docs), id, status)
      ensures found <==> id in old(docs)
    {
      if id !in docs {
        return false;
      }
      docs := docs[id := docs[id].(syncStatus := status)];
      found := true;
    }

    method ListPending() returns (files: seq<File>)
      ensures ListsPending(docs, files)
    {
      files := [];
      var left := docs.Keys;
      while left != {}
        invariant left <= docs.Keys
        invariant forall i :: 0 <= i < |files| ==>
            && files[i].driveFileId in docs.Keys - left
            && docs[files[i].driveFileId] == DocOf(files[i]) && files[i].syncStatus == Pending
        invariant forall i, j :: 0 <= i < j < |files| ==> files[i].driveFileId != files[j].driveFileId
        invariant forall id :: id in docs.Keys - left && docs[id].syncStatus == Pending
                               ==> exists i :: 0 <= i < |files| && files[i].driveFileId == id
        decreases left
      {
        var id :| id in left;
        left := left - {id};
        var d := docs[id];
        if d.syncStatus == Pending {
          ghost var before := files;
          files := files + [File(id, d.path, d.checksum, d.mimeType, d.syncStatus)];
          assert files[|before|].driveFileId == id;
          forall other | other in docs.Keys - left && docs[other].syncStatus == Pending
            ensures exists i :: 0 <= i < |files| && files[i].driveFileId == other
          {
            if other != id {
              var i :| 0 <= i < |before| && before[i].driveFileId == other;
              assert files[i].driveFileId == other;
            }
          }
        }
      }
    }
  }

  // -------------------------------------------------------------- PostgreSQL

  /** The records a table holds. */
  function Records(rows: seq<File>): Store {
    if rows == [] then map[] else Records(rows[1..])[rows[0].driveFileId := DocOf(rows[0])]
  }

  /** The rows of the `files` table; drive_file_id is UNIQUE. */
  ghost predicate UniqueIds(rows: seq<File>) {
    rows == [] || (rows[0].driveFileId !in Records(rows[1..]) && UniqueIds(rows[1..]))
  }

  /** `DO UPDATE ... WHERE` of the upsert. */
  predicate Replaces(row: File, excluded: File) {
    || row.checksum == ""
    || excluded.checksum == ""
    || row.checksum != excluded.checksum
    || row.syncStatus == Failed
    || row.path != excluded.path
  }

  /** `INSERT ... ON CONFLICT (drive_file_id) DO UPDATE`. */
  function SqlUpserted(rows: seq<File>, f: File): seq<File> {
    if rows == [] then [f.(syncStatus := Pending)]
    else if rows[0].driveFileId == f.driveFileId then
      [if Replaces(rows[0], f) then f.(syncStatus := Pending) else rows[0]] + rows[1..]
    else [rows[0]] + SqlUpserted(rows[1..], f)
  }

  /** `UPDATE files SET sync_status = ... WHERE drive_file_id = ...`: every matching row. */
  function SqlWithStatus(rows: seq<File>, id: string, status: SyncStatus): seq<File> {
    if rows == [] then []
    else [if rows[0].driveFileId == id then rows[0].(syncStatus := status) else rows[0]]
         + SqlWithStatus(rows[1..], id, status)
  }

  lemma {:induction false} RecordsSpec(rows: seq<File>)
    requires UniqueIds(rows)
    ensures forall i :: 0 <= i < |rows| ==>
              rows[i].driveFileId in Records(rows) && Records(rows)[rows[i].driveFileId] == DocOf(rows[i])
    ensures forall i, j :: 0 <= i < j < |rows| ==> rows[i].driveFileId != rows[j].driveFileId
  {
    if rows != [] {
      RecordsSpec(rows[1..]);
      forall i | 0 < i < |rows|
        ensures rows[i].driveFileId in Records(rows[1..])
        ensures Records(rows[1..])[rows[i].driveFileId] == DocOf(rows[i])
      {
        assert rows[1..][i - 1] == rows[i];
      }
      forall i, j | 0 < i < j < |rows| ensures rows[i].driveFileId != rows[j].driveFileId {
        assert rows[1..][i - 1] == rows[i] && rows[1..][j - 1] == rows[j];
      }
    }
  }

  lemma {:induction false} RowOfRecord(rows: seq<File>, id: string) returns (i: nat)
    requires id in Records(rows)
    ensures i < |rows| && rows[i].driveFileId == id
  {
    if rows[0].driveFileId == id {
      i := 0;
    } else {
      var j := RowOfRecord(rows[1..], id);
      i := j + 1;
    }
  }

  /** The SQL upsert writes what the Firestore transaction writes. */
  lemma {:induction false} SqlUpsertAgrees(rows: seq<File>, f: File)
    requires UniqueIds(rows)
    ensures UniqueIds(SqlUpserted(rows, f))
    ensures Records(SqlUpserted(rows, f)) == Upserted(Records(rows), f)
  {
    if rows != [] {
      var row, rest := rows[0], rows[1..];
      if row.driveFileId == f.driveFileId {
        assert ([if Replaces(row, f) then f.(syncStatus := Pending) else row] + rest)[1..] == rest;
      } else {
        SqlUpsertAgrees(rest, f);
        assert ([row] + SqlUpserted(rest, f))[1..] == SqlUpserted(rest, f);
      }
    }
  }

  lemma {:induction false} SqlStatusAgrees(rows: seq<File>, id: string, status: SyncStatus)
    requires UniqueIds(rows)
    ensures UniqueIds(SqlWithStatus(rows, id, status))
    ensures Records(SqlWithStatus(rows, id, status)) == WithStatus(Records(rows), id, status)
  {
    if rows != [] {
      var row, rest := rows[0], rows[1..];
      SqlStatusAgrees(rest, id, status);
      RecordsCons(if row.driveFileId == id then row.(syncStatus := status) else row, SqlWithStatus(rest, id, status));
      RecordStatus(Records(rest), row, id, status);
    }
  }

  lemma RecordStatus(store: Store, row: File, id: string, status: SyncStatus)
    requires row.driveFileId !in store
    ensures WithStatus(store[row.driveFileId := DocOf(row)], id, status)
         == WithStatus(store, id, status)[
              row.driveFileId := DocOf(if row.driveFileId == id then row.(syncStatus := status) else row)]
    ensures row.driveFileId !in WithStatus(store, id, status)
  {
  }

  lemma RecordsCons(row: File, rest: seq<File>)
    ensures Records([row] + rest) == Records(rest)[row.driveFileId := DocOf(row)]
    ensures UniqueIds([row] + rest) <==> row.driveFileId !in Records(rest) && UniqueIds(rest)
  {
    assert ([row] + rest)[1..] == rest;
  }

  class SqlFileRepository {
    var rows: seq<File>

    ghost predicate Valid()
      reads this
    {
      UniqueIds(rows)
    }

    constructor ()
      ensures Valid() && rows == []
    {
      rows := [];
    }

    method Upsert(f: File)
      requires Valid()
      modifies this
      ensures Valid() && Records(rows) == Upserted(old(Records(rows)), f)
      ensures rows == SqlUpserted(old(rows), f)
    {
      SqlUpsertAgrees(rows, f);
      rows := SqlUpserted(rows, f);
    }

    /** Updating no row is no error. */
    method UpdateStatus(id: string, status: SyncStatus)
      requires Valid()
      modifies this
      ensures Valid() && Records(rows) == WithStatus(old(Records(rows)), id, status)
      ensures rows == SqlWithStatus(old(rows), id, status)
    {
      SqlStatusAgrees(rows, id, status);
      rows := SqlWithStatus(rows, id, status);
    }

    method ListPending() returns (files: seq<File>)
      requires Valid()
      ensures ListsPending(Records(rows), files)
    {
      files := [];
      RecordsSpec(rows);
      for k := 0 to |rows|
        invariant forall i :: 0 <= i < |files| ==>
            files[i].syncStatus == Pending && exists j :: 0 <= j < k && rows[j] == files[i]
        invariant forall i, j :: 0 <= i < j < |files| ==> files[i].driveFileId != files[j].driveFileId
        invariant forall j :: 0 <= j < k && rows[j].syncStatus == Pending ==> rows[j] in files
      {
        if rows[k].syncStatus == Pending {
          files := files + [rows[k]];
        }
      }
      forall id | id in Records(rows) && Records(rows)[id].syncStatus == Pending
        ensures exists i :: 0 <= i < |files| && files[i].driveFileId == id
      {
        var j := RowOfRecord(rows, id);
        assert rows[j] in files;
      }
    }
  }

  // ---------------------------------------------------------- one store or two

  datatype Call = UpsertCall(f: File) | StatusCall(id: string, status: SyncStatus) | ListCall

  /** What a caller observes: success, a missing document, or the pending records. */
  datatype StoreReply = Ok | NotFound | Listed(pending: set<(string, FileDoc)>)

  function PendingRecords(store: Store): set<(string, FileDoc)> {
    set id | id in store && store[id].syncStatus == Pending :: (id, store[id])
  }

  function FirestoreStep(docs: Store, c: Call): (Store, StoreReply) {
    match c
    case UpsertCall(f) => (Upserted(docs, f), Ok)
    case StatusCall(id, status) => (WithStatus(docs, id, status), if id in docs then Ok else NotFound)
    case ListCall => (docs, Listed(PendingRecords(docs)))
  }

  function SqlStep(rows: seq<File>, c: Call): (seq<File>, StoreReply) {
    match c
    case UpsertCall(f) => (SqlUpserted(rows, f), Ok)
    case StatusCall(id, status) => (SqlWithStatus(rows, id, status), Ok)
    case ListCall => (rows, Listed(set i | 0 <= i < |rows| && rows[i].syncStatus == Pending
                                     :: (rows[i].driveFileId, DocOf(rows[i]))))
  }

  function FirestoreRun(docs: Store, calls: seq<Call>): (Store, seq<StoreReply>)
    decreases |calls|
  {
    if calls == [] then (docs, [])
    else
      var (next, reply) := FirestoreStep(docs, calls[0]);
      var (last, replies) := FirestoreRun(next, calls[1..]);
      (last, [reply] + replies)
  }

  function SqlRun(rows: seq<File>, calls: seq<Call>): (seq<File>, seq<StoreReply>)
    decreases |calls|
  {
    if calls == [] then (rows, [])
    else
      var (next, reply) := SqlStep(rows, calls[0]);
      var (last, replies) := SqlRun(next, calls[1..]);
      (last, [reply] + replies)
  }

  lemma StepsAgree(rows: seq<File>, c: Call)
    requires UniqueIds(rows)
    ensures var (docs, fs) := FirestoreStep(Records(rows), c);
            var (next, sql) := SqlStep(rows, c);
            UniqueIds(next) && Records(next) == docs && sql == if fs.NotFound? then Ok else fs
  {
    match c
    case UpsertCall(f) => SqlUpsertAgrees(rows, f);
    case StatusCall(id, status) => SqlStatusAgrees(rows, id, status);
    case ListCall =>
      RecordsSpec(rows);
      var fs, sql := PendingRecords(Records(rows)), SqlStep(rows, c).1.pending;
      forall x | x in fs ensures x in sql {
        var i := RowOfRecord(rows, x.0);
        assert (rows[i].driveFileId, DocOf(rows[i])) == x;
      }
  }

  /**
   * For every sequence of calls the two backends hold the same records and give the
   * same replies, except that only Firestore reports a status update of an unknown ID.
   */
  lemma {:induction false} BackendsAgree(rows: seq<File>, calls: seq<Call>)
    requires UniqueIds(rows)
    ensures var (docs, fs) := FirestoreRun(Records(rows), calls);
            var (last, sql) := SqlRun(rows, calls);
            && UniqueIds(last) && Records(last) == docs
            && |fs| == |sql| == |calls|
            && forall i :: 0 <= i < |calls| ==>
                 (sql[i] == if fs[i].NotFound? then Ok else fs[i])
                 && (fs[i].NotFound? ==> calls[i].StatusCall?)
    decreases |calls|
  {
    if calls != [] {
      StepsAgree(rows, calls[0]);
      BackendsAgree(SqlStep(rows, calls[0]).0, calls[1..]);
    }
  }
}
