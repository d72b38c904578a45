/**
 * The Silver view (iac/silver_gold.tf), the two marts that sql/refresh_gold_marts.sql
 * builds from it, and the comparison of internal/goldverify that checks them.
 */
module GoldMarts {
  import opened Options
  import opened ChunkLog
  import opened ChunkBatches

  /** The columns of silver_chunks that the marts read. */
  datatype SilverRow = SilverRow(
    fileId: string, contentVersion: Option<string>, ingestedAt: Option<int>, ingestedDate: Option<int>,
    isEmbedded: bool, contentLength: nat)

  /** `DATE(ingested_at, "Asia/Tokyo")` of a time in microseconds, as days since 1970-01-01. */
  function TokyoDate(t: int): int {
    (t + 9 * 3600 * 1_000_000) / (24 * 3600 * 1_000_000)
  }

  function SilverOf(c: CurrentRow): SilverRow {
    SilverRow(c.fileId, c.contentVersion, c.ingestedAt,
              if c.ingestedAt.Some? then Some(TokyoDate(c.ingestedAt.value)) else None,
              c.embeddingStatus == "completed", |c.content|)
  }

  datatype DailyRow = DailyRow(
    ingestedDate: Option<int>, fileCount: nat, chunkCount: nat, contentLength: nat,
    embeddedChunkCount: nat, pendingEmbeddingChunkCount: nat)

  datatype LatestRow = LatestRow(
    fileId: string, contentVersion: Option<string>, latestIngestedAt: Option<int>, chunkCount: nat, contentLength: nat,
    embeddedChunkCount: nat, pendingEmbeddingChunkCount: nat)

  // -------------------------------------------------------------- aggregation

  /** The GROUP BY column: ingested_date or file_id. */
  datatype By = ByDate | ByFile

  datatype Key = DateKey(date: Option<int>) | FileKey(id: string)

  function KeyOf(how: By, r: SilverRow): Key {
    match how
    case ByDate => DateKey(r.ingestedDate)
    case ByFile => FileKey(r.fileId)
  }

  function Keys(s: seq<SilverRow>, how: By): set<Key> {
    set r | r in s :: KeyOf(how, r)
  }

  function Group(s: seq<SilverRow>, how: By, k: Key): seq<SilverRow> {
    if s == [] then []
    else Group(s[..|s| - 1], how, k) + (if KeyOf(how, s[|s| - 1]) == k then [s[|s| - 1]] else [])
  }

  /** COUNT(*), SUM(content_length), COUNTIF(is_embedded), COUNTIF(NOT is_embedded). */
  datatype Column = Chunks | Length | Embedded | PendingEmbedding

  function Weight(col: Column, r: SilverRow): nat {
    match col
    case Chunks => 1
    case Length => r.contentLength
    case Embedded => if r.isEmbedded then 1 else 0
    case PendingEmbedding => if r.isEmbedded then 0 else 1
  }

  function Total(s: seq<SilverRow>, col: Column): nat {
    if s == [] then 0 else Total(s[..|s| - 1], col) + Weight(col, s[|s| - 1])
  }

  /** COUNT(DISTINCT file_id). */
  function Files(s: seq<SilverRow>): set<string> {
    set r | r in s :: r.fileId
  }

  function MaxIngestedAt(s: seq<SilverRow>): Option<int> {
    if s == [] then None
    else
      var max := MaxIngestedAt(s[..|s| - 1]);
      if Below(max, s[|s| - 1].ingestedAt) then s[|s| - 1].ingestedAt else max
  }

  function DailyOf(s: seq<SilverRow>, date: Option<int>): DailyRow {
    var g := Group(s, ByDate, DateKey(date));
    DailyRow(date, |Files(g)|, Total(g, Chunks), Total(g, Length), Total(g, Embedded), Total(g, PendingEmbedding))
  }

  /** The query of mart_ingestion_daily. */
  function Daily(s: seq<SilverRow>): set<DailyRow> {
    set r | r in s :: DailyOf(s, r.ingestedDate)
  }

  function LatestOf(s: seq<SilverRow>, fileId: string, anyVersion: Option<string>): LatestRow {
    var g := Group(s, ByFile, FileKey(fileId));
    LatestRow(fileId, anyVersion, MaxIngestedAt(g),
              Total(g, Chunks), Total(g, Length), Total(g, Embedded), Total(g, PendingEmbedding))
  }

  /** One possible row of a file; ANY_VALUE picks the version of any row of the group. */
  ghost predicate IsLatestRow(s: seq<SilverRow>, row: LatestRow) {
    exists r :: r in s && r.fileId == row.fileId && row == LatestOf(s, r.fileId, r.contentVersion)
  }

  /** A possible result of the query of mart_file_latest: one row for every file. */
  ghost predicate IsLatest(s: seq<SilverRow>, rows: set<LatestRow>) {
    && (forall row :: row in rows ==> IsLatestRow(s, row))
    && (forall a, b :: a in rows && b in rows && a.fileId == b.fileId ==> a == b)
    && (forall r :: r in s ==> exists row :: row in rows && row.fileId == r.fileId)
  }

  // --------------------------------------------------------------- comparison

  datatype CountName =
    | SilverChunks | ExpectedDaily | ExpectedLatest | ActualDaily | ActualLatest
    | DailyMissing | DailyExtra | LatestMissing | LatestExtra

  /** A missing key of a Go map reads as 0. */
  function Get(c: map<CountName, int>, name: CountName): int {
    if name in c then c[name] else 0
  }

  /** `EXCEPT DISTINCT`. */
  function ExceptDistinct<T(==)>(a: multiset<T>, b: multiset<T>): set<T> {
    set x | x in a && x !in b
  }

  /** The counts that ComparisonSQL denotes, for Silver's aggregates and two tables. */
  function ComparisonCounts(s: seq<SilverRow>, daily: set<DailyRow>, latest: set<LatestRow>,
                            martDaily: multiset<DailyRow>, martLatest: multiset<LatestRow>): map<CountName, int> {
    CountMap(|s|, |daily|, |latest|, |martDaily|, |martLatest|,
             |ExceptDistinct(multiset(daily), martDaily)|, |ExceptDistinct(martDaily, multiset(daily))|,
             |ExceptDistinct(multiset(latest), martLatest)|, |ExceptDistinct(martLatest, multiset(latest))|)
  }

  /** One row of counts, by column name. */
  function CountMap(silver: int, expectedDaily: int, expectedLatest: int, actualDaily: int, actualLatest: int,
                    dailyMissing: int, dailyExtra: int, latestMissing: int, latestExtra: int): map<CountName, int> {
    map[
      SilverChunks := silver,
      ExpectedDaily := expectedDaily,
      ExpectedLatest := expectedLatest,
      ActualDaily := actualDaily,
      ActualLatest := actualLatest,
      DailyMissing := dailyMissing,
      DailyExtra := dailyExtra,
      LatestMissing := latestMissing,
      LatestExtra := latestExtra]
  }

  function GoldMatches(c: map<CountName, int>, allowEmpty: bool): bool {
    && (forall name | name in {DailyMissing, DailyExtra, LatestMissing, LatestExtra} :: Get(c, name) == 0)
    && Get(c, ExpectedDaily) == Get(c, ActualDaily)
    && Get(c, ExpectedLatest) == Get(c, ActualLatest)
    && (allowEmpty || Get(c, SilverChunks) > 0)
  }

  lemma MatchesByName(sc: int, ed: int, el: int, ad: int, al: int, dm: int, de: int, lm: int, le: int, allowEmpty: bool)
    ensures GoldMatches(CountMap(sc, ed, el, ad, al, dm, de, lm, le), allowEmpty)
            <==> dm == 0 && de == 0 && lm == 0 && le == 0 && ed == ad && el == al && (allowEmpty || sc > 0)
  {
    var c := CountMap(sc, ed, el, ad, al, dm, de, lm, le);
    assert Get(c, DailyMissing) == dm && Get(c, DailyExtra) == de;
    assert Get(c, LatestMissing) == lm && Get(c, LatestExtra) == le;
  }

  /** Each count under its own name. */
  lemma CountsByName(s: seq<SilverRow>, daily: set<DailyRow>, latest: set<LatestRow>,
                     martDaily: multiset<DailyRow>, martLatest: multiset<LatestRow>)
    ensures var c := ComparisonCounts(s, daily, latest, martDaily, martLatest);
            && Get(c, SilverChunks) == |s|
            && Get(c, ExpectedDaily) == |daily| && Get(c, ActualDaily) == |martDaily|
            && Get(c, ExpectedLatest) == |latest| && Get(c, ActualLatest) == |martLatest|
            && (Get(c, DailyMissing) == 0 <==> forall row :: row in daily ==> row in martDaily)
            && (Get(c, DailyExtra) == 0 <==> forall row :: row in martDaily ==> row in daily)
            && (Get(c, LatestMissing) == 0 <==> forall row :: row in latest ==> row in martLatest)
            && (Get(c, LatestExtra) == 0 <==> forall row :: row in martLatest ==> row in latest)
  {
    NoneMissing(daily, martDaily);
    NoneMissing(latest, martLatest);
  }

  lemma NoneMissing<T(!new)>(expected: set<T>, actual: multiset<T>)
    ensures |ExceptDistinct(multiset(expected), actual)| == 0 <==> forall x :: x in expected ==> x in actual
    ensures |ExceptDistinct(actual, multiset(expected))| == 0 <==> forall x :: x in actual ==> x in expected
  {
    var missing, extra := ExceptDistinct(multiset(expected), actual), ExceptDistinct(actual, multiset(expected));
    assert forall x :: x in expected && x !in actual ==> x in missing;
    assert forall x :: x in actual && x !in expected ==> x in extra;
    assert |missing| == 0 ==> missing == {};
    assert |extra| == 0 ==> extra == {};
  }

  /** A bag with the elements of a set and its size is that set. */
  lemma {:induction false} BagOfSet<T>(bag: multiset<T>, s: set<T>)
    requires forall x :: x in bag <==> x in s
    ensures |s| <= |bag|
    ensures |bag| == |s| ==> bag == multiset(s)
  {
    if s == {} {
      assert bag == multiset{};
    } else {
      var x :| x in s;
      BagOfSet(bag[x := 0], s - {x});
      assert |bag[x := 0]| == |bag| - bag[x];
      assert bag[x := 0] == multiset(s - {x}) && bag[x] == 1 ==> bag == multiset(s);
    }
  }

  /** Two empty differences and equal counts decide equality of bags, when one is a set. */
  lemma CountsDecide<T>(expected: set<T>, actual: multiset<T>)
    ensures |ExceptDistinct(multiset(expected), actual)| == 0
            && |ExceptDistinct(actual, multiset(expected))| == 0 && |expected| == |actual|
            <==> actual == multiset(expected)
  {
    var missing, extra := ExceptDistinct(multiset(expected), actual), ExceptDistinct(actual, multiset(expected));
    if |missing| == 0 && |extra| == 0 {
      forall x ensures x in actual <==> x in expected {
        assert x in expected && x !in actual ==> x in missing;
        assert x in actual && x !in expected ==> x in extra;
      }
      BagOfSet(actual, expected);
    }
    if actual == multiset(expected) {
      assert missing == {} && extra == {};
    }
  }

  /**
   * Gold decision procedure: GoldMatches on the comparison's counts is true exactly when
   * both tables are, as bags of rows, the aggregates of Silver, and Silver is not empty
   * or may be.
   */
  lemma GoldDecision(s: seq<SilverRow>, latest: set<LatestRow>,
                     martDaily: multiset<DailyRow>, martLatest: multiset<LatestRow>, allowEmpty: bool)
    requires IsLatest(s, latest)
    ensures GoldMatches(ComparisonCounts(s, Daily(s), latest, martDaily, martLatest), allowEmpty)
            <==> martDaily == multiset(Daily(s)) && martLatest == multiset(latest) && (allowEmpty || s != [])
  {
    CountsDecide(Daily(s), martDaily);
    CountsDecide(latest, martLatest);
    var daily := Daily(s);
    MatchesByName(|s|, |daily|, |latest|, |martDaily|, |martLatest|,
                  |ExceptDistinct(multiset(daily), martDaily)|, |ExceptDistinct(martDaily, multiset(daily))|,
                  |ExceptDistinct(multiset(latest), martLatest)|, |ExceptDistinct(martLatest, multiset(latest))|,
                  allowEmpty);
  }

  // ---------------------------------------------------------- well-definedness

  /** All rows of a file share their version. */
  ghost predicate VersionsAgree(s: seq<SilverRow>) {
    forall a, b :: a in s && b in s && a.fileId == b.fileId ==> a.contentVersion == b.contentVersion
  }

  /** All rows of a file share their date. */
  ghost predicate DatesAgree(s: seq<SilverRow>) {
    forall a, b :: a in s && b in s && a.fileId == b.fileId ==> a.ingestedDate == b.ingestedDate
  }

  /** Rows for these files, each made from a row of Silver. */
  ghost predicate LatestFor(s: seq<SilverRow>, ids: set<string>, rows: set<LatestRow>) {
    && (forall row :: row in rows ==> IsLatestRow(s, row) && row.fileId in ids)
    && (forall a, b :: a in rows && b in rows && a.fileId == b.fileId ==> a == b)
    && (forall id :: id in ids ==> exists row :: row in rows && row.fileId == id)
  }

  lemma LatestForOneMore(s: seq<SilverRow>, ids: set<string>, rows: set<LatestRow>, own: LatestRow)
    requires LatestFor(s, ids, rows) && IsLatestRow(s, own) && own.fileId !in ids
    ensures LatestFor(s, ids + {own.fileId}, rows + {own})
  {
    forall i | i in ids + {own.fileId} ensures exists row :: row in rows + {own} && row.fileId == i {
      if i == own.fileId {
        assert own in rows + {own};
      } else {
        var row :| row in rows && row.fileId == i;
        assert row in rows + {own};
      }
    }
  }

  lemma {:induction false} LatestForExists(s: seq<SilverRow>, ids: set<string>) returns (rows: set<LatestRow>)
    requires ids <= Files(s)
    ensures LatestFor(s, ids, rows)
    decreases ids
  {
    if ids == {} {
      rows := {};
    } else {
      var id :| id in ids;
      assert id in Files(s);
      var r :| r in s && r.fileId == id;
      rows := LatestForExists(s, ids - {id});
      var own := LatestOf(s, r.fileId, r.contentVersion);
      assert IsLatestRow(s, own);
      LatestForOneMore(s, ids - {id}, rows, own);
      assert ids - {id} + {id} == ids;
      rows := rows + {own};
    }
  }

  /** The query has a result with the version of any given row. */
  lemma LatestWithVersionOf(s: seq<SilverRow>, r: SilverRow) returns (rows: set<LatestRow>)
    requires r in s
    ensures IsLatest(s, rows) && LatestOf(s, r.fileId, r.contentVersion) in rows
  {
    var own := LatestOf(s, r.fileId, r.contentVersion);
    assert IsLatestRow(s, own);
    var others := Files(s) - {r.fileId};
    rows := LatestForExists(s, others);
    LatestForOneMore(s, others, rows, own);
    rows := rows + {own};
    assert others + {r.fileId} == Files(s);
    forall q | q in s ensures exists row :: row in rows && row.fileId == q.fileId {
      assert q.fileId in Files(s);
    }
  }

  /** mart_file_latest is determined exactly when the rows of every file share their version. */
  lemma LatestDetermined(s: seq<SilverRow>)
    ensures VersionsAgree(s) <==> forall a, b :: IsLatest(s, a) && IsLatest(s, b) ==> a == b
  {
    if VersionsAgree(s) {
      forall a, b | IsLatest(s, a) && IsLatest(s, b) ensures a == b {
        LatestWithin(s, a, b);
        LatestWithin(s, b, a);
      }
    }
    if forall a, b :: IsLatest(s, a) && IsLatest(s, b) ==> a == b {
      forall q, r | q in s && r in s && q.fileId == r.fileId ensures q.contentVersion == r.contentVersion {
        SameVersion(s, q, r);
      }
    }
  }

  lemma SameVersion(s: seq<SilverRow>, q: SilverRow, r: SilverRow)
    requires q in s && r in s && q.fileId == r.fileId
    requires forall a, b :: IsLatest(s, a) && IsLatest(s, b) ==> a == b
    ensures q.contentVersion == r.contentVersion
  {
    var a := LatestWithVersionOf(s, q);
    var b := LatestWithVersionOf(s, r);
    var x, y := LatestOf(s, q.fileId, q.contentVersion), LatestOf(s, r.fileId, r.contentVersion);
    assert a == b;
    assert x.fileId == y.fileId && x in a && y in a;
  }

  lemma LatestWithin(s: seq<SilverRow>, a: set<LatestRow>, b: set<LatestRow>)
    requires VersionsAgree(s) && IsLatest(s, a) && IsLatest(s, b)
    ensures a <= b
  {
    forall x | x in a ensures x in b {
      assert IsLatestRow(s, x);
      var r :| r in s && r.fileId == x.fileId;
      var y :| y in b && y.fileId == r.fileId;
      SameLatestRow(s, x, y);
    }
  }

  lemma SameLatestRow(s: seq<SilverRow>, x: LatestRow, y: LatestRow)
    requires VersionsAgree(s) && IsLatestRow(s, x) && IsLatestRow(s, y) && x.fileId == y.fileId
    ensures x == y
  {
    var q :| q in s && q.fileId == x.fileId && x == LatestOf(s, q.fileId, q.contentVersion);
    var r :| r in s && r.fileId == y.fileId && y == LatestOf(s, r.fileId, r.contentVersion);
    assert q.contentVersion == r.contentVersion;
  }

  lemma {:induction false} GroupMembers(s: seq<SilverRow>, how: By, k: Key)
    ensures forall r :: r in Group(s, how, k) <==> r in s && KeyOf(how, r) == k
  {
    if s != [] {
      GroupMembers(s[..|s| - 1], how, k);
      assert s == s[..|s| - 1] + [s[|s| - 1]];
    }
  }

  /** Sum of a column over the groups with these keys. */
  ghost function GroupsTotal(s: seq<SilverRow>, how: By, keys: set<Key>, col: Column): nat {
    if keys == {} then 0
    else
      var k :| k in keys;
      Total(Group(s, how, k), col) + GroupsTotal(s, how, keys - {k}, col)
  }

  lemma {:induction false} GroupsTotalRemove(s: seq<SilverRow>, how: By, keys: set<Key>, col: Column, k: Key)
    requires k in keys
    ensures GroupsTotal(s, how, keys, col) == Total(Group(s, how, k), col) + GroupsTotal(s, how, keys - {k}, col)
    decreases keys
  {
    var first :| first in keys
      && GroupsTotal(s, how, keys, col) == Total(Group(s, how, first), col) + GroupsTotal(s, how, keys - {first}, col);
    if first != k {
      GroupsTotalRemove(s, how, keys - {first}, col, k);
      GroupsTotalRemove(s, how, keys - {k}, col, first);
      assert keys - {first} - {k} == keys - {k} - {first};
    }
  }

  /** One more row: only its own group grows. */
  lemma {:induction false} GroupsTotalSnoc(s: seq<SilverRow>, r: SilverRow, how: By, keys: set<Key>, col: Column)
    ensures GroupsTotal(s + [r], how, keys, col)
         == GroupsTotal(s, how, keys, col) + (if KeyOf(how, r) in keys then Weight(col, r) else 0)
    decreases keys
  {
    if keys != {} {
      var k :| k in keys;
      GroupsTotalRemove(s, how, keys, col, k);
      GroupsTotalRemove(s + [r], how, keys, col, k);
      GroupsTotalSnoc(s, r, how, keys - {k}, col);
      GroupSnoc(s, r, how, k, col);
    }
  }

  lemma GroupSnoc(s: seq<SilverRow>, r: SilverRow, how: By, k: Key, col: Column)
    ensures Total(Group(s + [r], how, k), col)
         == Total(Group(s, how, k), col) + (if KeyOf(how, r) == k then Weight(col, r) else 0)
  {
    assert (s + [r])[..|s|] == s;
    var g := Group(s, how, k);
    assert (g + [r])[..|g|] == g;
    assert g + [] == g;
  }

  lemma {:induction false} GroupsTotalEmpty(how: By, keys: set<Key>, col: Column)
    ensures GroupsTotal([], how, keys, col) == 0
    decreases keys
  {
    if keys != {} {
      var k :| k in keys;
      GroupsTotalRemove([], how, keys, col, k);
      GroupsTotalEmpty(how, keys - {k}, col);
    }
  }

  /** A group that no row belongs to adds nothing. */
  lemma {:induction false} AllGroupsTotal(s: seq<SilverRow>, how: By, keys: set<Key>, col: Column)
    requires Keys(s, how) <= keys
    ensures GroupsTotal(s, how, keys, col) == Total(s, col)
  {
    if s == [] {
      GroupsTotalEmpty(how, keys, col);
    } else {
      var init, r := s[..|s| - 1], s[|s| - 1];
      assert s == init + [r];
      assert KeyOf(how, r) in Keys(s, how);
      forall q | q in init ensures KeyOf(how, q) in keys {
        assert q in s && KeyOf(how, q) in Keys(s, how);
      }
      AllGroupsTotal(init, how, keys, col);
      GroupsTotalSnoc(init, r, how, keys, col);
    }
  }

  /** SUM of a column over the rows of a mart. */
  ghost function SumOver<T(!new)>(rows: set<T>, column: T -> nat): nat {
    if rows == {} then 0
    else
      var r :| r in rows;
      column(r) + SumOver(rows - {r}, column)
  }

  lemma {:induction false} SumOverRemove<T(!new)>(rows: set<T>, column: T -> nat, r: T)
    requires r in rows
    ensures SumOver(rows, column) == column(r) + SumOver(rows - {r}, column)
    decreases rows
  {
    var first :| first in rows && SumOver(rows, column) == column(first) + SumOver(rows - {first}, column);
    if first != r {
      SumOverRemove(rows - {first}, column, r);
      SumOverRemove(rows - {r}, column, first);
      assert rows - {first} - {r} == rows - {r} - {first};
    }
  }

  /** The groups some rows stand for. */
  ghost function KeysOf<T(!new)>(rows: set<T>, key: T -> Key): set<Key> {
    set r | r in rows :: key(r)
  }

  /** Rows that stand for different groups each, and show their groups' totals, sum to those totals. */
  lemma {:induction false} SumByKey<T(!new)>(s: seq<SilverRow>, how: By, col: Column, rows: set<T>,
                                             key: T -> Key, column: T -> nat)
    requires forall r :: r in rows ==> column(r) == Total(Group(s, how, key(r)), col)
    requires forall q, r :: q in rows && r in rows && key(q) == key(r) ==> q == r
    ensures SumOver(rows, column) == GroupsTotal(s, how, KeysOf(rows, key), col)
    decreases rows
  {
    if rows != {} {
      var r :| r in rows;
      SumOverRemove(rows, column, r);
      SumByKey(s, how, col, rows - {r}, key, column);
      assert KeysOf(rows - {r}, key) == KeysOf(rows, key) - {key(r)};
      GroupsTotalRemove(s, how, KeysOf(rows, key), col, key(r));
    }
  }

  function DailyColumn(col: Column): DailyRow -> nat {
    match col
    case Chunks => (r: DailyRow) => r.chunkCount
    case Length => (r: DailyRow) => r.contentLength
    case Embedded => (r: DailyRow) => r.embeddedChunkCount
    case PendingEmbedding => (r: DailyRow) => r.pendingEmbeddingChunkCount
  }

  function LatestColumn(col: Column): LatestRow -> nat {
    match col
    case Chunks => (r: LatestRow) => r.chunkCount
    case Length => (r: LatestRow) => r.contentLength
    case Embedded => (r: LatestRow) => r.embeddedChunkCount
    case PendingEmbedding => (r: LatestRow) => r.pendingEmbeddingChunkCount
  }

  function FileCount(): DailyRow -> nat {
    (r: DailyRow) => r.fileCount
  }

  function DailyKey(): DailyRow -> Key {
    (r: DailyRow) => DateKey(r.ingestedDate)
  }

  function LatestKey(): LatestRow -> Key {
    (r: LatestRow) => FileKey(r.fileId)
  }

  /**
   * In both marts the chunk, length, embedded and pending columns sum, over the rows, to
   * Silver's totals; embedded plus pending is the chunk count.
   */
  lemma TotalsAgree(s: seq<SilverRow>, latest: set<LatestRow>, col: Column)
    requires IsLatest(s, latest)
    ensures SumOver(Daily(s), DailyColumn(col)) == Total(s, col)
    ensures SumOver(latest, LatestColumn(col)) == Total(s, col)
    ensures Total(s, Embedded) + Total(s, PendingEmbedding) == Total(s, Chunks) == |s|
  {
    DailyTotals(s, col);
    LatestTotals(s, latest, col);
    EmbeddedOrPending(s);
  }

  lemma DailyTotals(s: seq<SilverRow>, col: Column)
    ensures SumOver(Daily(s), DailyColumn(col)) == Total(s, col)
  {
    SumByKey(s, ByDate, col, Daily(s), DailyKey(), DailyColumn(col));
    DailyKeys(s);
    AllGroupsTotal(s, ByDate, Keys(s, ByDate), col);
  }

  lemma DailyKeys(s: seq<SilverRow>)
    ensures KeysOf(Daily(s), DailyKey()) == Keys(s, ByDate)
  {
    forall r | r in s ensures KeyOf(ByDate, r) in KeysOf(Daily(s), DailyKey()) {
      assert DailyKey()(DailyOf(s, r.ingestedDate)) == KeyOf(ByDate, r);
    }
  }

  lemma LatestTotals(s: seq<SilverRow>, latest: set<LatestRow>, col: Column)
    requires IsLatest(s, latest)
    ensures SumOver(latest, LatestColumn(col)) == Total(s, col)
  {
    SumByKey(s, ByFile, col, latest, LatestKey(), LatestColumn(col));
    LatestKeys(s, latest);
    AllGroupsTotal(s, ByFile, Keys(s, ByFile), col);
  }

  lemma LatestKeys(s: seq<SilverRow>, latest: set<LatestRow>)
    requires IsLatest(s, latest)
    ensures KeysOf(latest, LatestKey()) == Keys(s, ByFile)
  {
    forall r | r in s ensures KeyOf(ByFile, r) in KeysOf(latest, LatestKey()) {
      var row :| row in latest && row.fileId == r.fileId;
      assert LatestKey()(row) == KeyOf(ByFile, r);
    }
  }

  lemma {:induction false} EmbeddedOrPending(s: seq<SilverRow>)
    ensures Total(s, Embedded) + Total(s, PendingEmbedding) == Total(s, Chunks) == |s|
  {
    if s != [] {
      EmbeddedOrPending(s[..|s| - 1]);
    }
  }

  /** (date, file) pairs with a row on one of the dates. */
  function Pairs(s: seq<SilverRow>, dates: set<Key>): set<(Key, string)> {
    set r | r in s && KeyOf(ByDate, r) in dates :: (KeyOf(ByDate, r), r.fileId)
  }

  lemma PairsOfDate(s: seq<SilverRow>, dates: set<Key>, d: Key)
    requires d in dates
    ensures var own := set f | f in Files(Group(s, ByDate, d)) :: (d, f);
            Pairs(s, dates) == Pairs(s, dates - {d}) + own && Pairs(s, dates - {d}) !! own
  {
    GroupMembers(s, ByDate, d);
  }

  /** `dashboard_files`, SUM(file_count) over rows of the daily mart, counts (date, file) pairs. */
  lemma {:induction false} SumIsPairs(s: seq<SilverRow>, rows: set<DailyRow>)
    requires rows <= Daily(s)
    ensures SumOver(rows, FileCount()) == |Pairs(s, KeysOf(rows, DailyKey()))|
    decreases rows
  {
    if rows == {} {
      assert Pairs(s, KeysOf(rows, DailyKey())) == {};
    } else {
      var row :| row in rows;
      var dates, d := KeysOf(rows, DailyKey()), DailyKey()(row);
      SumOverRemove(rows, FileCount(), row);
      SumIsPairs(s, rows - {row});
      DatesWithout(s, rows, row);
      PairsOfDate(s, dates, d);
      PairUp(d, Files(Group(s, ByDate, d)));
      assert row == DailyOf(s, row.ingestedDate);
    }
  }

  lemma DatesWithout(s: seq<SilverRow>, rows: set<DailyRow>, row: DailyRow)
    requires rows <= Daily(s) && row in rows
    ensures KeysOf(rows - {row}, DailyKey()) == KeysOf(rows, DailyKey()) - {DailyKey()(row)}
    ensures DailyKey()(row) in KeysOf(rows, DailyKey())
  {
    forall q | q in rows && DailyKey()(q) == DailyKey()(row) ensures q == row {
      assert q in Daily(s) && row in Daily(s);
    }
  }

  lemma {:induction false} PairUp(d: Key, files: set<string>)
    ensures |set f | f in files :: (d, f)| == |files|
    decreases files
  {
    if files != {} {
      var f :| f in files;
      PairUp(d, files - {f});
      assert (set g | g in files :: (d, g)) == (set g | g in files - {f} :: (d, g)) + {(d, f)};
    }
  }

  lemma {:induction false} ProjectionSize(pairs: set<(Key, string)>)
    ensures |set p | p in pairs :: p.1| <= |pairs|
    decreases pairs
  {
    if pairs != {} {
      var p :| p in pairs;
      ProjectionSize(pairs - {p});
      assert (set q | q in pairs :: q.1) == (set q | q in pairs - {p} :: q.1) + {p.1};
    }
  }

  lemma {:induction false} InjectiveSize(pairs: set<(Key, string)>)
    requires forall p, q :: p in pairs && q in pairs && p.1 == q.1 ==> p == q
    ensures |set p | p in pairs :: p.1| == |pairs|
    decreases pairs
  {
    if pairs != {} {
      var p :| p in pairs;
      InjectiveSize(pairs - {p});
      assert (set q | q in pairs :: q.1) == (set q | q in pairs - {p} :: q.1) + {p.1};
      assert p.1 !in (set q | q in pairs - {p} :: q.1);
    }
  }

  /** The file counts of the daily mart's rows sum to the number of files exactly when each file has one date. */
  lemma FileCountsSum(s: seq<SilverRow>)
    ensures SumOver(Daily(s), FileCount()) == |Files(s)| <==> DatesAgree(s)
  {
    SumIsPairs(s, Daily(s));
    DailyKeys(s);
    PairsFiles(s);
    if DatesAgree(s) {
      InjectiveSize(Pairs(s, Keys(s, ByDate)));
    } else {
      MorePairs(s);
    }
  }

  /** A file with rows on two dates is in two pairs. */
  lemma MorePairs(s: seq<SilverRow>)
    requires !DatesAgree(s)
    ensures |set p | p in Pairs(s, Keys(s, ByDate)) :: p.1| < |Pairs(s, Keys(s, ByDate))|
  {
    var pairs := Pairs(s, Keys(s, ByDate));
    var a, b :| a in s && b in s && a.fileId == b.fileId && a.ingestedDate != b.ingestedDate;
    var p, q := (KeyOf(ByDate, a), a.fileId), (KeyOf(ByDate, b), b.fileId);
    assert p in pairs && q in pairs;
    ProjectionSize(pairs - {p});
    assert (set x | x in pairs - {p} :: x.1) == (set x | x in pairs :: x.1) by {
      assert q in pairs - {p} && q.1 == p.1;
    }
  }

  lemma PairsFiles(s: seq<SilverRow>)
    ensures (set p | p in Pairs(s, Keys(s, ByDate)) :: p.1) == Files(s)
  {
    var pairs := Pairs(s, Keys(s, ByDate));
    forall f | f in Files(s) ensures f in (set p | p in pairs :: p.1) {
      var r :| r in s && r.fileId == f;
      assert KeyOf(ByDate, r) in Keys(s, ByDate);
      assert (KeyOf(ByDate, r), r.fileId) in pairs;
    }
  }

  // --------------------------------------------------- what the columns count

  /** COUNT over Silver's rows: the indices of the rows that satisfy a condition. */
  function Where(s: seq<SilverRow>, p: SilverRow -> bool): set<int> {
    set i | 0 <= i < |s| && p(s[i])
  }

  lemma SameIndices(s: seq<SilverRow>, p: SilverRow -> bool, indices: set<int>)
    requires forall i :: i in indices <==> 0 <= i < |s| && p(s[i])
    ensures Where(s, p) == indices
  {
  }

  lemma WhereSnoc(s: seq<SilverRow>, r: SilverRow, p: SilverRow -> bool)
    ensures |Where(s + [r], p)| == |Where(s, p)| + (if p(r) then 1 else 0)
  {
    assert Where(s + [r], p) == Where(s, p) + (if p(r) then {|s|} else {});
  }

  /** A column of a group counts the rows that are in the group and have the column's weight. */
  lemma {:induction false} GroupCount(s: seq<SilverRow>, how: By, k: Key, col: Column, p: SilverRow -> bool)
    requires forall r :: (if p(r) then 1 else 0) == (if KeyOf(how, r) == k then Weight(col, r) else 0)
    ensures Total(Group(s, how, k), col) == |Where(s, p)|
  {
    if s == [] {
      assert Where(s, p) == {};
    } else {
      var init, r := s[..|s| - 1], s[|s| - 1];
      assert s == init + [r];
      GroupCount(init, how, k, col, p);
      GroupSnoc(init, r, how, k, col);
      WhereSnoc(init, r, p);
    }
  }

  /** SUM(content_length) over the rows of a date. */
  function LengthOfDate(s: seq<SilverRow>, date: Option<int>): nat {
    if s == [] then 0
    else LengthOfDate(s[..|s| - 1], date) + (if s[|s| - 1].ingestedDate == date then s[|s| - 1].contentLength else 0)
  }

  /** SUM(content_length) over the rows of a file. */
  function LengthOfFile(s: seq<SilverRow>, fileId: string): nat {
    if s == [] then 0
    else LengthOfFile(s[..|s| - 1], fileId) + (if s[|s| - 1].fileId == fileId then s[|s| - 1].contentLength else 0)
  }

  lemma {:induction false} DateLength(s: seq<SilverRow>, date: Option<int>)
    ensures Total(Group(s, ByDate, DateKey(date)), Length) == LengthOfDate(s, date)
  {
    if s != [] {
      DateLength(s[..|s| - 1], date);
      GroupSnoc(s[..|s| - 1], s[|s| - 1], ByDate, DateKey(date), Length);
      assert s == s[..|s| - 1] + [s[|s| - 1]];
    }
  }

  lemma {:induction false} FileLength(s: seq<SilverRow>, fileId: string)
    ensures Total(Group(s, ByFile, FileKey(fileId)), Length) == LengthOfFile(s, fileId)
  {
    if s != [] {
      FileLength(s[..|s| - 1], fileId);
      GroupSnoc(s[..|s| - 1], s[|s| - 1], ByFile, FileKey(fileId), Length);
      assert s == s[..|s| - 1] + [s[|s| - 1]];
    }
  }

  /** What a row of mart_ingestion_daily says about its date. */
  lemma DailyRowCounts(s: seq<SilverRow>, d: DailyRow)
    requires d in Daily(s)
    ensures d.fileCount == |set i | 0 <= i < |s| && s[i].ingestedDate == d.ingestedDate :: s[i].fileId|
    ensures d.chunkCount == |set i | 0 <= i < |s| && s[i].ingestedDate == d.ingestedDate|
    ensures d.contentLength == LengthOfDate(s, d.ingestedDate)
    ensures d.embeddedChunkCount == |set i | 0 <= i < |s| && s[i].ingestedDate == d.ingestedDate && s[i].isEmbedded|
    ensures d.pendingEmbeddingChunkCount
         == |set i | 0 <= i < |s| && s[i].ingestedDate == d.ingestedDate && !s[i].isEmbedded|
  {
    assert d == DailyOf(s, d.ingestedDate);
    DateFiles(s, d.ingestedDate);
    DateCount(s, d.ingestedDate);
    DateEmbedded(s, d.ingestedDate);
    DatePending(s, d.ingestedDate);
    DateLength(s, d.ingestedDate);
  }

  lemma DateFiles(s: seq<SilverRow>, date: Option<int>)
    ensures Files(Group(s, ByDate, DateKey(date))) == set i | 0 <= i < |s| && s[i].ingestedDate == date :: s[i].fileId
  {
    var g := Group(s, ByDate, DateKey(date));
    GroupMembers(s, ByDate, DateKey(date));
    forall f | f in Files(g) ensures exists i :: 0 <= i < |s| && s[i].ingestedDate == date && s[i].fileId == f {
      var r :| r in g && r.fileId == f;
      var i :| 0 <= i < |s| && s[i] == r;
    }
    forall i | 0 <= i < |s| && s[i].ingestedDate == date ensures s[i].fileId in Files(g) {
      assert s[i] in g;
    }
  }

  lemma DateCount(s: seq<SilverRow>, date: Option<int>)
    ensures Total(Group(s, ByDate, DateKey(date)), Chunks) == |set i | 0 <= i < |s| && s[i].ingestedDate == date|
  {
    var p := (r: SilverRow) => r.ingestedDate == date;
    GroupCount(s, ByDate, DateKey(date), Chunks, p);
    assert Where(s, p) == set i | 0 <= i < |s| && s[i].ingestedDate == date;
  }

  lemma DateEmbedded(s: seq<SilverRow>, date: Option<int>)
    ensures Total(Group(s, ByDate, DateKey(date)), Embedded)
         == |set i | 0 <= i < |s| && s[i].ingestedDate == date && s[i].isEmbedded|
  {
    var p := (r: SilverRow) => r.ingestedDate == date && r.isEmbedded;
    forall r
      ensures (if p(r) then 1 else 0)
           == (if KeyOf(ByDate, r) == DateKey(date) then Weight(Embedded, r) else 0) {}
    GroupCount(s, ByDate, DateKey(date), Embedded, p);
    SameIndices(s, p, set i | 0 <= i < |s| && s[i].ingestedDate == date && s[i].isEmbedded);
  }

  lemma DatePending(s: seq<SilverRow>, date: Option<int>)
    ensures Total(Group(s, ByDate, DateKey(date)), PendingEmbedding)
         == |set i | 0 <= i < |s| && s[i].ingestedDate == date && !s[i].isEmbedded|
  {
    var p := (r: SilverRow) => r.ingestedDate == date && !r.isEmbedded;
    forall r
      ensures (if p(r) then 1 else 0)
           == (if KeyOf(ByDate, r) == DateKey(date) then Weight(PendingEmbedding, r) else 0) {}
    GroupCount(s, ByDate, DateKey(date), PendingEmbedding, p);
    SameIndices(s, p, set i | 0 <= i < |s| && s[i].ingestedDate == date && !s[i].isEmbedded);
  }

  /** What a row of mart_file_latest says about its file. */
  lemma LatestRowCounts(s: seq<SilverRow>, rows: set<LatestRow>, row: LatestRow)
    requires IsLatest(s, rows) && row in rows
    ensures row.chunkCount == |set i | 0 <= i < |s| && s[i].fileId == row.fileId|
    ensures row.contentLength == LengthOfFile(s, row.fileId)
    ensures row.embeddedChunkCount == |set i | 0 <= i < |s| && s[i].fileId == row.fileId && s[i].isEmbedded|
    ensures row.pendingEmbeddingChunkCount == |set i | 0 <= i < |s| && s[i].fileId == row.fileId && !s[i].isEmbedded|
  {
    assert IsLatestRow(s, row);
    assert row == LatestOf(s, row.fileId, row.contentVersion);
    FileCounts(s, row.fileId);
    FileEmbedded(s, row.fileId);
    FilePending(s, row.fileId);
    FileLength(s, row.fileId);
  }

  /** Its version is one of the file's, and its time the latest of them, NULLs aside. */
  lemma LatestRowNewest(s: seq<SilverRow>, rows: set<LatestRow>, row: LatestRow)
    requires IsLatest(s, rows) && row in rows
    ensures exists i :: 0 <= i < |s| && s[i].fileId == row.fileId && s[i].contentVersion == row.contentVersion
    ensures row.latestIngestedAt.Some? ==>
              exists i :: 0 <= i < |s| && s[i].fileId == row.fileId && s[i].ingestedAt == row.latestIngestedAt
    ensures forall i :: 0 <= i < |s| && s[i].fileId == row.fileId ==> !Below(row.latestIngestedAt, s[i].ingestedAt)
  {
    assert IsLatestRow(s, row);
    var r :| r in s && r.fileId == row.fileId && row == LatestOf(s, r.fileId, r.contentVersion);
    var i :| 0 <= i < |s| && s[i] == r;
    FileMax(s, row.fileId);
  }

  lemma FileCounts(s: seq<SilverRow>, fileId: string)
    ensures Total(Group(s, ByFile, FileKey(fileId)), Chunks) == |set i | 0 <= i < |s| && s[i].fileId == fileId|
  {
    var p := (r: SilverRow) => r.fileId == fileId;
    GroupCount(s, ByFile, FileKey(fileId), Chunks, p);
    assert Where(s, p) == set i | 0 <= i < |s| && s[i].fileId == fileId;
  }

  lemma FileEmbedded(s: seq<SilverRow>, fileId: string)
    ensures Total(Group(s, ByFile, FileKey(fileId)), Embedded)
         == |set i | 0 <= i < |s| && s[i].fileId == fileId && s[i].isEmbedded|
  {
    var p := (r: SilverRow) => r.fileId == fileId && r.isEmbedded;
    forall r
      ensures (if p(r) then 1 else 0)
           == (if KeyOf(ByFile, r) == FileKey(fileId) then Weight(Embedded, r) else 0) {}
    GroupCount(s, ByFile, FileKey(fileId), Embedded, p);
    SameIndices(s, p, set i | 0 <= i < |s| && s[i].fileId == fileId && s[i].isEmbedded);
  }

  lemma FilePending(s: seq<SilverRow>, fileId: string)
    ensures Total(Group(s, ByFile, FileKey(fileId)), PendingEmbedding)
         == |set i | 0 <= i < |s| && s[i].fileId == fileId && !s[i].isEmbedded|
  {
    var p := (r: SilverRow) => r.fileId == fileId && !r.isEmbedded;
    forall r
      ensures (if p(r) then 1 else 0)
           == (if KeyOf(ByFile, r) == FileKey(fileId) then Weight(PendingEmbedding, r) else 0) {}
    GroupCount(s, ByFile, FileKey(fileId), PendingEmbedding, p);
    SameIndices(s, p, set i | 0 <= i < |s| && s[i].fileId == fileId && !s[i].isEmbedded);
  }

  lemma {:induction false} MaxIsGreatest(g: seq<SilverRow>)
    ensures forall r :: r in g ==> !Below(MaxIngestedAt(g), r.ingestedAt)
    ensures MaxIngestedAt(g) == None || exists r :: r in g && r.ingestedAt == MaxIngestedAt(g)
  {
    if g != [] {
      var init, last := g[..|g| - 1], g[|g| - 1];
      MaxIsGreatest(init);
      assert g == init + [last];
      if MaxIngestedAt(g) == MaxIngestedAt(init) && MaxIngestedAt(init).Some? {
        var r :| r in init && r.ingestedAt == MaxIngestedAt(init);
        assert r in g;
      } else {
        assert last in g;
      }
    }
  }

  lemma FileMax(s: seq<SilverRow>, fileId: string)
    ensures var max := MaxIngestedAt(Group(s, ByFile, FileKey(fileId)));
            && (forall i :: 0 <= i < |s| && s[i].fileId == fileId ==> !Below(max, s[i].ingestedAt))
            && (max.Some? ==> exists i :: 0 <= i < |s| && s[i].fileId == fileId && s[i].ingestedAt == max)
  {
    var g := Group(s, ByFile, FileKey(fileId));
    GroupMembers(s, ByFile, FileKey(fileId));
    MaxIsGreatest(g);
    forall i | 0 <= i < |s| && s[i].fileId == fileId ensures !Below(MaxIngestedAt(g), s[i].ingestedAt) {
      assert s[i] in g;
    }
    if MaxIngestedAt(g).Some? {
      var r :| r in g && r.ingestedAt == MaxIngestedAt(g);
      var i :| 0 <= i < |s| && s[i] == r;
    }
  }

  /** What Silver shows of a row of the view: its day in Tokyo, nine hours ahead of UTC, its status and its length. */
  lemma SilverSpec(c: CurrentRow)
    ensures var r := SilverOf(c);
            && r.fileId == c.fileId && r.contentVersion == c.contentVersion && r.ingestedAt == c.ingestedAt
            && (r.ingestedDate.Some? <==> c.ingestedAt.Some?)
            && (c.ingestedAt.Some? ==>
                  r.ingestedDate.value * 86_400_000_000 <= c.ingestedAt.value + 32_400_000_000
                  < (r.ingestedDate.value + 1) * 86_400_000_000)
            && (r.isEmbedded <==> c.embeddingStatus == "completed") && r.contentLength == |c.content|
  {
  }

  /** Over any log the workers can have written nothing is embedded yet: every chunk is pending in both marts. */
  lemma NothingEmbedded(table: seq<ChunkRow>, legacy: seq<ChunkRow>, landed: seq<Batch>,
                        view: multiset<CurrentRow>, rows: seq<CurrentRow>)
    requires IsTable(table, legacy, LoadsOf(landed)) && Faithful(landed) && IsChunksCurrent(table, view)
    requires multiset(rows) == view
    ensures var s := SilverRows(rows);
            && (forall d: DailyRow :: d in Daily(s) ==>
                  d.embeddedChunkCount == 0 && d.pendingEmbeddingChunkCount == d.chunkCount)
            && (forall latest: set<LatestRow>, r: LatestRow :: IsLatest(s, latest) && r in latest ==>
                  r.embeddedChunkCount == 0 && r.pendingEmbeddingChunkCount == r.chunkCount)
  {
    var s := SilverRows(rows);
    forall i | 0 <= i < |s| ensures !s[i].isEmbedded {
      assert rows[i] in multiset(rows);
      PendingRow(table, legacy, landed, view, rows[i]);
    }
    forall d: DailyRow | d in Daily(s)
      ensures d.embeddedChunkCount == 0 && d.pendingEmbeddingChunkCount == d.chunkCount
    {
      PendingDaily(s, d);
    }
    forall latest: set<LatestRow>, r: LatestRow | IsLatest(s, latest) && r in latest
      ensures r.embeddedChunkCount == 0 && r.pendingEmbeddingChunkCount == r.chunkCount
    {
      PendingLatest(s, latest, r);
    }
  }

  lemma PendingDaily(s: seq<SilverRow>, d: DailyRow)
    requires d in Daily(s) && forall i :: 0 <= i < |s| ==> !s[i].isEmbedded
    ensures d.embeddedChunkCount == 0 && d.pendingEmbeddingChunkCount == d.chunkCount
  {
    DailyRowCounts(s, d);
    assert (set i | 0 <= i < |s| && s[i].ingestedDate == d.ingestedDate && s[i].isEmbedded) == {};
    assert (set i | 0 <= i < |s| && s[i].ingestedDate == d.ingestedDate && !s[i].isEmbedded)
        == set i | 0 <= i < |s| && s[i].ingestedDate == d.ingestedDate;
  }

  lemma PendingLatest(s: seq<SilverRow>, latest: set<LatestRow>, r: LatestRow)
    requires IsLatest(s, latest) && r in latest && forall i :: 0 <= i < |s| ==> !s[i].isEmbedded
    ensures r.embeddedChunkCount == 0 && r.pendingEmbeddingChunkCount == r.chunkCount
  {
    LatestRowCounts(s, latest, r);
    assert (set i | 0 <= i < |s| && s[i].fileId == r.fileId && s[i].isEmbedded) == {};
    assert (set i | 0 <= i < |s| && s[i].fileId == r.fileId && !s[i].isEmbedded)
        == set i | 0 <= i < |s| && s[i].fileId == r.fileId;
  }

  lemma PendingRow(table: seq<ChunkRow>, legacy: seq<ChunkRow>, landed: seq<Batch>,
                   view: multiset<CurrentRow>, c: CurrentRow)
    requires IsTable(table, legacy, LoadsOf(landed)) && Faithful(landed) && IsChunksCurrent(table, view) && c in view
    ensures c.embeddingStatus == "pending"
  {
    var b := RowOfBatch(table, legacy, landed, view, c);
    CurrentRowsSpec(b);
    var i :| 0 <= i < |CurrentRows(b)| && CurrentRows(b)[i] == c;
  }

  // ------------------------------------------------------- from the view to Silver

  function SilverRows(rows: seq<CurrentRow>): seq<SilverRow> {
    seq(|rows|, i requires 0 <= i < |rows| => SilverOf(rows[i]))
  }

  /**
   * Mart well-definedness: over any log the workers can have written and any result of
   * `chunks_current`, in any order, the rows of a file share version and date, so that
   * ANY_VALUE is determined and the daily file counts sum to the number of files.
   */
  lemma MartsWellDefined(table: seq<ChunkRow>, legacy: seq<ChunkRow>, landed: seq<Batch>,
                         view: multiset<CurrentRow>, rows: seq<CurrentRow>)
    requires IsTable(table, legacy, LoadsOf(landed)) && Faithful(landed) && IsChunksCurrent(table, view)
    requires multiset(rows) == view
    ensures var s := SilverRows(rows);
            && (forall a, b :: IsLatest(s, a) && IsLatest(s, b) ==> a == b)
            && SumOver(Daily(s), FileCount()) == |Files(s)|
  {
    SilverAgrees(table, legacy, landed, view, rows);
    LatestDetermined(SilverRows(rows));
    FileCountsSum(SilverRows(rows));
  }

  lemma SilverAgrees(table: seq<ChunkRow>, legacy: seq<ChunkRow>, landed: seq<Batch>,
                     view: multiset<CurrentRow>, rows: seq<CurrentRow>)
    requires IsTable(table, legacy, LoadsOf(landed)) && Faithful(landed) && IsChunksCurrent(table, view)
    requires multiset(rows) == view
    ensures VersionsAgree(SilverRows(rows)) && DatesAgree(SilverRows(rows))
  {
    var s := SilverRows(rows);
    forall a, b | a in s && b in s && a.fileId == b.fileId
      ensures a.contentVersion == b.contentVersion && a.ingestedDate == b.ingestedDate
    {
      var c := SilverOrigin(rows, a);
      var d := SilverOrigin(rows, b);
      OneVersionPerFile(table, legacy, landed, view, c, d);
    }
  }

  lemma SilverOrigin(rows: seq<CurrentRow>, r: SilverRow) returns (c: CurrentRow)
    requires r in SilverRows(rows)
    ensures c in multiset(rows) && r == SilverOf(c)
  {
    var i :| 0 <= i < |rows| && SilverRows(rows)[i] == r;
    c := rows[i];
  }
}
