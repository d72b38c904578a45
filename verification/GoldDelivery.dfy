/**
 * Delivery of the marts as CSV files and its verification: internal/bq (export),
 * internal/drive (UpsertFile, ListFiles), internal/goldreport and cmd/verify_gold.
 */
module GoldDelivery {
  import opened Options
  import opened Text
  import opened ChunkLog
  import opened GoldMarts

  datatype Table = DailyTable | LatestTable

  const TABLES: seq<Table> := [DailyTable, LatestTable]

  function FileName(t: Table): string {
    match t
    case DailyTable => "mart_ingestion_daily.csv"
    case LatestTable => "mart_file_latest.csv"
  }

  /** File contents: a rendered mart (rendering is injective), some other CSV, or no CSV. */
  datatype Blob =
    | DailyCsv(dailyRows: seq<DailyRow>)
    | LatestCsv(latestRows: seq<LatestRow>)
    | OtherCsv(columns: nat, dataRows: nat, text: string)
    | NotCsv(text: string)

  /** Columns and data rows, as the CSV reader finds them. */
  function ReadCsv(b: Blob): Option<(nat, nat)> {
    match b
    case DailyCsv(rows) => Some((6, |rows|))
    case LatestCsv(rows) => Some((7, |rows|))
    case OtherCsv(columns, dataRows, _) => Some((columns, dataRows))
    case NotCsv(_) => None
  }

  datatype CheckError = InvalidCsv | UnexpectedColumnCount | CsvMismatch | UnexpectedEmptyCsv

  /** `CheckCSV`; None is success. */
  function CheckCSV(t: Table, want: Blob, got: Blob, allowEmpty: bool): Option<CheckError> {
    match ReadCsv(got)
    case None => Some(InvalidCsv)
    case Some((columns, rows)) =>
      if columns != (if t.DailyTable? then 6 else 7) then Some(UnexpectedColumnCount)
      else if want != got then Some(CsvMismatch)
      else if rows == 0 && !allowEmpty then Some(UnexpectedEmptyCsv)
      else None
  }

  /** A check passes exactly on the wanted bytes, read as a CSV of the table's width with enough rows. */
  lemma CheckCSVPasses(t: Table, want: Blob, got: Blob, allowEmpty: bool)
    ensures CheckCSV(t, want, got, allowEmpty) == None
            <==> want == got && ReadCsv(got).Some? && ReadCsv(got).value.0 == (if t.DailyTable? then 6 else 7)
                 && (allowEmpty || ReadCsv(got).value.1 > 0)
  {
  }

  /** The errors, in the order of the tests. */
  lemma CheckCSVErrors(t: Table, want: Blob, got: Blob, allowEmpty: bool)
    ensures CheckCSV(t, want, got, allowEmpty) == Some(InvalidCsv) <==> ReadCsv(got).None?
    ensures CheckCSV(t, want, got, allowEmpty) == Some(UnexpectedColumnCount)
            <==> ReadCsv(got).Some? && ReadCsv(got).value.0 != (if t.DailyTable? then 6 else 7)
    ensures CheckCSV(t, want, got, allowEmpty) == Some(CsvMismatch)
            <==> ReadCsv(got).Some? && ReadCsv(got).value.0 == (if t.DailyTable? then 6 else 7) && want != got
  {
  }

  /** A delivered table without rows is only its header: an error unless it may be empty. */
  lemma EmptyExport(allowEmpty: bool)
    ensures (CheckCSV(DailyTable, DailyCsv([]), DailyCsv([]), allowEmpty) == None) == allowEmpty
    ensures (CheckCSV(LatestTable, LatestCsv([]), LatestCsv([]), allowEmpty) == None) == allowEmpty
    ensures !allowEmpty ==> CheckCSV(DailyTable, DailyCsv([]), DailyCsv([]), allowEmpty) == Some(UnexpectedEmptyCsv)
  {
  }

  /** The files of the two tables. */
  lemma FileNames()
    ensures FileName(DailyTable) == "mart_ingestion_daily.csv" && FileName(LatestTable) == "mart_file_latest.csv"
  {
  }

  // ------------------------------------------------------------- ORDER BY 1

  predicate DailyBefore(a: DailyRow, b: DailyRow) {
    Below(a.ingestedDate, b.ingestedDate)
  }

  predicate LatestBefore(a: LatestRow, b: LatestRow) {
    LexLess(a.fileId, b.fileId)
  }

  predicate Ordered<T>(rows: seq<T>, before: (T, T) -> bool) {
    forall i, j :: 0 <= i < j < |rows| ==> !before(rows[j], rows[i])
  }

  /** rows is a possible answer to SELECT * ... ORDER BY 1. */
  ghost predicate IsAnswer<T(!new)>(mart: multiset<T>, rows: seq<T>, before: (T, T) -> bool) {
    multiset(rows) == mart && Ordered(rows, before)
  }

  /** Column 1 tells the rows apart, and no row occurs twice. */
  ghost predicate KeyedBy<T(!new)>(mart: multiset<T>, before: (T, T) -> bool) {
    && (forall x :: mart[x] <= 1)
    && (forall x, y :: x in mart && y in mart && x != y ==> before(x, y) || before(y, x))
  }

  lemma SameHead<T(!new)>(mart: multiset<T>, a: seq<T>, b: seq<T>, before: (T, T) -> bool)
    requires KeyedBy(mart, before) && IsAnswer(mart, a, before) && IsAnswer(mart, b, before) && a != [] && b != []
    ensures a[0] == b[0]
  {
    assert a[0] in multiset(b) && b[0] in multiset(a);
    var i :| 0 <= i < |b| && b[i] == a[0];
    var j :| 0 <= j < |a| && a[j] == b[0];
    assert i > 0 ==> !before(b[i], b[0]);
    assert j > 0 ==> !before(a[j], a[0]);
  }

  lemma TailAnswer<T(!new)>(mart: multiset<T>, a: seq<T>, before: (T, T) -> bool)
    requires KeyedBy(mart, before) && IsAnswer(mart, a, before) && a != []
    ensures IsAnswer(mart - multiset{a[0]}, a[1..], before) && KeyedBy(mart - multiset{a[0]}, before)
  {
    TailBag(a);
    KeyedLess(mart, a[0], before);
  }

  lemma TailBag<T(!new)>(a: seq<T>)
    requires a != []
    ensures multiset(a[1..]) == multiset(a) - multiset{a[0]}
  {
    assert a == [a[0]] + a[1..];
    assert multiset(a) == multiset{a[0]} + multiset(a[1..]);
  }

  lemma KeyedLess<T(!new)>(mart: multiset<T>, row: T, before: (T, T) -> bool)
    requires KeyedBy(mart, before)
    ensures KeyedBy(mart - multiset{row}, before)
  {
    assert forall x :: x in mart - multiset{row} ==> x in mart;
  }

  lemma SameSize<T(!new)>(a: seq<T>, b: seq<T>)
    requires multiset(a) == multiset(b)
    ensures |a| == |b|
  {
    assert |a| == |multiset(a)| && |b| == |multiset(b)|;
  }

  /** When column 1 is a key, ORDER BY 1 leaves one answer. */
  lemma {:induction false} OneAnswer<T(!new)>(mart: multiset<T>, a: seq<T>, b: seq<T>, before: (T, T) -> bool)
    requires KeyedBy(mart, before) && IsAnswer(mart, a, before) && IsAnswer(mart, b, before)
    ensures a == b
    decreases |a|
  {
    SameSize(a, b);
    if a != [] {
      SameHead(mart, a, b, before);
      TailAnswer(mart, a, before);
      TailAnswer(mart, b, before);
      OneAnswer(mart - multiset{a[0]}, a[1..], b[1..], before);
      assert a == [a[0]] + a[1..] && b == [b[0]] + b[1..];
    }
  }

  /** The marts have their group key in column 1. */
  lemma DailyIsKeyed(s: seq<SilverRow>)
    ensures KeyedBy(multiset(Daily(s)), DailyBefore)
  {
  }

  lemma LatestIsKeyed(s: seq<SilverRow>, rows: set<LatestRow>)
    requires IsLatest(s, rows)
    ensures KeyedBy(multiset(rows), LatestBefore)
  {
    forall x, y | x in rows && y in rows && x != y ensures LatestBefore(x, y) || LatestBefore(y, x) {
      LexTotal(x.fileId, y.fileId);
    }
  }

  /** Sorts by insertion, as one way to answer. */
  function Inserted<T>(x: T, rows: seq<T>, before: (T, T) -> bool): seq<T> {
    if rows == [] then [x]
    else if before(rows[0], x) then [rows[0]] + Inserted(x, rows[1..], before)
    else [x] + rows
  }

  ghost predicate WeakOrder<T(!new)>(before: (T, T) -> bool) {
    && (forall x, y :: before(x, y) ==> !before(y, x))
    && (forall x, y, z :: !before(x, y) && !before(y, z) ==> !before(x, z))
  }

  lemma {:induction false} InsertedSpec<T(!new)>(x: T, rows: seq<T>, before: (T, T) -> bool)
    requires WeakOrder(before) && Ordered(rows, before)
    ensures multiset(Inserted(x, rows, before)) == multiset(rows) + multiset{x}
    ensures Ordered(Inserted(x, rows, before), before)
  {
    if rows != [] {
      assert rows == [rows[0]] + rows[1..];
      if before(rows[0], x) {
        InsertedSpec(x, rows[1..], before);
        InsertedLater(x, rows, before);
      } else {
        forall k | 0 <= k < |rows| ensures !before(rows[k], x) {
          assert k > 0 ==> !before(rows[k], rows[0]);
        }
      }
    }
  }

  lemma InsertedLater<T(!new)>(x: T, rows: seq<T>, before: (T, T) -> bool)
    requires WeakOrder(before) && rows != [] && Ordered(rows, before) && before(rows[0], x)
    requires var rest := Inserted(x, rows[1..], before);
             multiset(rest) == multiset(rows[1..]) + multiset{x} && Ordered(rest, before)
    ensures Ordered([rows[0]] + Inserted(x, rows[1..], before), before)
  {
    var rest := Inserted(x, rows[1..], before);
    forall k | 0 <= k < |rest| ensures !before(rest[k], rows[0]) {
      assert rest[k] in multiset(rest);
      if rest[k] != x {
        assert rest[k] in multiset(rows[1..]);
        var j :| 0 <= j < |rows[1..]| && rows[1..][j] == rest[k];
        assert rows[j + 1] == rest[k];
      }
    }
  }

  lemma OrdersAreWeak()
    ensures WeakOrder(DailyBefore) && WeakOrder(LatestBefore)
  {
    forall x: LatestRow, y: LatestRow ensures LatestBefore(x, y) ==> !LatestBefore(y, x) {
      LexTotal(x.fileId, y.fileId);
    }
    forall x: LatestRow, y: LatestRow, z: LatestRow
      ensures !LatestBefore(x, y) && !LatestBefore(y, z) ==> !LatestBefore(x, z)
    {
      if !LatestBefore(x, y) && !LatestBefore(y, z) {
        LexTransitive(x.fileId, y.fileId, z.fileId);
      }
    }
  }

  method Sort<T(!new)>(rows: seq<T>, before: (T, T) -> bool) returns (sorted: seq<T>)
    requires WeakOrder(before)
    ensures IsAnswer(multiset(rows), sorted, before)
  {
    sorted := [];
    for i := 0 to |rows|
      invariant multiset(sorted) == multiset(rows[..i]) && Ordered(sorted, before)
    {
      InsertedSpec(rows[i], sorted, before);
      assert rows[..i + 1] == rows[..i] + [rows[i]];
      sorted := Inserted(rows[i], sorted, before);
    }
    assert rows[..|rows|] == rows;
  }

  // ------------------------------------------------------------ the Drive folder

  /** An entry of the export folder; a folder may carry a CSV name too. */
  datatype Entry = Entry(id: nat, name: string, isFolder: bool, content: Blob)

  function Named(files: seq<Entry>, name: string): seq<Entry> {
    if files == [] then []
    else Named(files[..|files| - 1], name)
         + (if files[|files| - 1].name == name then [files[|files| - 1]] else [])
  }

  function Unfolded(files: seq<Entry>): seq<Entry> {
    if files == [] then []
    else Unfolded(files[..|files| - 1]) + (if files[|files| - 1].isFolder then [] else [files[|files| - 1]])
  }

  /** At most one file, and no folder, of each CSV name. */
  predicate Tidy(files: seq<Entry>) {
    forall t | t in TABLES :: |Named(files, FileName(t))| <= 1
                              && forall e | e in Named(files, FileName(t)) :: !e.isFolder
  }

  lemma {:induction false} NamedAppend(a: seq<Entry>, b: seq<Entry>, name: string)
    ensures Named(a + b, name) == Named(a, name) + Named(b, name)
  {
    if b == [] {
      assert a + b == a;
    } else {
      assert (a + b)[..|a + b| - 1] == a + b[..|b| - 1];
      NamedAppend(a, b[..|b| - 1], name);
    }
  }

  lemma {:induction false} NamedMember(files: seq<Entry>, name: string)
    ensures forall e :: e in Named(files, name) <==> e in files && e.name == name
  {
    if files != [] {
      assert files == files[..|files| - 1] + [files[|files| - 1]];
      NamedMember(files[..|files| - 1], name);
    }
  }

  lemma {:induction false} NamedNone(files: seq<Entry>, name: string)
    requires forall e :: e in files ==> e.name != name
    ensures Named(files, name) == []
  {
    if files != [] {
      assert files[|files| - 1] in files;
      NamedNone(files[..|files| - 1], name);
    }
  }

  lemma NamedOne(e: Entry, name: string)
    ensures Named([e], name) == if e.name == name then [e] else []
  {
    assert [e][..0] == [];
  }

  lemma NamedNext(files: seq<Entry>, k: nat, name: string)
    requires k < |files|
    ensures Named(files[..k + 1], name) == Named(files[..k], name) + (if files[k].name == name then [files[k]] else [])
  {
    assert files[..k + 1][..k] == files[..k];
  }

  /** Replacing the content of an entry. */
  lemma NamedUpdate(files: seq<Entry>, k: nat, content: Blob, name: string)
    requires k < |files|
    ensures var after := files[k := files[k].(content := content)];
            && (name != files[k].name ==> Named(after, name) == Named(files, name))
            && |Named(after, name)| == |Named(files, name)|
            && (name == files[k].name && |Named(files, name)| == 1
                ==> Named(after, name) == [Named(files, name)[0].(content := content)])
  {
    var e := files[k];
    var a, b := files[..k], files[k + 1..];
    var after := files[k := e.(content := content)];
    assert files == a + [e] + b && after == a + [e.(content := content)] + b;
    NamedAppend(a + [e], b, name);
    NamedAppend(a, [e], name);
    NamedAppend(a + [e.(content := content)], b, name);
    NamedAppend(a, [e.(content := content)], name);
    NamedOne(e, name);
    NamedOne(e.(content := content), name);
  }

  lemma {:induction false} UnfoldedNamed(files: seq<Entry>, name: string)
    requires forall e :: e in Named(files, name) ==> !e.isFolder
    ensures Named(Unfolded(files), name) == Named(files, name)
  {
    if files != [] {
      var init, last := files[..|files| - 1], files[|files| - 1];
      UnfoldedNamed(init, name);
      NamedAppend(Unfolded(init), if last.isFolder then [] else [last], name);
      NamedOne(last, name);
    }
  }

  /** What UpsertFile leaves: a same-named entry updated in place, or a new file. */
  ghost predicate Upserted(before: seq<Entry>, after: seq<Entry>, name: string, content: Blob) {
    || (exists k :: 0 <= k < |before| && before[k].name == name && after == before[k := before[k].(content := content)])
    || ((forall e :: e in before ==> e.name != name)
        && exists id :: (forall e :: e in before ==> e.id != id) && after == before + [Entry(id, name, false, content)])
  }

  /** In a tidy folder an upsert leaves exactly one file of that name, with the ID it had if it existed. */
  lemma UpsertedSpec(before: seq<Entry>, after: seq<Entry>, name: string, content: Blob)
    requires Upserted(before, after, name, content)
    ensures |Named(before, name)| == 1 ==> Named(after, name) == [Named(before, name)[0].(content := content)]
    ensures |Named(before, name)| == 0 ==> |Named(after, name)| == 1 && Named(after, name)[0].content == content
                                           && !Named(after, name)[0].isFolder
    ensures forall other :: other != name ==> Named(after, other) == Named(before, other)
  {
    NamedMember(before, name);
    if k :| 0 <= k < |before| && before[k].name == name && after == before[k := before[k].(content := content)] {
      assert before[k] in before && before[k] in Named(before, name);
      NamedUpdate(before, k, content, name);
      forall other | other != name ensures Named(after, other) == Named(before, other) {
        NamedUpdate(before, k, content, other);
      }
    } else {
      var id :| after == before + [Entry(id, name, false, content)];
      NamedNone(before, name);
      forall other
        ensures Named(after, other)
             == Named(before, other) + (if other == name then [Entry(id, name, false, content)] else [])
      {
        NamedAppend(before, [Entry(id, name, false, content)], other);
        NamedOne(Entry(id, name, false, content), other);
      }
    }
  }

  // ------------------------------------------------------ marts, export, check

  /** The version of the last row of a file: one way to take ANY_VALUE. */
  function LastVersion(s: seq<SilverRow>, fileId: string): Option<string> {
    if s == [] then None
    else if s[|s| - 1].fileId == fileId then s[|s| - 1].contentVersion
    else LastVersion(s[..|s| - 1], fileId)
  }

  lemma {:induction false} LastVersionRow(s: seq<SilverRow>, fileId: string) returns (r: SilverRow)
    requires exists q: SilverRow :: q in s && q.fileId == fileId
    ensures r in s && r.fileId == fileId && r.contentVersion == LastVersion(s, fileId)
  {
    assert s == s[..|s| - 1] + [s[|s| - 1]];
    if s[|s| - 1].fileId == fileId {
      r := s[|s| - 1];
    } else {
      r := LastVersionRow(s[..|s| - 1], fileId);
    }
  }

  function LatestByLast(s: seq<SilverRow>): set<LatestRow> {
    set r | r in s :: LatestOf(s, r.fileId, LastVersion(s, r.fileId))
  }

  lemma LatestByLastIsLatest(s: seq<SilverRow>)
    ensures IsLatest(s, LatestByLast(s))
  {
    forall row | row in LatestByLast(s) ensures IsLatestRow(s, row) {
      var q: SilverRow :| q in s && row == LatestOf(s, q.fileId, LastVersion(s, q.fileId));
      var r := LastVersionRow(s, q.fileId);
      assert row == LatestOf(s, r.fileId, r.contentVersion);
    }
    forall r | r in s ensures exists row :: row in LatestByLast(s) && row.fileId == r.fileId {
      assert LatestOf(s, r.fileId, LastVersion(s, r.fileId)) in LatestByLast(s);
    }
  }

  /** Contents of a table, exported. */
  ghost predicate IsExport(daily: multiset<DailyRow>, latest: multiset<LatestRow>, t: Table, b: Blob) {
    match t
    case DailyTable => b.DailyCsv? && IsAnswer(daily, b.dailyRows, DailyBefore)
    case LatestTable => b.LatestCsv? && IsAnswer(latest, b.latestRows, LatestBefore)
  }

  /** Both exports ascend: dates from the earliest, after a missing one; file IDs in string order. */
  lemma ExportsAscend(daily: multiset<DailyRow>, latest: multiset<LatestRow>, d: Blob, l: Blob)
    requires IsExport(daily, latest, DailyTable, d) && IsExport(daily, latest, LatestTable, l)
    ensures forall i, j :: 0 <= i < j < |d.dailyRows| && d.dailyRows[j].ingestedDate.Some? ==>
              d.dailyRows[i].ingestedDate.Some? ==>
              d.dailyRows[i].ingestedDate.value <= d.dailyRows[j].ingestedDate.value
    ensures forall i, j :: 0 <= i < j < |d.dailyRows| && d.dailyRows[j].ingestedDate.None? ==>
              d.dailyRows[i].ingestedDate.None?
    ensures forall i, j :: 0 <= i < j < |l.latestRows| ==> !LexLess(l.latestRows[j].fileId, l.latestRows[i].fileId)
  {
  }

  /** The marts are Silver's aggregates. */
  ghost predicate Refreshed(s: seq<SilverRow>, daily: multiset<DailyRow>, latest: multiset<LatestRow>) {
    daily == multiset(Daily(s)) && exists rows :: IsLatest(s, rows) && latest == multiset(rows)
  }

  lemma OneExport(s: seq<SilverRow>, daily: multiset<DailyRow>, latest: multiset<LatestRow>, t: Table, a: Blob, b: Blob)
    requires Refreshed(s, daily, latest) && IsExport(daily, latest, t, a) && IsExport(daily, latest, t, b)
    ensures a == b
  {
    match t
    case DailyTable =>
      DailyIsKeyed(s);
      OneAnswer(daily, a.dailyRows, b.dailyRows, DailyBefore);
    case LatestTable =>
      var rows :| IsLatest(s, rows) && latest == multiset(rows);
      LatestIsKeyed(s, rows);
      OneAnswer(latest, a.latestRows, b.latestRows, LatestBefore);
  }

  lemma AnswerSize<T(!new)>(mart: multiset<T>, rows: seq<T>, before: (T, T) -> bool)
    requires IsAnswer(mart, rows, before)
    ensures |rows| == |mart|
  {
    assert |multiset(rows)| == |rows|;
  }

  /** An export of refreshed marts of a non-empty Silver has data rows. */
  lemma ExportNotEmpty(s: seq<SilverRow>, daily: multiset<DailyRow>, latest: multiset<LatestRow>, t: Table, b: Blob)
    requires Refreshed(s, daily, latest) && IsExport(daily, latest, t, b) && s != []
    ensures ReadCsv(b).Some? && ReadCsv(b).value.0 == (if t.DailyTable? then 6 else 7) && ReadCsv(b).value.1 > 0
  {
    if t.DailyTable? {
      DailyNotEmpty(s);
      AnswerSize(daily, b.dailyRows, DailyBefore);
    } else {
      MartNotEmpty(s, daily, latest);
      AnswerSize(latest, b.latestRows, LatestBefore);
    }
  }

  lemma MartNotEmpty(s: seq<SilverRow>, daily: multiset<DailyRow>, latest: multiset<LatestRow>)
    requires Refreshed(s, daily, latest) && s != []
    ensures |latest| > 0
  {
    var rows :| IsLatest(s, rows) && latest == multiset(rows);
    LatestNotEmpty(s, rows);
  }

  lemma DailyNotEmpty(s: seq<SilverRow>)
    requires s != []
    ensures |multiset(Daily(s))| > 0
  {
    assert s[0] in s;
    assert DailyOf(s, s[0].ingestedDate) in Daily(s);
  }

  lemma LatestNotEmpty(s: seq<SilverRow>, rows: set<LatestRow>)
    requires s != [] && IsLatest(s, rows)
    ensures |multiset(rows)| > 0
  {
    assert s[0] in s;
    var row: LatestRow :| row in rows && row.fileId == s[0].fileId;
  }

  /** The one listed file of the table's CSV name. */
  function Delivery(files: seq<Entry>, t: Table): seq<Entry> {
    Named(Unfolded(files), FileName(t))
  }

  /** It holds an export of the table. */
  ghost predicate HoldsExport(daily: multiset<DailyRow>, latest: multiset<LatestRow>, files: seq<Entry>, t: Table) {
    |Delivery(files, t)| == 1 && IsExport(daily, latest, t, Delivery(files, t)[0].content)
  }

  ghost predicate SameId(files: seq<Entry>, t: Table, previous: Option<Ids>) {
    previous.Some? ==> |Delivery(files, t)| == 1 && t in previous.value && previous.value[t] == Delivery(files, t)[0].id
  }

  /** A CSV file that existed has kept its ID. */
  ghost predicate KeptId(before: seq<Entry>, after: seq<Entry>, t: Table) {
    |Named(before, FileName(t))| == 1 ==>
      |Delivery(after, t)| == 1 && Delivery(after, t)[0].id == Named(before, FileName(t))[0].id
  }

  /** What a passed check says of a table. */
  ghost predicate Checked(daily: multiset<DailyRow>, latest: multiset<LatestRow>, files: seq<Entry>, t: Table,
                          allowEmpty: bool, previous: Option<Ids>, ids: Ids) {
    && HoldsExport(daily, latest, files, t) && SameId(files, t, previous)
    && t in ids && ids[t] == Delivery(files, t)[0].id
    && ReadCsv(Delivery(files, t)[0].content).Some?
    && (allowEmpty || ReadCsv(Delivery(files, t)[0].content).value.1 > 0)
  }

  /** The check loop's state: the first i tables are checked. */
  ghost predicate CheckedFirst(daily: multiset<DailyRow>, latest: multiset<LatestRow>, files: seq<Entry>, i: nat,
                               allowEmpty: bool, previous: Option<Ids>, ids: Ids) {
    forall j :: 0 <= j < i && j < |TABLES| ==> Checked(daily, latest, files, TABLES[j], allowEmpty, previous, ids)
  }

  lemma CheckStep(daily: multiset<DailyRow>, latest: multiset<LatestRow>, files: seq<Entry>, i: nat,
                  allowEmpty: bool, previous: Option<Ids>, ids: Ids, id: nat)
    requires i < |TABLES| && CheckedFirst(daily, latest, files, i, allowEmpty, previous, ids)
    requires Checked(daily, latest, files, TABLES[i], allowEmpty, previous, map[TABLES[i] := id])
    ensures CheckedFirst(daily, latest, files, i + 1, allowEmpty, previous, ids[TABLES[i] := id])
  {
    var next := ids[TABLES[i] := id];
    forall j | 0 <= j < i + 1 && j < |TABLES|
      ensures Checked(daily, latest, files, TABLES[j], allowEmpty, previous, next)
    {
      assert j != i ==> TABLES[j] != TABLES[i];
    }
  }

  lemma CheckedBoth(daily: multiset<DailyRow>, latest: multiset<LatestRow>, files: seq<Entry>,
                    allowEmpty: bool, previous: Option<Ids>, ids: Ids)
    requires CheckedFirst(daily, latest, files, |TABLES|, allowEmpty, previous, ids)
    ensures forall t: Table :: Checked(daily, latest, files, t, allowEmpty, previous, ids)
  {
    forall t: Table ensures Checked(daily, latest, files, t, allowEmpty, previous, ids) {
      var j := if t.DailyTable? then 0 else 1;
      assert TABLES[j] == t;
    }
  }

  /** A refreshed, exported table passes its check, whichever answers the engine gives. */
  lemma CheckPasses(s: seq<SilverRow>, daily: multiset<DailyRow>, latest: multiset<LatestRow>, t: Table,
                    want: Blob, got: Blob, allowEmpty: bool)
    requires Refreshed(s, daily, latest) && IsExport(daily, latest, t, want) && IsExport(daily, latest, t, got)
    requires allowEmpty || s != []
    ensures CheckCSV(t, want, got, allowEmpty) == None
  {
    OneExport(s, daily, latest, t, want, got);
    if s != [] { ExportNotEmpty(s, daily, latest, t, got); }
  }

  /** What a successful export leaves of a table: one file with its contents and the ID it had. */
  ghost predicate Exported(daily: multiset<DailyRow>, latest: multiset<LatestRow>,
                           before: seq<Entry>, after: seq<Entry>, t: Table) {
    var was, now := Named(before, FileName(t)), Named(after, FileName(t));
    && |now| == 1 && !now[0].isFolder && IsExport(daily, latest, t, now[0].content)
    && (|was| == 1 ==> now[0].id == was[0].id)
  }

  lemma UpsertExports(daily: multiset<DailyRow>, latest: multiset<LatestRow>,
                      before: seq<Entry>, after: seq<Entry>, t: Table, contents: Blob)
    requires Upserted(before, after, FileName(t), contents) && IsExport(daily, latest, t, contents)
    ensures |Named(before, FileName(t))| <= 1 && (forall e :: e in Named(before, FileName(t)) ==> !e.isFolder)
            ==> Exported(daily, latest, before, after, t)
    ensures forall other :: other != FileName(t) ==> Named(after, other) == Named(before, other)
  {
    UpsertedSpec(before, after, FileName(t), contents);
    if |Named(before, FileName(t))| == 1 {
      assert Named(before, FileName(t))[0] in Named(before, FileName(t));
    }
  }

  /** The export loop's state: the first i tables are exported, the others untouched. */
  ghost predicate ExportedFirst(daily: multiset<DailyRow>, latest: multiset<LatestRow>,
                                start: seq<Entry>, now: seq<Entry>, i: nat) {
    && (forall j :: 0 <= j < i && j < |TABLES| && Tidy(start) ==> Exported(daily, latest, start, now, TABLES[j]))
    && (forall j :: i <= j < |TABLES| ==> Named(now, FileName(TABLES[j])) == Named(start, FileName(TABLES[j])))
  }

  lemma ExportStep(daily: multiset<DailyRow>, latest: multiset<LatestRow>,
                   start: seq<Entry>, before: seq<Entry>, after: seq<Entry>, i: nat)
    requires i < |TABLES| && ExportedFirst(daily, latest, start, before, i)
    requires exists contents :: IsExport(daily, latest, TABLES[i], contents)
                                && Upserted(before, after, FileName(TABLES[i]), contents)
    ensures ExportedFirst(daily, latest, start, after, i + 1)
  {
    var t := TABLES[i];
    var contents :| IsExport(daily, latest, t, contents) && Upserted(before, after, FileName(t), contents);
    UpsertExports(daily, latest, before, after, t, contents);
    assert t in TABLES;
    assert forall j :: 0 <= j < |TABLES| && j != i ==> FileName(TABLES[j]) != FileName(t);
  }

  lemma {:induction false} UnfoldedCount(files: seq<Entry>, name: string)
    ensures forall e :: e in Named(Unfolded(files), name) <==> e in files && e.name == name && !e.isFolder
    ensures |Named(Unfolded(files), name)| <= |Named(files, name)|
  {
    NamedMember(Unfolded(files), name);
    UnfoldedMember(files);
    if files != [] {
      var init, last := files[..|files| - 1], files[|files| - 1];
      UnfoldedCount(init, name);
      NamedAppend(Unfolded(init), if last.isFolder then [] else [last], name);
      NamedOne(last, name);
    }
  }

  /** With one entry of the name, an upsert is delivered exactly when that entry is no folder. */
  lemma FolderBlocksDelivery(before: seq<Entry>, after: seq<Entry>, t: Table, contents: Blob)
    requires Upserted(before, after, FileName(t), contents) && |Named(before, FileName(t))| == 1
    ensures |Delivery(after, t)| == 1 <==> !Named(before, FileName(t))[0].isFolder
  {
    var name := FileName(t);
    UpsertedSpec(before, after, name, contents);
    NamedMember(after, name);
    UnfoldedCount(after, name);
    var e := Named(after, name)[0];
    assert e in Named(after, name);
    forall g | g in Delivery(after, t) ensures g == e {
      assert g in Named(after, name);
    }
    if !e.isFolder {
      assert e in Delivery(after, t);
    } else {
      UnfoldedMember(after);
      NamedNone(Unfolded(after), name);
    }
  }

  /** After an export of both tables the folder is tidy and the listing shows them. */
  lemma ExportedHolds(daily: multiset<DailyRow>, latest: multiset<LatestRow>,
                      before: seq<Entry>, after: seq<Entry>, t: Table)
    requires Exported(daily, latest, before, after, t)
    ensures HoldsExport(daily, latest, after, t)
    ensures Delivery(after, t) == Named(after, FileName(t))
    ensures |Named(after, FileName(t))| == 1 && forall e :: e in Named(after, FileName(t)) ==> !e.isFolder
  {
    var now := Named(after, FileName(t));
    assert forall e :: e in now ==> e == now[0];
    UnfoldedNamed(after, FileName(t));
  }

  /** IDs of the CSV files, for comparison across exports. */
  type Ids = map<Table, nat>

  datatype UploadFault = Works | ListFails | WriteFails(effect: bool)

  datatype Settings = Settings(mutate: bool, allowEmpty: bool, dataOnly: bool)

  datatype StageStatus = NotRun | NotRequested | Unverified | StagePassed | StageFailed

  datatype ReportStatus = ReportFailed | Partial | Success

  datatype Report = Report(status: ReportStatus, stages: seq<StageStatus>)

  const REFRESH := 1
  const COMPARISON := 2
  const FIRST_CSV := 3
  const SECOND_CSV := 4
  const DASHBOARD := 5

  /** The flags exclude the stage. */
  predicate Excluded(mutate: bool, dataOnly: bool, stage: nat) {
    (!mutate && (stage == REFRESH || stage == SECOND_CSV)) || (dataOnly && stage == DASHBOARD)
  }

  method NewReport(mutate: bool, dataOnly: bool) returns (r: Report)
    ensures r == BlankReport(mutate, dataOnly)
    ensures forall j :: 0 <= j < |r.stages| ==> (r.stages[j].NotRequested? <==> Excluded(mutate, dataOnly, j))
  {
    r := Report(ReportFailed, [NotRun, NotRun, NotRun, NotRun, NotRun, Unverified]);
    if !mutate {
      r := r.(stages := r.stages[REFRESH := NotRequested]);
      r := r.(stages := r.stages[SECOND_CSV := NotRequested]);
    }
    if dataOnly {
      r := r.(stages := r.stages[DASHBOARD := NotRequested]);
    }
  }

  function BlankReport(mutate: bool, dataOnly: bool): Report {
    Report(ReportFailed,
           [NotRun, if mutate then NotRun else NotRequested, NotRun, NotRun, if mutate then NotRun else NotRequested,
            if dataOnly then NotRequested else Unverified])
  }

  /** A stage of the report of a run that stopped at stage i. */
  function StageOfStopped(o: Settings, i: nat, j: nat): StageStatus {
    if (j == REFRESH || j == SECOND_CSV) && !o.mutate then NotRequested
    else if j < i then StagePassed
    else if j == i then StageFailed
    else NotRun
  }

  /** The requested stages before i passed, i failed, and the later ones were not run. */
  function StoppedReport(o: Settings, i: nat): Report {
    Report(ReportFailed,
           [NotRun, StageOfStopped(o, i, REFRESH), StageOfStopped(o, i, COMPARISON),
            StageOfStopped(o, i, FIRST_CSV), StageOfStopped(o, i, SECOND_CSV),
            if o.dataOnly then NotRequested else Unverified])
  }

  /** The run stopped at one of its stages. */
  ghost predicate IsStopped(o: Settings, r: Report) {
    exists i :: REFRESH <= i <= SECOND_CSV && !Excluded(o.mutate, o.dataOnly, i) && r == StoppedReport(o, i)
  }

  /** The API calls of one export and check that fail. */
  datatype RoundFaults = RoundFaults(
    read: set<Table>, upload: map<Table, UploadFault>, list: bool, reread: set<Table>, download: set<Table>)

  datatype Faults = Faults(refresh: bool, compare: bool, first: RoundFaults, second: RoundFaults)

  predicate Quiet(f: RoundFaults) {
    f.read == {} && f.upload == map[] && !f.list && f.reread == {} && f.download == {}
  }

  predicate NoFaults(f: Faults) {
    !f.refresh && !f.compare && Quiet(f.first) && Quiet(f.second)
  }

  /** The elements of a set, in some order. */
  method Listed<T(==)>(s: set<T>) returns (rows: seq<T>)
    ensures multiset(rows) == multiset(s)
  {
    rows := [];
    var left := s;
    while left != {}
      invariant left <= s && multiset(rows) == multiset(s - left)
      decreases left
    {
      var x :| x in left;
      left := left - {x};
      rows := rows + [x];
      assert s - left == s - left - {x} + {x};
    }
    assert s - left == s;
  }

  lemma {:induction false} UnfoldedMember(files: seq<Entry>)
    ensures forall e :: e in Unfolded(files) <==> e in files && !e.isFolder
  {
    if files != [] {
      assert files == files[..|files| - 1] + [files[|files| - 1]];
      UnfoldedMember(files[..|files| - 1]);
    }
  }

  /** Silver, the two mart tables in storage order, and the export folder; nobody else writes. */
  class GoldService {
    const silver: seq<SilverRow>
    const folderId: string
    var daily: seq<DailyRow>
    var latest: seq<LatestRow>
    var files: seq<Entry>
    var nextId: nat

    ghost predicate Valid()
      reads this
    {
      forall e :: e in files ==> e.id < nextId
    }

    /** The marts are Silver's aggregates and are delivered; Silver is not empty or may be. */
    ghost predicate InOrder(allowEmpty: bool)
      reads this
    {
      && Refreshed(silver, multiset(daily), multiset(latest)) && (allowEmpty || silver != [])
      && forall t: Table :: HoldsExport(multiset(daily), multiset(latest), files, t)
    }

    /** The marts are Silver's aggregates, and the folder can take them. */
    ghost predicate Deliverable(allowEmpty: bool)
      reads this
    {
      Refreshed(silver, multiset(daily), multiset(latest)) && (allowEmpty || silver != [])
      && folderId != "" && Tidy(files)
    }

    constructor (silver: seq<SilverRow>, folderId: string)
      ensures Valid() && this.silver == silver && this.folderId == folderId && files == []
    {
      this.silver := silver;
      this.folderId := folderId;
      daily, latest, files, nextId := [], [], [], 0;
    }

    /** CREATE OR REPLACE of both marts. */
    method Refresh(fault: bool) returns (ok: bool)
      requires Valid()
      modifies this`daily, this`latest
      ensures Valid() && ok == !fault
      ensures ok ==> Refreshed(silver, multiset(daily), multiset(latest))
    {
      daily := Listed(Daily(silver));
      if fault {
        return false;
      }
      latest := Listed(LatestByLast(silver));
      LatestByLastIsLatest(silver);
      ok := true;
    }

    /** The comparison query, with its own choice of ANY_VALUE. */
    method Compare(fault: bool) returns (ok: bool, counts: map<CountName, int>)
      ensures ok == !fault
      ensures ok ==> exists rows :: IsLatest(silver, rows)
                       && counts == ComparisonCounts(silver, Daily(silver), rows, multiset(daily), multiset(latest))
    {
      if fault {
        return false, map[];
      }
      LatestByLastIsLatest(silver);
      return true, ComparisonCounts(silver, Daily(silver), LatestByLast(silver), multiset(daily), multiset(latest));
    }

    /** SELECT * ... ORDER BY 1, rendered; the contract leaves ties to the query engine. */
    method ExportTableCSV(t: Table, fault: bool) returns (ok: bool, contents: Blob)
      ensures ok == !fault
      ensures ok ==> IsExport(multiset(daily), multiset(latest), t, contents)
    {
      if fault {
        return false, NotCsv("");
      }
      OrdersAreWeak();
      match t {
        case DailyTable =>
          var rows := Sort(daily, DailyBefore);
          return true, DailyCsv(rows);
        case LatestTable =>
          var rows := Sort(latest, LatestBefore);
          return true, LatestCsv(rows);
      }
    }

    /** Files.List by name, then Files.Update of the first match or Files.Create. */
    method UpsertFile(name: string, contents: Blob, fault: UploadFault) returns (ok: bool)
      requires Valid()
      modifies this`files, this`nextId
      ensures Valid()
      ensures ok <==> folderId != "" && fault.Works?
      ensures ok ==> Upserted(old(files), files, name, contents)
      ensures !ok ==> files == old(files) || Upserted(old(files), files, name, contents)
    {
      if folderId == "" || fault.ListFails? {
        return false;
      }
      ok := fault.Works?;
      if fault.WriteFails? && !fault.effect {
        return;
      }
      var k := 0;
      while k < |files| && files[k].name != name
        invariant 0 <= k <= |files| && forall j :: 0 <= j < k ==> files[j].name != name
      {
        k := k + 1;
      }
      if k < |files| {
        files := files[k := files[k].(content := contents)];
      } else {
        files := files + [Entry(nextId, name, false, contents)];
        nextId := nextId + 1;
      }
    }

    /** One turn of the export loop. */
    method ExportTable(t: Table, faults: RoundFaults) returns (ok: bool)
      requires Valid() && folderId != ""
      modifies this`files, this`nextId
      ensures Valid()
      ensures faults.read == {} && faults.upload == map[] ==> ok
      ensures ok ==> exists contents :: IsExport(multiset(daily), multiset(latest), t, contents)
                                        && Upserted(old(files), files, FileName(t), contents)
    {
      var read, contents := ExportTableCSV(t, t in faults.read);
      if !read {
        return false;
      }
      ok := UpsertFile(FileName(t), contents, if t in faults.upload then faults.upload[t] else Works);
    }

    /** `goldreport.Export`: in a tidy folder each table ends up in exactly one file, with the ID it had. */
    method Export(faults: RoundFaults) returns (ok: bool)
      requires Valid()
      modifies this`files, this`nextId
      ensures Valid()
      ensures folderId != "" && faults.read == {} && faults.upload == map[] ==> ok
      ensures ok ==> folderId != ""
      ensures ok && Tidy(old(files)) ==>
                forall t: Table :: Exported(multiset(daily), multiset(latest), old(files), files, t)
    {
      if folderId == "" {
        return false;
      }
      for i := 0 to |TABLES|
        invariant Valid()
        invariant ExportedFirst(multiset(daily), multiset(latest), old(files), files, i)
      {
        ghost var before := files;
        ok := ExportTable(TABLES[i], faults);
        if !ok {
          return;
        }
        ExportStep(multiset(daily), multiset(latest), old(files), before, files, i);
      }
      assert TABLES[0] == DailyTable && TABLES[1] == LatestTable;
      ok := true;
    }

    /** The pages of a listing; the contract leaves their sizes to Drive. */
    method FetchPages() returns (pages: seq<seq<Entry>>)
      ensures Pages(pages) == files
    {
      pages := [files];
      assert pages[..0] == [];
    }

    /** The inner loop of the listing: the entries of one page that are no folders. */
    static method AppendPage(ghost before: seq<Entry>, listed: seq<Entry>, page: seq<Entry>) returns (more: seq<Entry>)
      requires listed == Unfolded(before)
      ensures more == Unfolded(before + page)
    {
      more := listed;
      assert before + page[..0] == before;
      for j := 0 to |page|
        invariant more == Unfolded(before + page[..j])
      {
        assert before + page[..j + 1] == before + page[..j] + [page[j]];
        UnfoldedSnoc(before + page[..j], page[j]);
        if !page[j].isFolder {
          more := more + [page[j]];
        }
      }
      assert page[..|page|] == page;
    }

    /** `Client.ListFiles`: the entries that are no folders, page by page. */
    method ListFiles(fault: bool) returns (ok: bool, listed: seq<Entry>)
      ensures ok == !fault
      ensures ok ==> listed == Unfolded(files)
    {
      if fault {
        return false, [];
      }
      listed := [];
      var pages := FetchPages();
      for i := 0 to |pages|
        invariant listed == Unfolded(Pages(pages[..i]))
      {
        listed := AppendPage(Pages(pages[..i]), listed, pages[i]);
        assert pages[..i + 1][..i] == pages[..i];
      }
      assert pages[..|pages|] == pages;
      ok := true;
    }

    /** The inner loop of the check: how many listed files have the name, and the last of them. */
    static method CountNamed(listed: seq<Entry>, name: string) returns (count: nat, id: nat, got: Blob)
      ensures count == |Named(listed, name)|
      ensures count > 0 ==> id == Named(listed, name)[count - 1].id && got == Named(listed, name)[count - 1].content
    {
      count, id, got := 0, 0, NotCsv("");
      for k := 0 to |listed|
        invariant count == |Named(listed[..k], name)|
        invariant count > 0 ==> id == Named(listed[..k], name)[count - 1].id
                                && got == Named(listed[..k], name)[count - 1].content
      {
        NamedNext(listed, k, name);
        if listed[k].name == name {
          count := count + 1;
          id, got := listed[k].id, listed[k].content;
        }
      }
      assert listed[..|listed|] == listed;
    }

    /** One turn of the check loop. */
    method CheckTable(t: Table, listed: seq<Entry>, faults: RoundFaults, allowEmpty: bool, previous: Option<Ids>)
        returns (ok: bool, id: nat)
      requires listed == Unfolded(files)
      ensures ok ==> Checked(multiset(daily), multiset(latest), files, t, allowEmpty, previous, map[t := id])
      ensures faults.reread == {} && faults.download == {}
              && Refreshed(silver, multiset(daily), multiset(latest)) && (allowEmpty || silver != [])
              && HoldsExport(multiset(daily), multiset(latest), files, t) && SameId(files, t, previous)
              ==> ok
    {
      var count, got;
      count, id, got := CountNamed(listed, FileName(t));
      if count != 1 {
        return false, id;
      }
      var read, want := ExportTableCSV(t, t in faults.reread);
      if !read || t in faults.download {
        return false, id;
      }
      if Refreshed(silver, multiset(daily), multiset(latest)) && (allowEmpty || silver != [])
         && IsExport(multiset(daily), multiset(latest), t, got) {
        CheckPasses(silver, multiset(daily), multiset(latest), t, want, got, allowEmpty);
      }
      CheckCSVPasses(t, want, got, allowEmpty);
      var err := CheckCSV(t, want, got, allowEmpty);
      if err.Some? {
        return false, id;
      }
      ok := previous.None? || (t in previous.value && previous.value[t] == id);
    }

    /**
     * `CheckDrive`. Passing means that every table is in exactly one listed file, with the
     * table's contents and the previous ID; on an idle system with refreshed marts that
     * condition is also enough.
     */
    method CheckDrive(faults: RoundFaults, allowEmpty: bool, previous: Option<Ids>)
        returns (ok: bool, ids: Ids)
      ensures ok ==> forall t: Table :: Checked(multiset(daily), multiset(latest), files, t, allowEmpty, previous, ids)
      ensures !faults.list && faults.reread == {} && faults.download == {}
              && Refreshed(silver, multiset(daily), multiset(latest)) && (allowEmpty || silver != [])
              && (forall t: Table ::
                    HoldsExport(multiset(daily), multiset(latest), files, t) && SameId(files, t, previous))
              ==> ok
    {
      ids := map[];
      var listing, listed := ListFiles(faults.list);
      if !listing {
        return false, ids;
      }
      for i := 0 to |TABLES|
        invariant CheckedFirst(multiset(daily), multiset(latest), files, i, allowEmpty, previous, ids)
      {
        var checked, id := CheckTable(TABLES[i], listed, faults, allowEmpty, previous);
        if checked { CheckStep(multiset(daily), multiset(latest), files, i, allowEmpty, previous, ids, id); }
        ids := ids[TABLES[i] := id];
        if !checked {
          return false, ids;
        }
      }
      CheckedBoth(multiset(daily), multiset(latest), files, allowEmpty, previous, ids);
      ok := true;
    }

    /** The comparison stage: Silver's aggregates against both tables. */
    method ComparisonStage(fault: bool, allowEmpty: bool) returns (ok: bool)
      ensures ok ==> Refreshed(silver, multiset(daily), multiset(latest)) && (allowEmpty || silver != [])
      ensures !fault && Refreshed(silver, multiset(daily), multiset(latest)) && VersionsAgree(silver)
              && (allowEmpty || silver != [])
              ==> ok
    {
      var compared, counts := Compare(fault);
      if !compared {
        return false;
      }
      ghost var rows :| IsLatest(silver, rows)
        && counts == ComparisonCounts(silver, Daily(silver), rows, multiset(daily), multiset(latest));
      GoldDecision(silver, rows, multiset(daily), multiset(latest), allowEmpty);
      if VersionsAgree(silver) { LatestDetermined(silver); }
      ok := GoldMatches(counts, allowEmpty);
    }

    /** One CSV round: export in mutating mode, then check against the IDs of the round before. */
    method Round(o: Settings, faults: RoundFaults, previous: Option<Ids>) returns (ok: bool, ids: Ids)
      requires Valid()
      modifies this`files, this`nextId
      ensures Valid() && (!o.mutate ==> files == old(files))
      ensures ok ==> forall t: Table ::
                       HoldsExport(multiset(daily), multiset(latest), files, t) && SameId(files, t, Some(ids))
      ensures ok && o.mutate && Tidy(old(files)) ==>
                Tidy(files) && forall t: Table :: Exported(multiset(daily), multiset(latest), old(files), files, t)
      ensures o.mutate && Quiet(faults) && folderId != "" && Tidy(old(files))
              && Refreshed(silver, multiset(daily), multiset(latest)) && (o.allowEmpty || silver != [])
              && (forall t: Table :: SameId(old(files), t, previous))
              ==> ok
      ensures !o.mutate && Quiet(faults) && previous.None?
              && Refreshed(silver, multiset(daily), multiset(latest)) && (o.allowEmpty || silver != [])
              && (forall t: Table :: HoldsExport(multiset(daily), multiset(latest), files, t))
              ==> ok
    {
      ids := map[];
      if o.mutate {
        ok := Export(faults);
        if !ok {
          return;
        }
        if Tidy(old(files)) {
          forall t: Table
            ensures HoldsExport(multiset(daily), multiset(latest), files, t)
            ensures SameId(old(files), t, previous) ==> SameId(files, t, previous)
            ensures |Named(files, FileName(t))| <= 1 && forall e :: e in Named(files, FileName(t)) ==> !e.isFolder
          {
            RoundTable(multiset(daily), multiset(latest), old(files), files, t, previous);
          }
        }
      }
      ok, ids := CheckDrive(faults, o.allowEmpty, previous);
      if ok {
        forall t: Table
          ensures HoldsExport(multiset(daily), multiset(latest), files, t) && SameId(files, t, Some(ids))
        {
          assert Checked(multiset(daily), multiset(latest), files, t, o.allowEmpty, previous, ids);
        }
      }
    }

    /** The CSV rounds: two in mutating mode, the second against the IDs of the first. */
    method Rounds(o: Settings, f: Faults) returns (passed: nat)
      requires Valid()
      modifies this`files, this`nextId
      ensures Valid() && passed <= RoundCount(o)
      ensures passed == RoundCount(o) ==>
                && (forall t: Table :: HoldsExport(multiset(daily), multiset(latest), files, t))
                && (o.mutate && Tidy(old(files)) ==> forall t: Table :: KeptId(old(files), files, t))
      ensures o.mutate && Quiet(f.first) && Quiet(f.second) && folderId != "" && Tidy(old(files))
              && Refreshed(silver, multiset(daily), multiset(latest)) && (o.allowEmpty || silver != [])
              ==> passed == RoundCount(o)
      ensures !o.mutate ==> files == old(files)
      ensures !o.mutate && Quiet(f.first)
              && Refreshed(silver, multiset(daily), multiset(latest)) && (o.allowEmpty || silver != [])
              && (forall t: Table :: HoldsExport(multiset(daily), multiset(latest), files, t))
              ==> passed == RoundCount(o)
    {
      var ok, ids := Round(o, f.first, None);
      if !ok {
        return 0;
      }
      if !o.mutate {
        return 1;
      }
      ghost var between := files;
      ok, ids := Round(o, f.second, Some(ids));
      if !ok {
        return 1;
      }
      if Tidy(old(files)) {
        forall t: Table ensures KeptId(old(files), files, t) {
          assert Exported(multiset(daily), multiset(latest), old(files), between, t);
          assert Exported(multiset(daily), multiset(latest), between, files, t);
          ExportedHolds(multiset(daily), multiset(latest), between, files, t);
        }
      }
      passed := 2;
    }

    /** The stages after the refresh: the comparison, then the CSV rounds. */
    method Checks(o: Settings, f: Faults) returns (compared: bool, passed: nat)
      requires Valid()
      modifies this`files, this`nextId
      ensures Valid() && passed <= RoundCount(o)
      ensures compared && passed == RoundCount(o) ==> InOrder(o.allowEmpty)
      ensures compared && passed == RoundCount(o) && o.mutate && Tidy(old(files))
              ==> forall t: Table :: KeptId(old(files), files, t)
      ensures !o.mutate ==> files == old(files)
      ensures NoFaults(f) && VersionsAgree(silver)
              && (if o.mutate then old(Deliverable(o.allowEmpty)) else old(InOrder(o.allowEmpty)))
              ==> compared && passed == RoundCount(o)
    {
      compared := ComparisonStage(f.compare, o.allowEmpty);
      if !compared {
        return false, 0;
      }
      passed := Rounds(o, f);
    }

    /**
     * `verify`: stops at the first failure. Success means that both tables are Silver's
     * aggregates and that each is in exactly one listed file; and on an idle system with a
     * tidy folder a refreshing run without API failures always succeeds. A run that only
     * verifies changes nothing, and without API failures succeeds exactly on that condition.
     */
    method Verify(o: Settings, f: Faults) returns (ok: bool, r: Report)
      requires Valid()
      modifies this`daily, this`latest, this`files, this`nextId
      ensures Valid()
      ensures ok ==> InOrder(o.allowEmpty)
      ensures ok && o.mutate && Tidy(old(files)) ==> forall t: Table :: KeptId(old(files), files, t)
      ensures o.mutate && NoFaults(f) && folderId != "" && Tidy(old(files)) && VersionsAgree(silver)
              && (o.allowEmpty || silver != [])
              ==> ok
      ensures !o.mutate ==> daily == old(daily) && latest == old(latest) && files == old(files)
      ensures !o.mutate && NoFaults(f) && VersionsAgree(silver) ==> (ok <==> old(InOrder(o.allowEmpty)))
      ensures ok ==> r == CompleteReport(o)
      ensures !ok ==> IsStopped(o, r)
    {
      r := NewReport(o.mutate, o.dataOnly);
      if o.mutate {
        ok := Refresh(f.refresh);
        r := Mark(r, REFRESH, ok);
        if !ok {
          assert IsStopped(o, r) by { ReportsStop(o); }
          return;
        }
      }
      var compared, passed := Checks(o, f);
      r := Mark(r, COMPARISON, compared);
      if !compared {
        assert IsStopped(o, r) by { ReportsStop(o); }
        return false, r;
      }
      ok := passed == RoundCount(o);
      r := MarkRounds(r, o, passed);
      if ok {
        r := r.(status := if o.dataOnly then Success else Partial);
      }
      assert if ok then r == CompleteReport(o) else IsStopped(o, r) by { ReportsStop(o); }
    }
  }

  /**
   * Every report a run ends with: the excluded stages are exactly those not requested, the
   * run has failed exactly if some stage has, nothing ran after a failed stage, and in a
   * run that has not failed every requested data stage passed.
   */
  lemma FinalReport(o: Settings, r: Report)
    requires r == CompleteReport(o) || IsStopped(o, r)
    ensures |r.stages| == 6
    ensures forall j :: 0 <= j < 6 ==> (r.stages[j].NotRequested? <==> Excluded(o.mutate, o.dataOnly, j))
    ensures r.status.ReportFailed? <==> exists j :: 0 <= j < 6 && r.stages[j].StageFailed?
    ensures forall i, j :: 0 <= i < j < 6 && r.stages[i].StageFailed? ==>
              !r.stages[j].StagePassed? && !r.stages[j].StageFailed?
    ensures forall i, j :: REFRESH <= i < j <= SECOND_CSV && !r.stages[i].StagePassed? ==>
              !r.stages[j].StagePassed? || r.stages[i].NotRequested?
    ensures !r.status.ReportFailed? ==>
              forall j :: REFRESH <= j <= SECOND_CSV && !Excluded(o.mutate, o.dataOnly, j) ==> r.stages[j].StagePassed?
  {
    if i :| REFRESH <= i <= SECOND_CSV && !Excluded(o.mutate, o.dataOnly, i) && r == StoppedReport(o, i) {
      assert r.stages[i].StageFailed?;
    }
  }

  /** The report, stage by stage. */
  lemma ReportsStop(o: Settings)
    ensures var blank := BlankReport(o.mutate, o.dataOnly);
            var refreshed := if o.mutate then Mark(blank, REFRESH, true) else blank;
            var compared := Mark(refreshed, COMPARISON, true);
            && (o.mutate ==> IsStopped(o, Mark(blank, REFRESH, false)))
            && IsStopped(o, Mark(refreshed, COMPARISON, false))
            && (forall n: nat :: n < RoundCount(o) ==> IsStopped(o, MarkRounds(compared, o, n)))
            && MarkRounds(compared, o, RoundCount(o)).(status := if o.dataOnly then Success else Partial)
               == CompleteReport(o)
  {
    var blank := BlankReport(o.mutate, o.dataOnly);
    var refreshed := if o.mutate then Mark(blank, REFRESH, true) else blank;
    var compared := Mark(refreshed, COMPARISON, true);
    assert o.mutate ==> Mark(blank, REFRESH, false) == StoppedReport(o, REFRESH);
    assert Mark(refreshed, COMPARISON, false) == StoppedReport(o, COMPARISON);
    forall n: nat | n < RoundCount(o) ensures IsStopped(o, MarkRounds(compared, o, n)) {
      assert MarkRounds(compared, o, n) == StoppedReport(o, FIRST_CSV + n);
    }
  }

  function RoundCount(o: Settings): nat {
    if o.mutate then 2 else 1
  }

  /** The CSV stages after `passed` rounds; the next one, if any, failed. */
  function MarkRounds(r: Report, o: Settings, passed: nat): Report
    requires |r.stages| == 6 && passed <= RoundCount(o)
  {
    if passed == 0 then Mark(r, FIRST_CSV, false)
    else
      var first := Mark(r, FIRST_CSV, true);
      if o.mutate then Mark(first, FIRST_CSV + 1, passed == 2) else first
  }

  /** A stage's status after it ran. */
  function Mark(r: Report, stage: nat, ok: bool): Report
    requires stage < |r.stages|
  {
    r.(stages := r.stages[stage := if ok then StagePassed else StageFailed])
  }

  /** The report of a run that nothing stopped. */
  function CompleteReport(o: Settings): Report {
    var mutating := if o.mutate then StagePassed else NotRequested;
    Report(if o.dataOnly then Success else Partial,
           [NotRun, mutating, StagePassed, StagePassed, mutating, if o.dataOnly then NotRequested else Unverified])
  }

  /** What an export does to the check of one table. */
  lemma RoundTable(daily: multiset<DailyRow>, latest: multiset<LatestRow>,
                   before: seq<Entry>, after: seq<Entry>, t: Table, previous: Option<Ids>)
    requires Exported(daily, latest, before, after, t)
    requires |Named(before, FileName(t))| <= 1 && forall e :: e in Named(before, FileName(t)) ==> !e.isFolder
    ensures HoldsExport(daily, latest, after, t)
    ensures SameId(before, t, previous) ==> SameId(after, t, previous)
    ensures |Named(after, FileName(t))| <= 1 && forall e :: e in Named(after, FileName(t)) ==> !e.isFolder
  {
    ExportedHolds(daily, latest, before, after, t);
    UnfoldedNamed(before, FileName(t));
    IdCarriesOver(before, after, t, previous);
  }

  lemma IdCarriesOver(before: seq<Entry>, after: seq<Entry>, t: Table, previous: Option<Ids>)
    requires Delivery(before, t) == Named(before, FileName(t)) && |Delivery(after, t)| == 1
    requires |Named(before, FileName(t))| == 1 ==> Delivery(after, t)[0].id == Named(before, FileName(t))[0].id
    ensures SameId(before, t, previous) ==> SameId(after, t, previous)
  {
  }

  function Pages(pages: seq<seq<Entry>>): seq<Entry> {
    if pages == [] then [] else Pages(pages[..|pages| - 1]) + pages[|pages| - 1]
  }

  lemma UnfoldedSnoc(files: seq<Entry>, e: Entry)
    ensures Unfolded(files + [e]) == Unfolded(files) + (if e.isFolder then [] else [e])
  {
    assert (files + [e])[..|files|] == files;
  }
}
