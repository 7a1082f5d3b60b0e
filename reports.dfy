/** The app overview reports in Google Cloud Storage: which files are read, which rows are kept,
    how a row becomes an overview row, and how installs are summed per package. Both the
    downloads client and the legacy client work through these definitions. */
module Reports {
  import opened Wrappers
  import opened Text
  import Decimal

  /** A report date, already resolved to year, month and day. */
  datatype Date = Date(year: nat, month: nat, day: nat)

  predicate ValidDate(d: Date) {
    d.year < 10000 && 1 <= d.month <= 12 && 1 <= d.day <= 31
  }

  /** moment's `format('YYYYMM')` */
  function YearMonth(d: Date): string {
    Decimal.Fixed(d.year, 4) + Decimal.Fixed(d.month, 2)
  }

  /** moment's `format('YYYY-MM-DD')` */
  function IsoDay(d: Date): string {
    Decimal.Fixed(d.year, 4) + "-" + Decimal.Fixed(d.month, 2) + "-" + Decimal.Fixed(d.day, 2)
  }

  /** The day string has the shape YYYY-MM-DD, reads back as the date, and holds the month string. */
  lemma {:induction false} IsoDayReadsBack(d: Date)
    requires ValidDate(d)
    ensures var s := IsoDay(d);
            && |s| == 10 && s[4] == '-' && s[7] == '-'
            && (forall i :: 0 <= i < 10 && i != 4 && i != 7 ==> Decimal.IsDigit(s[i]))
            && Decimal.Value(s[..4]) == d.year
            && Decimal.Value(s[5..7]) == d.month
            && Decimal.Value(s[8..]) == d.day
            && s[..4] + s[5..7] == YearMonth(d)
  {
    var y, m, dd := Decimal.Fixed(d.year, 4), Decimal.Fixed(d.month, 2), Decimal.Fixed(d.day, 2);
    var s := IsoDay(d);
    assert s == y + "-" + m + "-" + dd;
    assert s[..4] == y && s[5..7] == m && s[8..] == dd;
    Decimal.ValueOfFixed(d.year, 4);
    Decimal.ValueOfFixed(d.month, 2);
    Decimal.ValueOfFixed(d.day, 2);
  }

  /** Distinct valid dates have distinct day strings, so the row filter keeps exactly one day. */
  lemma IsoDayInjective(d1: Date, d2: Date)
    requires ValidDate(d1) && ValidDate(d2)
    ensures IsoDay(d1) == IsoDay(d2) <==> d1 == d2
  {
    if IsoDay(d1) == IsoDay(d2) {
      IsoDayReadsBack(d1);
      IsoDayReadsBack(d2);
    }
  }

  /** Two valid dates share a month string exactly when they fall in the same month. */
  lemma {:induction false} YearMonthSame(d1: Date, d2: Date)
    requires ValidDate(d1) && ValidDate(d2)
    ensures YearMonth(d1) == YearMonth(d2) <==> d1.year == d2.year && d1.month == d2.month
  {
    var y1, m1 := Decimal.Fixed(d1.year, 4), Decimal.Fixed(d1.month, 2);
    var y2, m2 := Decimal.Fixed(d2.year, 4), Decimal.Fixed(d2.month, 2);
    if YearMonth(d1) == YearMonth(d2) {
      assert y1 == YearMonth(d1)[..4] && y2 == YearMonth(d2)[..4];
      assert m1 == YearMonth(d1)[4..] && m2 == YearMonth(d2)[4..];
      Decimal.ValueOfFixed(d1.year, 4);
      Decimal.ValueOfFixed(d2.year, 4);
      Decimal.ValueOfFixed(d1.month, 2);
      Decimal.ValueOfFixed(d2.month, 2);
    }
  }

  /** One parsed CSV row: its column values in column order. */
  type Row = seq<string>

  /** The column separator a client's `readCSV` splits lines on: the downloads client's helper
      splits on tabs, the legacy client's on commas. */
  datatype Separator = Tab | Comma

  /** An object in a storage bucket: its name (`None` when it is not a string) and its content
      parsed with each separator (`None` when the download or that parsing fails). The two
      parses of one file are in general different rows. */
  datatype StoredFile = StoredFile(name: Option<string>, tabRows: Option<seq<Row>>, commaRows: Option<seq<Row>>)

  /** The rows a client that splits on `sep` reads from `f`. */
  function Parsed(f: StoredFile, sep: Separator): Option<seq<Row>> {
    match sep
    case Tab => f.tabRows
    case Comma => f.commaRows
  }

  /** Cloud storage: the objects of each bucket, in listing order. */
  type Storage = map<string, seq<StoredFile>>

  /** Why fetching a report rejects. */
  datatype ReportError =
    | NoSuchBucket(bucket: string)       // listing the bucket's files fails
    | DownloadFailed(name: Option<string>)  // downloading or parsing a selected file fails

  const BucketPrefix: string := "pubsite_prod_rev_"
  const FilePrefix: string := "stats/installs/installs_"
  const FileSuffixTail: string := "_overview.csv"

  /** The project's reporting bucket. */
  function BucketName(projectId: string): string {
    BucketPrefix + projectId
  }

  /** The end of the name of the overview file of the report date's month. */
  function FileSuffix(d: Date): string {
    "_" + YearMonth(d) + FileSuffixTail
  }

  /** The bucket name is the fixed prefix followed by the project id. */
  lemma BucketNameShape(projectId: string)
    ensures StartsWith(BucketName(projectId), "pubsite_prod_rev_")
    ensures BucketName(projectId)[|BucketPrefix|..] == projectId
  {
    assert BucketName(projectId)[..|BucketPrefix|] == BucketPrefix;
  }

  /** A file is read when its name is a string, starts with the installs prefix and ends with
      the month's overview suffix. */
  predicate IsOverviewFile(f: StoredFile, d: Date) {
    f.name.Some? && StartsWith(f.name.value, FilePrefix) && EndsWith(f.name.value, FileSuffix(d))
  }

  /** The chained `filter` calls on the bucket listing. */
  function SelectFiles(files: seq<StoredFile>, d: Date): (r: seq<StoredFile>)
    ensures |r| <= |files|
    ensures forall i :: 0 <= i < |r| ==> IsOverviewFile(r[i], d)
    ensures forall i :: 0 <= i < |r| ==> r[i] in files
  {
    if files == [] then []
    else (if IsOverviewFile(files[0], d) then [files[0]] else []) + SelectFiles(files[1..], d)
  }

  /** The selected files are exactly the listed overview files of the month. */
  lemma {:induction false} SelectFilesMembers(files: seq<StoredFile>, d: Date, f: StoredFile)
    ensures f in SelectFiles(files, d) <==> f in files && IsOverviewFile(f, d)
  {
    if files != [] {
      SelectFilesMembers(files[1..], d, f);
      assert files == [files[0]] + files[1..];
    }
  }

  /** An overview row: the twelve fields of a report line in their fixed order; `None` is a
      field whose column is missing (`undefined`). */
  datatype OverviewRow = OverviewRow(
    date: Option<string>,
    packageName: Option<string>,
    dailyDeviceInstalls: Option<string>,
    dailyDeviceUninstalls: Option<string>,
    dailyDeviceUpgrades: Option<string>,
    totalUserInstalls: Option<string>,
    dailyUserInstalls: Option<string>,
    dailyUserUninstalls: Option<string>,
    activeDeviceInstalls: Option<string>,
    installEvents: Option<string>,
    updateEvents: Option<string>,
    uninstallEvents: Option<string>)

  /** `R[COLUMNS[k]]`: the k-th column, `None` past the last one. */
  function Column(row: Row, k: nat): Option<string> {
    if k < |row| then Some(row[k]) else None
  }

  /** The fields of an overview row in their fixed order. */
  function Fields(r: OverviewRow): seq<Option<string>> {
    [r.date, r.packageName, r.dailyDeviceInstalls, r.dailyDeviceUninstalls, r.dailyDeviceUpgrades,
     r.totalUserInstalls, r.dailyUserInstalls, r.dailyUserUninstalls, r.activeDeviceInstalls,
     r.installEvents, r.updateEvents, r.uninstallEvents]
  }

  /** The positional mapping of a row to an overview row. */
  function MapRow(row: Row): OverviewRow {
    OverviewRow(Column(row, 0), Column(row, 1), Column(row, 2), Column(row, 3), Column(row, 4),
                Column(row, 5), Column(row, 6), Column(row, 7), Column(row, 8), Column(row, 9),
                Column(row, 10), Column(row, 11))
  }

  /** Field k of the mapped row is column k, for the twelve fields; later columns are ignored. */
  lemma MapRowPositional(row: Row)
    ensures |Fields(MapRow(row))| == 12
    ensures forall k :: 0 <= k < 12 ==> Fields(MapRow(row))[k] == Column(row, k)
    ensures |row| > 12 ==> MapRow(row) == MapRow(row[..12])
  {
  }

  /** An overview row is determined by its fields. */
  lemma FieldsInjective(a: OverviewRow, b: OverviewRow)
    ensures Fields(a) == Fields(b) <==> a == b
  {
    if Fields(a) == Fields(b) {
      assert forall k :: 0 <= k < 12 ==> Fields(a)[k] == Fields(b)[k];
    }
  }

  /** A row is kept when its first column is the report day. */
  predicate KeepDay(row: Row, iso: string) {
    Column(row, 0) == Some(iso)
  }

  /** The rows of one file kept for day `iso`, mapped, in row order. */
  function DayRows(rows: seq<Row>, iso: string): (r: seq<OverviewRow>)
    ensures |r| <= |rows|
    decreases |rows|
  {
    if rows == [] then []
    else DayRows(rows[..|rows| - 1], iso)
         + (if KeepDay(rows[|rows| - 1], iso) then [MapRow(rows[|rows| - 1])] else [])
  }

  /** Every row of one file, mapped, in row order. */
  function AllRows(rows: seq<Row>): (r: seq<OverviewRow>)
    ensures |r| == |rows|
    decreases |rows|
  {
    if rows == [] then [] else AllRows(rows[..|rows| - 1]) + [MapRow(rows[|rows| - 1])]
  }

  lemma {:induction false} AllRowsAt(rows: seq<Row>)
    ensures forall i :: 0 <= i < |rows| ==> AllRows(rows)[i] == MapRow(rows[i])
    decreases |rows|
  {
    if rows != [] {
      var init := rows[..|rows| - 1];
      AllRowsAt(init);
      assert forall i :: 0 <= i < |init| ==> init[i] == rows[i];
    }
  }

  /** A mapped row is in the day's rows exactly when some row of that day maps to it; every such
      row carries the report day as its date. */
  lemma {:induction false} DayRowsMembers(rows: seq<Row>, iso: string, x: OverviewRow)
    ensures x in DayRows(rows, iso) <==> exists i :: 0 <= i < |rows| && KeepDay(rows[i], iso) && x == MapRow(rows[i])
    ensures x in DayRows(rows, iso) ==> x.date == Some(iso)
    decreases |rows|
  {
    if rows != [] {
      var init := rows[..|rows| - 1];
      DayRowsMembers(init, iso, x);
      if exists i :: 0 <= i < |init| && KeepDay(init[i], iso) && x == MapRow(init[i]) {
        var i :| 0 <= i < |init| && KeepDay(init[i], iso) && x == MapRow(init[i]);
        assert rows[i] == init[i];
      }
      if exists i :: 0 <= i < |rows| && KeepDay(rows[i], iso) && x == MapRow(rows[i]) {
        var i :| 0 <= i < |rows| && KeepDay(rows[i], iso) && x == MapRow(rows[i]);
        if i < |init| {
          assert init[i] == rows[i];
        }
      }
    }
  }

  /** The overview rows dated `iso`, in order. */
  function KeepDate(out: seq<OverviewRow>, iso: string): (r: seq<OverviewRow>)
    ensures |r| <= |out|
    decreases |out|
  {
    if out == [] then []
    else KeepDate(out[..|out| - 1], iso)
         + (if out[|out| - 1].date == Some(iso) then [out[|out| - 1]] else [])
  }

  lemma {:induction false} KeepDateAppend(a: seq<OverviewRow>, b: seq<OverviewRow>, iso: string)
    ensures KeepDate(a + b, iso) == KeepDate(a, iso) + KeepDate(b, iso)
    decreases |b|
  {
    if b == [] {
      assert a + b == a;
    } else {
      var init := b[..|b| - 1];
      assert (a + b)[..|a + b| - 1] == a + init;
      KeepDateAppend(a, init, iso);
    }
  }

  /** Filtering a file's rows by day is filtering its mapped rows by their date field. */
  lemma {:induction false} DayRowsFromAll(rows: seq<Row>, iso: string)
    ensures DayRows(rows, iso) == KeepDate(AllRows(rows), iso)
    decreases |rows|
  {
    if rows != [] {
      var init := rows[..|rows| - 1];
      DayRowsFromAll(init, iso);
      var all := AllRows(rows);
      assert all[..|all| - 1] == AllRows(init);
    }
  }

  /** Which rows of a file make it into a report: those of one day, or all of them. */
  datatype Selection = OnDay(iso: string) | EveryDay

  function RowsOf(rows: seq<Row>, sel: Selection): seq<OverviewRow> {
    match sel
    case OnDay(iso) => DayRows(rows, iso)
    case EveryDay => AllRows(rows)
  }

  /** The rows of the files parsed with `sep`, file after file; the first file that fails to
      download or parse fails all. */
  function Collect(files: seq<StoredFile>, sep: Separator, sel: Selection): Result<seq<OverviewRow>, ReportError>
    decreases |files|
  {
    if files == [] then Success([])
    else
      match Collect(files[..|files| - 1], sep, sel)
      case Failure(e) => Failure(e)
      case Success(out) =>
        var f := files[|files| - 1];
        if Parsed(f, sep).None? then Failure(DownloadFailed(f.name))
        else Success(out + RowsOf(Parsed(f, sep).value, sel))
  }

  /** The number of rows, parsed with `sep`, in the files that could be read. */
  function TotalRows(files: seq<StoredFile>, sep: Separator): nat
    decreases |files|
  {
    if files == [] then 0
    else
      var f := files[|files| - 1];
      TotalRows(files[..|files| - 1], sep) + (if Parsed(f, sep).Some? then |Parsed(f, sep).value| else 0)
  }

  /** Collecting succeeds exactly when every file can be read; the day's report has at most as
      many rows as the files, the full report exactly as many. */
  lemma {:induction false} CollectSize(files: seq<StoredFile>, sep: Separator, sel: Selection)
    ensures Collect(files, sep, sel).Success? <==> forall i :: 0 <= i < |files| ==> Parsed(files[i], sep).Some?
    ensures Collect(files, sep, sel).Success? ==> |Collect(files, sep, sel).value| <= TotalRows(files, sep)
    ensures Collect(files, sep, sel).Success? && sel.EveryDay? ==> |Collect(files, sep, sel).value| == TotalRows(files, sep)
    decreases |files|
  {
    if files != [] {
      var init := files[..|files| - 1];
      CollectSize(init, sep, sel);
      assert forall i :: 0 <= i < |init| ==> init[i] == files[i];
    }
  }

  /** One more file: a failure so far stays, an unreadable file fails, and a readable one adds
      its rows. */
  lemma CollectNext(files: seq<StoredFile>, i: nat, sep: Separator, sel: Selection)
    requires i < |files|
    ensures var before := Collect(files[..i], sep, sel);
            var f := files[i];
            Collect(files[..i + 1], sep, sel)
            == if before.Failure? then before
               else if Parsed(f, sep).None? then Failure(DownloadFailed(f.name))
               else Success(before.value + RowsOf(Parsed(f, sep).value, sel))
  {
    assert files[..i + 1][..i] == files[..i];
  }

  /** Once a file fails, the later files change nothing. */
  lemma {:induction false} CollectStops(files: seq<StoredFile>, n: nat, sep: Separator, sel: Selection)
    requires n <= |files| && Collect(files[..n], sep, sel).Failure?
    ensures Collect(files, sep, sel) == Collect(files[..n], sep, sel)
    decreases |files| - n
  {
    if n < |files| {
      var next := files[..n + 1];
      assert next[..n] == files[..n];
      assert files[..n + 1][..n + 1] == next;
      CollectStops(files, n + 1, sep, sel);
    } else {
      assert files[..n] == files;
    }
  }

  /** The day's report restricted from the full one. */
  function Restrict(report: Result<seq<OverviewRow>, ReportError>, iso: string): Result<seq<OverviewRow>, ReportError> {
    match report
    case Failure(e) => Failure(e)
    case Success(out) => Success(KeepDate(out, iso))
  }

  /** The same files, parsed the same way and read for one day, give the rows of the full reading
      that are dated that day, and fail exactly when it fails. */
  lemma {:induction false} CollectAgree(files: seq<StoredFile>, sep: Separator, iso: string)
    ensures Collect(files, sep, OnDay(iso)) == Restrict(Collect(files, sep, EveryDay), iso)
    decreases |files|
  {
    if files != [] {
      var init := files[..|files| - 1];
      CollectAgree(init, sep, iso);
      var f := files[|files| - 1];
      if Collect(init, sep, EveryDay).Success? && Parsed(f, sep).Some? {
        KeepDateAppend(Collect(init, sep, EveryDay).value, AllRows(Parsed(f, sep).value), iso);
        DayRowsFromAll(Parsed(f, sep).value, iso);
      }
    }
  }

  /** Files whose two parses coincide are read alike by both separators. */
  lemma {:induction false} CollectSameParse(files: seq<StoredFile>, sel: Selection)
    requires forall i :: 0 <= i < |files| ==> files[i].tabRows == files[i].commaRows
    ensures Collect(files, Tab, sel) == Collect(files, Comma, sel)
    decreases |files|
  {
    if files != [] {
      CollectSameParse(files[..|files| - 1], sel);
    }
  }

  /** A report: the selected files of the project's bucket, parsed with `sep` and read with the
      given selection. */
  function Fetch(storage: Storage, projectId: string, d: Date, sep: Separator, sel: Selection): Result<seq<OverviewRow>, ReportError> {
    var bucket := BucketName(projectId);
    if bucket !in storage then Failure(NoSuchBucket(bucket))
    else Collect(SelectFiles(storage[bucket], d), sep, sel)
  }

  /** The downloads client's report: the tab-separated rows of the report day. */
  function OverviewReport(storage: Storage, projectId: string, d: Date): Result<seq<OverviewRow>, ReportError> {
    Fetch(storage, projectId, d, Tab, OnDay(IsoDay(d)))
  }

  /** The legacy client's report: every comma-separated row of the month's files. */
  function LegacyReport(storage: Storage, projectId: string, d: Date): Result<seq<OverviewRow>, ReportError> {
    Fetch(storage, projectId, d, Comma, EveryDay)
  }

  /** The month's files of the project parse to the same rows whichever separator is used. */
  predicate SameParses(storage: Storage, projectId: string, d: Date) {
    var bucket := BucketName(projectId);
    bucket in storage ==>
      var files := SelectFiles(storage[bucket], d);
      forall i :: 0 <= i < |files| ==> files[i].tabRows == files[i].commaRows
  }

  /** Where the month's files parse alike with tabs and with commas, the downloads client keeps
      the legacy client's rows that are dated the report day. */
  lemma ReportsAgree(storage: Storage, projectId: string, d: Date)
    requires SameParses(storage, projectId, d)
    ensures OverviewReport(storage, projectId, d) == Restrict(LegacyReport(storage, projectId, d), IsoDay(d))
  {
    var bucket := BucketName(projectId);
    if bucket in storage {
      var files := SelectFiles(storage[bucket], d);
      CollectAgree(files, Tab, IsoDay(d));
      CollectSameParse(files, EveryDay);
    }
  }

  /** Without equal parses the clients disagree: a tab-separated line of the report day is one
      day row for the downloads client, but one single-column row for the legacy client, whose
      first column is the whole line and so is not the day. */
  lemma SeparatorsMatter(projectId: string, d: Date, name: string, pkg: string, count: string)
    requires StartsWith(name, FilePrefix) && EndsWith(name, FileSuffix(d))
    ensures var iso := IsoDay(d);
            var f := StoredFile(Some(name), Some([[iso, pkg, count]]), Some([[iso + "\t" + pkg + "\t" + count]]));
            var storage := map[BucketName(projectId) := [f]];
            && OverviewReport(storage, projectId, d) == Success([MapRow([iso, pkg, count])])
            && Restrict(LegacyReport(storage, projectId, d), iso) == Success([])
  {
    var iso := IsoDay(d);
    var line := iso + "\t" + pkg + "\t" + count;
    var f := StoredFile(Some(name), Some([[iso, pkg, count]]), Some([[line]]));
    var storage := map[BucketName(projectId) := [f]];
    assert SelectFiles([f], d) == [f];
    assert [f][..0] == [];
    assert DayRows([[iso, pkg, count]], iso) == [MapRow([iso, pkg, count])] by {
      assert [[iso, pkg, count]][..0] == [];
    }
    assert |line| > |iso|;
    assert AllRows([[line]]) == [MapRow([line])] by {
      assert [[line]][..0] == [];
    }
    assert KeepDate([MapRow([line])], iso) == [] by {
      assert [MapRow([line])][..0] == [];
      assert MapRow([line]).date == Some(line) != Some(iso);
    }
    assert Collect([f], Tab, OnDay(iso)) == Success([] + DayRows([[iso, pkg, count]], iso));
    assert Collect([f], Comma, EveryDay) == Success([] + AllRows([[line]]));
    assert OverviewReport(storage, projectId, d) == Collect([f], Tab, OnDay(iso));
    assert LegacyReport(storage, projectId, d) == Collect([f], Comma, EveryDay);
  }

  /** The key under which a row's installs are summed: a missing package name becomes the
      object key "undefined". */
  function PackageKey(name: Option<string>): string {
    if name.Some? then name.value else "undefined"
  }

  /** `parseInt` of a field, with NaN counted as 0; a missing field is `parseInt(undefined)`,
      which is NaN as well (see `UnitsOfField`). */
  function Units(field: Option<string>): int {
    match field
    case None => 0
    case Some(text) => CountOf(Decimal.ParseInt(text))
  }

  /** `isNaN(units) ? 0 : units` */
  function CountOf(units: Option<int>): int {
    if units.Some? then units.value else 0
  }

  /** A field that does not start with a number, after white space and a sign, counts 0; one that
      does counts that number; a missing field, read as the string "undefined", has no number. */
  lemma UnitsOfField(field: Option<string>)
    ensures field.Some? && Decimal.ParseInt(field.value).None? ==> Units(field) == 0
    ensures field.Some? && Decimal.ParseInt(field.value).Some? ==> Units(field) == Decimal.ParseInt(field.value).value
    ensures field.None? ==> Units(field) == 0 && Decimal.ParseInt("undefined").None?
  {
    Decimal.ParseIntWithoutDigits("undefined");
  }

  /** The `apps` dictionary `getAppDownloads` builds: for each package, starting at 0, the
      installs of its rows added one row after the other. */
  function Downloads(rows: seq<OverviewRow>): map<string, int>
    decreases |rows|
  {
    if rows == [] then map[] else Bump(Downloads(rows[..|rows| - 1]), rows[|rows| - 1])
  }

  /** The dictionary after one more row: the row's installs added to its package's entry, which
      starts at 0 when missing. */
  function Bump(apps: map<string, int>, row: OverviewRow): map<string, int> {
    var key := PackageKey(row.packageName);
    apps[key := (if key in apps then apps[key] else 0) + Units(row.dailyDeviceInstalls)]
  }

  /** The package keys of the rows. */
  function PackageKeys(rows: seq<OverviewRow>): set<string> {
    set i | 0 <= i < |rows| :: PackageKey(rows[i].packageName)
  }

  /** The installs of package `p` over the rows, summed from the front. */
  function InstallsFor(rows: seq<OverviewRow>, p: string): int {
    if rows == [] then 0
    else (if PackageKey(rows[0].packageName) == p then Units(rows[0].dailyDeviceInstalls) else 0)
         + InstallsFor(rows[1..], p)
  }

  lemma {:induction false} InstallsForSnoc(rows: seq<OverviewRow>, x: OverviewRow, p: string)
    ensures InstallsFor(rows + [x], p)
            == InstallsFor(rows, p) + (if PackageKey(x.packageName) == p then Units(x.dailyDeviceInstalls) else 0)
  {
    if rows != [] {
      assert (rows + [x])[1..] == rows[1..] + [x];
      InstallsForSnoc(rows[1..], x, p);
    }
  }

  /** The dictionary has exactly the rows' package keys, and an empty report gives an empty one. */
  lemma {:induction false} DownloadsKeys(rows: seq<OverviewRow>)
    ensures Downloads(rows).Keys == PackageKeys(rows)
    ensures rows == [] ==> Downloads(rows) == map[]
    decreases |rows|
  {
    if rows != [] {
      var init := rows[..|rows| - 1];
      var key := PackageKey(rows[|rows| - 1].packageName);
      DownloadsKeys(init);
      assert Downloads(rows).Keys == Downloads(init).Keys + {key} by {
        assert rows[..|rows| - 1] == init;
      }
      assert PackageKeys(rows) == PackageKeys(init) + {key} by {
        forall k | k in PackageKeys(rows)
          ensures k in PackageKeys(init) || k == key
        {
          var i :| 0 <= i < |rows| && k == PackageKey(rows[i].packageName);
          if i < |init| {
            assert init[i] == rows[i];
          }
        }
        forall k | k in PackageKeys(init)
          ensures k in PackageKeys(rows)
        {
          var i :| 0 <= i < |init| && k == PackageKey(init[i].packageName);
          assert rows[i] == init[i];
        }
        assert PackageKey(rows[|rows| - 1].packageName) == key;
      }
    }
  }

  /** Each package's entry is the sum of the installs of its rows, with unparseable counts as 0;
      a package without an entry has no rows. */
  lemma {:induction false} DownloadsSum(rows: seq<OverviewRow>)
    ensures forall p :: p in Downloads(rows) ==> Downloads(rows)[p] == InstallsFor(rows, p)
    ensures forall p :: p !in Downloads(rows) ==> InstallsFor(rows, p) == 0
    decreases |rows|
  {
    if rows != [] {
      var init := rows[..|rows| - 1];
      var x := rows[|rows| - 1];
      DownloadsSum(init);
      assert rows == init + [x];
      forall p
        ensures InstallsFor(rows, p)
                == InstallsFor(init, p) + (if PackageKey(x.packageName) == p then Units(x.dailyDeviceInstalls) else 0)
      {
        InstallsForSnoc(init, x, p);
      }
    }
  }

  /** One more row bumps the dictionary of the rows before it. */
  lemma DownloadsStep(rows: seq<OverviewRow>, i: nat)
    requires i < |rows|
    ensures Downloads(rows[..i + 1]) == Bump(Downloads(rows[..i]), rows[i])
  {
    assert rows[..i + 1][..i] == rows[..i];
  }

  /** The loop of `getAppDownloads`, shared word for word by both clients. */
  method Tally(rows: seq<OverviewRow>) returns (apps: map<string, int>)
    ensures apps == Downloads(rows)
  {
    apps := map[];
    var i := 0;
    while i < |rows|
      invariant 0 <= i <= |rows|
      invariant apps == Downloads(rows[..i])
    {
      apps := AddRow(apps, rows[i]);
      DownloadsStep(rows, i);
      i := i + 1;
    }
    assert rows[..i] == rows;
  }

  /** The loop body: looks up the row's package entry, creates it at 0 when missing and adds
      the row's installs. */
  method AddRow(apps: map<string, int>, row: OverviewRow) returns (out: map<string, int>)
    ensures out == Bump(apps, row)
  {
    out := apps;
    var key := PackageKey(row.packageName);
    var item: int;
    if key in out {
      item := out[key];
    } else {
      item := 0;
      out := out[key := item];
    }
    out := out[key := item + Units(row.dailyDeviceInstalls)];
  }

  /** What `getAppDownloads` yields for a report. */
  function AppDownloads(report: Result<seq<OverviewRow>, ReportError>): Result<map<string, int>, ReportError> {
    match report
    case Failure(e) => Failure(e)
    case Success(rows) => Success(Downloads(rows))
  }
}
