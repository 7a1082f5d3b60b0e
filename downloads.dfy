/** The downloads client: the app overview report of one day and the installs per package. */
module Downloads {
  import opened Wrappers
  import opened Reports

  /** The downloads client; `storage` is what its credentials give access to in Cloud Storage. */
  class DownloadsClient {
    const storage: Storage

    constructor (storage: Storage)
      ensures this.storage == storage
    {
      this.storage := storage;
    }

    /** `downloadAppOverviewReport`: reads the month's overview files of the project's bucket in
        listing order, split on tabs, and keeps, in row order, the mapped rows of the report day. */
    method DownloadAppOverviewReport(projectId: string, date: Date) returns (r: Result<seq<OverviewRow>, ReportError>)
      ensures r == OverviewReport(storage, projectId, date)
    {
      var bucket := BucketName(projectId);
      if bucket !in storage {
        return Failure(NoSuchBucket(bucket));
      }
      var files := SelectFiles(storage[bucket], date);
      var day := IsoDay(date);
      var rows: seq<OverviewRow> := [];
      var i := 0;
      while i < |files|
        invariant 0 <= i <= |files|
        invariant Collect(files[..i], Tab, OnDay(day)) == Success(rows)
      {
        var f := files[i];
        CollectNext(files, i, Tab, OnDay(day));
        if f.tabRows.None? {
          CollectStops(files, i + 1, Tab, OnDay(day));
          return Failure(DownloadFailed(f.name));
        }
        rows := AppendDay(rows, f.tabRows.value, day);
        i := i + 1;
      }
      assert files[..i] == files;
      r := Success(rows);
    }

    /** The inner loop: pushes the mapped rows of one file whose first column is the report day,
        in row order, and skips the others. */
    method AppendDay(rows: seq<OverviewRow>, csv: seq<Row>, day: string) returns (out: seq<OverviewRow>)
      ensures out == rows + DayRows(csv, day)
    {
      out := rows;
      var j := 0;
      while j < |csv|
        invariant 0 <= j <= |csv|
        invariant out == rows + DayRows(csv[..j], day)
      {
        var row := csv[j];
        assert csv[..j + 1][..j] == csv[..j];
        if Column(row, 0) != Some(day) {
          j := j + 1;
          continue;
        }
        out := out + [MapRow(row)];
        j := j + 1;
      }
      assert csv[..j] == csv;
    }

    /** `getAppDownloads`: the installs of the day's report summed per package. */
    method GetAppDownloads(projectId: string, date: Date) returns (r: Result<map<string, int>, ReportError>)
      ensures r == AppDownloads(OverviewReport(storage, projectId, date))
    {
      var report := DownloadAppOverviewReport(projectId, date);
      if report.Failure? {
        return Failure(report.error);
      }
      var apps := Tally(report.value);
      r := Success(apps);
    }
  }
}
