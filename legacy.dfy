/** The legacy client: the same reports, read with a private key it holds itself, and without a
    day filter. */
module Legacy {
  import opened Wrappers
  import opened Reports
  import Utf8

  /** The private key: a string, or the bytes of a buffer. */
  datatype ApiKey = KeyText(text: string) | KeyBytes(bytes: seq<Utf8.byte>)

  /** The bytes written to the temporary key file. */
  function KeyFileBytes(key: ApiKey): seq<Utf8.byte> {
    match key
    case KeyText(text) => Utf8.Encode(text)
    case KeyBytes(bytes) => bytes
  }

  /** A string key is written as its UTF-8 encoding, which decodes to the key again; a buffer is
      written as it is. */
  lemma KeyFileFaithful(key: ApiKey)
    ensures key.KeyText? ==> Utf8.Decode(KeyFileBytes(key)) == Some(key.text)
    ensures key.KeyBytes? ==> KeyFileBytes(key) == key.bytes
  {
    if key.KeyText? {
      Utf8.DecodeEncode(key.text);
    }
  }

  /** The legacy client; `storage` is what the key gives access to in Cloud Storage. */
  class Client {
    const key: ApiKey
    const storage: Storage

    constructor (key: ApiKey, storage: Storage)
      ensures this.key == key && this.storage == storage
    {
      this.key := key;
      this.storage := storage;
    }

    /** `downloadAppOverviewReport`: converts the key to bytes for the key file, then reads the
        month's overview files of the project's bucket in listing order, split on commas, and
        maps every row of them, in row order. `keyFile` is the content of the temporary key file. */
    method DownloadAppOverviewReport(projectId: string, date: Date)
      returns (keyFile: seq<Utf8.byte>, r: Result<seq<OverviewRow>, ReportError>)
      ensures keyFile == KeyFileBytes(key)
      ensures r == LegacyReport(storage, projectId, date)
    {
      keyFile := KeyFile();
      r := ReadReport(projectId, date);
    }

    /** The reading part of `downloadAppOverviewReport`. */
    method ReadReport(projectId: string, date: Date) returns (r: Result<seq<OverviewRow>, ReportError>)
      ensures r == LegacyReport(storage, projectId, date)
    {
      var bucket := BucketName(projectId);
      if bucket !in storage {
        return Failure(NoSuchBucket(bucket));
      }
      var files := SelectFiles(storage[bucket], date);
      var rows: seq<OverviewRow> := [];
      var i := 0;
      while i < |files|
        invariant 0 <= i <= |files|
        invariant Collect(files[..i], Comma, EveryDay) == Success(rows)
      {
        var f := files[i];
        CollectNext(files, i, Comma, EveryDay);
        if f.commaRows.None? {
          CollectStops(files, i + 1, Comma, EveryDay);
          return Failure(DownloadFailed(f.name));
        }
        rows := AppendRows(rows, f.commaRows.value);
        i := i + 1;
      }
      assert files[..i] == files;
      r := Success(rows);
    }

    /** `key` as bytes: a string key is converted to its UTF-8 bytes, a buffer is kept. */
    method KeyFile() returns (bytes: seq<Utf8.byte>)
      ensures bytes == KeyFileBytes(key)
    {
      var k := key;
      if !k.KeyBytes? {
        k := KeyBytes(Utf8.Encode(k.text));
      }
      bytes := k.bytes;
    }

    /** The inner loop: pushes every row of one file, mapped, in row order. */
    method AppendRows(rows: seq<OverviewRow>, csv: seq<Row>) returns (out: seq<OverviewRow>)
      ensures out == rows + AllRows(csv)
    {
      out := rows;
      var j := 0;
      while j < |csv|
        invariant 0 <= j <= |csv|
        invariant out == rows + AllRows(csv[..j])
      {
        assert csv[..j + 1][..j] == csv[..j];
        out := out + [MapRow(csv[j])];
        j := j + 1;
      }
      assert csv[..j] == csv;
    }

    /** `getAppDownloads`: the installs of the month's rows summed per package. */
    method GetAppDownloads(projectId: string, date: Date) returns (r: Result<map<string, int>, ReportError>)
      ensures r == AppDownloads(LegacyReport(storage, projectId, date))
    {
      var _, report := DownloadAppOverviewReport(projectId, date);
      if report.Failure? {
        return Failure(report.error);
      }
      var apps := Tally(report.value);
      r := Success(apps);
    }
  }
}
