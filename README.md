# node-google-play-store, modelled in Dafny

This project models the deterministic core of the `node-google-play-store` client library. The library wraps the Google Play Developer (androidpublisher v3) API and Google Cloud Storage. The model covers:

- **Release submission** (`ReleaseClient.submitForReview`, `getReleases`, `_getReleaseNotesForVersion`).
  - The release-notes shapes are normalised to (language, text) pairs.
  - The track-patch payload is built, with a default note and an optional version code.
  - The vendor calls are issued in a fixed order, all on one edit.
- **Build upload** (`BuildsClient.uploadBuild`, `getApks`).
  - The extension is derived from the path.
  - The extension decides between the APK endpoint, the bundle endpoint and no upload.
  - The `commitEdit` flag defaults to true.
  - `getApks` turns an HTTP status of 400 or more into an error.
- **Testing groups** (`TestersClient.addBuildToTestingGroup`): one release submission on the group's track.
- **Install reports**:
  - `DownloadsClient.downloadAppOverviewReport` and `getAppDownloads`;
  - the older `Client` in `src/index.ts`, whose report has no date filter and which writes its API key to a key file as bytes;
  - both clients select overview files by name, map each CSV row to 12 named fields by position, and sum daily device installs per package.

Every request to the vendor is an event (`Vendor.Call`) appended to the trace of a `Vendor.Publisher`.

- The publisher names each new edit from a counter (`edit-0`, `edit-1`, ...).
- It rejects the requests whose position in the trace is in its fixed set `rejects`.
- A rejected request stays in the trace, the client's operation fails with `VendorRejected`, and nothing issued before it is rolled back.

Each workflow method is proved against a pure *plan*: the list of requests the source issues when nothing fails. `Vendor.Run` cuts a plan after its first rejected request. `Vendor.Settle` gives the operation's result. Lemmas about the plans state the order and edit properties.

The install reports read a `Storage`: a map from bucket name to the bucket's files. A file has an optional name and two optional parsed contents, because the two clients parse CSV differently:

- the downloads client's `readCSV` (`src/client/utils.ts`) splits on tabs;
- the legacy client's `readCSV` (`src/utils.ts`) splits on commas.

So a stored file carries the rows of both parses, and a report reads the one its client uses. A parse of `None` stands for a download or parse that fails. Rows are sequences of column strings. The two reports agree only on files that parse alike both ways (`Reports.SameParses`).

The model follows the code where the code and its documentation differ:

- `submitForReview` reads `options.releaseNotes` from the caller's argument, not from the merged options. So a call without options creates an edit and then fails (`MissingOptions`) before any listing, track or commit request.
- `uploadBuild` never looks at `options.editId`.
- A dot anywhere in the build path, even in a directory name, shifts the extension.

## Model

| member | source | states |
|---|---|---|
| Vendor.EditName | src/edits/edits.client.ts:37-43 | the id of the edit created at counter value n: `edit-` and n in decimal, never empty |
| Vendor.Settle | src/release/release-client.ts:32-90 | an operation's result: the error of the first rejected request when one is rejected, the operation's own value otherwise |
| Vendor.NeedsNewEdit | src/release/release-client.ts:40 | a new edit is needed iff the caller's edit id is falsy: absent or the empty string (also release-client.ts:94 and builds-client.ts:90) |
| Vendor.Opening | src/release/release-client.ts:39-42 | one edit creation when the edit id is falsy, no request otherwise |
| Vendor.EditNameInjective | src/edits/edits.client.ts:37-43 | two edits get the same id iff they were created at the same counter value, so an edit created later is never an earlier one |
| Vendor.Run | src/release/release-client.ts:32-90 | the requests issued are at most the planned ones |
| Vendor.RunOutcome | src/release/release-client.ts:32-90 | with no rejection the whole plan is issued; otherwise at least one request is in the trace |
| Vendor.RunIsPrefix | src/release/release-client.ts:32-90 | the issued requests are a prefix of the plan |
| Vendor.RunEndsAtRejection | src/release/release-client.ts:32-90 | a failed run ends with the rejected request, and every request before it was accepted |
| Vendor.RunStopsAt | src/release/release-client.ts:32-90 | after accepted requests, a rejected request is the last one issued and is the error |
| Vendor.CompletesAppend | src/release/release-client.ts:32-90 | two parts run clean together iff each runs clean at its position |
| Vendor.RunThen | src/release/release-client.ts:32-90 | after a clean part, the run continues with the rest |
| Vendor.SettleThen | src/release/release-client.ts:32-90 | after a clean part, the result is decided by the rest |
| Vendor.RunHalts | src/release/release-client.ts:32-90 | after a failed part nothing more is issued and the result is that part's failure |
| Vendor.StepFails | src/release/release-client.ts:32-90 | a failing middle part ends the run with its own error |
| Vendor.StepSucceeds | src/release/release-client.ts:32-90 | two clean parts make a clean whole |
| Vendor.PlanSucceeds | src/release/release-client.ts:32-90 | a clean plan is issued whole and yields the operation's own value |
| Vendor.Select | src/release/release-client.ts:44-89 | the requests of one kind, in order; none when the list has none of that kind |
| Vendor.SelectAppend | src/release/release-client.ts:44-89 | selecting by kind distributes over concatenation |
| Vendor.Publisher.constructor | src/edits/edits.client.ts:22-25 | a fresh publisher has an empty trace and a counter at 0 |
| Vendor.Publisher.Send | src/release/release-client.ts:54-59 | appends exactly one request; it succeeds iff its position is not rejected |
| Vendor.Publisher.InsertEdit | src/edits/edits.client.ts:37-43 | appends one edit creation and advances the counter; the new id is returned unless it is rejected |
| Vendor.Publisher.SendAll | src/release/release-client.ts:53-60 | issues the requests one after another and stops at the first rejection; it succeeds iff all are accepted |
| Vendor.Publisher.OpenEdit | src/release/release-client.ts:39-42 | creates an edit iff no (non-empty) edit id is given; the edit used is the given id or the new one |
| Release.DefaultNote | src/release/release-client.ts:78 | the note in `en-US` reading `New features for` and the version name |
| Release.Intended | src/release/release-client.ts:109-131 | the notes the caller means, as (language, text) pairs: none for absent notes or the empty string, one `en-US` note for a string, the note itself, or the list itself |
| Release.OptionsOrEmpty | src/release/release-client.ts:33 | missing options read as an empty options object |
| Release.TrackName | src/release/release-client.ts:34-37 | the caller's track, or `production` when none is given |
| Release.VersionCodes | src/release/release-client.ts:63-67 | a one-element list for a non-zero version code, left out otherwise |
| Release.TrackRelease | src/release/release-client.ts:74-80 | the single release: named after the version, status `completed`, the normalised notes or else the default note, and the version codes |
| Release.TrackCall | src/release/release-client.ts:69-84 | the track patch on the edit: the merged track, its one release, and the track name repeated in the body |
| Release.DetailsCalls | src/release/release-client.ts:44-46 | one details patch on the edit when details are given, none otherwise |
| Release.Verdict | src/release/release-client.ts:48 | without options the submission fails with `MissingOptions`, because reading `options.releaseNotes` throws; with options it succeeds |
| Release.SubmitPlan | src/release/release-client.ts:32-90 | the requests of a submission when none is rejected: the opening, the details patch if any, and, only when options are given, the listing patches, the track patch and the commit |
| Release.Localize | src/release/release-client.ts:119-123 | the mapped notes have the length of the input list |
| Release.NormalizeNotes | src/release/release-client.ts:109-131 | a list gives one pair per note; every other shape gives at most one pair |
| Release.Unlocalize | src/release/release-client.ts:119-123 | reading pairs back as notes keeps the length |
| Release.NormalizeLosesNothing | src/release/release-client.ts:109-131 | reading the normalised pairs back gives the notes the caller meant, in order; for a list (119-123) this says the mapping loses and reorders nothing, while for the other shapes it follows the definitions' case split |
| Release.UnlocalizeLocalize | src/release/release-client.ts:119-123 | `lang` becomes `language` and `text` becomes `text` with nothing lost or reordered |
| Release.NormalizedEmpty | src/release/release-client.ts:111-112 | normalisation gives no pairs iff there are no notes, the notes are the empty string, or the list is empty |
| Release.ListingCalls | src/release/release-client.ts:52-61 | one listing patch per listing |
| Release.ListingCallsAt | src/release/release-client.ts:53-59 | the i-th listing patch carries the i-th listing and takes its language from it |
| Release.OrderedAppend | src/release/release-client.ts:44-89 | appending later-phase requests keeps the phase order |
| Release.SelectOnly | src/release/release-client.ts:44-89 | selecting a list's own kind gives the whole list |
| Release.SubmitWithoutOptions | src/release/release-client.ts:32-48 | without options only an edit is created, and the submission always fails |
| Release.ClosingOnEdit | src/release/release-client.ts:44-89 | after the opening, at least one request is issued, none creates an edit, and all use the same edit |
| Release.EditDiscipline | src/release/release-client.ts:39-89 | an optional creation followed by requests on one edit creates at most once, first, and stays on that edit |
| Release.SubmitEdit | src/release/release-client.ts:39-42 | a new edit is created iff no edit id is given, it is the first request, and every request uses the one edit id (54-58, 69-71, 86-88) |
| Release.PhasedOrder | src/release/release-client.ts:41-89 | edit, details, listings, track, commit appear in that phase order |
| Release.SelectOwnPart | src/release/release-client.ts:44-89 | selecting a kind that occurs only in one part gives that part |
| Release.PhasedDetails | src/release/release-client.ts:44-46 | the details patches of a phased list are exactly its details part |
| Release.PhasedListings | src/release/release-client.ts:52-61 | the listing patches of a phased list are exactly its listings part |
| Release.PhasedClosing | src/release/release-client.ts:69-89 | a phased list has exactly one track patch and one commit, and the commit is last |
| Release.SubmitOrder | src/release/release-client.ts:39-89 | the plan with options is exactly the opening, the details patch if any, the listing patches, the track patch and the commit; phase order; a details patch iff details are given; the listing patches in list order; exactly one track patch; exactly one commit, which is last |
| Release.SubmitTrackPayload | src/release/release-client.ts:33-37 | the track is the caller's or `production`; one release named `versionName` with status `completed`; the normalised notes, or the default `en-US` note when there are none (73-80); version codes iff the code is non-zero (63-67) |
| Release.RunToLast | src/release/release-client.ts:86-89 | a final commit is issued only once everything before it was accepted |
| Release.SubmitCommitsOnlyAfterSuccess | src/release/release-client.ts:32-90 | a commit is issued only when options were given and every earlier request was accepted |
| Release.PrefixSelect | src/release/release-client.ts:32-90 | a list with no request of a kind has none in any prefix |
| Release.FrontHasNoCommit | src/release/release-client.ts:39-84 | nothing before the last request is a commit |
| Release.ReleaseClient.constructor | src/release/release-client.ts:29-30 | the client keeps its publisher |
| Release.ReleaseClient.SubmitForReview | src/release/release-client.ts:32-90 | the trace gains the run of the submission plan, and the result is the plan's outcome (a vendor rejection, `MissingOptions`, or success); the edit counter advances by one iff a new edit is created |
| Release.ReleaseClient.Proceed | src/release/release-client.ts:44-89 | after the edit: details, the notes read from the raw options (a failure without options), then the closing requests; only the trace changes, so no edit is created |
| Release.ReleaseClient.Finish | src/release/release-client.ts:52-89 | the listing loop, the track patch and the commit are issued in order until one is rejected; only the trace changes |
| Release.ReleaseClient.GetReleases | src/release/release-client.ts:92-106 | the trace gains the run of the read plan; on success the track's releases are returned unchanged; the edit counter advances by one iff a new edit is created |
| Release.ReadPlan | src/release/release-client.ts:100-104 | the last request reads the track on the edit used |
| Release.GetReleasesEdit | src/release/release-client.ts:93-96 | an edit is created iff no edit id is given; exactly one track read; nothing else |
| Release.SubmitWithoutNotes | src/release/release-client.ts:69-89 | an example: a production submission without notes has the default note and no version codes |
| Testers.GroupOptions | src/testers/testers-client.ts:37-40 | the options handed to the release client: the group as the track and the version code to attach, nothing else |
| Testers.GroupPlan | src/testers/testers-client.ts:35-42 | the group's submission is a new edit, one track patch on the group's track with the default note and the version code (left out when 0), then a commit |
| Testers.GroupEdit | src/testers/testers-client.ts:37-40 | exactly one new edit, every request on it, exactly one track patch naming the group, and the commit last |
| Testers.TestersClient.constructor | src/testers/testers-client.ts:24-25 | the client keeps its release client |
| Testers.TestersClient.AddBuildToTestingGroup | src/testers/testers-client.ts:35-42 | exactly one release submission, with package and version name unchanged, the group as the track and the version code attached; exactly one new edit is created |
| Builds.Extension | src/builds/builds-client.ts:47 | the lowercased path split on dots, its first piece dropped, rejoined with dots |
| Builds.KindOfExtension | src/builds/builds-client.ts:58-76 | `apk` selects the APK upload, `aab` the bundle upload, anything else no upload |
| Builds.CommitsEdit | src/builds/builds-client.ts:45-52 | the commit flag: the caller's when given, true otherwise |
| Builds.UploadCalls | src/builds/builds-client.ts:58-76 | one APK upload for `apk`, one bundle upload for `aab`, no upload for any other extension, on the given edit |
| Builds.CommitCalls | src/builds/builds-client.ts:78-83 | one commit of the edit when the flag is set, none otherwise |
| Builds.UploadPlan | src/builds/builds-client.ts:44-86 | the requests of an upload when none is rejected: a new edit, the upload its extension selects, and the commit when the flag is set |
| Builds.ListPlan | src/builds/builds-client.ts:88-99 | an edit when none is given, then one APK listing on the edit used |
| Builds.ApksVerdict | src/builds/builds-client.ts:101-105 | a status of 400 or more fails with the error message; any other status yields the reply's apks |
| Builds.StatusTextOr | src/builds/builds-client.ts:102 | the status text of the reply unless it is absent or empty, `Unknown` otherwise |
| Builds.ApksMessage | src/builds/builds-client.ts:102 | the error text naming package, edit id, status and status text |
| Builds.ExtensionAfterFirstDot | src/builds/builds-client.ts:47 | the extension is the lowercased text after the first dot, and empty without a dot |
| Builds.ExtensionOfName | src/builds/builds-client.ts:47 | a file name without a dot before its extension gives that extension lowercased |
| Builds.CommitDefault | src/builds/builds-client.ts:45-52 | the commit flag is true by default, and a flag the caller gives wins |
| Builds.UploadEdit | src/builds/builds-client.ts:56 | the upload creates exactly one new edit first, every request uses it, and `editId` in the options has no effect |
| Builds.UploadKinds | src/builds/builds-client.ts:58-76 | `apk` gives one APK upload, `aab` gives one bundle upload, anything else gives none |
| Builds.UploadDispatch | src/builds/builds-client.ts:58-83 | one upload per matching extension; a commit on the created edit iff the flag is set, and then it is last |
| Builds.ApksMessageMentions | src/builds/builds-client.ts:102 | the error names the package, the edit id, the status and the status text (`Unknown` when there is none) |
| Builds.ApksOutcome | src/builds/builds-client.ts:88-106 | an edit is created iff none is given, and one list request follows; a clean run fails iff the status is at least 400 and otherwise returns the reply's apks |
| Builds.BuildsClient.constructor | src/builds/builds-client.ts:31-33 | the client keeps its publisher |
| Builds.BuildsClient.UploadBuild | src/builds/builds-client.ts:44-86 | the trace gains the run of the upload plan; on success the created edit id is returned, whether or not it was committed; exactly one new edit is created |
| Builds.BuildsClient.Upload | src/builds/builds-client.ts:58-85 | the dispatch and the optional commit are issued in order until one is rejected |
| Builds.BuildsClient.GetApks | src/builds/builds-client.ts:88-106 | the trace gains the run of the list plan; the result is the status verdict on the reply; the edit counter advances by one iff a new edit is created |
| Reports.YearMonth | src/downloads/downloads-client.ts:68 | moment's `YYYYMM`: the year in four and the month in two zero-padded digits |
| Reports.IsoDay | src/downloads/downloads-client.ts:81 | moment's `YYYY-MM-DD` |
| Reports.BucketName | src/downloads/downloads-client.ts:63 | `pubsite_prod_rev_` followed by the project id |
| Reports.IsOverviewFile | src/downloads/downloads-client.ts:65-68 | a file whose name is a string, starts with `stats/installs/installs_` and ends with `_YYYYMM_overview.csv` for the report month |
| Reports.Parsed | src/downloads/downloads-client.ts:74 | the rows a client's `readCSV` gives for a file: the tab parse for the downloads client, the comma parse for the legacy client (src/index.ts:151) |
| Reports.SameParses | src/index.ts:151 | the month's files have the same rows split on tabs as split on commas |
| Reports.Column | src/downloads/downloads-client.ts:86-97 | `R[COLUMNS[k]]`: column k of the row, `undefined` past its last column |
| Reports.KeepDay | src/downloads/downloads-client.ts:79-81 | a row is kept iff its first column is the report day |
| Reports.MapRow | src/downloads/downloads-client.ts:85-98 | the 12 named fields, taken from columns 0 to 11 by position |
| Reports.Collect | src/downloads/downloads-client.ts:70-102 | the rows of the files in order, parsed with the client's separator and kept by its selection; the first file that cannot be read fails the report |
| Reports.Fetch | src/downloads/downloads-client.ts:58-102 | a missing bucket fails; otherwise the rows of the bucket's selected files |
| Reports.OverviewReport | src/downloads/downloads-client.ts:49-103 | the downloads client's report: the tab-split rows dated the report day |
| Reports.LegacyReport | src/index.ts:118-175 | the legacy client's report: every comma-split row of the month's files |
| Reports.PackageKey | src/downloads/downloads-client.ts:120-122 | the `apps` key of a row: its package name, or `"undefined"` when the column is missing |
| Reports.Units | src/downloads/downloads-client.ts:127-130 | `parseInt` of the installs field, with NaN counted as 0 |
| Reports.Bump | src/downloads/downloads-client.ts:120-130 | one row added to the dictionary: its package's entry, starting at 0, grows by the row's units |
| Reports.Downloads | src/downloads/downloads-client.ts:115-131 | the dictionary after adding the rows one by one, from an empty `apps` |
| Reports.InstallsFor | src/downloads/downloads-client.ts:119-131 | the sum of the units of one package's rows |
| Reports.IsoDayReadsBack | src/downloads/downloads-client.ts:81 | `YYYY-MM-DD` has ten characters with dashes at 4 and 7, reads back as the date, and holds `YYYYMM` |
| Reports.IsoDayInjective | src/downloads/downloads-client.ts:81 | two valid dates have the same `YYYY-MM-DD` iff they are equal |
| Reports.YearMonthSame | src/downloads/downloads-client.ts:68 | two valid dates have the same `YYYYMM` iff they share year and month |
| Reports.BucketNameShape | src/downloads/downloads-client.ts:63 | the bucket is `pubsite_prod_rev_` followed by the project id |
| Reports.SelectFiles | src/downloads/downloads-client.ts:65-68 | the selected files are at most as many as the listed ones, each is one of the listed files, and each is a named overview file of the month; that every listed overview file is selected is `Reports.SelectFilesMembers` |
| Reports.SelectFilesMembers | src/downloads/downloads-client.ts:65-68 | a file is processed iff it is listed, is named, starts with `stats/installs/installs_` and ends with `_YYYYMM_overview.csv` |
| Reports.MapRowPositional | src/downloads/downloads-client.ts:85-98 | field k of a mapped row is column k for the 12 fields in order; extra columns are ignored |
| Reports.FieldsInjective | src/downloads/downloads-client.ts:85-98 | the 12 fields determine the row |
| Reports.DayRows | src/downloads/downloads-client.ts:76-99 | a file yields at most as many rows as it has |
| Reports.DayRowsMembers | src/downloads/downloads-client.ts:79-98 | a row is kept iff its first column is the report day, and a kept row's date is that day |
| Reports.KeepDate | src/downloads/downloads-client.ts:79-83 | filtering by date never adds rows |
| Reports.KeepDateAppend | src/downloads/downloads-client.ts:79-83 | filtering by date distributes over concatenation |
| Reports.DayRowsFromAll | src/downloads/downloads-client.ts:76-99 | within one parse, the filtered and mapped rows are the mapped rows filtered by date |
| Reports.AllRows | src/index.ts:153-170 | without a date filter every row yields exactly one output row |
| Reports.AllRowsAt | src/index.ts:156-169 | output row i is the mapping of row i |
| Reports.CollectSize | src/downloads/downloads-client.ts:70-102 | with either separator, the report succeeds iff every file's content is read and parsed with it; it has at most the total row count, and exactly that count without the date filter (src/index.ts:149-171) |
| Reports.CollectNext | src/downloads/downloads-client.ts:72-74 | one more file: an earlier failure stays, a file that cannot be read or parsed fails the report, and a readable file adds its rows |
| Reports.CollectStops | src/downloads/downloads-client.ts:72-74 | the first file that cannot be read or parsed with the separator decides the failure |
| Reports.CollectAgree | src/downloads/downloads-client.ts:72-100 | with the same separator, the dated report is the undated report filtered by day |
| Reports.CollectSameParse | src/index.ts:151 | files whose tab and comma parses coincide give the same rows with either separator |
| Reports.ReportsAgree | src/index.ts:118-175 | where the month's files parse alike with tabs and with commas (`Reports.SameParses`), the downloads client's report is the legacy client's report filtered to the report day |
| Reports.SeparatorsMatter | src/index.ts:151 | an example: a tab-separated overview file gives the downloads client its one row of the day, while the legacy client, splitting on commas, reads one single-column row and nothing dated that day |
| Reports.UnitsOfField | src/downloads/downloads-client.ts:127-130 | an unparseable count adds 0, a parsed count adds its value, and a missing column parses as NaN and adds 0 |
| Reports.InstallsForSnoc | src/downloads/downloads-client.ts:119-131 | the per-package sum grows by a row's units only for that row's package |
| Reports.DownloadsKeys | src/downloads/downloads-client.ts:115-125 | the keys of `apps` are exactly the package names of the rows; no rows give an empty `apps` |
| Reports.DownloadsSum | src/downloads/downloads-client.ts:119-131 | `downloads[p]` is the sum of the parsed installs of p's rows, with NaN counted as 0 |
| Reports.DownloadsStep | src/downloads/downloads-client.ts:119-131 | each row updates the dictionary built from the rows before it |
| Reports.Tally | src/downloads/downloads-client.ts:119-131 | the loop builds the per-package dictionary of `Downloads` |
| Reports.AddRow | src/downloads/downloads-client.ts:120-130 | a missing package starts at 0, and then the row's units are added |
| Downloads.DownloadsClient.constructor | src/downloads/downloads-client.ts:58-61 | the client keeps its storage |
| Downloads.DownloadsClient.DownloadAppOverviewReport | src/downloads/downloads-client.ts:49-103 | the nested loops build the month's files' rows for the report day, in file order then row order |
| Downloads.DownloadsClient.AppendDay | src/downloads/downloads-client.ts:76-99 | the inner loop appends exactly the mapped rows of the report day |
| Downloads.DownloadsClient.GetAppDownloads | src/downloads/downloads-client.ts:112-134 | the result is the per-package sum over the report |
| Legacy.KeyFileBytes | src/index.ts:127-130 | a string key as its UTF-8 bytes, a buffer unchanged |
| Legacy.KeyFileFaithful | src/index.ts:127-130 | a text key is written as its UTF-8 bytes, which decode back to it; a byte key is written unchanged |
| Legacy.Client.constructor | src/index.ts:107-109 | the client keeps its key and storage |
| Legacy.Client.DownloadAppOverviewReport | src/index.ts:118-175 | the key file holds the key's bytes, and the report is every row of the month's files |
| Legacy.Client.ReadReport | src/index.ts:140-173 | the nested loops build all rows of the month's files, in file order then row order |
| Legacy.Client.KeyFile | src/index.ts:127-130 | the key is converted to bytes unless it already is bytes |
| Legacy.Client.AppendRows | src/index.ts:153-170 | the inner loop appends one mapped row per parsed row |
| Legacy.Client.GetAppDownloads | src/index.ts:184-206 | the result is the per-package sum over the legacy report |
| Decimal.IsJsSpace | src/downloads/downloads-client.ts:127 | the white space and line terminators `parseInt` skips |
| Decimal.TrimStart | src/downloads/downloads-client.ts:127 | the text without its leading white space: a suffix of it, which is empty or starts with no white space |
| Decimal.ParseInt | src/downloads/downloads-client.ts:127 | `parseInt` with radix 10: white space skipped, an optional sign, the longest run of digits; NaN without digits |
| Decimal.Format | src/builds/builds-client.ts:102 | `String(n)` for a natural number: digits only, at least one, no leading zero |
| Decimal.FormatInt | src/builds/builds-client.ts:102 | `String(i)`: a minus sign before a negative number's digits |
| Decimal.Fixed | src/downloads/downloads-client.ts:68 | the last w digits of a number, zero-padded to exactly w digits |
| Decimal.ParseIntOfFormatInt | src/downloads/downloads-client.ts:127 | `parseInt` reads back an integer written in decimal, whatever non-digit text follows |
| Decimal.ParseIntWithoutDigits | src/downloads/downloads-client.ts:127-130 | a text without digits does not parse (NaN) |
| Decimal.ValueOfFixed | src/downloads/downloads-client.ts:68 | a zero-padded field reads back as its number |
| Decimal.FixedInjective | src/downloads/downloads-client.ts:81 | different numbers give different zero-padded fields |
| Decimal.ValueOfFormat | src/builds/builds-client.ts:102 | a formatted status reads back as its number |
| Text.Lower | src/builds/builds-client.ts:47 | lowercasing keeps the length and maps each character |
| Text.JoinSplit | src/builds/builds-client.ts:47 | joining the split pieces gives the text back |
| Text.JoinTailOfSplit | src/builds/builds-client.ts:47 | dropping the first piece and rejoining gives the text after the first separator |
| Text.AfterFirst | src/builds/builds-client.ts:47 | the text after the first separator is a suffix with no separator before it; empty without one |
| Text.AfterFirstAfter | src/builds/builds-client.ts:47 | a prefix without the separator is cut off exactly |
| Text.LowerKeeps | src/builds/builds-client.ts:47 | lowercasing neither adds nor removes a dot |
| Utf8.Encode | src/index.ts:129 | the UTF-8 encoding, character by character, one to four bytes each |
| Utf8.Decode | src/index.ts:129 | decoding of well-formed shortest-form UTF-8; none for anything else |
| Utf8.DecodeEncode | src/index.ts:129 | UTF-8 encoding of a string decodes back to that string |
| Utf8.EncodeAscii | src/index.ts:129 | an ASCII key's bytes are its character codes |

## Left out

- TokenProvider, authentication, and the googleapis HTTP transport are foreign I/O. Every vendor request is an abstract event, and vendor failures are the publisher's `rejects` set.
- `src/edits/edits.client.ts` is not part of this model beyond its requests: `createEdit`, `setDetails` and `commitEdit` are the `CreateEdit`, `PatchDetails` and `Commit` events.
- `src/client/client.ts` only wires the clients together and is not part of this model.
- Vendor replies are parameters of the methods: the apks list status and data, and the track's releases. A created edit's id comes from the publisher's counter, not from the vendor.
- Google Cloud Storage is a constant map from bucket name to files, so a listing and a download cannot change during a report. A parse of `None` stands for a failed download or CSV parse. CSV parsing itself (`readCSV` with `csv-parser`) is not modelled: the rows of splitting on tabs and of splitting on commas are given with each file as sequences of column strings. The UTF-16LE decode (`toString('utf16le')`) cannot fail and is part of those given rows.
- Object-key order and duplicate or empty headers in the CSV row objects are not modelled. A row is an ordered sequence of columns, and a missing column is `undefined`.
- The temporary key file (`tempFile`, `fs.writeFile`) is reduced to the bytes that would be written, which `Legacy.Client.DownloadAppOverviewReport` returns.
- Date parsing by moment and the "now" default are left out. The report date is an already resolved (year, month, day), with a year below 10000 so `YYYY` has four digits.
- Decimal.ParseInt: models a decimal-prefix parser with JavaScript's leading whitespace and sign. It does not model the `0x` hex prefix, the radix guesses, or number precision.
- Reports.Units: counts are unbounded integers, so JavaScript's floating-point sums (and their loss of precision above 2^53) are not modelled.
- Reports.Downloads: the `apps` dictionary is a map. Keys that collide with object prototype members (such as `constructor`) are not modelled. A missing package name is the key `"undefined"`, as JavaScript's property-key conversion gives.
- Reports.Column: a CSV field that is JavaScript `undefined` is `None`. Other non-string values cannot occur in parsed CSV.
- Text.Lower: lowercases ASCII letters only. JavaScript's `toLowerCase` also maps non-ASCII characters, and some of them can change the dispatch: U+212A KELVIN SIGN lowercases to `k`, so `app.AP\u212A` is an APK upload in the source but no upload in the model. Such non-ASCII case mappings are not modelled.
- Utf8.Encode: Dafny characters are Unicode scalar values, so JavaScript's encoding of lone surrogates as U+FFFD is not modelled.
- Release.OptionsOrEmpty: a caller property that is explicitly `undefined` overrides the spread defaults in JavaScript. The model has only absent properties, so an absent `track` or `commitEdit` always takes the default.
- Release.TrackName: the `TrackId.PRODUCTION` constant is taken to be `production`; its enum file is not part of this model.
- Async/await sequencing is ordinary sequential code. There is no concurrency between requests.
- Vendor.Publisher.SendAll: the listing loop of `submitForReview` is this method's loop over the planned listing patches.
