/** The builds client: uploading an APK or app bundle in a new edit, and listing the APKs of an edit. */
module Builds {
  import opened Wrappers
  import opened Vendor
  import opened Text
  import Decimal

  /** The options of `uploadBuild`; `None` stands for a property that is not set. */
  datatype BuildUploadOptions = BuildUploadOptions(commitEdit: Option<bool>, editId: Option<string>)

  /** What `uploadBuild` does with a file, chosen by its extension. */
  datatype BuildKind = ApkFile | BundleFile | OtherFile

  /** The extension of a build path: the lower-cased path split on dots, less its first piece,
      joined again with dots. */
  function Extension(buildPath: string): string {
    Join(Split(Lower(buildPath), '.')[1..], '.')
  }

  /** The extension is everything after the first dot of the lower-cased path (so a dot in a
      directory name moves it), and "" when there is no dot. */
  lemma ExtensionAfterFirstDot(buildPath: string)
    ensures var ext := Extension(buildPath);
            var lower := Lower(buildPath);
            && ext == AfterFirst(lower, '.')
            && ('.' !in buildPath ==> ext == "")
            && ('.' in buildPath ==> |ext| < |buildPath| && ext == lower[|lower| - |ext|..]
                                     && '.' !in lower[..|lower| - |ext| - 1])
  {
    var lower := Lower(buildPath);
    JoinTailOfSplit(lower, '.');
    assert '.' in buildPath <==> '.' in lower by {
      forall i | 0 <= i < |buildPath|
        ensures buildPath[i] == '.' <==> lower[i] == '.'
      {
      }
    }
  }

  /** The endpoint an extension selects. */
  function KindOfExtension(ext: string): BuildKind {
    if ext == "apk" then ApkFile else if ext == "aab" then BundleFile else OtherFile
  }

  /** `{commitEdit: true, ...(options || {})}`: the edit is committed unless the caller says not to. */
  function CommitsEdit(options: Option<BuildUploadOptions>): bool {
    if options.Some? && options.value.commitEdit.Some? then options.value.commitEdit.value else true
  }

  /** The upload request for the build at `buildPath` in edit `e`, if its extension has one. */
  function UploadCalls(packageName: string, buildPath: string, e: string): seq<Call> {
    match KindOfExtension(Extension(buildPath))
    case ApkFile => [UploadApk(packageName, e, buildPath)]
    case BundleFile => [UploadBundle(packageName, e, buildPath)]
    case OtherFile => []
  }

  /** The commit of edit `e`, if it is to be committed. */
  function CommitCalls(packageName: string, e: string, commit: bool): seq<Call> {
    if commit then [Commit(packageName, e)] else []
  }

  /** The requests `uploadBuild` means to issue, `created` being the id of the edit it creates. */
  function UploadPlan(packageName: string, buildPath: string, options: Option<BuildUploadOptions>,
                      created: string): seq<Call>
  {
    [CreateEdit(packageName)] + UploadCalls(packageName, buildPath, created)
    + CommitCalls(packageName, created, CommitsEdit(options))
  }

  /** `commitEdit` defaults to true; a value the caller gives wins. */
  lemma CommitDefault(options: Option<BuildUploadOptions>)
    ensures options.None? || options.value.commitEdit.None? ==> CommitsEdit(options)
    ensures options.Some? && options.value.commitEdit.Some? ==> CommitsEdit(options) == options.value.commitEdit.value
  {
  }

  /** Exactly one edit is created, first, and every other request runs in it; the caller's
      `editId` plays no part. */
  lemma {:induction false} UploadEdit(packageName: string, buildPath: string, options: Option<BuildUploadOptions>,
                                      created: string)
    ensures var plan := UploadPlan(packageName, buildPath, options, created);
            && plan[0] == CreateEdit(packageName)
            && Select(plan, KCreate) == [CreateEdit(packageName)]
            && OnEdit(plan, created)
    ensures options.Some? ==>
              UploadPlan(packageName, buildPath, options, created)
              == UploadPlan(packageName, buildPath, Some(BuildUploadOptions(options.value.commitEdit, None)), created)
  {
    var plan := UploadPlan(packageName, buildPath, options, created);
    var up, cm := UploadCalls(packageName, buildPath, created), CommitCalls(packageName, created, CommitsEdit(options));
    assert Select(up + cm, KCreate) == [] by {
      assert forall i :: 0 <= i < |up + cm| ==> KindOf((up + cm)[i]) != KCreate;
    }
    ConcatAssoc([CreateEdit(packageName)], up, cm);
    SelectAppend([CreateEdit(packageName)], up + cm, KCreate);
  }

  /** The upload requests of a build: one APK upload for "apk", one bundle upload for "aab",
      nothing otherwise, and never a commit. */
  lemma UploadKinds(packageName: string, buildPath: string, e: string)
    ensures var up := UploadCalls(packageName, buildPath, e);
            var ext := Extension(buildPath);
            && |Select(up, KApk)| == (if ext == "apk" then 1 else 0)
            && |Select(up, KBundle)| == (if ext == "aab" then 1 else 0)
            && Select(up, KCommit) == []
  {
  }

  lemma CreateKinds(packageName: string)
    ensures var create := [CreateEdit(packageName)];
            Select(create, KApk) == [] && Select(create, KBundle) == [] && Select(create, KCommit) == []
  {
  }

  lemma CommitKinds(packageName: string, e: string, commit: bool)
    ensures var cm := CommitCalls(packageName, e, commit);
            Select(cm, KApk) == [] && Select(cm, KBundle) == [] && Select(cm, KCommit) == cm
  {
  }

  /** An "apk" extension gives one APK upload, "aab" one bundle upload, anything else none;
      the commit is there exactly when the edit is to be committed, and then comes last. */
  lemma {:induction false} UploadDispatch(packageName: string, buildPath: string, options: Option<BuildUploadOptions>,
                                          created: string)
    ensures var plan := UploadPlan(packageName, buildPath, options, created);
            var ext := Extension(buildPath);
            && |Select(plan, KApk)| == (if ext == "apk" then 1 else 0)
            && |Select(plan, KBundle)| == (if ext == "aab" then 1 else 0)
            && Select(plan, KCommit) == (if CommitsEdit(options) then [Commit(packageName, created)] else [])
            && (CommitsEdit(options) ==> plan[|plan| - 1] == Commit(packageName, created))
  {
    var create := [CreateEdit(packageName)];
    var up, cm := UploadCalls(packageName, buildPath, created), CommitCalls(packageName, created, CommitsEdit(options));
    var plan := create + up + cm;
    var ext := Extension(buildPath);
    UploadKinds(packageName, buildPath, created);
    CreateKinds(packageName);
    CommitKinds(packageName, created, CommitsEdit(options));
    assert |Select(plan, KApk)| == (if ext == "apk" then 1 else 0) by {
      SelectAppend(create + up, cm, KApk);
      SelectAppend(create, up, KApk);
    }
    assert |Select(plan, KBundle)| == (if ext == "aab" then 1 else 0) by {
      SelectAppend(create + up, cm, KBundle);
      SelectAppend(create, up, KBundle);
    }
    assert Select(plan, KCommit) == cm by {
      SelectAppend(create + up, cm, KCommit);
      SelectAppend(create, up, KCommit);
    }
  }

  /** One APK as the vendor lists it, passed through unchanged. */
  datatype Apk = Apk(versionCode: int, sha1: string)

  /** The vendor's answer to the APK listing: the HTTP status, its text and `data.apks`. */
  datatype ApkListReply = ApkListReply(status: int, statusText: Option<string>, apks: Option<seq<Apk>>)

  /** `result.statusText || 'Unknown'` */
  function StatusTextOr(statusText: Option<string>): string {
    if statusText.Some? && statusText.value != "" then statusText.value else "Unknown"
  }

  /** The message of the error `getApks` raises for a failed listing. */
  function ApksMessage(packageName: string, editId: string, status: int, statusText: Option<string>): string {
    "Error while getting apks for package " + packageName
    + (" with edit Id: " + editId
       + (". Status code: " + Decimal.FormatInt(status)
          + (". Error: " + StatusTextOr(statusText))))
  }

  /** The message names the package, the edit, the status code and the status text (or "Unknown"). */
  lemma ApksMessageMentions(packageName: string, editId: string, status: int, statusText: Option<string>)
    ensures var m := ApksMessage(packageName, editId, status, statusText);
            && Contains(m, packageName)
            && Contains(m, editId)
            && Contains(m, Decimal.FormatInt(status))
            && Contains(m, StatusTextOr(statusText))
  {
    var code, text := Decimal.FormatInt(status), StatusTextOr(statusText);
    var t3 := ". Status code: " + code + (". Error: " + text);
    var t2 := " with edit Id: " + editId + t3;
    ContainsMiddle("Error while getting apks for package ", packageName, t2);
    ContainsMiddle(" with edit Id: ", editId, t3);
    ContainsRight("Error while getting apks for package " + packageName, t2, editId);
    ContainsMiddle(". Status code: ", code, ". Error: " + text);
    ContainsRight(" with edit Id: " + editId, t3, code);
    ContainsRight("Error while getting apks for package " + packageName, t2, code);
    ContainsMiddle(". Error: ", text, []);
    assert ". Error: " + text + [] == ". Error: " + text;
    ContainsRight(". Status code: " + code, ". Error: " + text, text);
    ContainsRight(" with edit Id: " + editId, t3, text);
    ContainsRight("Error while getting apks for package " + packageName, t2, text);
  }

  /** What `getApks` yields once its requests have gone through. */
  function ApksVerdict(packageName: string, e: string, reply: ApkListReply): Result<Option<seq<Apk>>, Error> {
    if reply.status >= 400 then Failure(RequestFailed(ApksMessage(packageName, e, reply.status, reply.statusText)))
    else Success(reply.apks)
  }

  /** The requests `getApks` issues: an edit when none is given, then the listing. */
  function ListPlan(packageName: string, editId: Option<string>, created: string): seq<Call> {
    Opening(packageName, editId) + [ListApks(packageName, EditFor(editId, created))]
  }

  /** `getApks` creates an edit only when no (truthy) edit id is given, lists in exactly one edit,
      and once its requests go through fails exactly when the status is 400 or more, with the
      apks of the reply otherwise. */
  lemma {:induction false} ApksOutcome(packageName: string, editId: Option<string>, reply: ApkListReply,
                                       created: string, at: nat, rejects: set<nat>)
    ensures var plan := ListPlan(packageName, editId, created);
            && Select(plan, KCreate) == (if NeedsNewEdit(editId) then [CreateEdit(packageName)] else [])
            && Select(plan, KListApks) == [ListApks(packageName, EditFor(editId, created))]
    ensures var plan := ListPlan(packageName, editId, created);
            var r := Settle(plan, at, rejects, ApksVerdict(packageName, EditFor(editId, created), reply));
            Completes(plan, at, rejects) ==>
              && (r.Failure? <==> reply.status >= 400)
              && (r.Success? ==> r.value == reply.apks)
              && (r.Failure? ==> r.error.RequestFailed?)
  {
    var create := Opening(packageName, editId);
    var c := ListApks(packageName, EditFor(editId, created));
    SelectAppend(create, [c], KCreate);
    SelectAppend(create, [c], KListApks);
  }

  /** The builds client; it shares the publishing handle with the other clients. */
  class BuildsClient {
    const publisher: Publisher

    constructor (publisher: Publisher)
      ensures this.publisher == publisher
    {
      this.publisher := publisher;
    }

    /** `uploadBuild`: creates an edit, uploads the build to the endpoint its extension selects,
        commits unless told not to, and yields the id of the edit. */
    method UploadBuild(packageName: string, buildPath: string, options: Option<BuildUploadOptions>)
      returns (r: Result<string, Error>)
      modifies publisher
      ensures var created := EditName(old(publisher.nextEdit));
              var plan := UploadPlan(packageName, buildPath, options, created);
              && publisher.trace == old(publisher.trace) + Run(plan, |old(publisher.trace)|, publisher.rejects)
              && r == Settle(plan, |old(publisher.trace)|, publisher.rejects, Success(created))
      ensures publisher.nextEdit == old(publisher.nextEdit) + 1
    {
      ghost var t0, at, rejects := publisher.trace, |publisher.trace|, publisher.rejects;
      ghost var created := EditName(publisher.nextEdit);
      var extension := Extension(buildPath);
      var commit := CommitsEdit(options);
      ghost var create := [CreateEdit(packageName)];
      ghost var rest := UploadCalls(packageName, buildPath, created) + CommitCalls(packageName, created, commit);
      ConcatAssoc(create, UploadCalls(packageName, buildPath, created), CommitCalls(packageName, created, commit));
      var edit := publisher.OpenEdit(packageName, None);
      if edit.Failure? {
        RunHalts(create, rest, at, rejects, Success(created));
        return Failure(edit.error);
      }
      var editId := edit.value;
      PlanSucceeds(create, at, rejects, Success(created));
      r := Upload(packageName, buildPath, extension, editId, commit);
      RunThen(create, rest, at, rejects);
      SettleThen(create, rest, at, rejects, Success(created));
      ConcatAssoc(t0, create, Run(rest, at + 1, rejects));
      if r.Success? {
        r := Success(editId);
      }
    }

    /** The upload and the commit of `uploadBuild` in edit `e`. */
    method Upload(packageName: string, buildPath: string, extension: string, e: string, commit: bool)
      returns (r: Result<string, Error>)
      requires extension == Extension(buildPath)
      modifies publisher`trace
      ensures var rest := UploadCalls(packageName, buildPath, e) + CommitCalls(packageName, e, commit);
              && publisher.trace == old(publisher.trace) + Run(rest, |old(publisher.trace)|, publisher.rejects)
              && r == Settle(rest, |old(publisher.trace)|, publisher.rejects, Success(e))
    {
      ghost var t0, at, rejects := publisher.trace, |publisher.trace|, publisher.rejects;
      ghost var up := UploadCalls(packageName, buildPath, e);
      ghost var cm := CommitCalls(packageName, e, commit);
      if extension == "apk" {
        var ok := publisher.Send(UploadApk(packageName, e, buildPath));
        if !ok {
          RunStopsAt([], UploadApk(packageName, e, buildPath), cm, at, rejects, Success(e));
          return Failure(VendorRejected(UploadApk(packageName, e, buildPath)));
        }
      } else if extension == "aab" {
        var ok := publisher.Send(UploadBundle(packageName, e, buildPath));
        if !ok {
          RunStopsAt([], UploadBundle(packageName, e, buildPath), cm, at, rejects, Success(e));
          return Failure(VendorRejected(UploadBundle(packageName, e, buildPath)));
        }
      }
      assert publisher.trace == t0 + up && Completes(up, at, rejects);
      if commit {
        var ok := publisher.Send(Commit(packageName, e));
        if !ok {
          RunStopsAt(up, Commit(packageName, e), [], at, rejects, Success(e));
          ConcatNil(up + cm);
          ConcatAssoc(t0, up, cm);
          return Failure(VendorRejected(Commit(packageName, e)));
        }
        ConcatAssoc(t0, up, cm);
      } else {
        ConcatNil(up);
      }
      assert Completes(up + cm, at, rejects);
      PlanSucceeds(up + cm, at, rejects, Success(e));
      r := Success(e);
    }

    /** `getApks`: lists the APKs of the given edit, or of a new one when none is given. */
    method GetApks(packageName: string, editId: Option<string>, reply: ApkListReply)
      returns (r: Result<Option<seq<Apk>>, Error>)
      modifies publisher
      ensures var created := EditName(old(publisher.nextEdit));
              var plan := ListPlan(packageName, editId, created);
              && publisher.trace == old(publisher.trace) + Run(plan, |old(publisher.trace)|, publisher.rejects)
              && r == Settle(plan, |old(publisher.trace)|, publisher.rejects,
                             ApksVerdict(packageName, EditFor(editId, created), reply))
      ensures publisher.nextEdit == old(publisher.nextEdit) + |Opening(packageName, editId)|
    {
      ghost var at, rejects := |publisher.trace|, publisher.rejects;
      ghost var created := EditName(publisher.nextEdit);
      ghost var opening := Opening(packageName, editId);
      ghost var verdict := ApksVerdict(packageName, EditFor(editId, created), reply);
      ghost var list := ListApks(packageName, EditFor(editId, created));
      var edit := publisher.OpenEdit(packageName, editId);
      if edit.Failure? {
        RunHalts(opening, [list], at, rejects, verdict);
        return Failure(edit.error);
      }
      var e := edit.value;
      PlanSucceeds(opening, at, rejects, Success(e));
      var ok := publisher.Send(ListApks(packageName, e));
      if !ok {
        RunStopsAt(opening, list, [], at, rejects, verdict);
        ConcatNil(opening + [list]);
        return Failure(VendorRejected(ListApks(packageName, e)));
      }
      PlanSucceeds(opening + [list], at, rejects, verdict);
      if reply.status >= 400 {
        return Failure(RequestFailed(ApksMessage(packageName, e, reply.status, reply.statusText)));
      }
      r := Success(reply.apks);
    }
  }

  /** The extension of a file name is the lower-cased text after the name's first dot: "my.app.aab"
      has extension "app.aab" (no upload), "App.APK" has extension "apk". */
  lemma ExtensionOfName(stem: string, ext: string)
    requires '.' !in stem
    ensures Extension(stem + "." + ext) == Lower(ext)
  {
    ExtensionAfterFirstDot(stem + "." + ext);
    LowerAppend(stem + ".", ext);
    LowerAppend(stem, ".");
    LowerKeeps(stem, '.');
    assert Lower(".") == ".";
    AfterFirstAfter(Lower(stem), '.', Lower(ext));
  }
}
