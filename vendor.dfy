/** The publishing API as seen by the clients: every vendor request is an event appended to a
    trace. The vendor may reject any request (the request is then still in the trace, and the
    client's promise rejects); there is no rollback of earlier requests. */
module Vendor {
  import opened Wrappers
  import Decimal

  /** App-level details (contact e-mail, website, ...), passed to the vendor unchanged. */
  datatype Details = Details(fields: map<string, string>)

  /** A store listing for one language, passed to the vendor unchanged as the request body. */
  datatype Listing = Listing(language: string, fields: map<string, string>)

  datatype LocalizedText = LocalizedText(language: string, text: string)

  /** One release of a track. `versionCodes` is `None` when the field is left out of the payload. */
  datatype Release = Release(name: string, status: string, releaseNotes: seq<LocalizedText>,
                             versionCodes: Option<seq<int>>)

  /** The request body of a track patch. */
  datatype TrackBody = TrackBody(releases: seq<Release>, track: string)

  /** One request to the vendor. */
  datatype Call =
    | CreateEdit(packageName: string)
    | PatchDetails(packageName: string, editId: string, details: Details)
    | PatchListing(packageName: string, editId: string, language: string, listing: Listing)
    | PatchTrack(packageName: string, editId: string, track: string, body: TrackBody)
    | UploadApk(packageName: string, editId: string, path: string)
    | UploadBundle(packageName: string, editId: string, path: string)
    | ListApks(packageName: string, editId: string)
    | GetTrack(packageName: string, editId: string, track: string)
    | Commit(packageName: string, editId: string)

  /** Why an operation's promise rejects. */
  datatype Error =
    | VendorRejected(call: Call)      // the vendor refused this request
    | MissingOptions                  // a property of `undefined` options was read
    | RequestFailed(message: string)  // an error the client raises itself

  /** The id the vendor hands out for the n-th edit it creates. */
  function EditName(n: nat): (id: string)
    ensures id != ""
  {
    "edit-" + Decimal.Format(n)
  }

  /** Edits created at different counter values have different ids, so an operation that advances
      the counter never hands a later operation its edit. */
  lemma EditNameInjective(m: nat, n: nat)
    ensures EditName(m) == EditName(n) <==> m == n
  {
    if EditName(m) == EditName(n) {
      assert Decimal.Format(m) == EditName(m)[5..] == EditName(n)[5..] == Decimal.Format(n);
      Decimal.ValueOfFormat(m);
      Decimal.ValueOfFormat(n);
    }
  }

  /** A caller-supplied edit id is used only when it is truthy, i.e. present and not "". */
  predicate NeedsNewEdit(editId: Option<string>) {
    editId.None? || editId.value == ""
  }

  /** The edit every request of an operation runs in. */
  function EditFor(editId: Option<string>, created: string): string {
    if NeedsNewEdit(editId) then created else editId.value
  }

  /** No request of `plan`, issued from ordinal `at` on, is rejected. */
  predicate Completes(plan: seq<Call>, at: nat, rejects: set<nat>) {
    forall k :: at <= k < at + |plan| ==> k !in rejects
  }

  /** The requests actually issued when a client works through `plan`, the first one going out
      as request number `at`: it stops right after the first request the vendor rejects. */
  function Run(plan: seq<Call>, at: nat, rejects: set<nat>): (issued: seq<Call>)
    ensures |issued| <= |plan|
    decreases |plan|
  {
    if plan == [] then []
    else if at in rejects then [plan[0]]
    else [plan[0]] + Run(plan[1..], at + 1, rejects)
  }

  /** A run that meets no rejection issues the whole plan; one that does issues something. */
  lemma {:induction false} RunOutcome(plan: seq<Call>, at: nat, rejects: set<nat>)
    ensures Completes(plan, at, rejects) ==> Run(plan, at, rejects) == plan
    ensures !Completes(plan, at, rejects) ==> Run(plan, at, rejects) != []
    decreases |plan|
  {
    if plan != [] && at !in rejects {
      assert Completes(plan, at, rejects) <==> Completes(plan[1..], at + 1, rejects);
      RunOutcome(plan[1..], at + 1, rejects);
      assert [plan[0]] + plan[1..] == plan;
    }
  }

  /** One step of a run. */
  lemma RunStep(plan: seq<Call>, at: nat, rejects: set<nat>)
    requires plan != [] && at !in rejects
    ensures Run(plan, at, rejects) == [plan[0]] + Run(plan[1..], at + 1, rejects)
  {
  }

  /** The requests issued are the first ones of the plan. */
  lemma {:induction false} RunIsPrefix(plan: seq<Call>, at: nat, rejects: set<nat>)
    ensures Run(plan, at, rejects) == plan[..|Run(plan, at, rejects)|]
    decreases |plan|
  {
    if plan != [] && at !in rejects {
      RunIsPrefix(plan[1..], at + 1, rejects);
      var rest := Run(plan[1..], at + 1, rejects);
      assert plan[..1 + |rest|] == [plan[0]] + plan[1..][..|rest|];
    }
  }

  /** A run that does not complete ends with the first rejected request: the last request
      issued is rejected and every one before it went through. */
  lemma {:induction false} RunEndsAtRejection(plan: seq<Call>, at: nat, rejects: set<nat>)
    requires !Completes(plan, at, rejects)
    ensures var issued := Run(plan, at, rejects);
            at + |issued| - 1 in rejects && Completes(issued[..|issued| - 1], at, rejects)
    decreases |plan|
  {
    if at !in rejects {
      assert Completes(plan, at, rejects) <==> Completes(plan[1..], at + 1, rejects);
      RunEndsAtRejection(plan[1..], at + 1, rejects);
      var rest := Run(plan[1..], at + 1, rejects);
      assert ([plan[0]] + rest)[..|rest|] == [plan[0]] + rest[..|rest| - 1];
    }
  }

  /** The result of an operation that works through `plan` and then yields `value`: the first
      rejected request's error if there is one. */
  function Settle<T>(plan: seq<Call>, at: nat, rejects: set<nat>, value: Result<T, Error>): Result<T, Error> {
    if Completes(plan, at, rejects) then value
    else
      var issued := Run(plan, at, rejects);
      RunOutcome(plan, at, rejects);
      Failure(VendorRejected(issued[|issued| - 1]))
  }

  /** When every request before `c` goes through and `c` is rejected, the run ends with `c`. */
  lemma {:induction false} RunStopsAt<T>(done: seq<Call>, c: Call, rest: seq<Call>, at: nat, rejects: set<nat>, value: Result<T, Error>)
    requires Completes(done, at, rejects) && at + |done| in rejects
    ensures Run(done + [c] + rest, at, rejects) == done + [c]
    ensures Settle(done + [c] + rest, at, rejects, value) == Failure(VendorRejected(c))
    decreases |done|
  {
    var plan := done + [c] + rest;
    if done == [] {
      assert plan[0] == c;
    } else {
      assert at !in rejects;
      assert plan[1..] == done[1..] + [c] + rest;
      RunStopsAt(done[1..], c, rest, at + 1, rejects, value);
    }
    assert !Completes(plan, at, rejects);
  }

  /** A plan in two parts goes through when both parts do. */
  lemma CompletesAppend(done: seq<Call>, rest: seq<Call>, at: nat, rejects: set<nat>)
    ensures Completes(done + rest, at, rejects) == (Completes(done, at, rejects) && Completes(rest, at + |done|, rejects))
  {
  }

  /** Once the requests in `done` have gone through, the run goes on with the rest. */
  lemma {:induction false} RunThen(done: seq<Call>, rest: seq<Call>, at: nat, rejects: set<nat>)
    requires Completes(done, at, rejects)
    ensures Run(done + rest, at, rejects) == done + Run(rest, at + |done|, rejects)
    decreases |done|
  {
    if done == [] {
      assert done + rest == rest;
    } else {
      var plan := done + rest;
      assert at !in rejects;
      RunStep(plan, at, rejects);
      assert plan[0] == done[0] && plan[1..] == done[1..] + rest;
      assert Completes(done[1..], at + 1, rejects);
      RunThen(done[1..], rest, at + 1, rejects);
      var tail := Run(rest, at + |done|, rejects);
      assert [done[0]] + (done[1..] + tail) == done + tail;
    }
  }

  /** ... and its outcome is that of the rest. */
  lemma SettleThen<T>(done: seq<Call>, rest: seq<Call>, at: nat, rejects: set<nat>, value: Result<T, Error>)
    requires Completes(done, at, rejects)
    ensures Settle(done + rest, at, rejects, value) == Settle(rest, at + |done|, rejects, value)
  {
    CompletesAppend(done, rest, at, rejects);
    RunThen(done, rest, at, rejects);
    var tail := Run(rest, at + |done|, rejects);
    if !Completes(rest, at + |done|, rejects) {
      assert (done + tail)[|done + tail| - 1] == tail[|tail| - 1];
    }
  }

  /** Once a request in `done` is rejected, nothing after `done` is issued. */
  lemma {:induction false} RunHalts<T>(done: seq<Call>, rest: seq<Call>, at: nat, rejects: set<nat>, value: Result<T, Error>)
    requires !Completes(done, at, rejects)
    ensures Run(done + rest, at, rejects) == Run(done, at, rejects)
    ensures !Completes(done + rest, at, rejects)
    ensures Settle(done + rest, at, rejects, value) == Settle(done, at, rejects, value)
    decreases |done|
  {
    assert (done + rest)[0] == done[0];
    if at !in rejects {
      assert (done + rest)[1..] == done[1..] + rest;
      RunHalts(done[1..], rest, at + 1, rejects, value);
    }
  }

  /** A part of a plan that some rejection stops: the run of the whole plan ends in that part,
      with that part's error. */
  lemma StepFails<T>(done: seq<Call>, part: seq<Call>, rest: seq<Call>, at: nat, rejects: set<nat>, value: Result<T, Error>)
    requires Completes(done, at, rejects) && !Completes(part, at + |done|, rejects)
    ensures Run(done + part + rest, at, rejects) == done + Run(part, at + |done|, rejects)
    ensures Settle(done + part + rest, at, rejects, value)
            == Failure(Settle(part, at + |done|, rejects, Success(())).error)
  {
    assert done + part + rest == done + (part + rest);
    RunThen(done, part + rest, at, rejects);
    SettleThen(done, part + rest, at, rejects, value);
    RunHalts(part, rest, at + |done|, rejects, value);
  }

  /** A part of a plan that goes through: it is issued whole. */
  lemma StepSucceeds(done: seq<Call>, part: seq<Call>, at: nat, rejects: set<nat>)
    requires Completes(done, at, rejects) && Completes(part, at + |done|, rejects)
    ensures Completes(done + part, at, rejects) && Run(part, at + |done|, rejects) == part
  {
    CompletesAppend(done, part, at, rejects);
    RunOutcome(part, at + |done|, rejects);
  }

  /** A plan that goes through is issued whole and yields its value. */
  lemma PlanSucceeds<T>(plan: seq<Call>, at: nat, rejects: set<nat>, value: Result<T, Error>)
    requires Completes(plan, at, rejects)
    ensures Run(plan, at, rejects) == plan && Settle(plan, at, rejects, value) == value
  {
    RunOutcome(plan, at, rejects);
  }

  /** Concatenation of request lists regroups freely. */
  lemma ConcatAssoc(a: seq<Call>, b: seq<Call>, c: seq<Call>)
    ensures a + b + c == a + (b + c)
  {
  }

  lemma ConcatNil(a: seq<Call>)
    ensures a + [] == a
  {
  }

  /** The edit creation, when the caller gave no (truthy) edit id. */
  function Opening(packageName: string, editId: Option<string>): seq<Call> {
    if NeedsNewEdit(editId) then [CreateEdit(packageName)] else []
  }

  /** The kind of a request, for picking requests of one kind out of a trace. */
  datatype Kind = KCreate | KDetails | KListing | KTrack | KApk | KBundle | KListApks | KGetTrack | KCommit

  function KindOf(c: Call): Kind {
    match c
    case CreateEdit(_) => KCreate
    case PatchDetails(_, _, _) => KDetails
    case PatchListing(_, _, _, _) => KListing
    case PatchTrack(_, _, _, _) => KTrack
    case UploadApk(_, _, _) => KApk
    case UploadBundle(_, _, _) => KBundle
    case ListApks(_, _) => KListApks
    case GetTrack(_, _, _) => KGetTrack
    case Commit(_, _) => KCommit
  }

  /** The requests of kind `k` in `calls`, in order. */
  function Select(calls: seq<Call>, k: Kind): (r: seq<Call>)
    ensures |r| <= |calls|
    ensures forall i :: 0 <= i < |r| ==> KindOf(r[i]) == k
    ensures (forall i :: 0 <= i < |calls| ==> KindOf(calls[i]) != k) ==> r == []
  {
    if calls == [] then []
    else (if KindOf(calls[0]) == k then [calls[0]] else []) + Select(calls[1..], k)
  }

  lemma {:induction false} SelectAppend(a: seq<Call>, b: seq<Call>, k: Kind)
    ensures Select(a + b, k) == Select(a, k) + Select(b, k)
  {
    if a != [] {
      var h := if KindOf(a[0]) == k then [a[0]] else [];
      assert (a + b)[0] == a[0] && (a + b)[1..] == a[1..] + b;
      SelectAppend(a[1..], b, k);
      assert Select(a + b, k) == h + Select(a[1..] + b, k);
      assert Select(a, k) == h + Select(a[1..], k);
      assert h + (Select(a[1..], k) + Select(b, k)) == (h + Select(a[1..], k)) + Select(b, k);
    } else {
      assert a + b == b;
    }
  }

  /** Every request in `calls` other than an edit creation runs in edit `e`. */
  predicate OnEdit(calls: seq<Call>, e: string) {
    forall i :: 0 <= i < |calls| ==> calls[i].CreateEdit? || calls[i].editId == e
  }

  /** The vendor-facing handle: the trace of requests issued so far and the number of edits created. */
  class Publisher {
    var trace: seq<Call>
    var nextEdit: nat
    /** The ordinals (positions in the trace) of the requests the vendor rejects. */
    const rejects: set<nat>

    constructor (rejects: set<nat>)
      ensures trace == [] && nextEdit == 0 && this.rejects == rejects
    {
      trace := [];
      nextEdit := 0;
      this.rejects := rejects;
    }

    /** Issues one request; `ok` is false when the vendor rejects it. */
    method Send(c: Call) returns (ok: bool)
      modifies this`trace
      ensures trace == old(trace) + [c]
      ensures ok == (|old(trace)| !in rejects)
    {
      ok := |trace| !in rejects;
      trace := trace + [c];
    }

    /** `edits.insert`: opens a new edit and returns its id, `None` when the vendor rejects it. */
    method InsertEdit(packageName: string) returns (id: Option<string>)
      modifies this
      ensures trace == old(trace) + [CreateEdit(packageName)]
      ensures nextEdit == old(nextEdit) + 1
      ensures id == if |old(trace)| in rejects then None else Some(EditName(old(nextEdit)))
    {
      var ok := Send(CreateEdit(packageName));
      id := if ok then Some(EditName(nextEdit)) else None;
      nextEdit := nextEdit + 1;
    }

    /** Issues `calls` one after the other, stopping at the first one the vendor rejects. */
    method SendAll(calls: seq<Call>) returns (r: Result<(), Error>)
      modifies this`trace
      ensures trace == old(trace) + Run(calls, |old(trace)|, rejects)
      ensures r == Settle(calls, |old(trace)|, rejects, Success(()))
      ensures r.Success? <==> Completes(calls, |old(trace)|, rejects)
    {
      ghost var at := |trace|;
      var i := 0;
      while i < |calls|
        invariant 0 <= i <= |calls|
        invariant trace == old(trace) + calls[..i]
        invariant Completes(calls[..i], at, rejects)
      {
        var ok := Send(calls[i]);
        if !ok {
          assert calls == calls[..i] + [calls[i]] + calls[i + 1..];
          RunStopsAt(calls[..i], calls[i], calls[i + 1..], at, rejects, Success(()));
          return Failure(VendorRejected(calls[i]));
        }
        assert calls[..i + 1] == calls[..i] + [calls[i]];
        i := i + 1;
      }
      assert calls[..i] == calls;
      PlanSucceeds(calls, at, rejects, Success(()));
      r := Success(());
    }

    /** Opens an edit unless the caller gave one: the id the later requests use. */
    method OpenEdit(packageName: string, editId: Option<string>) returns (r: Result<string, Error>)
      modifies this
      ensures var opening := Opening(packageName, editId);
              && trace == old(trace) + Run(opening, |old(trace)|, rejects)
              && nextEdit == old(nextEdit) + |opening|
              && r == Settle(opening, |old(trace)|, rejects, Success(EditFor(editId, EditName(old(nextEdit)))))
              && (r.Success? <==> Completes(opening, |old(trace)|, rejects))
    {
      if NeedsNewEdit(editId) {
        var id := InsertEdit(packageName);
        if id.None? {
          RunStopsAt([], CreateEdit(packageName), [], |old(trace)|, rejects, Success(EditName(old(nextEdit))));
          return Failure(VendorRejected(CreateEdit(packageName)));
        }
        PlanSucceeds([CreateEdit(packageName)], |old(trace)|, rejects, Success(id.value));
        r := Success(id.value);
      } else {
        r := Success(editId.value);
      }
    }
  }
}
