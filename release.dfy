/** The release client: submitting a version to a track, reading a track's releases, and the
    normalisation of release notes. */
module Release {
  import opened Wrappers
  import opened Vendor

  /** A caller's release note: `{lang, text}`. */
  datatype ReleaseNote = ReleaseNote(lang: string, text: string)

  /** The three shapes `releaseNotes` may take, plus its absence. */
  datatype ReleaseNotes =
    | NoNotes
    | Plain(text: string)            // a string, implicitly English
    | Single(note: ReleaseNote)      // one object
    | Several(notes: seq<ReleaseNote>)  // an array

  /** The options of `submitForReview`; `None` stands for a property that is not set. */
  datatype SubmitOptions = SubmitOptions(
    track: Option<string>,
    editId: Option<string>,
    details: Option<Details>,
    releaseNotes: ReleaseNotes,
    listings: Option<seq<Listing>>,
    autoAttachVersionCode: Option<int>)

  const Production: string := "production"
  const English: string := "en-US"
  const Completed: string := "completed"

  /** The note a release gets when the caller supplies none. */
  function DefaultNote(versionName: string): LocalizedText {
    LocalizedText(English, "New features for " + versionName)
  }

  /** `notes.map(n => ({language: n.lang, text: n.text}))` */
  function Localize(notes: seq<ReleaseNote>): (r: seq<LocalizedText>)
    ensures |r| == |notes|
  {
    if notes == [] then [] else [LocalizedText(notes[0].lang, notes[0].text)] + Localize(notes[1..])
  }

  /** `_getReleaseNotesForVersion`: brings every shape of release notes to a list of localized texts. */
  function NormalizeNotes(notes: ReleaseNotes): (r: seq<LocalizedText>)
    ensures notes.Several? ==> |r| == |notes.notes|
    ensures !notes.Several? ==> |r| <= 1
  {
    match notes
    case NoNotes => []
    case Plain(text) => if text == "" then [] else [LocalizedText(English, text)]
    case Single(note) => [LocalizedText(note.lang, note.text)]
    case Several(ns) => Localize(ns)
  }

  /** The notes a caller means, as a list of (language, text) pairs. For no notes, a string and a
      single note this follows the same case split as `NormalizeNotes`; only for a list is it an
      independent statement (the list itself). */
  function Intended(notes: ReleaseNotes): seq<ReleaseNote> {
    match notes
    case NoNotes => []
    case Plain(text) => if text == "" then [] else [ReleaseNote(English, text)]
    case Single(note) => [note]
    case Several(ns) => ns
  }

  /** Reads localized texts back as release notes. */
  function Unlocalize(texts: seq<LocalizedText>): (r: seq<ReleaseNote>)
    ensures |r| == |texts|
  {
    if texts == [] then [] else [ReleaseNote(texts[0].language, texts[0].text)] + Unlocalize(texts[1..])
  }

  /** Normalisation keeps every note, its language and its text, in the caller's order. Beyond the
      definitions, the content of this lemma is the list case: the `map` loses and reorders nothing. */
  lemma NormalizeLosesNothing(notes: ReleaseNotes)
    ensures Unlocalize(NormalizeNotes(notes)) == Intended(notes)
  {
    if notes.Several? {
      UnlocalizeLocalize(notes.notes);
    }
  }

  lemma {:induction false} UnlocalizeLocalize(ns: seq<ReleaseNote>)
    ensures Unlocalize(Localize(ns)) == ns
  {
    if ns != [] {
      var l := Localize(ns);
      assert l[1..] == Localize(ns[1..]);
      UnlocalizeLocalize(ns[1..]);
    }
  }

  /** A release gets the default note exactly when the caller's notes are absent, "" or an empty list. */
  lemma NormalizedEmpty(notes: ReleaseNotes)
    ensures NormalizeNotes(notes) == [] <==> notes.NoNotes? || notes == Plain("") || notes == Several([])
  {
  }

  /** `options || {}`: a missing options object reads as an empty one. */
  function OptionsOrEmpty(options: Option<SubmitOptions>): SubmitOptions {
    if options.Some? then options.value else SubmitOptions(None, None, None, NoNotes, None, None)
  }

  /** The track of `{track: TrackId.PRODUCTION, ...opts}`. */
  function TrackName(track: Option<string>): string {
    if track.Some? then track.value else Production
  }

  /** `versionCodes`: a one-element list for a truthy (non-zero) code, left out otherwise. */
  function VersionCodes(code: Option<int>): Option<seq<int>> {
    if code.Some? && code.value != 0 then Some([code.value]) else None
  }

  /** The single release a submission puts on its track. */
  function TrackRelease(versionName: string, notes: seq<LocalizedText>, code: Option<int>): Release {
    Release(versionName, Completed, if |notes| > 0 then notes else [DefaultNote(versionName)], VersionCodes(code))
  }

  /** One listing patch per listing, in order, each for the listing's own language. */
  function ListingCalls(packageName: string, editId: string, listings: seq<Listing>): (r: seq<Call>)
    ensures |r| == |listings|
  {
    if listings == [] then []
    else [PatchListing(packageName, editId, listings[0].language, listings[0])]
         + ListingCalls(packageName, editId, listings[1..])
  }

  /** The `i`-th listing patch is for the `i`-th listing, in its own language. */
  lemma {:induction false} ListingCallsAt(packageName: string, editId: string, listings: seq<Listing>)
    ensures var r := ListingCalls(packageName, editId, listings);
            forall i :: 0 <= i < |listings| ==>
              r[i] == PatchListing(packageName, editId, listings[i].language, listings[i])
  {
    if listings != [] {
      ListingCallsAt(packageName, editId, listings[1..]);
    }
  }

  function ListingsOf(listings: Option<seq<Listing>>): seq<Listing> {
    if listings.Some? then listings.value else []
  }

  /** The details patch, when details are given. */
  function DetailsCalls(packageName: string, e: string, details: Option<Details>): seq<Call> {
    if details.Some? then [PatchDetails(packageName, e, details.value)] else []
  }

  /** The track patch of a submission in edit `e`. */
  function TrackCall(packageName: string, versionName: string, o: SubmitOptions, e: string): Call {
    var track := TrackName(o.track);
    PatchTrack(packageName, e, track,
               TrackBody([TrackRelease(versionName, NormalizeNotes(o.releaseNotes), o.autoAttachVersionCode)], track))
  }

  /** Everything after the details: the listings, the track patch and the commit. */
  function Closing(packageName: string, versionName: string, o: SubmitOptions, e: string): seq<Call> {
    ListingCalls(packageName, e, ListingsOf(o.listings)) + [TrackCall(packageName, versionName, o, e)] + [Commit(packageName, e)]
  }

  /** The requests `submitForReview` means to issue, `created` being the id a new edit would get.
      With no options at all it stops after the edit is created, where reading
      `options.releaseNotes` throws. */
  function SubmitPlan(packageName: string, versionName: string, options: Option<SubmitOptions>,
                      created: string): seq<Call>
  {
    var o := OptionsOrEmpty(options);
    Opening(packageName, o.editId) + AfterOpening(packageName, versionName, options, EditFor(o.editId, created))
  }

  /** The requests after the edit is opened, all in edit `e`. */
  function AfterOpening(packageName: string, versionName: string, options: Option<SubmitOptions>, e: string): seq<Call> {
    var o := OptionsOrEmpty(options);
    DetailsCalls(packageName, e, o.details) + (if options.None? then [] else Closing(packageName, versionName, o, e))
  }

  /** What `submitForReview` yields once every request has gone through. */
  function Verdict(options: Option<SubmitOptions>): Result<(), Error> {
    if options.None? then Failure(MissingOptions) else Success(())
  }

  /** What `submitForReview` resolves or rejects with. */
  function SubmitOutcome(packageName: string, versionName: string, options: Option<SubmitOptions>,
                         created: string, at: nat, rejects: set<nat>): Result<(), Error>
  {
    Settle(SubmitPlan(packageName, versionName, options, created), at, rejects, Verdict(options))
  }

  /** The position of a request in the workflow. */
  function Phase(c: Call): nat {
    match c
    case CreateEdit(_) => 0
    case PatchDetails(_, _, _) => 1
    case Commit(_, _) => 4
    case PatchTrack(_, _, _, _) => 3
    case _ => 2
  }

  predicate InPhaseOrder(calls: seq<Call>) {
    forall i, j :: 0 <= i < j < |calls| ==> Phase(calls[i]) <= Phase(calls[j])
  }

  predicate AllInPhase(calls: seq<Call>, p: nat) {
    forall i :: 0 <= i < |calls| ==> Phase(calls[i]) == p
  }

  lemma OrderedAppend(a: seq<Call>, p: nat, b: seq<Call>, q: nat)
    requires InPhaseOrder(a) && AllInPhase(b, q)
    requires forall i :: 0 <= i < |a| ==> Phase(a[i]) <= p
    requires p <= q
    ensures InPhaseOrder(a + b)
    ensures forall i :: 0 <= i < |a + b| ==> Phase((a + b)[i]) <= q
  {
  }

  /** All requests of a kind. */
  lemma SelectOnly(calls: seq<Call>, k: Kind)
    requires forall i :: 0 <= i < |calls| ==> KindOf(calls[i]) == k
    ensures Select(calls, k) == calls
  {
    if calls != [] {
      SelectOnly(calls[1..], k);
      assert calls == [calls[0]] + calls[1..];
    }
  }

  /** With no options the workflow is just the edit creation. */
  lemma SubmitWithoutOptions(packageName: string, versionName: string, created: string)
    ensures SubmitPlan(packageName, versionName, None, created) == [CreateEdit(packageName)]
    ensures forall at: nat, rejects: set<nat> ::
              SubmitOutcome(packageName, versionName, None, created, at, rejects).Failure?
  {
    assert SubmitPlan(packageName, versionName, None, created) == [CreateEdit(packageName)] + [] + [];
  }

  /** The plan in its three parts: creation, details, and (with options) the closing requests. */
  lemma SubmitPlanParts(packageName: string, versionName: string, options: Option<SubmitOptions>, created: string)
    ensures var o := OptionsOrEmpty(options);
            var e := EditFor(o.editId, created);
            SubmitPlan(packageName, versionName, options, created)
            == Opening(packageName, o.editId) + DetailsCalls(packageName, e, o.details)
               + (if options.None? then [] else Closing(packageName, versionName, o, e))
  {
  }

  /** The plan with options, in its three parts: creation, details, and the closing requests. */
  lemma PlanParts(packageName: string, versionName: string, o: SubmitOptions, created: string)
    ensures var e := EditFor(o.editId, created);
            SubmitPlan(packageName, versionName, Some(o), created)
            == Opening(packageName, o.editId) + (DetailsCalls(packageName, e, o.details) + Closing(packageName, versionName, o, e))
  {
  }

  lemma ClosingOnEdit(packageName: string, versionName: string, o: SubmitOptions, e: string)
    ensures var rest := DetailsCalls(packageName, e, o.details) + Closing(packageName, versionName, o, e);
            |rest| >= 1 && forall i :: 0 <= i < |rest| ==> !rest[i].CreateEdit? && rest[i].editId == e
  {
    ListingCallsAt(packageName, e, ListingsOf(o.listings));
  }

  /** A creation (or none) followed by requests made in edit `e`. */
  lemma {:induction false} EditDiscipline(packageName: string, create: seq<Call>, rest: seq<Call>, e: string)
    requires create == [] || create == [CreateEdit(packageName)]
    requires |rest| >= 1
    requires forall i :: 0 <= i < |rest| ==> !rest[i].CreateEdit? && rest[i].editId == e
    ensures Select(create + rest, KCreate) == create
    ensures create != [] <==> (create + rest)[0] == CreateEdit(packageName)
    ensures OnEdit(create + rest, e)
  {
    assert Select(rest, KCreate) == [];
    SelectAppend(create, rest, KCreate);
    if create == [] {
      assert create + rest == rest;
    } else {
      SelectOnly(create, KCreate);
    }
  }

  /** Edit discipline: an edit is created exactly when the caller supplies no (truthy) edit id;
      it is then the first request, and every other request runs in that one edit. */
  lemma {:induction false} SubmitEdit(packageName: string, versionName: string, o: SubmitOptions, created: string)
    ensures var plan := SubmitPlan(packageName, versionName, Some(o), created);
            && Select(plan, KCreate) == (if NeedsNewEdit(o.editId) then [CreateEdit(packageName)] else [])
            && (NeedsNewEdit(o.editId) <==> plan[0] == CreateEdit(packageName))
            && OnEdit(plan, EditFor(o.editId, created))
  {
    var e := EditFor(o.editId, created);
    PlanParts(packageName, versionName, o, created);
    ClosingOnEdit(packageName, versionName, o, e);
    EditDiscipline(packageName, Opening(packageName, o.editId),
                   DetailsCalls(packageName, e, o.details) + Closing(packageName, versionName, o, e), e);
  }

  /** A sequence of creations, details patches, listing patches, one track patch and one commit
      is in phase order. */
  lemma PhasedOrder(create: seq<Call>, details: seq<Call>, listings: seq<Call>, tc: Call, cc: Call)
    requires forall i :: 0 <= i < |create| ==> create[i].CreateEdit?
    requires forall i :: 0 <= i < |details| ==> details[i].PatchDetails?
    requires forall i :: 0 <= i < |listings| ==> listings[i].PatchListing?
    requires tc.PatchTrack? && cc.Commit?
    ensures InPhaseOrder(create + details + listings + [tc] + [cc])
  {
    OrderedAppend(create, 0, details, 1);
    OrderedAppend(create + details, 1, listings, 2);
    OrderedAppend(create + details + listings, 2, [tc], 3);
    OrderedAppend(create + details + listings + [tc], 3, [cc], 4);
  }

  /** The requests of a kind that occur in one part only are that part. */
  lemma {:induction false} SelectOwnPart(before: seq<Call>, part: seq<Call>, after: seq<Call>, k: Kind)
    requires forall i :: 0 <= i < |before| ==> KindOf(before[i]) != k
    requires forall i :: 0 <= i < |part| ==> KindOf(part[i]) == k
    requires forall i :: 0 <= i < |after| ==> KindOf(after[i]) != k
    ensures Select(before + part + after, k) == part
  {
    SelectAppend(before + part, after, k);
    SelectAppend(before, part, k);
    SelectOnly(part, k);
  }

  /** In such a sequence the details patches are found in their own part. */
  lemma {:induction false} PhasedDetails(create: seq<Call>, details: seq<Call>, listings: seq<Call>, tc: Call, cc: Call)
    requires forall i :: 0 <= i < |create| ==> create[i].CreateEdit?
    requires forall i :: 0 <= i < |details| ==> details[i].PatchDetails?
    requires forall i :: 0 <= i < |listings| ==> listings[i].PatchListing?
    requires tc.PatchTrack? && cc.Commit?
    ensures Select(create + details + listings + [tc] + [cc], KDetails) == details
  {
    ConcatAssoc(create + details, listings, [tc]);
    ConcatAssoc(create + details, listings + [tc], [cc]);
    ConcatAssoc(create, details, listings + [tc] + [cc]);
    SelectOwnPart(create, details, listings + [tc] + [cc], KDetails);
  }

  /** In such a sequence the listing patches are found in their own part. */
  lemma {:induction false} PhasedListings(create: seq<Call>, details: seq<Call>, listings: seq<Call>, tc: Call, cc: Call)
    requires forall i :: 0 <= i < |create| ==> create[i].CreateEdit?
    requires forall i :: 0 <= i < |details| ==> details[i].PatchDetails?
    requires forall i :: 0 <= i < |listings| ==> listings[i].PatchListing?
    requires tc.PatchTrack? && cc.Commit?
    ensures Select(create + details + listings + [tc] + [cc], KListing) == listings
  {
    ConcatAssoc(create + details + listings, [tc], [cc]);
    ConcatAssoc(create + details, listings, [tc] + [cc]);
    SelectOwnPart(create + details, listings, [tc] + [cc], KListing);
  }

  /** In such a sequence the track patch and the commit are found in their own parts, and the
      commit is last. */
  lemma {:induction false} PhasedClosing(create: seq<Call>, details: seq<Call>, listings: seq<Call>, tc: Call, cc: Call)
    requires forall i :: 0 <= i < |create| ==> create[i].CreateEdit?
    requires forall i :: 0 <= i < |details| ==> details[i].PatchDetails?
    requires forall i :: 0 <= i < |listings| ==> listings[i].PatchListing?
    requires tc.PatchTrack? && cc.Commit?
    ensures var plan := create + details + listings + [tc] + [cc];
            && Select(plan, KTrack) == [tc]
            && Select(plan, KCommit) == [cc]
            && plan[|plan| - 1] == cc
  {
    var plan := create + details + listings + [tc] + [cc];
    SelectOwnPart(create + details + listings, [tc], [cc], KTrack);
    ConcatNil(plan);
    SelectOwnPart(create + details + listings + [tc], [cc], [], KCommit);
  }

  /** The plan with options, in its five parts. */
  lemma PlanPhases(packageName: string, versionName: string, o: SubmitOptions, created: string)
    ensures var e := EditFor(o.editId, created);
            SubmitPlan(packageName, versionName, Some(o), created)
            == Opening(packageName, o.editId) + DetailsCalls(packageName, e, o.details)
               + ListingCalls(packageName, e, ListingsOf(o.listings))
               + [TrackCall(packageName, versionName, o, e)] + [Commit(packageName, e)]
  {
    var e := EditFor(o.editId, created);
    var a, b := Opening(packageName, o.editId), DetailsCalls(packageName, e, o.details);
    var c := ListingCalls(packageName, e, ListingsOf(o.listings));
    var t, k := [TrackCall(packageName, versionName, o, e)], [Commit(packageName, e)];
    ConcatAssoc(a, b, c + t + k);
    ConcatAssoc(a + b, c + t, k);
    ConcatAssoc(a + b, c, t);
  }

  /** Order: creation, details, listings, track patch, commit; the details patch is there exactly
      when details are given, there is one listing patch per listing in the caller's order, one
      track patch and one commit, and the commit comes last. */
  lemma {:induction false} SubmitOrder(packageName: string, versionName: string, o: SubmitOptions, created: string)
    ensures var plan := SubmitPlan(packageName, versionName, Some(o), created);
            var e := EditFor(o.editId, created);
            && plan == Opening(packageName, o.editId) + DetailsCalls(packageName, e, o.details)
                       + ListingCalls(packageName, e, ListingsOf(o.listings))
                       + [TrackCall(packageName, versionName, o, e)] + [Commit(packageName, e)]
            && InPhaseOrder(plan)
            && Select(plan, KDetails) == DetailsCalls(packageName, e, o.details)
            && Select(plan, KListing) == ListingCalls(packageName, e, ListingsOf(o.listings))
            && Select(plan, KTrack) == [TrackCall(packageName, versionName, o, e)]
            && Select(plan, KCommit) == [Commit(packageName, e)]
            && plan[|plan| - 1] == Commit(packageName, e)
  {
    var e := EditFor(o.editId, created);
    PlanPhases(packageName, versionName, o, created);
    ListingCallsAt(packageName, e, ListingsOf(o.listings));
    PhasedOrder(Opening(packageName, o.editId), DetailsCalls(packageName, e, o.details),
                ListingCalls(packageName, e, ListingsOf(o.listings)),
                TrackCall(packageName, versionName, o, e), Commit(packageName, e));
    PhasedDetails(Opening(packageName, o.editId), DetailsCalls(packageName, e, o.details),
                  ListingCalls(packageName, e, ListingsOf(o.listings)),
                  TrackCall(packageName, versionName, o, e), Commit(packageName, e));
    PhasedListings(Opening(packageName, o.editId), DetailsCalls(packageName, e, o.details),
                   ListingCalls(packageName, e, ListingsOf(o.listings)),
                   TrackCall(packageName, versionName, o, e), Commit(packageName, e));
    PhasedClosing(Opening(packageName, o.editId), DetailsCalls(packageName, e, o.details),
                  ListingCalls(packageName, e, ListingsOf(o.listings)),
                  TrackCall(packageName, versionName, o, e), Commit(packageName, e));
  }

  /** The track patch carries exactly one release: the version name, status "completed", the
      normalised notes or, when there are none, the default note, and a version code only when
      the caller's code is truthy; the track is the caller's or production. */
  lemma SubmitTrackPayload(packageName: string, versionName: string, o: SubmitOptions, created: string)
    ensures var c := TrackCall(packageName, versionName, o, EditFor(o.editId, created));
            var notes := NormalizeNotes(o.releaseNotes);
            var release := c.body.releases[0];
            && c.track == (if o.track.Some? then o.track.value else "production")
            && c.body.track == c.track
            && |c.body.releases| == 1
            && release.name == versionName
            && release.status == "completed"
            && release.releaseNotes == (if notes != [] then notes
                                        else [LocalizedText("en-US", "New features for " + versionName)])
            && (release.versionCodes.Some? <==> o.autoAttachVersionCode.Some? && o.autoAttachVersionCode.value != 0)
            && (release.versionCodes.Some? ==> release.versionCodes.value == [o.autoAttachVersionCode.value])
  {
  }

  /** A run that reaches a plan's only commit, standing last, is the whole plan. */
  lemma {:induction false} RunToLast(front: seq<Call>, last: Call, at: nat, rejects: set<nat>)
    requires Select(front, KCommit) == []
    ensures var issued := Run(front + [last], at, rejects);
            Select(issued, KCommit) != [] ==> issued == front + [last] && Completes(front, at, rejects)
  {
    var plan := front + [last];
    var issued := Run(plan, at, rejects);
    RunIsPrefix(plan, at, rejects);
    RunOutcome(plan, at, rejects);
    if Select(issued, KCommit) != [] && |issued| < |plan| {
      assert issued == front[..|issued|];
      PrefixSelect(front, |issued|, KCommit);
    }
    if Select(issued, KCommit) != [] {
      assert issued == plan;
      assert plan[..|plan| - 1] == front;
      if !Completes(plan, at, rejects) {
        RunEndsAtRejection(plan, at, rejects);
      } else {
        CompletesAppend(front, [last], at, rejects);
      }
    }
  }

  /** No commit is issued unless every request before it went through; requests issued before a
      rejection stay issued (the run is a prefix of the plan). */
  lemma {:induction false} SubmitCommitsOnlyAfterSuccess(packageName: string, versionName: string, options: Option<SubmitOptions>,
                                      created: string, at: nat, rejects: set<nat>)
    ensures var plan := SubmitPlan(packageName, versionName, options, created);
            Select(Run(plan, at, rejects), KCommit) != [] ==>
              options.Some? && Run(plan, at, rejects) == plan && Completes(plan[..|plan| - 1], at, rejects)
  {
    var plan := SubmitPlan(packageName, versionName, options, created);
    if options.None? {
      SubmitWithoutOptions(packageName, versionName, created);
      PrefixSelect(plan, |Run(plan, at, rejects)|, KCommit);
    } else {
      var o := options.value;
      var e := EditFor(o.editId, created);
      PlanPhases(packageName, versionName, o, created);
      var front := Opening(packageName, o.editId) + DetailsCalls(packageName, e, o.details)
                   + ListingCalls(packageName, e, ListingsOf(o.listings)) + [TrackCall(packageName, versionName, o, e)];
      FrontHasNoCommit(packageName, versionName, o, e);
      RunToLast(front, Commit(packageName, e), at, rejects);
      assert plan[..|plan| - 1] == front;
    }
  }

  /** A prefix holds no more requests of a kind than the whole. */
  lemma PrefixSelect(calls: seq<Call>, n: nat, k: Kind)
    requires n <= |calls|
    ensures Select(calls, k) == [] ==> Select(calls[..n], k) == []
  {
    assert calls == calls[..n] + calls[n..];
    SelectAppend(calls[..n], calls[n..], k);
  }

  lemma FrontHasNoCommit(packageName: string, versionName: string, o: SubmitOptions, e: string)
    ensures Select(Opening(packageName, o.editId) + DetailsCalls(packageName, e, o.details)
                   + ListingCalls(packageName, e, ListingsOf(o.listings)) + [TrackCall(packageName, versionName, o, e)],
                   KCommit) == []
  {
    ListingCallsAt(packageName, e, ListingsOf(o.listings));
    var front := Opening(packageName, o.editId) + DetailsCalls(packageName, e, o.details)
                 + ListingCalls(packageName, e, ListingsOf(o.listings)) + [TrackCall(packageName, versionName, o, e)];
    assert forall i :: 0 <= i < |front| ==> KindOf(front[i]) != KCommit;
  }

  /** The release client; it shares the publishing handle with the other clients. */
  class ReleaseClient {
    const publisher: Publisher

    constructor (publisher: Publisher)
      ensures this.publisher == publisher
    {
      this.publisher := publisher;
    }

    /** `submitForReview`: works through `SubmitPlan` request by request and stops at the first
        rejected request. */
    method SubmitForReview(packageName: string, versionName: string, options: Option<SubmitOptions>)
      returns (r: Result<(), Error>)
      modifies publisher
      ensures var created := EditName(old(publisher.nextEdit));
              publisher.trace == old(publisher.trace)
                + Run(SubmitPlan(packageName, versionName, options, created), |old(publisher.trace)|, publisher.rejects)
              && r == SubmitOutcome(packageName, versionName, options, created, |old(publisher.trace)|, publisher.rejects)
      ensures publisher.nextEdit == old(publisher.nextEdit) + |Opening(packageName, OptionsOrEmpty(options).editId)|
    {
      ghost var at, rejects := |publisher.trace|, publisher.rejects;
      ghost var created := EditName(publisher.nextEdit);
      var opts := OptionsOrEmpty(options);
      ghost var opening := Opening(packageName, opts.editId);
      ghost var rest := AfterOpening(packageName, versionName, options, EditFor(opts.editId, created));
      var edit := publisher.OpenEdit(packageName, opts.editId);
      if edit.Failure? {
        RunHalts(opening, rest, at, rejects, Verdict(options));
        return Failure(edit.error);
      }
      PlanSucceeds(opening, at, rejects, Success(EditFor(opts.editId, created)));
      r := Proceed(packageName, versionName, options, edit.value);
      RunThen(opening, rest, at, rejects);
      SettleThen(opening, rest, at, rejects, Verdict(options));
      ConcatAssoc(old(publisher.trace), opening, Run(rest, at + |opening|, rejects));
    }

    /** The requests of a submission after its edit `e` is open: the details, then (with options)
        the listings, the track patch and the commit. */
    method Proceed(packageName: string, versionName: string, options: Option<SubmitOptions>, e: string)
      returns (r: Result<(), Error>)
      modifies publisher`trace
      ensures var rest := AfterOpening(packageName, versionName, options, e);
              publisher.trace == old(publisher.trace) + Run(rest, |old(publisher.trace)|, publisher.rejects)
              && r == Settle(rest, |old(publisher.trace)|, publisher.rejects, Verdict(options))
    {
      ghost var t0, at, rejects := publisher.trace, |publisher.trace|, publisher.rejects;
      var opts := OptionsOrEmpty(options);
      var details := DetailsCalls(packageName, e, opts.details);
      ghost var closing := if options.None? then [] else Closing(packageName, versionName, opts, e);
      r := publisher.SendAll(details);
      if r.Failure? {
        RunHalts(details, closing, at, rejects, Verdict(options));
        return;
      }
      PlanSucceeds(details, at, rejects, Success(()));
      if options.None? {
        ConcatNil(details);
        PlanSucceeds(details, at, rejects, Verdict(options));
        return Failure(MissingOptions);
      }
      r := Finish(packageName, versionName, opts, e);
      RunThen(details, closing, at, rejects);
      SettleThen(details, closing, at, rejects, Verdict(options));
      ConcatAssoc(t0, details, Run(closing, at + |details|, rejects));
    }

    /** The listings, the track patch and the commit of a submission in edit `e`. */
    method Finish(packageName: string, versionName: string, o: SubmitOptions, e: string)
      returns (r: Result<(), Error>)
      modifies publisher`trace
      ensures publisher.trace == old(publisher.trace)
                + Run(Closing(packageName, versionName, o, e), |old(publisher.trace)|, publisher.rejects)
      ensures r == Settle(Closing(packageName, versionName, o, e), |old(publisher.trace)|, publisher.rejects, Success(()))
      ensures r.Success? <==> Completes(Closing(packageName, versionName, o, e), |old(publisher.trace)|, publisher.rejects)
    {
      ghost var t0, at, rejects := publisher.trace, |publisher.trace|, publisher.rejects;
      var listings := ListingCalls(packageName, e, ListingsOf(o.listings));
      var trackCall := TrackCall(packageName, versionName, o, e);
      var commitCall := Commit(packageName, e);
      ghost var closing := Closing(packageName, versionName, o, e);
      r := publisher.SendAll(listings);
      if r.Failure? {
        ConcatAssoc(listings, [trackCall], [commitCall]);
        RunHalts(listings, [trackCall] + [commitCall], at, rejects, Success(()));
        return;
      }
      PlanSucceeds(listings, at, rejects, Success(()));
      var ok := publisher.Send(trackCall);
      if !ok {
        RunStopsAt(listings, trackCall, [commitCall], at, rejects, Success(()));
        return Failure(VendorRejected(trackCall));
      }
      ghost var done := listings + [trackCall];
      ConcatAssoc(t0, listings, [trackCall]);
      ok := publisher.Send(commitCall);
      if !ok {
        ConcatNil(closing);
        RunStopsAt(done, commitCall, [], at, rejects, Success(()));
        return Failure(VendorRejected(commitCall));
      }
      ConcatAssoc(t0, done, [commitCall]);
      assert Completes(closing, at, rejects);
      PlanSucceeds(closing, at, rejects, Success(()));
      r := Success(());
    }

    /** `getReleases`: the releases of a track, read in the given edit or in a new one. `reply` is
        what the vendor answers for `response.data.releases`. */
    method GetReleases(packageName: string, trackId: string, editId: Option<string>, reply: Option<seq<Release>>)
      returns (r: Result<Option<seq<Release>>, Error>)
      modifies publisher
      ensures var created := EditName(old(publisher.nextEdit));
              var plan := ReadPlan(packageName, trackId, editId, created);
              publisher.trace == old(publisher.trace) + Run(plan, |old(publisher.trace)|, publisher.rejects)
              && r == Settle(plan, |old(publisher.trace)|, publisher.rejects, Success(reply))
      ensures publisher.nextEdit == old(publisher.nextEdit) + |Opening(packageName, editId)|
    {
      ghost var at, rejects := |publisher.trace|, publisher.rejects;
      ghost var created := EditName(publisher.nextEdit);
      ghost var opening := Opening(packageName, editId);
      ghost var read := GetTrack(packageName, EditFor(editId, created), trackId);
      var edit := publisher.OpenEdit(packageName, editId);
      if edit.Failure? {
        RunHalts(opening, [read], at, rejects, Success(reply));
        return Failure(edit.error);
      }
      PlanSucceeds(opening, at, rejects, Success(EditFor(editId, created)));
      var c := GetTrack(packageName, edit.value, trackId);
      var ok := publisher.Send(c);
      if !ok {
        RunStopsAt(opening, c, [], at, rejects, Success(reply));
        ConcatNil(opening + [c]);
        return Failure(VendorRejected(c));
      }
      PlanSucceeds(opening + [c], at, rejects, Success(reply));
      r := Success(reply);
    }
  }

  /** The requests `getReleases` issues: an edit when none is given, then the track read. */
  function ReadPlan(packageName: string, trackId: string, editId: Option<string>, created: string): (plan: seq<Call>)
    ensures plan != [] && plan[|plan| - 1] == GetTrack(packageName, EditFor(editId, created), trackId)
  {
    Opening(packageName, editId) + [GetTrack(packageName, EditFor(editId, created), trackId)]
  }

  /** `getReleases` creates an edit only when no edit id is given, and reads in exactly one edit. */
  lemma GetReleasesEdit(packageName: string, trackId: string, editId: Option<string>, created: string)
    ensures var plan := ReadPlan(packageName, trackId, editId, created);
            && |Select(plan, KCreate)| == (if NeedsNewEdit(editId) then 1 else 0)
            && Select(plan, KGetTrack) == [GetTrack(packageName, EditFor(editId, created), trackId)]
            && |plan| == |Select(plan, KCreate)| + 1
  {
    var create := if NeedsNewEdit(editId) then [CreateEdit(packageName)] else [];
    var c := GetTrack(packageName, EditFor(editId, created), trackId);
    SelectAppend(create, [c], KCreate);
    SelectAppend(create, [c], KGetTrack);
  }

  /** The scenario of a production submission without notes: the default English note and no
      version codes in the payload. */
  lemma SubmitWithoutNotes()
    ensures var plan := SubmitPlan("com.example.app", "2.1.0",
                                   Some(SubmitOptions(Some("production"), None, None, NoNotes, None, None)), "e1");
            plan == [CreateEdit("com.example.app"),
                     PatchTrack("com.example.app", "e1", "production",
                                TrackBody([Release("2.1.0", "completed",
                                                   [LocalizedText("en-US", "New features for 2.1.0")], None)],
                                          "production")),
                     Commit("com.example.app", "e1")]
  {
    var note := "New features for " + "2.1.0";
    assert note == "New features for 2.1.0";
  }
}
