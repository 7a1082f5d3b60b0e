/** The testers client: adding a build to a testing group is a release submission to the track
    named after the group. */
module Testers {
  import opened Wrappers
  import opened Vendor
  import opened Release

  /** The options `addBuildToTestingGroup` hands to the release client: the group as the track
      and the build's version code; no edit id, details, notes or listings. */
  function GroupOptions(versionCode: int, groupName: string): SubmitOptions {
    SubmitOptions(Some(groupName), None, None, NoNotes, None, Some(versionCode))
  }

  /** The requests of adding a build: a new edit, one track patch on the group's track carrying
      one completed release with the default note and the version code (left out when it is 0),
      then the commit. */
  lemma {:induction false} GroupPlan(packageName: string, versionCode: int, versionName: string,
                                     groupName: string, created: string)
    ensures SubmitPlan(packageName, versionName, Some(GroupOptions(versionCode, groupName)), created)
            == [CreateEdit(packageName),
                PatchTrack(packageName, created, groupName,
                           TrackBody([Release(versionName, "completed",
                                              [LocalizedText("en-US", "New features for " + versionName)],
                                              if versionCode != 0 then Some([versionCode]) else None)],
                                     groupName)),
                Commit(packageName, created)]
  {
    var o := GroupOptions(versionCode, groupName);
    assert Closing(packageName, versionName, o, created)
           == [] + [TrackCall(packageName, versionName, o, created)] + [Commit(packageName, created)];
    assert AfterOpening(packageName, versionName, Some(o), created)
           == [] + Closing(packageName, versionName, o, created);
  }

  /** The group's submission creates its own edit, runs every request in it and commits last. */
  lemma GroupEdit(packageName: string, versionCode: int, versionName: string, groupName: string, created: string)
    ensures var plan := SubmitPlan(packageName, versionName, Some(GroupOptions(versionCode, groupName)), created);
            && Select(plan, KCreate) == [CreateEdit(packageName)]
            && OnEdit(plan, created)
            && Select(plan, KTrack) == [plan[1]] && plan[1].track == groupName
            && plan[|plan| - 1] == Commit(packageName, created)
  {
    var o := GroupOptions(versionCode, groupName);
    GroupPlan(packageName, versionCode, versionName, groupName, created);
    SubmitEdit(packageName, versionName, o, created);
    SubmitOrder(packageName, versionName, o, created);
  }

  /** The testers client; it works through the release client. */
  class TestersClient {
    const releaseClient: ReleaseClient

    constructor (releaseClient: ReleaseClient)
      ensures this.releaseClient == releaseClient
    {
      this.releaseClient := releaseClient;
    }

    /** `addBuildToTestingGroup`: one submission of `versionName` for the package, with the
        group as the track and the version code attached. */
    method AddBuildToTestingGroup(packageName: string, versionCode: int, versionName: string, groupName: string)
      returns (r: Result<(), Error>)
      modifies releaseClient.publisher
      ensures var created := EditName(old(releaseClient.publisher.nextEdit));
              var at := |old(releaseClient.publisher.trace)|;
              var rejects := releaseClient.publisher.rejects;
              var plan := SubmitPlan(packageName, versionName, Some(GroupOptions(versionCode, groupName)), created);
              && releaseClient.publisher.trace == old(releaseClient.publisher.trace) + Run(plan, at, rejects)
              && r == SubmitOutcome(packageName, versionName, Some(GroupOptions(versionCode, groupName)),
                                    created, at, rejects)
              && r == Settle(plan, at, rejects, Success(()))
      ensures releaseClient.publisher.nextEdit == old(releaseClient.publisher.nextEdit) + 1
    {
      r := releaseClient.SubmitForReview(packageName, versionName, Some(GroupOptions(versionCode, groupName)));
    }
  }
}
