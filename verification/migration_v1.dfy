/**
 * The first migration driver: for every active public repository whose
 * default branch is still `master`, copy `master` to a new `main` ref,
 * carry a normalised form of `master`'s protection over to `main`, lock
 * `master`, and make `main` the default branch with the preferred merge
 * settings. Every stage waits for the previous one and the first failure
 * ends the whole run.
 */
module MigrationV1 {
  import opened Wrappers
  import opened Github
  import opened GithubApi
  import opened Client

  const Master := "master"
  const Main := "main"

  // ---------------------------------------------------------------------
  // The protection and settings written by the pipeline.
  // ---------------------------------------------------------------------

  /** The logins of a user list, or none when the list is absent. */
  function Logins(users: Option<seq<User>>): (logins: seq<string>)
    ensures users.None? ==> logins == []
    ensures users.Some? ==>
      |logins| == |users.value| && forall i :: 0 <= i < |logins| ==> logins[i] == users.value[i].login
    decreases if users.Some? then |users.value| else 0
  {
    match users
    case None => []
    case Some(us) => if us == [] then [] else [us[0].login] + Logins(Some(us[1..]))
  }

  /** The names (not the slugs) of a team list, or none when the list is absent. */
  function TeamNames(teams: Option<seq<Team>>): (names: seq<string>)
    ensures teams.None? ==> names == []
    ensures teams.Some? ==>
      |names| == |teams.value| && forall i :: 0 <= i < |names| ==> names[i] == teams.value[i].name
    decreases if teams.Some? then |teams.value| else 0
  {
    match teams
    case None => []
    case Some(ts) => if ts == [] then [] else [ts[0].name] + TeamNames(Some(ts[1..]))
  }

  /** The required status-check contexts of a protection, when it has any. */
  function StatusContexts(prot: Protection): Option<seq<string>> {
    match prot.requiredStatusChecks
    case None => None
    case Some(checks) => checks.contexts
  }

  /** The dismissal restrictions of a protection's review requirements, when present. */
  function Dismissal(prot: Protection): Option<DismissalRestrictions> {
    match prot.requiredPullRequestReviews
    case None => None
    case Some(reviews) => reviews.dismissalRestrictions
  }

  function DismissalUsers(prot: Protection): Option<seq<User>> {
    match Dismissal(prot)
    case None => None
    case Some(d) => d.users
  }

  function DismissalTeams(prot: Protection): Option<seq<Team>> {
    match Dismissal(prot)
    case None => None
    case Some(d) => d.teams
  }

  /**
   * The protection written to `main`, derived from the one read on
   * `master`: status checks are made strict and keep their contexts,
   * dismissal restrictions keep their users and teams, and everything else
   * is forced to fixed values.
   */
  function MainProtection(prot: Protection): (u: BranchProtectionUpdate)
    ensures u.requiredStatusChecks.Some? && u.requiredStatusChecks.value.strict
    ensures u.requiredStatusChecks.value.contexts == StatusContexts(prot).GetOr([])
    ensures u.enforceAdmins == Some(false)
    ensures u.requiredPullRequestReviews.Some?
    ensures var reviews := u.requiredPullRequestReviews.value;
      reviews.dismissalRestrictions.Some? &&
      reviews.dismissalRestrictions.value.users == Logins(DismissalUsers(prot)) &&
      reviews.dismissalRestrictions.value.teams == TeamNames(DismissalTeams(prot)) &&
      !reviews.dismissStaleReviews && !reviews.requireCodeOwnerReviews &&
      reviews.requiredApprovingReviewCount == 1
    ensures u.restrictions.None?
    ensures !u.requiredLinearHistory && !u.allowForcePushes && !u.allowDeletions
  {
    BranchProtectionUpdate(
      requiredStatusChecks := Some(RequiredStatusChecks(true, StatusContexts(prot).GetOr([]))),
      enforceAdmins := Some(false),
      requiredPullRequestReviews := Some(RequiredPullRequestReviews(
        Some(DismissalRestrictionsUpdate(Logins(DismissalUsers(prot)), TeamNames(DismissalTeams(prot)))),
        false, false, 1)),
      restrictions := None,
      requiredLinearHistory := false,
      allowForcePushes := false,
      allowDeletions := false)
  }

  /**
   * Only three things are copied from `master`: the status contexts, the
   * dismissal users' logins and the dismissal teams' names. Two protections
   * that agree on those yield the same write, whatever else differs.
   */
  lemma MainProtectionCopiesOnly(p: Protection, q: Protection)
    ensures MainProtection(p) == MainProtection(q) <==>
      StatusContexts(p).GetOr([]) == StatusContexts(q).GetOr([]) &&
      Logins(DismissalUsers(p)) == Logins(DismissalUsers(q)) &&
      TeamNames(DismissalTeams(p)) == TeamNames(DismissalTeams(q))
  {
  }

  /** The users of the dismissal restrictions written to `main` are exactly the logins read on `master`, in order. */
  lemma MainProtectionKeepsDismissalUsers(prot: Protection, users: seq<User>)
    requires DismissalUsers(prot) == Some(users)
    ensures var written := MainProtection(prot).requiredPullRequestReviews.value.dismissalRestrictions.value.users;
      |written| == |users| && forall i :: 0 <= i < |users| ==> written[i] == users[i].login
  {
  }

  /** The protection written to `master`: no checks or reviews, admins enforced, and nobody may push. */
  function LockProtection(): (u: BranchProtectionUpdate)
    ensures u.requiredStatusChecks.None? && u.enforceAdmins == Some(true) && u.requiredPullRequestReviews.None?
    ensures u.restrictions == Some(RestrictionsUpdate([], [], Some([])))
    ensures !u.requiredLinearHistory && !u.allowForcePushes && !u.allowDeletions
  {
    BranchProtectionUpdate(
      requiredStatusChecks := None,
      enforceAdmins := Some(true),
      requiredPullRequestReviews := None,
      restrictions := Some(RestrictionsUpdate([], [], Some([]))),
      requiredLinearHistory := false,
      allowForcePushes := false,
      allowDeletions := false)
  }

  /** The lock is never the protection given to `main`: it enforces admins where `main` does not. */
  lemma LockDiffersFromMain(prot: Protection)
    ensures LockProtection() != MainProtection(prot)
    ensures LockProtection().enforceAdmins != MainProtection(prot).enforceAdmins
  {
  }

  /** The repository settings written last: `main` as default branch, squash merges only, and branch deletion on merge. */
  function SettingsUpdate(): (u: RepositoryUpdate)
    ensures u.defaultBranch == Some(Main)
    ensures u.allowSquashMerge == Some(true) && u.allowMergeCommit == Some(false) && u.allowRebaseMerge == Some(false)
    ensures u.deleteBranchOnMerge == Some(true)
  {
    RepositoryUpdate(
      defaultBranch := Some(Main),
      allowSquashMerge := Some(true),
      allowMergeCommit := Some(false),
      allowRebaseMerge := Some(false),
      deleteBranchOnMerge := Some(true))
  }

  /** The settings update changes exactly five settings and leaves every other one absent. */
  lemma SettingsUpdateChanges(setting: Setting)
    ensures SettingsUpdate().Changes(setting) <==>
      setting in {DefaultBranch, AllowSquashMerge, AllowMergeCommit, AllowRebaseMerge, DeleteBranchOnMerge}
  {
  }

  // ---------------------------------------------------------------------
  // Migrating one repository: six stages, each waiting for the one before.
  // ---------------------------------------------------------------------

  /** What the k-th call of the pipeline is, for a given repository. */
  predicate Stage(k: nat, req: ApiRequest, repo: Repository) {
    Addresses(req, repo) &&
    match k
    case 0 => req == GetRefBranch(Master, repo)
    case 1 => req.CreateRef? && req.refType == BranchRef && req.refName == Main
    case 2 => req == GetBranchProtectionOf(Master, repo)
    case 3 => req.UpdateBranchProtection? && req.branch == Main
    case 4 => req == UpdateBranchProtectionOf(Master, repo, LockProtection())
    case 5 => req == UpdateRepositoryOf(repo, SettingsUpdate())
    case _ => false
  }

  /** The response type the k-th stage decodes. */
  function StageKind(k: nat): ResponseKind {
    if k <= 1 then RefRecord
    else if k == 2 then ProtectionRecord
    else if k <= 4 then NoContent
    else RepositoryRecord
  }

  /** Every value was decoded as the response type of its stage. */
  predicate WellTyped(values: seq<ApiValue>) {
    forall i :: 0 <= i < |values| ==> Conforms(values[i], StageKind(i))
  }

  /**
   * The request of the next stage, given the values the earlier stages
   * returned: `main` is created at the sha of the `master` ref read first,
   * and protected with the protection derived from `master`'s.
   */
  function StageRequest(repo: Repository, values: seq<ApiValue>): (req: ApiRequest)
    requires |values| < 6 && WellTyped(values)
    ensures Stage(|values|, req, repo)
    ensures req.ResponseType() == StageKind(|values|)
  {
    var k := |values|;
    if k == 0 then GetRefBranch(Master, repo)
    else if k == 1 then CreateRefBranch(Main, values[0].gitRef.target.sha, repo)
    else if k == 2 then GetBranchProtectionOf(Master, repo)
    else if k == 3 then UpdateBranchProtectionOf(Main, repo, MainProtection(values[2].protection))
    else if k == 4 then UpdateBranchProtectionOf(Master, repo, LockProtection())
    else UpdateRepositoryOf(repo, SettingsUpdate())
  }

  /**
   * The first |values| calls are the stages' requests, in order, each
   * answered successfully with the value recorded for it.
   */
  predicate Reached(respond: (seq<ApiRequest>, ApiRequest) -> Result<ApiValue, ApiError>,
                    history: seq<ApiRequest>, repo: Repository, calls: seq<ApiRequest>, values: seq<ApiValue>)
  {
    |values| <= |calls| && |values| <= 6 && WellTyped(values) &&
    forall i :: 0 <= i < |values| ==>
      calls[i] == StageRequest(repo, values[..i]) && Answer(respond, history + calls[..i], calls[i]) == Ok(values[i])
  }

  /** A stage answered successfully extends the stages reached. */
  lemma ReachedSnoc(respond: (seq<ApiRequest>, ApiRequest) -> Result<ApiValue, ApiError>,
                    history: seq<ApiRequest>, repo: Repository, calls: seq<ApiRequest>, values: seq<ApiValue>, v: ApiValue)
    requires Reached(respond, history, repo, calls, values) && |calls| == |values| < 6
    requires Answer(respond, history + calls, StageRequest(repo, values)) == Ok(v)
    ensures Reached(respond, history, repo, calls + [StageRequest(repo, values)], values + [v])
  {
    var req := StageRequest(repo, values);
    var calls', values' := calls + [req], values + [v];
    assert Conforms(v, StageKind(|values|));
    assert WellTyped(values') by {
      forall i | 0 <= i < |values'|
        ensures Conforms(values'[i], StageKind(i))
      {
        if i < |values| {
          assert values'[i] == values[i];
        }
      }
    }
    forall i | 0 <= i < |values'|
      ensures calls'[i] == StageRequest(repo, values'[..i])
      ensures Answer(respond, history + calls'[..i], calls'[i]) == Ok(values'[i])
    {
      if i < |values| {
        assert calls'[..i] == calls[..i] && values'[..i] == values[..i];
      } else {
        assert calls'[..i] == calls && values'[..i] == values;
      }
    }
  }

  /** A further call, not yet answered, leaves the stages reached unchanged. */
  lemma ReachedExtend(respond: (seq<ApiRequest>, ApiRequest) -> Result<ApiValue, ApiError>,
                      history: seq<ApiRequest>, repo: Repository, calls: seq<ApiRequest>, values: seq<ApiValue>, req: ApiRequest)
    requires Reached(respond, history, repo, calls, values)
    ensures Reached(respond, history, repo, calls + [req], values)
  {
    forall i | 0 <= i < |values|
      ensures (calls + [req])[..i] == calls[..i]
    {
    }
  }

  /** Where a run of the stages ends: the calls made, the values decoded, and the error that stopped it, if any. */
  datatype Progress = Progress(calls: seq<ApiRequest>, values: seq<ApiValue>, failure: Option<ApiError>)

  /** Runs the remaining stages after those already reached, stopping at the first error. */
  function Stages(respond: (seq<ApiRequest>, ApiRequest) -> Result<ApiValue, ApiError>,
                  history: seq<ApiRequest>, repo: Repository, calls: seq<ApiRequest>, values: seq<ApiValue>): Progress
    requires Reached(respond, history, repo, calls, values) && |calls| == |values|
    decreases 6 - |values|
  {
    if |values| == 6 then Progress(calls, values, None)
    else
      var req := StageRequest(repo, values);
      var a := Answer(respond, history + calls, req);
      if a.Err? then Progress(calls + [req], values, Some(a.error))
      else
        ReachedSnoc(respond, history, repo, calls, values, a.value);
        Stages(respond, history, repo, calls + [req], values + [a.value])
  }

  /** One stage of `Stages`: a failed answer ends the run there, a successful one moves on to the next stage. */
  lemma StagesNext(respond: (seq<ApiRequest>, ApiRequest) -> Result<ApiValue, ApiError>,
                   history: seq<ApiRequest>, repo: Repository, calls: seq<ApiRequest>, values: seq<ApiValue>)
    requires Reached(respond, history, repo, calls, values) && |calls| == |values| < 6
    ensures var req := StageRequest(repo, values);
      var a := Answer(respond, history + calls, req);
      (a.Err? ==> Stages(respond, history, repo, calls, values) == Progress(calls + [req], values, Some(a.error))) &&
      (a.Ok? ==> Reached(respond, history, repo, calls + [req], values + [a.value]) &&
                 Stages(respond, history, repo, calls, values) == Stages(respond, history, repo, calls + [req], values + [a.value]))
  {
    var a := Answer(respond, history + calls, StageRequest(repo, values));
    if a.Ok? {
      ReachedSnoc(respond, history, repo, calls, values, a.value);
    }
  }

  /**
   * A run of the stages keeps the calls already made and reaches further:
   * a run without failure went through all six stages, and a failed run
   * ends with the stage whose answer was the error.
   */
  lemma {:induction false} StagesReach(respond: (seq<ApiRequest>, ApiRequest) -> Result<ApiValue, ApiError>,
                                       history: seq<ApiRequest>, repo: Repository, calls: seq<ApiRequest>, values: seq<ApiValue>)
    requires Reached(respond, history, repo, calls, values) && |calls| == |values|
    ensures var p := Stages(respond, history, repo, calls, values);
      calls <= p.calls && values <= p.values &&
      Reached(respond, history, repo, p.calls, p.values) &&
      (p.failure.None? ==> |p.calls| == |p.values| == 6) &&
      (p.failure.Some? ==>
        |p.calls| == |p.values| + 1 && |p.values| < 6 &&
        p.calls[|p.values|] == StageRequest(repo, p.values) &&
        Answer(respond, history + p.calls[..|p.values|], p.calls[|p.values|]) == Err(p.failure.value))
    decreases 6 - |values|
  {
    if |values| < 6 {
      var req := StageRequest(repo, values);
      var a := Answer(respond, history + calls, req);
      StagesNext(respond, history, repo, calls, values);
      if a.Err? {
        ReachedExtend(respond, history, repo, calls, values, req);
        assert (calls + [req])[..|values|] == calls;
      } else {
        StagesReach(respond, history, repo, calls + [req], values + [a.value]);
      }
    }
  }

  /**
   * `process(repo:with:logger:)` against a server that has already
   * received `history`: read the `master` ref, create `main` at its sha,
   * read `master`'s protection, protect `main`, lock `master`, and update
   * the repository settings.
   */
  function ProcessSpec(respond: (seq<ApiRequest>, ApiRequest) -> Result<ApiValue, ApiError>,
                       history: seq<ApiRequest>, repo: Repository): Run<()>
  {
    var p := Stages(respond, history, repo, [], []);
    StagesReach(respond, history, repo, [], []);
    Run(p.calls, if p.failure.Some? then Err(p.failure.value) else Ok(()))
  }

  /** The calls follow the six stages in order, all addressed to the repository. */
  lemma ProcessOrder(respond: (seq<ApiRequest>, ApiRequest) -> Result<ApiValue, ApiError>,
                     history: seq<ApiRequest>, repo: Repository)
    ensures var run := ProcessSpec(respond, history, repo);
      1 <= |run.calls| <= 6 && forall k :: 0 <= k < |run.calls| ==> Stage(k, run.calls[k], repo)
  {
    var p := Stages(respond, history, repo, [], []);
    StagesReach(respond, history, repo, [], []);
    forall k | 0 <= k < |p.calls|
      ensures Stage(k, p.calls[k], repo)
    {
      if k < |p.values| {
        assert p.calls[k] == StageRequest(repo, p.values[..k]);
      } else {
        assert p.calls[k] == StageRequest(repo, p.values);
      }
    }
  }

  /** Each stage is issued only after every earlier one succeeded, and a run that succeeds went through all six. */
  lemma ProcessFailFast(respond: (seq<ApiRequest>, ApiRequest) -> Result<ApiValue, ApiError>,
                        history: seq<ApiRequest>, repo: Repository)
    ensures var run := ProcessSpec(respond, history, repo);
      FailFast(respond, history, run) && (run.result.Ok? ==> |run.calls| == 6)
  {
    var run := ProcessSpec(respond, history, repo);
    var p := Stages(respond, history, repo, [], []);
    StagesReach(respond, history, repo, [], []);
    var n := |p.calls|;
    var earlier := p.calls[..n - 1];
    assert AllOk(respond, history, earlier) by {
      forall k | 0 <= k < |earlier|
        ensures Answer(respond, history + earlier[..k], earlier[k]).Ok?
      {
        assert k < |p.values| && earlier[..k] == p.calls[..k];
      }
    }
    if p.failure.None? {
      assert n - 1 < |p.values|;
    }
    assert earlier + [p.calls[n - 1]] == run.calls;
    FailFastLast(respond, history, earlier, p.calls[n - 1], run.result);
  }

  /** `main` is created at exactly the sha of the `master` ref that was read. */
  lemma MainCreatedAtMasterSha(respond: (seq<ApiRequest>, ApiRequest) -> Result<ApiValue, ApiError>,
                               history: seq<ApiRequest>, repo: Repository)
    ensures var run := ProcessSpec(respond, history, repo);
      |run.calls| >= 2 ==>
        var master := Answer(respond, history, run.calls[0]);
        master.Ok? && master.value.RefValue? &&
        run.calls[1] == CreateRefBranch(Main, master.value.gitRef.target.sha, repo)
  {
    var p := Stages(respond, history, repo, [], []);
    StagesReach(respond, history, repo, [], []);
    if |p.calls| >= 2 {
      assert 1 <= |p.values|;
      assert p.calls[..0] == [] && history + [] == history;
      assert Answer(respond, history, p.calls[0]) == Ok(p.values[0]);
      assert Conforms(p.values[0], StageKind(0));
      if |p.values| >= 2 {
        assert p.calls[1] == StageRequest(repo, p.values[..1]);
      } else {
        assert p.calls[1] == StageRequest(repo, p.values);
      }
    }
  }

  /** The protection written to `main` is derived from the protection read on `master`. */
  lemma MainProtectionFromMaster(respond: (seq<ApiRequest>, ApiRequest) -> Result<ApiValue, ApiError>,
                                 history: seq<ApiRequest>, repo: Repository)
    ensures var run := ProcessSpec(respond, history, repo);
      |run.calls| >= 4 ==>
        var read := Answer(respond, history + run.calls[..2], run.calls[2]);
        read.Ok? && read.value.ProtectionValue? &&
        run.calls[3] == UpdateBranchProtectionOf(Main, repo, MainProtection(read.value.protection))
  {
    var p := Stages(respond, history, repo, [], []);
    StagesReach(respond, history, repo, [], []);
    if |p.calls| >= 4 {
      assert 3 <= |p.values|;
      assert Answer(respond, history + p.calls[..2], p.calls[2]) == Ok(p.values[2]);
      assert Conforms(p.values[2], StageKind(2));
      if |p.values| >= 4 {
        assert p.calls[3] == StageRequest(repo, p.values[..3]);
      } else {
        assert p.calls[3] == StageRequest(repo, p.values);
      }
    }
  }

  /** `master` is locked only right after the write to `main` has succeeded. */
  lemma MasterLockedAfterMain(respond: (seq<ApiRequest>, ApiRequest) -> Result<ApiValue, ApiError>,
                              history: seq<ApiRequest>, repo: Repository)
    ensures var run := ProcessSpec(respond, history, repo);
      forall k :: 0 <= k < |run.calls| && run.calls[k].UpdateBranchProtection? && run.calls[k].branch == Master ==>
        k >= 1 && run.calls[k - 1].UpdateBranchProtection? && run.calls[k - 1].branch == Main &&
        Answer(respond, history + run.calls[..k - 1], run.calls[k - 1]).Ok?
  {
    var run := ProcessSpec(respond, history, repo);
    ProcessOrder(respond, history, repo);
    ProcessFailFast(respond, history, repo);
    forall k | 0 <= k < |run.calls| && run.calls[k].UpdateBranchProtection? && run.calls[k].branch == Master
      ensures k >= 1 && run.calls[k - 1].UpdateBranchProtection? && run.calls[k - 1].branch == Main
      ensures Answer(respond, history + run.calls[..k - 1], run.calls[k - 1]).Ok?
    {
      assert Stage(k, run.calls[k], repo);
      assert k == 4;
      assert Stage(3, run.calls[3], repo);
    }
  }

  /**
   * One stage of `process(repo:with:logger:)`: sends the stage's request;
   * a failed answer ends the whole run there, and the answer of the last
   * stage completes it.
   */
  method LoadStage(server: Server, repo: Repository, req: ApiRequest,
                   ghost history: seq<ApiRequest>, ghost calls: seq<ApiRequest>, ghost values: seq<ApiValue>)
    returns (a: Result<ApiValue, ApiError>)
    requires Reached(server.respond, history, repo, calls, values) && |calls| == |values| < 6
    requires req == StageRequest(repo, values) && server.calls == history + calls
    requires Stages(server.respond, history, repo, [], []) == Stages(server.respond, history, repo, calls, values)
    modifies server
    ensures server.calls == history + (calls + [req])
    ensures a.Err? ==>
      server.calls == history + ProcessSpec(server.respond, history, repo).calls &&
      ProcessSpec(server.respond, history, repo).result == Err(a.error)
    ensures a.Ok? ==>
      Conforms(a.value, StageKind(|values|)) &&
      Reached(server.respond, history, repo, calls + [req], values + [a.value]) &&
      Stages(server.respond, history, repo, [], []) == Stages(server.respond, history, repo, calls + [req], values + [a.value])
    ensures a.Ok? && |values| == 5 ==>
      server.calls == history + ProcessSpec(server.respond, history, repo).calls &&
      ProcessSpec(server.respond, history, repo).result == Ok(())
  {
    a := server.Load(req);
    StageOutcome(server.respond, history, repo, calls, values, req, a, server.calls);
  }

  /** How the whole run of `process` goes on from the answer `a` to one more stage's request. */
  lemma StageOutcome(respond: (seq<ApiRequest>, ApiRequest) -> Result<ApiValue, ApiError>,
                     history: seq<ApiRequest>, repo: Repository, calls: seq<ApiRequest>, values: seq<ApiValue>,
                     req: ApiRequest, a: Result<ApiValue, ApiError>, after: seq<ApiRequest>)
    requires Reached(respond, history, repo, calls, values) && |calls| == |values| < 6
    requires Stages(respond, history, repo, [], []) == Stages(respond, history, repo, calls, values)
    requires req == StageRequest(repo, values) && a == Answer(respond, history + calls, req)
    requires after == history + calls + [req]
    ensures after == history + (calls + [req])
    ensures a.Err? ==>
      after == history + ProcessSpec(respond, history, repo).calls &&
      ProcessSpec(respond, history, repo).result == Err(a.error)
    ensures a.Ok? ==>
      Conforms(a.value, StageKind(|values|)) &&
      Reached(respond, history, repo, calls + [req], values + [a.value]) &&
      Stages(respond, history, repo, [], []) == Stages(respond, history, repo, calls + [req], values + [a.value])
    ensures a.Ok? && |values| == 5 ==>
      after == history + ProcessSpec(respond, history, repo).calls &&
      ProcessSpec(respond, history, repo).result == Ok(())
  {
    AppendAssociative(history, calls, [req]);
    StagesNext(respond, history, repo, calls, values);
    if a.Ok? && |values| == 5 {
      assert |values + [a.value]| == 6;
    }
  }

  /** `process(repo:with:logger:)`: the six stages, each waiting for the previous one. */
  method Process(server: Server, repo: Repository) returns (r: Result<(), ApiError>)
    modifies server
    ensures server.calls == old(server.calls) + ProcessSpec(server.respond, old(server.calls), repo).calls
    ensures r == ProcessSpec(server.respond, old(server.calls), repo).result
  {
    ghost var history := server.calls;
    assert history + [] == history;

    var a1 := LoadStage(server, repo, GetRefBranch(Master, repo), history, [], []);
    if a1.Err? {
      return Err(a1.error);
    }
    ghost var c1, v1 := [GetRefBranch(Master, repo)], [a1.value];

    var createRef := CreateRefBranch(Main, a1.value.gitRef.target.sha, repo);
    var a2 := LoadStage(server, repo, createRef, history, c1, v1);
    if a2.Err? {
      return Err(a2.error);
    }
    ghost var c2, v2 := c1 + [createRef], v1 + [a2.value];

    var getProtection := GetBranchProtectionOf(Master, repo);
    var a3 := LoadStage(server, repo, getProtection, history, c2, v2);
    if a3.Err? {
      return Err(a3.error);
    }
    ghost var c3, v3 := c2 + [getProtection], v2 + [a3.value];

    var protectMain := UpdateBranchProtectionOf(Main, repo, MainProtection(a3.value.protection));
    var a4 := LoadStage(server, repo, protectMain, history, c3, v3);
    if a4.Err? {
      return Err(a4.error);
    }
    ghost var c4, v4 := c3 + [protectMain], v3 + [a4.value];

    var lockMaster := UpdateBranchProtectionOf(Master, repo, LockProtection());
    var a5 := LoadStage(server, repo, lockMaster, history, c4, v4);
    if a5.Err? {
      return Err(a5.error);
    }
    ghost var c5, v5 := c4 + [lockMaster], v4 + [a5.value];

    var a6 := LoadStage(server, repo, UpdateRepositoryOf(repo, SettingsUpdate()), history, c5, v5);
    if a6.Err? {
      return Err(a6.error);
    }
    return Ok(());
  }

  // ---------------------------------------------------------------------
  // Migrating an organization.
  // ---------------------------------------------------------------------

  /** The repositories of a list whose default branch is `master`, in order. */
  function OnMaster(repos: seq<Repository>): (kept: seq<Repository>)
    ensures |kept| <= |repos|
    ensures forall r :: r in kept <==> r in repos && r.defaultBranch == Master
  {
    if repos == [] then []
    else (if repos[0].defaultBranch == Master then [repos[0]] else []) + OnMaster(repos[1..])
  }

  /** The repositories the driver works on: active ones still on `master`. */
  function LegacyRepos(repos: seq<Repository>): (legacy: seq<Repository>)
    ensures forall r :: r in legacy <==> r in repos && r.IsActive() && r.defaultBranch == Master
  {
    OnMaster(ActiveRepos(repos))
  }

  /** Both filters keep the listing order: they distribute over concatenation. */
  lemma {:induction false} LegacyReposAppend(a: seq<Repository>, b: seq<Repository>)
    ensures LegacyRepos(a + b) == LegacyRepos(a) + LegacyRepos(b)
  {
    ActiveReposAppend(a, b);
    OnMasterAppend(ActiveRepos(a), ActiveRepos(b));
  }

  lemma {:induction false} OnMasterAppend(a: seq<Repository>, b: seq<Repository>)
    ensures OnMaster(a + b) == OnMaster(a) + OnMaster(b)
    decreases |a|
  {
    if a == [] {
      assert a + b == b;
    } else {
      assert (a + b)[0] == a[0];
      assert (a + b)[1..] == a[1..] + b;
      OnMasterAppend(a[1..], b);
    }
  }

  function Step(respond: (seq<ApiRequest>, ApiRequest) -> Result<ApiValue, ApiError>): (seq<ApiRequest>, Repository) -> Run<()> {
    (history, repo) => ProcessSpec(respond, history, repo)
  }

  /** List the organization's public repositories, keep the legacy ones, and migrate them one after the other. */
  function PerformSpec(respond: (seq<ApiRequest>, ApiRequest) -> Result<ApiValue, ApiError>,
                       history: seq<ApiRequest>, org: string): Run<()>
  {
    var list := PublicListing(org);
    var listed := Answer(respond, history, list);
    if listed.Err? then Run([list], Err(listed.error))
    else
      var each := ProcessEach(Step(respond), history + [list], LegacyRepos(listed.value.repos));
      Run([list] + each.calls, each.result)
  }

  /** Every call after the listing is about a listed repository that is active and still on `master`. */
  lemma PerformTouchesOnlyLegacyRepos(respond: (seq<ApiRequest>, ApiRequest) -> Result<ApiValue, ApiError>,
                                      history: seq<ApiRequest>, org: string)
    ensures var run := PerformSpec(respond, history, org);
      run.calls[0] == PublicListing(org) &&
      forall k :: 1 <= k < |run.calls| ==>
        var listed := Answer(respond, history, run.calls[0]);
        listed.Ok? && listed.value.Repositories? &&
        exists r :: r in listed.value.repos && r.IsActive() && r.defaultBranch == Master && Addresses(run.calls[k], r)
  {
    var list := PublicListing(org);
    var listed := Answer(respond, history, list);
    if listed.Ok? {
      var repos := LegacyRepos(listed.value.repos);
      forall h, r, c | c in Step(respond)(h, r).calls
        ensures Addresses(c, r)
      {
        ProcessOrder(respond, h, r);
      }
      ProcessEachAddressesOnly(Step(respond), history + [list], repos);
      var run := PerformSpec(respond, history, org);
      forall k | 1 <= k < |run.calls|
        ensures exists r :: r in listed.value.repos && r.IsActive() && r.defaultBranch == Master && Addresses(run.calls[k], r)
      {
        assert run.calls[k] in ProcessEach(Step(respond), history + [list], repos).calls;
        var r :| r in repos && Addresses(run.calls[k], r);
        assert r in listed.value.repos && r.IsActive() && r.defaultBranch == Master;
      }
    }
  }

  /**
   * When a run over several repositories succeeds, each of them went
   * through all six stages, against the history left by the ones before it.
   */
  lemma MigratesEveryRepo(respond: (seq<ApiRequest>, ApiRequest) -> Result<ApiValue, ApiError>,
                          history: seq<ApiRequest>, repos: seq<Repository>, k: nat)
    requires k < |repos|
    requires ProcessEach(Step(respond), history, repos).result.Ok?
    ensures var before := ProcessEach(Step(respond), history, repos[..k]).calls;
      var here := ProcessSpec(respond, history + before, repos[k]);
      here.result.Ok? && |here.calls| == 6 &&
      before + here.calls <= ProcessEach(Step(respond), history, repos).calls
  {
    ProcessEachOk(Step(respond), history, repos, k);
    var before := ProcessEach(Step(respond), history, repos[..k]).calls;
    assert Step(respond)(history + before, repos[k]) == ProcessSpec(respond, history + before, repos[k]);
    ProcessFailFast(respond, history + before, repos[k]);
  }

  /** Migrating the legacy repositories one after the other, stopping at the first failure. */
  method MigrateEach(server: Server, repos: seq<Repository>) returns (r: Result<(), ApiError>)
    modifies server
    ensures server.calls == old(server.calls) + ProcessEach(Step(server.respond), old(server.calls), repos).calls
    ensures r == ProcessEach(Step(server.respond), old(server.calls), repos).result
  {
    ghost var start := server.calls;
    var i := 0;
    while i < |repos|
      invariant i <= |repos|
      invariant server.calls == start + ProcessEach(Step(server.respond), start, repos[..i]).calls
      invariant ProcessEach(Step(server.respond), start, repos[..i]).result == Ok(())
    {
      var one := MigrateNext(server, repos, i, start);
      if one.Err? {
        NoCallsAfterFailure(Step(server.respond), start, repos, i + 1);
        return one;
      }
      assert one.value == ();
      i := i + 1;
    }
    assert repos[..i] == repos;
    r := Ok(());
  }

  /** One turn of the loop above: the next repository goes through `process`, and the run so far grows by its calls. */
  method MigrateNext(server: Server, repos: seq<Repository>, i: nat, ghost start: seq<ApiRequest>)
    returns (one: Result<(), ApiError>)
    requires i < |repos|
    requires server.calls == start + ProcessEach(Step(server.respond), start, repos[..i]).calls
    requires ProcessEach(Step(server.respond), start, repos[..i]).result == Ok(())
    modifies server
    ensures server.calls == start + ProcessEach(Step(server.respond), start, repos[..i + 1]).calls
    ensures one == ProcessEach(Step(server.respond), start, repos[..i + 1]).result
  {
    ghost var history := server.calls;
    one := Process(server, repos[i]);
    assert Step(server.respond)(history, repos[i]) == ProcessSpec(server.respond, history, repos[i]);
    ProcessEachStep(Step(server.respond), start, repos, i, history, server.calls, one);
  }

  /** `perform(with:logger:)`. */
  method Perform(server: Server, org: string) returns (r: Result<(), ApiError>)
    modifies server
    ensures server.calls == old(server.calls) + PerformSpec(server.respond, old(server.calls), org).calls
    ensures r == PerformSpec(server.respond, old(server.calls), org).result
  {
    ghost var history := server.calls;
    var list := PublicListing(org);
    var listed := server.Load(list);
    if listed.Err? {
      return Err(listed.error);
    }
    var repos := LegacyRepos(listed.value.repos);
    r := MigrateEach(server, repos);
    PerformAfterListing(server.respond, history, org);
  }

  lemma PerformAfterListing(respond: (seq<ApiRequest>, ApiRequest) -> Result<ApiValue, ApiError>,
                            history: seq<ApiRequest>, org: string)
    requires Answer(respond, history, PublicListing(org)).Ok?
    ensures var each := ProcessEach(Step(respond), history + [PublicListing(org)],
                                    LegacyRepos(Answer(respond, history, PublicListing(org)).value.repos));
      PerformSpec(respond, history, org) == Run([PublicListing(org)] + each.calls, each.result) &&
      history + [PublicListing(org)] + each.calls == history + PerformSpec(respond, history, org).calls
  {
  }

  /** `run()`: the error `perform` throws is reported and thrown again unchanged. */
  method RunCommand(server: Server, org: string) returns (r: Result<(), ApiError>)
    modifies server
    ensures server.calls == old(server.calls) + PerformSpec(server.respond, old(server.calls), org).calls
    ensures r == Rethrown(PerformSpec(server.respond, old(server.calls), org).result)
  {
    r := Perform(server, org);
    r := Rethrown(r);
  }
}
