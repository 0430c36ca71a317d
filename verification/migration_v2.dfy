/**
 * The second migration driver (ghrepoclean.swift): every active public
 * repository of an organization has its `master` branch renamed to
 * `main` through GitHub's rename endpoint. When the rename finds no
 * `master`, the driver accepts an existing `main` instead.
 */
module MigrationV2 {
  import opened Wrappers
  import opened Github
  import opened GithubApi
  import opened Client
  import Transport

  const Master := "master"
  const Main := "main"

  /** The error the rename endpoint reports for a branch that does not exist. */
  predicate IsNotFound(e: ApiError) {
    e.Api? && e.status == Transport.NotFound
  }

  // ---------------------------------------------------------------------
  // Renaming a branch, falling back to an existing branch of the new name.
  // ---------------------------------------------------------------------

  /**
   * `safelyRenameBranch(in:from:to:client:logger:)` against a server that
   * has already received `history`: rename `branch` to `newName`; when
   * the server answers "not found", fetch `newName` instead.
   */
  function SafelyRenameSpec(respond: (seq<ApiRequest>, ApiRequest) -> Result<ApiValue, ApiError>,
                            history: seq<ApiRequest>, repo: Repository, branch: string, newName: string): Run<Branch>
  {
    var rename := RenameBranchOf(branch, repo, newName);
    var renamed := Answer(respond, history, rename);
    if renamed.Ok? then Run([rename], Ok(renamed.value.branch))
    else if IsNotFound(renamed.error) then
      var fetch := GetBranchOf(newName, repo);
      var fetched := Answer(respond, history + [rename], fetch);
      Run([rename, fetch], if fetched.Ok? then Ok(fetched.value.branch) else Err(fetched.error))
    else Run([rename], Err(renamed.error))
  }

  /**
   * The three outcomes of a safe rename: a successful rename returns the
   * renamed branch with no further call; a "not found" makes exactly one
   * fetch of the new name, whose branch or error becomes the result; any
   * other error is returned unchanged with no further call.
   */
  lemma SafelyRenameOutcomes(respond: (seq<ApiRequest>, ApiRequest) -> Result<ApiValue, ApiError>,
                             history: seq<ApiRequest>, repo: Repository, branch: string, newName: string)
    ensures var run := SafelyRenameSpec(respond, history, repo, branch, newName);
      var rename := RenameBranchOf(branch, repo, newName);
      var renamed := Answer(respond, history, rename);
      var fetch := GetBranchOf(newName, repo);
      var fetched := Answer(respond, history + [rename], fetch);
      (renamed.Ok? ==>
        renamed.value.BranchValue? && run.calls == [rename] && run.result == Ok(renamed.value.branch)) &&
      (renamed.Err? && IsNotFound(renamed.error) ==>
        run.calls == [rename, fetch] &&
        (fetched.Ok? ==> fetched.value.BranchValue? && run.result == Ok(fetched.value.branch)) &&
        (fetched.Err? ==> run.result == Err(fetched.error))) &&
      (renamed.Err? && !IsNotFound(renamed.error) ==>
        run.calls == [rename] && run.result == Err(renamed.error))
  {
  }

  /**
   * A safe rename makes one or two calls, both about the repository, and
   * the second only when the rename failed with "not found".
   */
  lemma SafelyRenameFallsBackOnNotFound(respond: (seq<ApiRequest>, ApiRequest) -> Result<ApiValue, ApiError>,
                                         history: seq<ApiRequest>, repo: Repository, branch: string, newName: string)
    ensures var run := SafelyRenameSpec(respond, history, repo, branch, newName);
      1 <= |run.calls| <= 2 &&
      (|run.calls| == 2 <==> FailedNotFound(Answer(respond, history, run.calls[0]))) &&
      forall k :: 0 <= k < |run.calls| ==> Addresses(run.calls[k], repo)
  {
  }

  /** The answer was an error, and that error is "not found". */
  predicate FailedNotFound(a: Result<ApiValue, ApiError>) {
    a.Err? && IsNotFound(a.error)
  }

  /** `safelyRenameBranch(in:from:to:client:logger:)`. */
  method SafelyRenameBranch(server: Server, repo: Repository, branch: string, newName: string)
    returns (r: Result<Branch, ApiError>)
    modifies server
    ensures server.calls == old(server.calls) + SafelyRenameSpec(server.respond, old(server.calls), repo, branch, newName).calls
    ensures r == SafelyRenameSpec(server.respond, old(server.calls), repo, branch, newName).result
  {
    ghost var history := server.calls;
    var rename := RenameBranchOf(branch, repo, newName);
    var renamed := server.Load(rename);
    if renamed.Ok? {
      return Ok(renamed.value.branch);
    }
    if !IsNotFound(renamed.error) {
      return Err(renamed.error);
    }
    var fetched := server.Load(GetBranchOf(newName, repo));
    assert server.calls == history + [rename, GetBranchOf(newName, repo)];
    if fetched.Ok? {
      return Ok(fetched.value.branch);
    }
    return Err(fetched.error);
  }

  // ---------------------------------------------------------------------
  // Migrating one repository.
  // ---------------------------------------------------------------------

  /** `process(repo:with:logger:)`: the safe rename of `master` to `main`, its branch discarded. */
  function ProcessSpec(respond: (seq<ApiRequest>, ApiRequest) -> Result<ApiValue, ApiError>,
                       history: seq<ApiRequest>, repo: Repository): Run<()>
  {
    var renamed := SafelyRenameSpec(respond, history, repo, Master, Main);
    Run(renamed.calls, if renamed.result.Ok? then Ok(()) else Err(renamed.result.error))
  }

  /**
   * A repository receives only the rename of `master` to `main`, followed
   * by a fetch of `main` when `master` was not found; it succeeds exactly
   * when the rename or that fetch does, and a failure is the answer to
   * its last call.
   */
  lemma ProcessOnlyRenames(respond: (seq<ApiRequest>, ApiRequest) -> Result<ApiValue, ApiError>,
                           history: seq<ApiRequest>, repo: Repository)
    ensures var run := ProcessSpec(respond, history, repo);
      var rename := RenameBranchOf(Master, repo, Main);
      var fetch := GetBranchOf(Main, repo);
      (run.calls == [rename] || run.calls == [rename, fetch]) &&
      (run.result.Ok? <==>
        Answer(respond, history, rename).Ok? ||
        (FailedNotFound(Answer(respond, history, rename)) && Answer(respond, history + [rename], fetch).Ok?)) &&
      (run.result.Err? ==>
        Answer(respond, history + run.calls[..|run.calls| - 1], run.calls[|run.calls| - 1]) == Err(run.result.error))
  {
    var run := ProcessSpec(respond, history, repo);
    var rename := RenameBranchOf(Master, repo, Main);
    SafelyRenameOutcomes(respond, history, repo, Master, Main);
    if |run.calls| == 1 {
      assert history + run.calls[..0] == history;
    } else {
      assert run.calls[..1] == [rename];
    }
  }

  /** `process(repo:with:logger:)`. */
  method Process(server: Server, repo: Repository) returns (r: Result<(), ApiError>)
    modifies server
    ensures server.calls == old(server.calls) + ProcessSpec(server.respond, old(server.calls), repo).calls
    ensures r == ProcessSpec(server.respond, old(server.calls), repo).result
  {
    var mainBranch := SafelyRenameBranch(server, repo, Master, Main);
    if mainBranch.Err? {
      return Err(mainBranch.error);
    }
    return Ok(());
  }

  // ---------------------------------------------------------------------
  // Migrating an organization.
  // ---------------------------------------------------------------------

  function Step(respond: (seq<ApiRequest>, ApiRequest) -> Result<ApiValue, ApiError>): (seq<ApiRequest>, Repository) -> Run<()> {
    (history, repo) => ProcessSpec(respond, history, repo)
  }

  /** List the organization's public repositories, keep the active ones, and migrate them one after the other. */
  function PerformSpec(respond: (seq<ApiRequest>, ApiRequest) -> Result<ApiValue, ApiError>,
                       history: seq<ApiRequest>, org: string): Run<()>
  {
    var list := PublicListing(org);
    var listed := Answer(respond, history, list);
    if listed.Err? then Run([list], Err(listed.error))
    else
      var each := ProcessEach(Step(respond), history + [list], ActiveRepos(listed.value.repos));
      Run([list] + each.calls, each.result)
  }

  /**
   * Every call after the listing is about a listed repository that is
   * active, whatever its default branch.
   */
  lemma PerformTouchesOnlyActiveRepos(respond: (seq<ApiRequest>, ApiRequest) -> Result<ApiValue, ApiError>,
                                      history: seq<ApiRequest>, org: string)
    ensures var run := PerformSpec(respond, history, org);
      run.calls[0] == PublicListing(org) &&
      forall k :: 1 <= k < |run.calls| ==>
        var listed := Answer(respond, history, run.calls[0]);
        listed.Ok? && listed.value.Repositories? &&
        exists r :: r in listed.value.repos && r.IsActive() && Addresses(run.calls[k], r)
  {
    var list := PublicListing(org);
    var listed := Answer(respond, history, list);
    if listed.Ok? {
      var repos := ActiveRepos(listed.value.repos);
      forall h, r, c | c in Step(respond)(h, r).calls
        ensures Addresses(c, r)
      {
        ProcessOnlyRenames(respond, h, r);
        assert Addresses(RenameBranchOf(Master, r, Main), r) && Addresses(GetBranchOf(Main, r), r);
      }
      ProcessEachAddressesOnly(Step(respond), history + [list], repos);
      var run := PerformSpec(respond, history, org);
      assert run.calls == [list] + ProcessEach(Step(respond), history + [list], repos).calls;
      assert listed.value.Repositories?;
      forall k | 1 <= k < |run.calls|
        ensures exists r :: r in listed.value.repos && r.IsActive() && Addresses(run.calls[k], r)
      {
        assert run.calls[k] in ProcessEach(Step(respond), history + [list], repos).calls;
        var r :| r in repos && Addresses(run.calls[k], r);
        assert r in listed.value.repos && r.IsActive();
      }
      assert forall k :: 1 <= k < |run.calls| ==>
        var listed' := Answer(respond, history, run.calls[0]);
        listed'.Ok? && listed'.value.Repositories? &&
        exists r :: r in listed'.value.repos && r.IsActive() && Addresses(run.calls[k], r);
    }
  }

  /**
   * When a run over several repositories succeeds, each of them had
   * `master` renamed to `main`, or already had `main`, against the
   * history left by the ones before it.
   */
  lemma RenamesEveryRepo(respond: (seq<ApiRequest>, ApiRequest) -> Result<ApiValue, ApiError>,
                         history: seq<ApiRequest>, repos: seq<Repository>, k: nat)
    requires k < |repos|
    requires ProcessEach(Step(respond), history, repos).result.Ok?
    ensures var before := ProcessEach(Step(respond), history, repos[..k]).calls;
      var rename := RenameBranchOf(Master, repos[k], Main);
      var here := ProcessSpec(respond, history + before, repos[k]);
      here.result.Ok? && here.calls[0] == rename &&
      (Answer(respond, history + before, rename).Ok? ||
       Answer(respond, history + before + [rename], GetBranchOf(Main, repos[k])).Ok?) &&
      before + here.calls <= ProcessEach(Step(respond), history, repos).calls
  {
    ProcessEachOk(Step(respond), history, repos, k);
    var before := ProcessEach(Step(respond), history, repos[..k]).calls;
    assert Step(respond)(history + before, repos[k]) == ProcessSpec(respond, history + before, repos[k]);
    ProcessOnlyRenames(respond, history + before, repos[k]);
  }

  /** Migrating the active repositories one after the other, stopping at the first failure. */
  method MigrateEach(server: Server, repos: seq<Repository>) returns (r: Result<(), ApiError>)
    modifies server
    ensures server.calls == old(server.calls) + ProcessEach(Step(server.respond), old(server.calls), repos).calls
    ensures r == ProcessEach(Step(server.respond), old(server.calls), repos).result
  {
    ghost var start := server.calls;
    var i := 0;
    while i < |repos|
      invariant i <= |repos|
      invariant server.calls == start + ProcessEach(Step(server.respond), start, repos[..i]).calls
      invariant ProcessEach(Step(server.respond), start, repos[..i]).result == Ok(())
    {
      var one := MigrateNext(server, repos, i, start);
      if one.Err? {
        NoCallsAfterFailure(Step(server.respond), start, repos, i + 1);
        return one;
      }
      assert one.value == ();
      i := i + 1;
    }
    assert repos[..i] == repos;
    r := Ok(());
  }

  /** One turn of the loop above: the next repository goes through `process`, and the run so far grows by its calls. */
  method MigrateNext(server: Server, repos: seq<Repository>, i: nat, ghost start: seq<ApiRequest>)
    returns (one: Result<(), ApiError>)
    requires i < |repos|
    requires server.calls == start + ProcessEach(Step(server.respond), start, repos[..i]).calls
    requires ProcessEach(Step(server.respond), start, repos[..i]).result == Ok(())
    modifies server
    ensures server.calls == start + ProcessEach(Step(server.respond), start, repos[..i + 1]).calls
    ensures one == ProcessEach(Step(server.respond), start, repos[..i + 1]).result
  {
    ghost var history := server.calls;
    one := Process(server, repos[i]);
    assert Step(server.respond)(history, repos[i]) == ProcessSpec(server.respond, history, repos[i]);
    ProcessEachStep(Step(server.respond), start, repos, i, history, server.calls, one);
  }

  /** `perform(org:with:logger:)`. */
  method Perform(server: Server, org: string) returns (r: Result<(), ApiError>)
    modifies server
    ensures server.calls == old(server.calls) + PerformSpec(server.respond, old(server.calls), org).calls
    ensures r == PerformSpec(server.respond, old(server.calls), org).result
  {
    ghost var history := server.calls;
    var list := PublicListing(org);
    var listed := server.Load(list);
    if listed.Err? {
      return Err(listed.error);
    }
    var activeRepos := ActiveRepos(listed.value.repos);
    r := MigrateEach(server, activeRepos);
    PerformAfterListing(server.respond, history, org);
  }

  lemma PerformAfterListing(respond: (seq<ApiRequest>, ApiRequest) -> Result<ApiValue, ApiError>,
                            history: seq<ApiRequest>, org: string)
    requires Answer(respond, history, PublicListing(org)).Ok?
    ensures var each := ProcessEach(Step(respond), history + [PublicListing(org)],
                                    ActiveRepos(Answer(respond, history, PublicListing(org)).value.repos));
      PerformSpec(respond, history, org) == Run([PublicListing(org)] + each.calls, each.result) &&
      history + [PublicListing(org)] + each.calls == history + PerformSpec(respond, history, org).calls
  {
  }

  /** `run()`: the error `perform` throws is reported and thrown again unchanged. */
  method RunCommand(server: Server, org: string) returns (r: Result<(), ApiError>)
    modifies server
    ensures server.calls == old(server.calls) + PerformSpec(server.respond, old(server.calls), org).calls
    ensures r == Rethrown(PerformSpec(server.respond, old(server.calls), org).result)
  {
    r := Perform(server, org);
    r := Rethrown(r);
  }
}
