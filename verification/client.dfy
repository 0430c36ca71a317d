/**
 * The API-level view the two migration drivers have of GitHub: a client
 * that loads one endpoint at a time and either decodes the declared
 * response type or throws. The server is an oracle whose answer depends on
 * the calls it has already received and on the new one; the client records
 * every call it makes, in order.
 */
module Client {
  import opened Wrappers
  import opened Github
  import opened GithubApi
  import Transport

  /** What `load` throws: an HTTP failure with its status and body, a transport error, or undecodable data. */
  datatype ApiError =
    | Api(status: Transport.Status, body: Transport.Bytes)
    | Network(cause: Transport.NetworkError)
    | Decoding

  /** A decoded response. `Unit` stands for the ignored data of the protection writes. */
  datatype ApiValue =
    | Repositories(repos: seq<Repository>)
    | RepositoryValue(repository: Repository)
    | BranchValue(branch: Branch)
    | ProtectionValue(protection: Protection)
    | RefValue(gitRef: Ref)
    | Unit

  /** Whether a decoded value has the shape of the given response type. */
  predicate Conforms(v: ApiValue, kind: ResponseKind) {
    match kind
    case RepositoryList => v.Repositories?
    case RepositoryRecord => v.RepositoryValue?
    case BranchRecord => v.BranchValue?
    case ProtectionRecord => v.ProtectionValue?
    case RefRecord => v.RefValue?
    case NoContent => v.Unit?
  }

  /**
   * What `load` makes of the server's answer: errors pass through, data
   * that does not decode to the endpoint's response type is a decoding
   * error, and the endpoints that ignore their response data succeed with
   * `Unit` whatever data came back.
   */
  function Decoded(req: ApiRequest, raw: Result<ApiValue, ApiError>): (r: Result<ApiValue, ApiError>)
    ensures raw.Err? ==> r == raw
    ensures r.Ok? ==> Conforms(r.value, req.ResponseType())
    ensures req.IgnoresResponseData() ==> (r.Ok? <==> raw.Ok?)
    ensures !req.IgnoresResponseData() && raw.Ok? ==>
      (r.Ok? <==> Conforms(raw.value, req.ResponseType())) && (r.Ok? ==> r == raw)
  {
    match raw
    case Err(_) => raw
    case Ok(v) =>
      if req.IgnoresResponseData() then Ok(Unit)
      else if Conforms(v, req.ResponseType()) then raw
      else Err(Decoding)
  }

  /** The answer to `req` from a server that has already received `history`. */
  function Answer(respond: (seq<ApiRequest>, ApiRequest) -> Result<ApiValue, ApiError>,
                  history: seq<ApiRequest>, req: ApiRequest): Result<ApiValue, ApiError>
  {
    Decoded(req, respond(history, req))
  }

  /** The GitHub server as the drivers see it, with the trace of calls it received. */
  class Server {
    const respond: (seq<ApiRequest>, ApiRequest) -> Result<ApiValue, ApiError>
    var calls: seq<ApiRequest>

    constructor (respond: (seq<ApiRequest>, ApiRequest) -> Result<ApiValue, ApiError>)
      ensures this.respond == respond && calls == []
    {
      this.respond := respond;
      calls := [];
    }

    /** `NetworkClient.load`: issue one call and decode its answer. */
    method Load(req: ApiRequest) returns (r: Result<ApiValue, ApiError>)
      modifies this
      ensures calls == old(calls) + [req]
      ensures r == Answer(respond, old(calls), req)
    {
      r := Answer(respond, calls, req);
      calls := calls + [req];
    }
  }

  /** Appending a trace in two steps or in one gives the same trace. */
  lemma AppendAssociative<T>(a: seq<T>, b: seq<T>, c: seq<T>)
    ensures a + b + c == a + (b + c)
  {
  }

  /** The calls a piece of the driver issues and what it finally yields or throws. */
  datatype Run<T> = Run(calls: seq<ApiRequest>, result: Result<T, ApiError>)

  /**
   * A run that stops at the first failure: every call but the last was
   * answered successfully, a thrown error is the last call's error, and a
   * run that completes had its last call answered successfully.
   */
  predicate FailFast<T>(respond: (seq<ApiRequest>, ApiRequest) -> Result<ApiValue, ApiError>,
                        history: seq<ApiRequest>, run: Run<T>)
  {
    |run.calls| > 0 &&
    (forall k :: 0 <= k < |run.calls| - 1 ==> Answer(respond, history + run.calls[..k], run.calls[k]).Ok?) &&
    var last := Answer(respond, history + run.calls[..|run.calls| - 1], run.calls[|run.calls| - 1]);
    (run.result.Err? ==> last == Err(run.result.error)) &&
    (run.result.Ok? ==> last.Ok?)
  }

  /** Every call of `calls` was answered successfully, each against the history before it. */
  predicate AllOk(respond: (seq<ApiRequest>, ApiRequest) -> Result<ApiValue, ApiError>,
                  history: seq<ApiRequest>, calls: seq<ApiRequest>)
  {
    forall k :: 0 <= k < |calls| ==> Answer(respond, history + calls[..k], calls[k]).Ok?
  }

  /** Successful calls followed by one whose answer decides the result make a fail-fast run. */
  lemma FailFastLast<T>(respond: (seq<ApiRequest>, ApiRequest) -> Result<ApiValue, ApiError>,
                        history: seq<ApiRequest>, calls: seq<ApiRequest>, req: ApiRequest, result: Result<T, ApiError>)
    requires AllOk(respond, history, calls)
    requires result.Err? ==> Answer(respond, history + calls, req) == Err(result.error)
    requires result.Ok? ==> Answer(respond, history + calls, req).Ok?
    ensures FailFast(respond, history, Run(calls + [req], result))
  {
    var all := calls + [req];
    assert all[..|all| - 1] == calls;
    forall k | 0 <= k < |all| - 1
      ensures Answer(respond, history + all[..k], all[k]).Ok?
    {
      assert all[..k] == calls[..k];
    }
  }

  // ---------------------------------------------------------------------
  // The GH* convenience wrappers: every call about a listed repository is
  // addressed by the owner's login and the repository's name.
  // ---------------------------------------------------------------------

  predicate Addresses(req: ApiRequest, repo: Repository) {
    !req.ListOrgRepositories? && req.owner == repo.owner.login && req.repo == repo.name
  }

  function UpdateRepositoryOf(repo: Repository, settings: RepositoryUpdate): (r: ApiRequest)
    ensures Addresses(r, repo) && r.UpdateRepository? && r.settings == settings
  {
    UpdateRepository(repo.owner.login, repo.name, settings)
  }

  function GetBranchOf(branch: string, repo: Repository): (r: ApiRequest)
    ensures Addresses(r, repo) && r.GetBranch? && r.branch == branch
  {
    GetBranch(repo.owner.login, repo.name, branch)
  }

  function GetBranchProtectionOf(branch: string, repo: Repository): (r: ApiRequest)
    ensures Addresses(r, repo) && r.GetBranchProtection? && r.branch == branch
  {
    GetBranchProtection(repo.owner.login, repo.name, branch)
  }

  function UpdateBranchProtectionOf(branch: string, repo: Repository, protection: BranchProtectionUpdate): (r: ApiRequest)
    ensures Addresses(r, repo) && r.UpdateBranchProtection? && r.branch == branch && r.protection == protection
  {
    UpdateBranchProtection(repo.owner.login, repo.name, branch, protection)
  }

  function DeleteBranchProtectionOf(branch: string, repo: Repository): (r: ApiRequest)
    ensures Addresses(r, repo) && r.DeleteBranchProtection? && r.branch == branch
  {
    DeleteBranchProtection(repo.owner.login, repo.name, branch)
  }

  function RenameBranchOf(branch: string, repo: Repository, newName: string): (r: ApiRequest)
    ensures Addresses(r, repo) && r.RenameBranch? && r.branch == branch && r.newName == newName
  {
    RenameBranch(repo.owner.login, repo.name, branch, newName)
  }

  /** The listing both drivers start with: public repositories, up to 100 of them on one page. */
  function PublicListing(org: string): (r: ApiRequest)
    ensures r.ListOrgRepositories? && r.name == org && r.repoType == Some(PublicRepos)
    ensures r.resultsPerPage == Some(100) && r.sortBy.None? && r.sortAscending.None? && r.page.None?
  {
    ListOrgRepositories(org, repoType := Some(PublicRepos), resultsPerPage := Some(100))
  }

  // ---------------------------------------------------------------------
  // The activity filter shared by both drivers.
  // ---------------------------------------------------------------------

  function ActiveRepos(repos: seq<Repository>): (active: seq<Repository>)
    ensures |active| <= |repos|
    ensures forall r :: r in active <==> r in repos && r.IsActive()
  {
    if repos == [] then []
    else (if repos[0].IsActive() then [repos[0]] else []) + ActiveRepos(repos[1..])
  }

  /** Filtering keeps the listing order: it distributes over concatenation. */
  lemma {:induction false} ActiveReposAppend(a: seq<Repository>, b: seq<Repository>)
    ensures ActiveRepos(a + b) == ActiveRepos(a) + ActiveRepos(b)
    decreases |a|
  {
    if a == [] {
      assert a + b == b;
    } else {
      assert (a + b)[0] == a[0];
      assert (a + b)[1..] == a[1..] + b;
      ActiveReposAppend(a[1..], b);
    }
  }

  // ---------------------------------------------------------------------
  // Processing repositories one after the other, stopping at the first error.
  // ---------------------------------------------------------------------

  /**
   * Processes the repositories in order with `step`, each against the
   * server history left by the ones before it; the first failing
   * repository ends the run with its error.
   */
  function ProcessEach(step: (seq<ApiRequest>, Repository) -> Run<()>, history: seq<ApiRequest>, repos: seq<Repository>): Run<()>
    decreases |repos|
  {
    if repos == [] then Run([], Ok(()))
    else
      var first := step(history, repos[0]);
      if first.result.Err? then first
      else
        var rest := ProcessEach(step, history + first.calls, repos[1..]);
        Run(first.calls + rest.calls, rest.result)
  }

  /** Running `first` and then, if it succeeded, `next` against the history `first` left. */
  function AndThen(first: Run<()>, next: Run<()>): Run<()> {
    if first.result.Err? then first else Run(first.calls + next.calls, next.result)
  }

  /** One repository is processed exactly as `step` does it. */
  lemma ProcessEachSingle(step: (seq<ApiRequest>, Repository) -> Run<()>, history: seq<ApiRequest>, repo: Repository)
    ensures ProcessEach(step, history, [repo]) == step(history, repo)
  {
    var first := step(history, repo);
    if first.result.Ok? {
      assert [repo][1..] == [];
      assert ProcessEach(step, history + first.calls, []) == Run([], Ok(()));
      assert first.calls + [] == first.calls;
      assert first.result.value == ();
    }
  }

  /**
   * Strict sequencing: processing `a + b` is processing `a`, and only if
   * that succeeded, processing `b` after it.
   */
  lemma {:induction false} ProcessEachAppend(step: (seq<ApiRequest>, Repository) -> Run<()>, history: seq<ApiRequest>,
                                             a: seq<Repository>, b: seq<Repository>)
    ensures ProcessEach(step, history, a + b) ==
      AndThen(ProcessEach(step, history, a), ProcessEach(step, history + ProcessEach(step, history, a).calls, b))
    decreases |a|
  {
    if a == [] {
      assert a + b == b;
      assert history + [] == history;
    } else {
      assert (a + b)[0] == a[0];
      assert (a + b)[1..] == a[1..] + b;
      var first := step(history, a[0]);
      if first.result.Ok? {
        var h1 := history + first.calls;
        ProcessEachAppend(step, h1, a[1..], b);
        var restA := ProcessEach(step, h1, a[1..]);
        assert h1 + restA.calls == history + (first.calls + restA.calls);
        if restA.result.Ok? {
          var restB := ProcessEach(step, h1 + restA.calls, b);
          assert first.calls + (restA.calls + restB.calls) == (first.calls + restA.calls) + restB.calls;
        }
      }
    }
  }

  /**
   * One more repository after a successful prefix: if it succeeds the run
   * of the longer prefix is the two runs together, and if it fails the
   * whole run ends there with its error.
   */
  lemma ProcessEachExtend(step: (seq<ApiRequest>, Repository) -> Run<()>, history: seq<ApiRequest>,
                          repos: seq<Repository>, i: nat)
    requires i < |repos|
    requires ProcessEach(step, history, repos[..i]).result.Ok?
    ensures var before := ProcessEach(step, history, repos[..i]);
      var one := step(history + before.calls, repos[i]);
      (one.result.Ok? ==> ProcessEach(step, history, repos[..i + 1]) == Run(before.calls + one.calls, Ok(()))) &&
      (one.result.Err? ==> ProcessEach(step, history, repos) == Run(before.calls + one.calls, one.result))
  {
    var before := ProcessEach(step, history, repos[..i]);
    var one := step(history + before.calls, repos[i]);
    assert repos[..i + 1] == repos[..i] + [repos[i]];
    ProcessEachAppend(step, history, repos[..i], [repos[i]]);
    ProcessEachSingle(step, history + before.calls, repos[i]);
    if one.result.Ok? {
      assert one.result.value == ();
    } else {
      NoCallsAfterFailure(step, history, repos, i + 1);
    }
  }

  /**
   * One more repository, stated on the histories before and after it: the
   * run over the longer prefix adds that repository's calls and ends with
   * its outcome.
   */
  lemma ProcessEachStep(step: (seq<ApiRequest>, Repository) -> Run<()>, start: seq<ApiRequest>,
                        repos: seq<Repository>, i: nat,
                        history: seq<ApiRequest>, history': seq<ApiRequest>, one: Result<(), ApiError>)
    requires i < |repos|
    requires ProcessEach(step, start, repos[..i]).result.Ok?
    requires history == start + ProcessEach(step, start, repos[..i]).calls
    requires history' == history + step(history, repos[i]).calls
    requires one == step(history, repos[i]).result
    ensures history' == start + ProcessEach(step, start, repos[..i + 1]).calls
    ensures one == ProcessEach(step, start, repos[..i + 1]).result
  {
    var prefix := repos[..i + 1];
    assert prefix[..i] == repos[..i] && prefix[i] == repos[i] && prefix[..i + 1] == prefix;
    var before := ProcessEach(step, start, repos[..i]);
    ProcessEachExtend(step, start, prefix, i);
    AppendAssociative(start, before.calls, step(history, repos[i]).calls);
    if one.Ok? {
      assert one.value == ();
    }
  }

  /** Once a repository has failed, the repositories after it get no calls at all. */
  lemma NoCallsAfterFailure(step: (seq<ApiRequest>, Repository) -> Run<()>, history: seq<ApiRequest>,
                            repos: seq<Repository>, k: nat)
    requires k <= |repos|
    requires ProcessEach(step, history, repos[..k]).result.Err?
    ensures ProcessEach(step, history, repos) == ProcessEach(step, history, repos[..k])
  {
    assert repos == repos[..k] + repos[k..];
    ProcessEachAppend(step, history, repos[..k], repos[k..]);
  }

  /**
   * Every repository was processed successfully exactly when the whole run
   * succeeded: a completed run processed each repository with `step`.
   */
  lemma {:induction false} ProcessEachOk(step: (seq<ApiRequest>, Repository) -> Run<()>, history: seq<ApiRequest>,
                                         repos: seq<Repository>, k: nat)
    requires k < |repos|
    requires ProcessEach(step, history, repos).result.Ok?
    ensures ProcessEach(step, history, repos[..k]).result.Ok?
    ensures step(history + ProcessEach(step, history, repos[..k]).calls, repos[k]).result.Ok?
    ensures var before := ProcessEach(step, history, repos[..k]).calls;
      before + step(history + before, repos[k]).calls <= ProcessEach(step, history, repos).calls
  {
    var pre := ProcessEach(step, history, repos[..k]);
    assert repos == repos[..k] + repos[k..];
    ProcessEachAppend(step, history, repos[..k], repos[k..]);
    var tail := repos[k..];
    assert tail[0] == repos[k];
    var here := step(history + pre.calls, repos[k]);
    if here.result.Ok? {
      var rest := ProcessEach(step, history + pre.calls + here.calls, tail[1..]);
      assert ProcessEach(step, history + pre.calls, tail).calls == here.calls + rest.calls;
      assert pre.calls + here.calls + rest.calls == ProcessEach(step, history, repos).calls;
    }
  }

  /** When every step only issues calls about its own repository, every call of the run is about one of the repositories. */
  lemma {:induction false} ProcessEachAddressesOnly(step: (seq<ApiRequest>, Repository) -> Run<()>, history: seq<ApiRequest>,
                                                    repos: seq<Repository>)
    requires forall h, r, c :: c in step(h, r).calls ==> Addresses(c, r)
    ensures forall c :: c in ProcessEach(step, history, repos).calls ==> exists r :: r in repos && Addresses(c, r)
    decreases |repos|
  {
    if repos != [] {
      var first := step(history, repos[0]);
      if first.result.Ok? {
        ProcessEachAddressesOnly(step, history + first.calls, repos[1..]);
        var rest := ProcessEach(step, history + first.calls, repos[1..]);
        assert ProcessEach(step, history, repos).calls == first.calls + rest.calls;
        forall c | c in ProcessEach(step, history, repos).calls
          ensures exists r :: r in repos && Addresses(c, r)
        {
          if c in first.calls {
            assert repos[0] in repos && Addresses(c, repos[0]);
          } else {
            assert c in rest.calls;
            var r :| r in repos[1..] && Addresses(c, r);
            assert r in repos;
          }
        }
      }
    }
  }

  /**
   * The error handler of `run`: an API error is reported and thrown again
   * with the same status and body; every other outcome passes through.
   */
  function Rethrown(result: Result<(), ApiError>): (r: Result<(), ApiError>)
    ensures result.Err? && result.error.Api? ==> r == Err(Api(result.error.status, result.error.body))
    ensures !(result.Err? && result.error.Api?) ==> r == result
  {
    match result
    case Err(Api(status, body)) => Err(Api(status, body))
    case _ => result
  }

  /** Rethrowing changes nothing: the command fails with exactly the error `perform` threw. */
  lemma RethrownIsIdentity(result: Result<(), ApiError>)
    ensures Rethrown(result) == result
  {
  }
}
