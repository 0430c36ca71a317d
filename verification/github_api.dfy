/**
 * The GitHub REST endpoints the migration uses, and how each builds its
 * URLRequest against a base URL: the HTTP method, the path below the base
 * URL, the ordered query items, extra header fields and the request body.
 * Bodies are kept as abstract values; their JSON encoding is not part of
 * this model.
 */
module GithubApi {
  import opened Wrappers
  import opened UrlComponents
  import opened Github

  /** The namespace of a Git reference. */
  datatype RefType = BranchRef | TagRef | PullRef {
    /** The namespace's directory under `refs/`: branches live in `heads`, tags in `tags`, pull requests in `pull`. */
    function RawValue(): (raw: string)
      ensures this.BranchRef? ==> raw == "heads"
      ensures this.TagRef? ==> raw == "tags"
      ensures this.PullRef? ==> raw == "pull"
    {
      match this
      case BranchRef => "heads"
      case TagRef => "tags"
      case PullRef => "pull"
    }
  }

  /** `RefType(rawValue:)`. */
  function RefTypeFromRawValue(raw: string): (t: Option<RefType>)
    ensures t.Some? <==> (raw == "heads" || raw == "tags" || raw == "pull")
  {
    if raw == "heads" then Some(BranchRef)
    else if raw == "tags" then Some(TagRef)
    else if raw == "pull" then Some(PullRef)
    else None
  }

  /** Raw values tell reference types apart: parsing the raw value gives the type back. */
  lemma RefTypeRawValueRoundTrip(t: RefType)
    ensures RefTypeFromRawValue(t.RawValue()) == Some(t)
  {
  }

  datatype RepoType = AllRepos | PublicRepos | PrivateRepos | Forks | Sources | Member | InternalRepos {
    function RawValue(): string {
      match this
      case AllRepos => "all"
      case PublicRepos => "public"
      case PrivateRepos => "private"
      case Forks => "forks"
      case Sources => "sources"
      case Member => "member"
      case InternalRepos => "internal"
    }
  }

  datatype Sort = Created | Updated | Pushed | FullName {
    function RawValue(): string {
      match this
      case Created => "created"
      case Updated => "updated"
      case Pushed => "pushed"
      case FullName => "full_name"
    }
  }

  /** A request body, before JSON encoding. */
  datatype Payload =
    | RepositoryUpdateBody(settings: RepositoryUpdate)
    | ProtectionUpdateBody(protection: BranchProtectionUpdate)
    | StringDictionary(entries: map<string, string>)

  /** The record type a successful response decodes to; `NoContent` when the response data is ignored. */
  datatype ResponseKind = RepositoryList | RepositoryRecord | BranchRecord | ProtectionRecord | RefRecord | NoContent

  /** The endpoints of the GitHub REST API the migration drivers call. */
  datatype ApiRequest =
    | ListOrgRepositories(
        name: string,
        repoType: Option<RepoType> := None,
        sortBy: Option<Sort> := None,
        sortAscending: Option<bool> := None,
        resultsPerPage: Option<int> := None,
        page: Option<int> := None)
    | UpdateRepository(owner: string, repo: string, settings: RepositoryUpdate)
    | GetBranch(owner: string, repo: string, branch: string)
    | GetBranchProtection(owner: string, repo: string, branch: string)
    | UpdateBranchProtection(owner: string, repo: string, branch: string, protection: BranchProtectionUpdate)
    | DeleteBranchProtection(owner: string, repo: string, branch: string)
    | RenameBranch(owner: string, repo: string, branch: string, newName: string)
    | GetRef(owner: string, repo: string, refType: RefType, refName: string)
    | CreateRef(owner: string, repo: string, refType: RefType, refName: string, sha: string)
  {
    /** The declared response data type of the endpoint. */
    function ResponseType(): ResponseKind {
      match this
      case ListOrgRepositories(_, _, _, _, _, _) => RepositoryList
      case UpdateRepository(_, _, _) => RepositoryRecord
      case GetBranch(_, _, _) => BranchRecord
      case GetBranchProtection(_, _, _) => ProtectionRecord
      case UpdateBranchProtection(_, _, _, _) => NoContent
      case DeleteBranchProtection(_, _, _) => NoContent
      case RenameBranch(_, _, _, _) => BranchRecord
      case GetRef(_, _, _, _) => RefRecord
      case CreateRef(_, _, _, _, _) => RefRecord
    }

    /** The two protection writes override response parsing to ignore whatever data comes back. */
    predicate IgnoresResponseData()
      ensures IgnoresResponseData() <==> (UpdateBranchProtection? || DeleteBranchProtection?)
    {
      ResponseType() == NoContent
    }
  }

  /** `GetRef.branch(_:from:)`: the branch ref of a listed repository. */
  function GetRefBranch(branch: string, repo: Repository): (r: ApiRequest)
    ensures r.GetRef? && r.owner == repo.owner.login && r.repo == repo.name
    ensures r.refType == BranchRef && r.refName == branch
  {
    GetRef(repo.owner.login, repo.name, BranchRef, branch)
  }

  /** `GetRef.tag(_:from:)`. */
  function GetRefTag(tag: string, repo: Repository): (r: ApiRequest)
    ensures r.GetRef? && r.owner == repo.owner.login && r.repo == repo.name
    ensures r.refType == TagRef && r.refName == tag
  {
    GetRef(repo.owner.login, repo.name, TagRef, tag)
  }

  /** `CreateRef.branch(_:at:in:)`. */
  function CreateRefBranch(branch: string, sha: string, repo: Repository): (r: ApiRequest)
    ensures r.CreateRef? && r.owner == repo.owner.login && r.repo == repo.name
    ensures r.refType == BranchRef && r.refName == branch && r.sha == sha
  {
    CreateRef(repo.owner.login, repo.name, BranchRef, branch, sha)
  }

  /** `CreateRef.tag(_:at:in:)`. */
  function CreateRefTag(tag: string, sha: string, repo: Repository): (r: ApiRequest)
    ensures r.CreateRef? && r.owner == repo.owner.login && r.repo == repo.name
    ensures r.refType == TagRef && r.refName == tag && r.sha == sha
  {
    CreateRef(repo.owner.login, repo.name, TagRef, tag, sha)
  }

  function Identity(s: string): string { s }

  /** The optional query items of a repository listing, in the order the endpoint lists them. */
  function ListQueryItems(req: ApiRequest): seq<Option<QueryItem>>
    requires req.ListOrgRepositories?
  {
    [ RequiredQueryItem("type", if req.repoType.Some? then Some(req.repoType.value.RawValue()) else None, Identity),
      RequiredQueryItem("sort", if req.sortBy.Some? then Some(req.sortBy.value.RawValue()) else None, Identity),
      RequiredQueryItem("direction", if req.sortAscending.Some? then Some(if req.sortAscending.value then "asc" else "desc") else None, Identity),
      RequiredQueryItem("per_page", req.resultsPerPage, IntDescription),
      RequiredQueryItem("page", req.page, IntDescription) ]
  }

  /** `makeRequest(baseURL:)` of each endpoint. */
  function MakeRequest(req: ApiRequest, baseURL: Url): (r: Request<Payload>)
    ensures r.url.origin == baseURL.origin
  {
    match req
    case ListOrgRepositories(name, _, _, _, _, _) =>
      PlainRequest(WithQuery(TraversingFor(baseURL, ["orgs", name], "repos"), ListQueryItems(req)), None)
    case UpdateRepository(owner, repo, settings) =>
      PlainRequest(Traversing(baseURL, ["repos", owner, repo]), Some("PATCH")).(body := Some(RepositoryUpdateBody(settings)))
    case GetBranch(owner, repo, branch) =>
      PlainRequest(TraversingFor(baseURL, ["repos", owner, repo, "branches"], branch), None)
    case GetBranchProtection(owner, repo, branch) =>
      PlainRequest(TraversingFor(baseURL, ["repos", owner, repo, "branches", branch], "protection"), None)
    case UpdateBranchProtection(owner, repo, branch, protection) =>
      var request := PlainRequest(TraversingFor(baseURL, ["repos", owner, repo, "branches", branch], "protection"), Some("PUT"));
      SetHeader(request.(body := Some(ProtectionUpdateBody(protection))), "accept", Some("application/vnd.github.luke-cage-preview+json"))
    case DeleteBranchProtection(owner, repo, branch) =>
      PlainRequest(TraversingFor(baseURL, ["repos", owner, repo, "branches", branch], "protection"), Some("DELETE"))
    case RenameBranch(owner, repo, branch, newName) =>
      PlainRequest(TraversingFor(baseURL, ["repos", owner, repo, "branches", branch], "rename"), Some("POST"))
        .(body := Some(StringDictionary(map["new_name" := newName])))
    case GetRef(owner, repo, refType, refName) =>
      PlainRequest(TraversingFor(baseURL, ["repos", owner, repo, "git", "ref", refType.RawValue()], refName), None)
    case CreateRef(owner, repo, refType, refName, sha) =>
      var request := PlainRequest(TraversingFor(baseURL, ["repos", owner, repo, "git"], "refs"), None);
      request.(httpMethod := Some("POST"))
        .(body := Some(StringDictionary(map["ref" := "refs/" + refType.RawValue() + "/" + refName, "sha" := sha])))
  }

  // ---------------------------------------------------------------------
  // The endpoint table: method, directories and final file component.
  // ---------------------------------------------------------------------

  /** Where an endpoint lives: its directories below the base URL and its final (file) component, if any. */
  datatype Route = Route(httpMethod: Option<string>, directories: seq<string>, file: Option<string>)

  function Endpoint(req: ApiRequest): Route {
    match req
    case ListOrgRepositories(name, _, _, _, _, _) => Route(None, ["orgs", name], Some("repos"))
    case UpdateRepository(owner, repo, _) => Route(Some("PATCH"), ["repos", owner, repo], None)
    case GetBranch(owner, repo, branch) => Route(None, ["repos", owner, repo, "branches"], Some(branch))
    case GetBranchProtection(owner, repo, branch) => Route(None, ["repos", owner, repo, "branches", branch], Some("protection"))
    case UpdateBranchProtection(owner, repo, branch, _) => Route(Some("PUT"), ["repos", owner, repo, "branches", branch], Some("protection"))
    case DeleteBranchProtection(owner, repo, branch) => Route(Some("DELETE"), ["repos", owner, repo, "branches", branch], Some("protection"))
    case RenameBranch(owner, repo, branch, _) => Route(Some("POST"), ["repos", owner, repo, "branches", branch], Some("rename"))
    case GetRef(owner, repo, refType, refName) => Route(None, ["repos", owner, repo, "git", "ref", refType.RawValue()], Some(refName))
    case CreateRef(owner, repo, _, _, _) => Route(Some("POST"), ["repos", owner, repo, "git"], Some("refs"))
  }

  /** The path a route appends to a base path. */
  function RoutePath(route: Route): seq<PathComponent> {
    Directories(route.directories) + (if route.file.Some? then [FileComponent(route.file.value)] else [])
  }

  /**
   * Every request goes to its endpoint: the base path followed by the
   * endpoint's directories and file, with the endpoint's method; only a
   * repository listing replaces the query, only a protection update adds a
   * header field, and exactly the writes carry a body (the reads and the
   * protection delete send none).
   */
  lemma MakeRequestFollowsEndpoint(req: ApiRequest, baseURL: Url)
    ensures var r := MakeRequest(req, baseURL);
      && r.url.path == baseURL.path + RoutePath(Endpoint(req))
      && r.httpMethod == Endpoint(req).httpMethod
      && (!req.ListOrgRepositories? ==> r.url.query == baseURL.query)
      && (!req.UpdateBranchProtection? ==> r.headers == map[])
      && (r.body.None? <==>
            req.ListOrgRepositories? || req.GetBranch? || req.GetBranchProtection? || req.DeleteBranchProtection? || req.GetRef?)
  {
    var route := Endpoint(req);
    if req.UpdateRepository? {
      TraversingAppendsDirectories(baseURL, route.directories);
      assert RoutePath(route) == Directories(route.directories);
    } else if req.ListOrgRepositories? {
      TraversingForPath(baseURL, route.directories, route.file.value);
    } else {
      TraversingForPath(baseURL, route.directories, route.file.value);
    }
  }

  /** A request goes out as GET (no method set) exactly for the read-only endpoints. */
  lemma EffectiveMethodIsGetForReads(req: ApiRequest, baseURL: Url)
    ensures EffectiveMethod(MakeRequest(req, baseURL)) == "GET"
      <==> (req.ListOrgRepositories? || req.GetBranch? || req.GetBranchProtection? || req.GetRef?)
  {
    MakeRequestFollowsEndpoint(req, baseURL);
  }

  function TypeItems(repoType: Option<RepoType>): seq<QueryItem> {
    if repoType.Some? then [QueryItem("type", Some(repoType.value.RawValue()))] else []
  }

  function SortItems(sortBy: Option<Sort>): seq<QueryItem> {
    if sortBy.Some? then [QueryItem("sort", Some(sortBy.value.RawValue()))] else []
  }

  function NumberItems(name: string, n: Option<int>): seq<QueryItem> {
    if n.Some? then [QueryItem(name, Some(IntDescription(n.value)))] else []
  }

  /** The direction item: "asc" when ascending, "desc" when descending, none when unset. */
  function DirectionItems(sortAscending: Option<bool>): seq<QueryItem> {
    match sortAscending
    case Some(true) => [QueryItem("direction", Some("asc"))]
    case Some(false) => [QueryItem("direction", Some("desc"))]
    case None => []
  }

  /** The same query items built by concatenating the present ones, in endpoint order. */
  function ExpectedListQuery(req: ApiRequest): seq<QueryItem>
    requires req.ListOrgRepositories?
  {
    TypeItems(req.repoType) + (SortItems(req.sortBy) + (DirectionItems(req.sortAscending)
      + (NumberItems("per_page", req.resultsPerPage) + NumberItems("page", req.page))))
  }

  lemma CompactedFive(items: seq<Option<QueryItem>>)
    requires |items| == 5
    ensures Compacted(items) == Present(items[0]) + (Present(items[1]) + (Present(items[2]) + (Present(items[3]) + Present(items[4]))))
  {
    var t1, t2, t3, t4 := items[1..], items[2..], items[3..], items[4..];
    assert t1[1..] == t2 && t2[1..] == t3 && t3[1..] == t4 && t4[1..] == [];
    assert Compacted(t4) == Present(items[4]);
    assert Compacted(t3) == Present(items[3]) + Compacted(t4);
    assert Compacted(t2) == Present(items[2]) + Compacted(t3);
    assert Compacted(t1) == Present(items[1]) + Compacted(t2);
    assert Compacted(items) == Present(items[0]) + Compacted(t1);
  }

  /**
   * A repository listing carries exactly the items type, sort, direction,
   * per_page and page whose fields are set, in that order, whatever query
   * the base URL had.
   */
  lemma ListOrgRepositoriesQuery(req: ApiRequest, baseURL: Url)
    requires req.ListOrgRepositories?
    ensures MakeRequest(req, baseURL).url.query == Some(ExpectedListQuery(req))
  {
    var items := ListQueryItems(req);
    CompactedFive(items);
    assert Present(items[0]) == TypeItems(req.repoType);
    assert Present(items[1]) == SortItems(req.sortBy);
    assert Present(items[2]) == DirectionItems(req.sortAscending);
    assert Present(items[3]) == NumberItems("per_page", req.resultsPerPage);
    assert Present(items[4]) == NumberItems("page", req.page);
  }

  /** No item of `items` is called `name`. */
  predicate NoneNamed(items: seq<QueryItem>, name: string) {
    forall q :: q in items ==> q.name != name
  }

  /** Only the direction part of a listing query has items named "direction". */
  lemma ExpectedListDirection(req: ApiRequest)
    requires req.ListOrgRepositories?
    ensures forall q :: q in ExpectedListQuery(req) && q.name == "direction" ==> q in DirectionItems(req.sortAscending)
    ensures forall q :: q in DirectionItems(req.sortAscending) ==> q in ExpectedListQuery(req)
  {
    var direction := DirectionItems(req.sortAscending);
    var before := TypeItems(req.repoType) + SortItems(req.sortBy);
    var after := NumberItems("per_page", req.resultsPerPage) + NumberItems("page", req.page);
    assert NoneNamed(before, "direction");
    assert NoneNamed(after, "direction");
    assert ExpectedListQuery(req) == before + (direction + after);
  }

  /** The sort direction is "asc" exactly when ascending, "desc" exactly when descending, and omitted when unset. */
  lemma ListOrgRepositoriesDirection(req: ApiRequest, baseURL: Url)
    requires req.ListOrgRepositories?
    ensures var query := MakeRequest(req, baseURL).url.query.value;
      && (QueryItem("direction", Some("asc")) in query <==> req.sortAscending == Some(true))
      && (QueryItem("direction", Some("desc")) in query <==> req.sortAscending == Some(false))
      && ((forall q :: q in query ==> q.name != "direction") <==> req.sortAscending.None?)
  {
    ListOrgRepositoriesQuery(req, baseURL);
    ExpectedListDirection(req);
  }

  /** The settings update is a PATCH of the repository itself, carrying the update as its body. */
  lemma UpdateRepositoryRequest(owner: string, repo: string, settings: RepositoryUpdate, baseURL: Url)
    ensures var r := MakeRequest(UpdateRepository(owner, repo, settings), baseURL);
      && r.url.path == baseURL.path + Directories(["repos", owner, repo])
      && r.httpMethod == Some("PATCH")
      && r.body == Some(RepositoryUpdateBody(settings))
  {
    MakeRequestFollowsEndpoint(UpdateRepository(owner, repo, settings), baseURL);
  }

  /** A protection update is a PUT that carries the update and asks for the protection preview media type. */
  lemma UpdateBranchProtectionRequest(owner: string, repo: string, branch: string, protection: BranchProtectionUpdate, baseURL: Url)
    ensures var r := MakeRequest(UpdateBranchProtection(owner, repo, branch, protection), baseURL);
      && r.url.path == baseURL.path + Directories(["repos", owner, repo, "branches", branch]) + [FileComponent("protection")]
      && r.httpMethod == Some("PUT")
      && r.body == Some(ProtectionUpdateBody(protection))
      && HeaderValue(r, "Accept") == Some("application/vnd.github.luke-cage-preview+json")
      && (forall name :: FoldedName(name) != "accept" ==> HeaderValue(r, name).None?)
  {
    MakeRequestFollowsEndpoint(UpdateBranchProtection(owner, repo, branch, protection), baseURL);
    assert FoldedName("Accept") == FoldedName("accept") == "accept";
  }

  /** Deleting protection targets the same resource as reading or writing it. */
  lemma ProtectionEndpointsShareResource(owner: string, repo: string, branch: string, protection: BranchProtectionUpdate, baseURL: Url)
    ensures MakeRequest(DeleteBranchProtection(owner, repo, branch), baseURL).url
      == MakeRequest(GetBranchProtection(owner, repo, branch), baseURL).url
      == MakeRequest(UpdateBranchProtection(owner, repo, branch, protection), baseURL).url
    ensures MakeRequest(DeleteBranchProtection(owner, repo, branch), baseURL).httpMethod == Some("DELETE")
    ensures MakeRequest(DeleteBranchProtection(owner, repo, branch), baseURL).body.None?
  {
  }

  /** A rename is a POST to the branch's `rename` resource whose body names the new branch. */
  lemma RenameBranchRequest(owner: string, repo: string, branch: string, newName: string, baseURL: Url)
    ensures var r := MakeRequest(RenameBranch(owner, repo, branch, newName), baseURL);
      && r.url.path == baseURL.path + Directories(["repos", owner, repo, "branches", branch]) + [FileComponent("rename")]
      && r.httpMethod == Some("POST")
      && r.body == Some(StringDictionary(map["new_name" := newName]))
  {
    MakeRequestFollowsEndpoint(RenameBranch(owner, repo, branch, newName), baseURL);
  }

  /**
   * A ref is read at `git/ref/{namespace}/{name}` and created by a POST to
   * `git/refs` whose body names the full ref `refs/{namespace}/{name}` and the sha.
   */
  lemma RefRequests(owner: string, repo: string, refType: RefType, refName: string, sha: string, baseURL: Url)
    ensures var r := MakeRequest(GetRef(owner, repo, refType, refName), baseURL);
      && r.url.path == baseURL.path + Directories(["repos", owner, repo, "git", "ref", refType.RawValue()]) + [FileComponent(refName)]
      && r.httpMethod.None? && r.body.None?
    ensures var r := MakeRequest(CreateRef(owner, repo, refType, refName, sha), baseURL);
      && r.url.path == baseURL.path + Directories(["repos", owner, repo, "git"]) + [FileComponent("refs")]
      && r.httpMethod == Some("POST")
      && r.body.Some? && r.body.value.StringDictionary?
      && r.body.value.entries.Keys == {"ref", "sha"}
      && r.body.value.entries["ref"] == "refs/" + refType.RawValue() + "/" + refName
      && r.body.value.entries["sha"] == sha
  {
    MakeRequestFollowsEndpoint(GetRef(owner, repo, refType, refName), baseURL);
    MakeRequestFollowsEndpoint(CreateRef(owner, repo, refType, refName, sha), baseURL);
  }

  /** Every request is what the URLRequest initializer produces with no extra header fields, plus any body and header set afterwards. */
  lemma MakeRequestStartsPlain(req: ApiRequest, baseURL: Url)
    requires !req.UpdateBranchProtection?
    ensures var r := MakeRequest(req, baseURL);
      InitializedWith(r.(body := None), r.url, map[], r.httpMethod)
  {
    MakeRequestFollowsEndpoint(req, baseURL);
    var r := MakeRequest(req, baseURL);
    InitializedWithoutHeaders(r.(body := None), r.url, r.httpMethod);
  }
}
