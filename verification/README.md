# ghrepocleanup in Dafny

This project models the core of `ghrepocleanup`, a command-line tool that moves the repositories of a GitHub organization from a `master` default branch to `main`. It covers:

- **Two migration drivers.**
  - `main.swift`: the first driver is a six-stage pipeline per repository. It reads the `master` ref, creates `main` at the same sha, reads `master`'s protection, writes a derived protection to `main`, locks `master`, and makes `main` the default branch.
  - `ghrepoclean.swift`: the second driver renames `master` to `main`. When `master` does not exist, it falls back to fetching an existing `main`.
  - Both drivers list the organization's public repositories first. They keep the active ones (the first driver also keeps only those on `master`), and process them strictly one after another. The first thrown error ends the run, and the command rethrows it.
- **The GitHub request builders.** These are the endpoint of each request (method, path, query, header fields and body), the ref namespaces, and the records the drivers read and write.
- **The two transports.**
  - The HTTP client defaults the User-Agent and classifies the reply.
  - The authorization decorator caches an `Authorization` header. On a 401 it asks an optional callback for new credentials and retries with them.
- **The URL helpers** the builders rely on: optional query items, replacing and extending a query, path extensions, directory and file traversal, and `URLRequest` construction with case-insensitive header fields.

The network is an oracle. At the API level it is `Client.Server`: its answer to a request is a function of the calls it has already received and of the new request. At the HTTP level, `Transport.HttpClient` works the same way over prepared requests. Every driver is a method that records its calls on the server. Each method is proved equal to a specification function, which gives the calls issued and the result. The properties of the drivers are lemmas about those functions.

Files:

| file | module | models |
|---|---|---|
| `wrappers.dfy` | `Wrappers` | `Option`, `Result` |
| `url_components.dfy` | `UrlComponents` | URLComponents+Utilities.swift |
| `github_models.dfy` | `Github` | GithubModels.swift |
| `github_api.dfy` | `GithubApi` | GithubAPI.swift |
| `transport.dfy` | `Transport` | HTTPClient+Transport.swift |
| `client.dfy` | `Client` | the API client both drivers share: `load`, the `GH*` wrappers, the activity filter, the sequential loop, the rethrow |
| `migration_v1.dfy` | `MigrationV1` | main.swift |
| `migration_v2.dfy` | `MigrationV2` | ghrepoclean.swift |

Behaviour of the code worth noting:

- The first driver creates `main` with a GetRef/CreateRef pair. It does not rename.
- The dismissal teams written to `main` are the teams' `name`s, not their slugs.
- The authorization decorator has no retry cap.
- The second driver applies no default-branch filter, and it stops after the rename. Its protection and settings stages are commented out in the source.

## Model

| member | source | states |
|---|---|---|
| UrlComponents.DigitChar | Sources/ghrepoclean/URLComponents+Utilities.swift:155 | the digit character of a decimal digit lies in `'0'..'9'` and denotes that digit |
| UrlComponents.NatDescription | Sources/ghrepoclean/URLComponents+Utilities.swift:155 | the decimal description of a natural number is a non-empty digit string without a leading zero |
| UrlComponents.NatDescriptionValue | Sources/ghrepoclean/URLComponents+Utilities.swift:155 | reading the digits of a description back gives the number |
| UrlComponents.IntDescriptionRoundTrip | Sources/ghrepoclean/URLComponents+Utilities.swift:155 | an integer's description, with a sign for negative values, parses back to the same integer, so a numeric query value is exact |
| UrlComponents.RequiredQueryItem | Sources/ghrepoclean/URLComponents+Utilities.swift:151-156 | there is no item exactly when the value is missing; otherwise the item has the given name and the value's description |
| UrlComponents.Compacted | Sources/ghrepoclean/URLComponents+Utilities.swift:115-117 | the compacted list holds exactly the present items, and is no longer than the input |
| UrlComponents.CompactedAppend | Sources/ghrepoclean/URLComponents+Utilities.swift:103-117 | compacting distributes over concatenation, so the present items keep their order |
| UrlComponents.CompactedAllPresent | Sources/ghrepoclean/URLComponents+Utilities.swift:115-117 | when every item is present, compacting keeps each of them at its own position |
| UrlComponents.SetQueryItemsReplaces | Sources/ghrepoclean/URLComponents+Utilities.swift:115-117 | setting makes the query exactly the present items and keeps origin and path |
| UrlComponents.AddToAbsentQueryIsSet | Sources/ghrepoclean/URLComponents+Utilities.swift:103-105 | adding to a URL without a query is the same as setting |
| UrlComponents.AddAfterSet | Sources/ghrepoclean/URLComponents+Utilities.swift:103-117 | adding after setting equals setting the concatenated item list |
| UrlComponents.AddQueryItemsKeepsExisting | Sources/ghrepoclean/URLComponents+Utilities.swift:103-105 | adding keeps the existing items (none when absent) as a prefix, followed by the present new items in order |
| UrlComponents.WithQueryIgnoresOldQuery | Sources/ghrepoclean/URLComponents+Utilities.swift:21-30 | `withQuery` replaces any existing query: the result does not depend on the old query, and applying it twice changes nothing more |
| UrlComponents.Directories | Sources/ghrepoclean/URLComponents+Utilities.swift:332-334 | one directory component per name |
| UrlComponents.Typed | Sources/ghrepoclean/URLComponents+Utilities.swift:258-260 | typing keeps origin, query and the number of path components |
| UrlComponents.TypedAppendsExtensions | Sources/ghrepoclean/URLComponents+Utilities.swift:258-260 | the extensions are appended in order to the last path component only; a URL without a path is unchanged |
| UrlComponents.TypedConcat | Sources/ghrepoclean/URLComponents+Utilities.swift:258-260 | typing with a concatenation is typing with each part in turn |
| UrlComponents.RetypedReplacesLastExtension | Sources/ghrepoclean/URLComponents+Utilities.swift:280-282 | retyping removes the last extension of the last component, from its appended extensions when it has any and otherwise from its name, then appends the new ones |
| UrlComponents.Stem | Sources/ghrepoclean/URLComponents+Utilities.swift:280-282 | the stem is a prefix of the name, and is the whole name exactly when the name is `..` or has no '.' after its first character |
| UrlComponents.ExtensionsDeleted | Sources/ghrepoclean/URLComponents+Utilities.swift:280-282 | deleting keeps every appended extension but the last; the last is dropped when it has no dot, and otherwise cut back to a proper prefix |
| UrlComponents.DeletingUndoesAppending | Sources/ghrepoclean/URLComponents+Utilities.swift:280-282 | deleting an extension just appended, one without a dot, gives back the URL |
| UrlComponents.StemDropsSpelledExtension | Sources/ghrepoclean/URLComponents+Utilities.swift:280-282 | the stem of `stem.ext` is `stem` when `ext` has no dot and `stem` is not empty |
| UrlComponents.RetypingSpelledExtension | Sources/ghrepoclean/URLComponents+Utilities.swift:280-282 | retyping a file named `stem.ext` gives the file `stem` typed with the new specifiers |
| UrlComponents.Traversing | Sources/ghrepoclean/URLComponents+Utilities.swift:349-351 | traversal keeps origin and query and adds one component per subdirectory |
| UrlComponents.TraversingAppendsDirectories | Sources/ghrepoclean/URLComponents+Utilities.swift:332-351 | traversal appends exactly the subdirectories, as directories, in order |
| UrlComponents.TraversingForPath | Sources/ghrepoclean/URLComponents+Utilities.swift:371-373 | traversal for a file appends the directories and then one file component |
| UrlComponents.TraversingForAsPath | Sources/ghrepoclean/URLComponents+Utilities.swift:405-407 | traversal for a typed file puts the extensions on the file component |
| UrlComponents.Type | Sources/ghrepoclean/URLComponents+Utilities.swift:268-270 | the in-place loop over the specifiers yields the same URL as `typed(as:)` |
| UrlComponents.Retype | Sources/ghrepoclean/URLComponents+Utilities.swift:290-293 | the in-place variant yields the same URL as `retyped(as:)` |
| UrlComponents.Traverse | Sources/ghrepoclean/URLComponents+Utilities.swift:359-361 | the in-place loop over the subdirectories yields the same URL as `traversing(_:)` |
| UrlComponents.TraverseFor | Sources/ghrepoclean/URLComponents+Utilities.swift:382-385 | the in-place variant yields the same URL as `traversing(_:for:)` |
| UrlComponents.Identify | Sources/ghrepoclean/URLComponents+Utilities.swift:324-327 | the in-place variant yields the same URL as `identifying(_:as:)` |
| UrlComponents.TraverseForAs | Sources/ghrepoclean/URLComponents+Utilities.swift:425-428 | the in-place variant yields the same URL as `traversing(_:for:as:)` |
| UrlComponents.FoldedName | Sources/ghrepoclean/URLComponents+Utilities.swift:171-173 | folding a header name keeps its length |
| UrlComponents.FoldedNameIdempotent | Sources/ghrepoclean/URLComponents+Utilities.swift:171-173 | folding twice is folding once |
| UrlComponents.FoldedNameCaseInsensitive | Sources/ghrepoclean/URLComponents+Utilities.swift:171-173 | two names fold alike exactly when they have the same length and differ at most in the ASCII case of their letters |
| UrlComponents.SetHeader | Sources/ghrepoclean/URLComponents+Utilities.swift:171-173 | after setting, the field reads back the value set (or is absent); every field of a different name, and the URL, method and body, are unchanged |
| UrlComponents.SetHeaderTwice | Sources/ghrepoclean/URLComponents+Utilities.swift:171-173 | setting a field twice keeps only the second setting |
| UrlComponents.NewRequest | Sources/ghrepoclean/URLComponents+Utilities.swift:163-175 | the request has the URL, no body and exactly the method passed; every given header is set, and every field set comes from a given header |
| UrlComponents.InitializedHeaderValue | Sources/ghrepoclean/URLComponents+Utilities.swift:171-173 | a given header that no other given name folds to reads back its exact value |
| UrlComponents.InitializedWithoutHeaders | Sources/ghrepoclean/URLComponents+Utilities.swift:163-175 | with no extra headers, initialization yields exactly the request with no header fields |
| Github.UnchangedIsDefault | Sources/ghrepoclean/GithubModels.swift:250-281 | an update changes no setting exactly when it is the update built with every argument left at its nil default |
| GithubApi.RefType.RawValue | Sources/ghrepoclean/GithubAPI.swift:17-18 | branches live in `heads`, tags in `tags` and pull requests in `pull` |
| GithubApi.RefTypeFromRawValue | Sources/ghrepoclean/GithubAPI.swift:17-18 | a raw value names a namespace exactly when it is one of the three |
| GithubApi.RefTypeRawValueRoundTrip | Sources/ghrepoclean/GithubAPI.swift:17-18 | reading a namespace's raw value back gives the namespace |
| GithubApi.ApiRequest.IgnoresResponseData | Sources/ghrepoclean/GithubAPI.swift:96-125 | exactly the protection update and delete requests ignore their response data |
| GithubApi.GetRefBranch | Sources/ghrepoclean/GithubAPI.swift:151 | a branch ref read of the repository's owner login and name in the `heads` namespace |
| GithubApi.GetRefTag | Sources/ghrepoclean/GithubAPI.swift:152 | a tag ref read of the repository's owner login and name in the `tags` namespace |
| GithubApi.CreateRefBranch | Sources/ghrepoclean/GithubAPI.swift:168-170 | a branch ref creation at the given sha, addressed by owner login and name |
| GithubApi.CreateRefTag | Sources/ghrepoclean/GithubAPI.swift:172-174 | a tag ref creation at the given sha, addressed by owner login and name |
| GithubApi.MakeRequest | Sources/ghrepoclean/GithubAPI.swift:47-181 | every request goes to the base URL's origin |
| GithubApi.MakeRequestFollowsEndpoint | Sources/ghrepoclean/GithubAPI.swift:47-181 | every request's path is the base path plus its endpoint's directories and file, with its endpoint's method; only the listing replaces the query; only the protection update adds a header field; the listing, branch, protection and ref reads and the protection delete send no body, and every other request sends one |
| GithubApi.EffectiveMethodIsGetForReads | Sources/ghrepoclean/GithubAPI.swift:47-181 | a request goes out as GET exactly for the listing, branch, protection and ref reads |
| GithubApi.ListOrgRepositoriesQuery | Sources/ghrepoclean/GithubAPI.swift:47-55 | the listing's query is type, sort, direction, per_page and page in that order, each present exactly when its field is set |
| GithubApi.ExpectedListDirection | Sources/ghrepoclean/GithubAPI.swift:51 | the only `direction` items of the listing query are those the sort direction produces, and all of them are there |
| GithubApi.ListOrgRepositoriesDirection | Sources/ghrepoclean/GithubAPI.swift:51 | `direction` is `asc` exactly when ascending, `desc` exactly when descending, and absent exactly when unset |
| GithubApi.UpdateRepositoryRequest | Sources/ghrepoclean/GithubAPI.swift:65-69 | the settings update is a PATCH of `repos/{owner}/{repo}` carrying the update as its body |
| GithubApi.UpdateBranchProtectionRequest | Sources/ghrepoclean/GithubAPI.swift:104-109 | the protection update is a PUT of `.../branches/{b}/protection` carrying the update, whose only header field asks for the protection preview media type |
| GithubApi.ProtectionEndpointsShareResource | Sources/ghrepoclean/GithubAPI.swift:91-123 | reading, writing and deleting protection target the same URL; the delete is a DELETE without body |
| GithubApi.RenameBranchRequest | Sources/ghrepoclean/GithubAPI.swift:136-140 | the rename is a POST to `.../branches/{b}/rename` whose body maps `new_name` to the new name |
| GithubApi.RefRequests | Sources/ghrepoclean/GithubAPI.swift:154-181 | a ref is read at `git/ref/{namespace}/{name}` with no method or body; it is created by a POST to `git/refs` whose body holds exactly `ref` = `refs/{namespace}/{name}` and `sha` |
| GithubApi.MakeRequestStartsPlain | Sources/ghrepoclean/GithubAPI.swift:47-181 | every request other than the protection update is what the URLRequest initializer makes with no extra header fields, plus its body |
| Transport.Prepared | Sources/ghrepoclean/HTTPClient+Transport.swift:13-21 | the prepared request keeps URL and body and has the method (GET when unset); an existing User-Agent is kept and otherwise the default one is added, with every other field unchanged |
| Transport.PreparedIdempotent | Sources/ghrepoclean/HTTPClient+Transport.swift:19-21 | preparing a prepared request changes nothing |
| Transport.Classify | Sources/ghrepoclean/HTTPClient+Transport.swift:26-38 | a 2xx reply is a success with the body or empty data; another mapped code is a failure with its status and body; an unmapped code is a parse error; a failed execution is an unknown error, each case in both directions |
| Transport.SuccessIgnoresStatusMapping | Sources/ghrepoclean/HTTPClient+Transport.swift:28-35 | a 2xx reply is classified the same under any status mapping |
| Transport.HttpClient.constructor | Sources/ghrepoclean/main.swift:248-252 | a new client has sent nothing |
| Transport.HttpClient.Send | Sources/ghrepoclean/HTTPClient+Transport.swift:10-39 | the response is the classification of the server's answer to the prepared request, or an unknown error when the request cannot be built; only a built request reaches the server; every call is recorded, and the log stays tied to the server |
| Transport.HttpClient.Replied | Sources/ghrepoclean/HTTPClient+Transport.swift:10-39 | every logged response is the server's outcome for its request, after the prepared requests logged before it |
| Transport.HeaderOf | Sources/ghrepoclean/HTTPClient+Transport.swift:94-117 | there is a header value exactly when there are credentials |
| Transport.CredentialsCallback.constructor | Sources/ghrepoclean/HTTPClient+Transport.swift:68 | a new callback has been asked nothing |
| Transport.CredentialsCallback.Ask | Sources/ghrepoclean/HTTPClient+Transport.swift:117 | the callback answers as a function of what it was given before and the new response, and records both |
| Transport.CredentialsCallback.Answered | Sources/ghrepoclean/HTTPClient+Transport.swift:117 | every logged answer is the callback's answer to its response, after the responses given before it |
| Transport.Authorized | Sources/ghrepoclean/HTTPClient+Transport.swift:105-113 | the cached header is added only when there is one and the request has no Authorization; otherwise the request is unchanged; the Authorization sent is the request's own or else the cache |
| Transport.RetriedRequest | Sources/ghrepoclean/HTTPClient+Transport.swift:117-120 | a retried request is the original carrying exactly the new credentials, whatever it carried before |
| Transport.CountPresent | Sources/ghrepoclean/HTTPClient+Transport.swift:117-120 | the count of answers with credentials is at most the number of answers, and equals it exactly when every answer has credentials |
| Transport.RetryTraceStep | Sources/ghrepoclean/HTTPClient+Transport.swift:102-125 | one pass of `send` keeps the retry protocol: it sends, and on a 401 with a callback it records the answer and makes it the cache; the call completes unless new credentials came back |
| Transport.RetryTraceRefresh | Sources/ghrepoclean/HTTPClient+Transport.swift:116-121 | a 401 with a callback records the callback's answer, makes it the cache, and completes exactly when the answer is nil |
| Transport.RetryTraceKeep | Sources/ghrepoclean/HTTPClient+Transport.swift:116-123 | any other reply completes the call with the cache unchanged and the callback not asked |
| Transport.RetryTraceStart | Sources/ghrepoclean/HTTPClient+Transport.swift:102-113 | a call begins with nothing sent and the cache it found |
| Transport.NoCallbackSendsOnce | Sources/ghrepoclean/HTTPClient+Transport.swift:116-123 | without a callback there is exactly one send, of the request with the cached header added, and the cache is kept even on a 401 |
| Transport.UnauthorizedCompletionErasesCache | Sources/ghrepoclean/HTTPClient+Transport.swift:117-123 | a call that completes with a 401 while a callback is installed does so because the callback answered nil, and the cache is then erased |
| Transport.OtherReplyCompletes | Sources/ghrepoclean/HTTPClient+Transport.swift:116-123 | a reply other than 401 is the last one and completes the call, with the cache as it was when that request was sent |
| Transport.RetriesCountAnswers | Sources/ghrepoclean/HTTPClient+Transport.swift:105-120 | a completed call made 1 + (number of answers with credentials) sends, and each retry carries exactly the credentials of the answer before it |
| Transport.AuthorizationProvider.constructor | Sources/ghrepoclean/HTTPClient+Transport.swift:88-96 | the cache is the initial credentials' header value, nil when there are none, and the provider wraps the given base and callback |
| Transport.AuthorizationProvider.Attempt | Sources/ghrepoclean/HTTPClient+Transport.swift:103-121 | one pass sends the authorized request through the base and gets the server's reply to it; on a 401 with a callback the callback is asked once with that reply, its answer becomes the cache, and a retry follows exactly when credentials came back; otherwise nothing else changes |
| Transport.AuthorizationProvider.PassProgress | Sources/ghrepoclean/HTTPClient+Transport.swift:115-121 | the retry protocol of the call in progress is kept by one more pass |
| Transport.AuthorizationProvider.Pass | Sources/ghrepoclean/HTTPClient+Transport.swift:115-121 | one pass keeps the retry protocol, adds one base send, and a retry re-sends the original request without its Authorization |
| Transport.AuthorizationProvider.Begin | Sources/ghrepoclean/HTTPClient+Transport.swift:102-113 | a call that has sent nothing yet follows the retry protocol from the state it found |
| Transport.AuthorizationProvider.Send | Sources/ghrepoclean/HTTPClient+Transport.swift:102-125 | all base sends of the call follow the retry protocol over logs kept tied to the server and the callback; the response is the last base reply; the call stops early only when the send allowance runs out |
| Client.Decoded | Sources/ghrepoclean/GithubAPI.swift:5-11 | errors pass through; a decoded value always has the endpoint's response type; data that does not decode is an error; the protection writes succeed whatever data came back |
| Client.Server.constructor | Sources/ghrepoclean/main.swift:261 | a new client has issued no call |
| Client.Server.Load | Sources/ghrepoclean/ghrepoclean.swift:23-30 | one call is recorded, and the result is the decoded answer to it given the calls before |
| Client.FailFastLast | Sources/ghrepoclean/main.swift:147-207 | successful calls followed by one whose answer decides the result form a fail-fast run |
| Client.UpdateRepositoryOf | Sources/ghrepoclean/main.swift:65-69 | the settings update of the repository addressed by its owner login and name |
| Client.GetBranchOf | Sources/ghrepoclean/ghrepoclean.swift:63-65 | the branch read of the repository addressed by its owner login and name |
| Client.GetBranchProtectionOf | Sources/ghrepoclean/main.swift:85-89 | the protection read addressed by owner login and repository name |
| Client.UpdateBranchProtectionOf | Sources/ghrepoclean/main.swift:91-95 | the protection write addressed by owner login and repository name, with the given update |
| Client.DeleteBranchProtectionOf | Sources/ghrepoclean/main.swift:97-101 | the protection delete addressed by owner login and repository name |
| Client.RenameBranchOf | Sources/ghrepoclean/ghrepoclean.swift:81-83 | the rename addressed by owner login and repository name, with the new name |
| Client.PublicListing | Sources/ghrepoclean/ghrepoclean.swift:191 | the listing asks for public repositories, 100 per page, with no sort, direction or page |
| Client.ActiveRepos | Sources/ghrepoclean/ghrepoclean.swift:192 | a repository is kept exactly when it was listed and is not archived, private, a fork or disabled |
| Client.ActiveReposAppend | Sources/ghrepoclean/ghrepoclean.swift:192 | filtering keeps the listing order: it distributes over concatenation |
| Client.ProcessEachSingle | Sources/ghrepoclean/ghrepoclean.swift:200-205 | one repository is processed exactly as the per-repository step does it |
| Client.ProcessEachAppend | Sources/ghrepoclean/ghrepoclean.swift:200-205 | processing `a + b` is processing `a`, then `b` only if `a` succeeded, against the history `a` left |
| Client.ProcessEachExtend | Sources/ghrepoclean/ghrepoclean.swift:200-205 | after a successful prefix, the next repository's calls are appended; its failure ends the run with its error |
| Client.ProcessEachStep | Sources/ghrepoclean/ghrepoclean.swift:200-205 | stated on the histories before and after one more repository: the run over the longer prefix adds that repository's calls and ends with its outcome |
| Client.NoCallsAfterFailure | Sources/ghrepoclean/ghrepoclean.swift:200-205 | once a repository has failed, the repositories after it get no calls |
| Client.ProcessEachOk | Sources/ghrepoclean/ghrepoclean.swift:200-205 | a successful run processed every repository successfully, each against the history left by the ones before |
| Client.ProcessEachAddressesOnly | Sources/ghrepoclean/ghrepoclean.swift:200-205 | when each step only addresses its own repository, every call of the run addresses one of the processed repositories |
| Client.Rethrown | Sources/ghrepoclean/ghrepoclean.swift:238-247 | an API error is thrown again with the same status and body; every other outcome passes through |
| Client.RethrownIsIdentity | Sources/ghrepoclean/ghrepoclean.swift:238-247 | rethrowing returns exactly the outcome it was given |
| MigrationV1.Logins | Sources/ghrepoclean/main.swift:170 | the logins of the users, in order, or none when the list is absent |
| MigrationV1.TeamNames | Sources/ghrepoclean/main.swift:171 | the names (not slugs) of the teams, in order, or none when the list is absent |
| MigrationV1.MainProtection | Sources/ghrepoclean/main.swift:162-181 | the protection for `main` has strict checks with the contexts read on `master` (or none); admins not enforced; dismissal users' logins and teams' names; no stale dismissal or code-owner review; one approval; no restrictions; all three toggles off |
| MigrationV1.MainProtectionCopiesOnly | Sources/ghrepoclean/main.swift:162-181 | two protections give the same write to `main` exactly when they agree on the contexts, the dismissal logins and the dismissal team names |
| MigrationV1.MainProtectionKeepsDismissalUsers | Sources/ghrepoclean/main.swift:170 | the dismissal users written to `main` are exactly the logins read on `master`, in order |
| MigrationV1.LockProtection | Sources/ghrepoclean/main.swift:186-194 | the lock has no checks and no reviews, enforces admins, restricts pushes to empty users, teams and apps, and has all toggles off |
| MigrationV1.LockDiffersFromMain | Sources/ghrepoclean/main.swift:167-188 | the lock is never the protection written to `main`: they differ on admin enforcement |
| MigrationV1.SettingsUpdate | Sources/ghrepoclean/main.swift:199-205 | `main` becomes the default branch, squash merges only, and branches are deleted on merge |
| MigrationV1.SettingsUpdateChanges | Sources/ghrepoclean/main.swift:199-205 | the update changes exactly those five settings and leaves every other one nil |
| MigrationV1.StageRequest | Sources/ghrepoclean/main.swift:141-206 | the next stage's request is the stage of its index, addressed to the repository, and expects that stage's response type |
| MigrationV1.ReachedSnoc | Sources/ghrepoclean/main.swift:147-206 | a successful stage extends the stages reached |
| MigrationV1.ReachedExtend | Sources/ghrepoclean/main.swift:147-206 | a call not yet answered leaves the stages reached unchanged |
| MigrationV1.StagesNext | Sources/ghrepoclean/main.swift:147-206 | a failed stage ends the run with its error; a successful one moves on to the next stage |
| MigrationV1.StagesReach | Sources/ghrepoclean/main.swift:141-207 | a run without failure went through all six stages; a failed run ends with the stage whose answer was the error |
| MigrationV1.ProcessOrder | Sources/ghrepoclean/main.swift:141-207 | a repository receives one to six calls: the ref read, the ref creation, the protection read, the write to `main`, the lock of `master` and the settings update, in this order |
| MigrationV1.ProcessFailFast | Sources/ghrepoclean/main.swift:141-207 | each stage is issued only after every earlier one succeeded; a failure is the last call's error; a successful run made all six calls |
| MigrationV1.MainCreatedAtMasterSha | Sources/ghrepoclean/main.swift:145-151 | `main` is created at exactly the sha of the `master` ref that was read |
| MigrationV1.MainProtectionFromMaster | Sources/ghrepoclean/main.swift:156-181 | the protection written to `main` is derived from the protection read on `master` |
| MigrationV1.MasterLockedAfterMain | Sources/ghrepoclean/main.swift:183-186 | `master` is written only right after the write to `main` has succeeded |
| MigrationV1.LoadStage | Sources/ghrepoclean/main.swift:142-206 | one stage records its request; a failure ends the whole repository run with that error; the last successful stage completes it |
| MigrationV1.StageOutcome | Sources/ghrepoclean/main.swift:142-206 | the answer to one stage's request decides how the repository run goes on |
| MigrationV1.Process | Sources/ghrepoclean/main.swift:141-208 | the calls and the result are those of the six-stage specification |
| MigrationV1.OnMaster | Sources/ghrepoclean/main.swift:218 | a repository is kept exactly when it was listed and its default branch is `master` |
| MigrationV1.LegacyRepos | Sources/ghrepoclean/main.swift:217-218 | a repository is kept exactly when it was listed, is active and is still on `master` |
| MigrationV1.OnMasterAppend | Sources/ghrepoclean/main.swift:218 | the default-branch filter keeps the listing order |
| MigrationV1.LegacyReposAppend | Sources/ghrepoclean/main.swift:217-218 | both filters together keep the listing order |
| MigrationV1.PerformTouchesOnlyLegacyRepos | Sources/ghrepoclean/main.swift:210-237 | the first call is the public listing, and every later call addresses a listed repository that is active and on `master` |
| MigrationV1.MigratesEveryRepo | Sources/ghrepoclean/main.swift:231-237 | when the run succeeds, every repository went through all six stages, in order, against the history left by the ones before |
| MigrationV1.MigrateEach | Sources/ghrepoclean/main.swift:231-237 | the loop's calls and result are those of processing the repositories in order, stopping at the first failure |
| MigrationV1.MigrateNext | Sources/ghrepoclean/main.swift:231-236 | one more repository adds its calls and its outcome to the run so far |
| MigrationV1.Perform | Sources/ghrepoclean/main.swift:210-238 | the calls and result are those of listing, filtering and processing in order |
| MigrationV1.PerformAfterListing | Sources/ghrepoclean/main.swift:210-238 | after a successful listing, the run is the listing followed by the processing of the legacy repositories |
| MigrationV1.RunCommand | Sources/ghrepoclean/main.swift:268-279 | the command's error is the rethrown error of `perform` |
| MigrationV2.SafelyRenameOutcomes | Sources/ghrepoclean/ghrepoclean.swift:138-146 | a successful rename returns its branch with no further call; "not found" makes exactly one fetch of the new name, whose branch or error is the result; any other error is returned unchanged with no further call |
| MigrationV2.SafelyRenameFallsBackOnNotFound | Sources/ghrepoclean/ghrepoclean.swift:138-146 | a safe rename makes one or two calls, all about the repository, and a second one exactly when the rename failed with "not found" |
| MigrationV2.SafelyRenameBranch | Sources/ghrepoclean/ghrepoclean.swift:138-146 | the calls and result are those of the safe-rename specification |
| MigrationV2.ProcessOnlyRenames | Sources/ghrepoclean/ghrepoclean.swift:148-151 | a repository receives only the rename of `master` to `main`, possibly followed by a fetch of `main`; it succeeds exactly when the rename or the fallback fetch does; a failure is its last call's error |
| MigrationV2.Process | Sources/ghrepoclean/ghrepoclean.swift:148-151 | the calls and result are those of the rename-only specification |
| MigrationV2.PerformTouchesOnlyActiveRepos | Sources/ghrepoclean/ghrepoclean.swift:189-205 | the first call is the public listing, and every later call addresses a listed active repository, whatever its default branch |
| MigrationV2.RenamesEveryRepo | Sources/ghrepoclean/ghrepoclean.swift:200-205 | when the run succeeds, every repository had `master` renamed to `main` or already had `main`, in order |
| MigrationV2.MigrateEach | Sources/ghrepoclean/ghrepoclean.swift:200-205 | the loop's calls and result are those of processing the repositories in order, stopping at the first failure |
| MigrationV2.MigrateNext | Sources/ghrepoclean/ghrepoclean.swift:200-204 | one more repository adds its calls and its outcome to the run so far |
| MigrationV2.Perform | Sources/ghrepoclean/ghrepoclean.swift:189-206 | the calls and result are those of listing, filtering the active repositories and processing them in order |
| MigrationV2.PerformAfterListing | Sources/ghrepoclean/ghrepoclean.swift:189-206 | after a successful listing, the run is the listing followed by the processing of the active repositories |
| MigrationV2.RunCommand | Sources/ghrepoclean/ghrepoclean.swift:238-247 | the command's error is the rethrown error of `perform` |

## Left out

- Network execution, event loops, futures, promises and async continuations (main.swift:12-51, ghrepoclean.swift:22-31, 252-263). They are replaced by the server oracles: the per-request answer, and the completion handler becoming a returned value.
- NetworkClient is not part of this model: its `load` (resolving the request against the base URL, the `AddHeaders` transport adding `Accept`, the JSON round trip) is taken as `Client.Decoded` applied to an API-level answer.
- JSON and Base64 encoding (JSONCoders+Initializers.swift, `HTTPClient.Authorization`): request bodies are abstract records and credentials are their header value.
- The mapping from HTTP status codes to API statuses lives in a package that is not part of this model. `Transport.Classify` takes it as a parameter; only `unauthorized` and `notFound` are named.
- Logging, command-line parsing, event-loop group creation and shutdown.
- File-system helpers and Foundation's string-level path handling: `pathComponents`, the `appendPathComponents` family, the percent-encoded query variants and the `is*URL` checks. `URL` is abstracted to origin, path components and query. Appended path extensions are kept as given; Foundation's checks on what may be an extension are not modelled. The URL helpers' failure to build a URL (their optional results) is not modelled.
- `Transport.HttpClient.Send`: whether building the HTTP request throws is a parameter of the client rather than computed from the URL and method.
- `Transport.AuthorizationProvider.Send`: the source retries by recursion, without bound. The model runs at most `fuel` base sends and returns no response when that allowance runs out while the source would have retried again.
- `Transport.CredentialsCallback.Ask`: a closure is modelled as a function of the responses it has been given, so arbitrary side effects of a callback are not captured.
- `Client.PublicListing`: only the single page of up to 100 repositories the drivers request is modelled. The source does not follow further pages either.
- `UrlComponents.FoldedName`: header names are compared with ASCII case folding only.
- `UrlComponents.NewRequest`: the order in which a dictionary yields names that differ only in case is not fixed, so the contract allows any of them to win.
- The second driver's `GH*` protection wrappers take a `Branch` and use its name (ghrepoclean.swift:67-79). The model passes the branch name; they are not called by the second driver's live code.
- Record fields that no operation reads (URLs, counts, dates, permissions, licence, and the detail fields of users, teams and apps) are not modelled.
