/**
 * The two transports the migration sends its requests through.
 *
 * `HttpClient` is the bottom transport: it turns a URLRequest into an HTTP
 * request (defaulting the User-Agent), has it executed by the server, and
 * classifies the outcome. The server is an oracle: what it answers is a
 * function of the requests it has already executed and of the new one.
 *
 * `AuthorizationProvider` decorates a transport with a cached Authorization
 * header and, on a 401, asks an optional callback for new credentials and
 * retries with them.
 */
module Transport {
  import opened Wrappers
  import opened UrlComponents

  type Bytes = seq<bv8>

  /**
   * The API status a response code maps to. Which codes map to which status is
   * decided by a mapping this model takes as a parameter; only the two
   * statuses the migration inspects are named.
   */
  datatype Status = Unauthorized | NotFound | OtherStatus(code: int)

  /** Why a response carries no HTTP answer at all. */
  datatype NetworkError = Unknown | CannotParseResponse

  /** What a transport hands to its completion handler. */
  datatype Response =
    | Success(data: Bytes)
    | Failure(status: Status, body: Bytes)
    | Error(cause: NetworkError)
  {
    /** The `.failure(.unauthorized, _)` case that triggers a credentials refresh. */
    predicate IsUnauthorized() {
      Failure? && status == Unauthorized
    }
  }

  /** What executing an HTTP request produced: a status code and an optional body, or a thrown error. */
  datatype Execution = Executed(code: int, body: Option<Bytes>) | ExecutionFailed

  const UserAgentField := "User-Agent"
  const DefaultUserAgent := "AsyncHTTPClient/1.x (via NetworkClient/0.x)"
  const AuthorizationField := "Authorization"

  /**
   * The HTTP request built from a URLRequest: the method is the request's
   * (GET when unset), and a User-Agent is added only when none is present.
   */
  function Prepared(request: Request<Bytes>): (r: Request<Bytes>)
    ensures r.url == request.url && r.body == request.body
    ensures r.httpMethod == Some(EffectiveMethod(request))
    ensures HeaderValue(request, UserAgentField).Some? ==> r.headers == request.headers
    ensures HeaderValue(request, UserAgentField).None? ==>
      && HeaderValue(r, UserAgentField) == Some(DefaultUserAgent)
      && forall name :: FoldedName(name) != FoldedName(UserAgentField) ==> HeaderValue(r, name) == HeaderValue(request, name)
  {
    var built := request.(httpMethod := Some(EffectiveMethod(request)));
    if HeaderValue(built, UserAgentField).Some? then built
    else SetHeader(built, UserAgentField, Some(DefaultUserAgent))
  }

  /** A request already carrying a User-Agent keeps it; preparing twice changes nothing more. */
  lemma PreparedIdempotent(request: Request<Bytes>)
    ensures Prepared(Prepared(request)) == Prepared(request)
  {
  }

  /**
   * The completion of an executed request: 2xx is success with the body
   * (empty when there is none); any other code is a failure with its mapped
   * status, or a parse error when the code maps to no status; a failed
   * execution is an unknown error.
   */
  function Classify(execution: Execution, statusOf: int -> Option<Status>): (r: Response)
    ensures r.Success? <==> execution.Executed? && 200 <= execution.code < 300
    ensures r.Success? ==> r.data == execution.body.GetOr([])
    ensures r.Failure? <==> execution.Executed? && !(200 <= execution.code < 300) && statusOf(execution.code).Some?
    ensures r.Failure? ==> r.status == statusOf(execution.code).value && r.body == execution.body.GetOr([])
    ensures r == Error(CannotParseResponse) <==> execution.Executed? && !(200 <= execution.code < 300) && statusOf(execution.code).None?
    ensures r == Error(Unknown) <==> execution.ExecutionFailed?
  {
    match execution
    case ExecutionFailed => Error(Unknown)
    case Executed(code, body) =>
      if 200 <= code < 300 then Success(body.GetOr([]))
      else match statusOf(code)
        case Some(status) => Failure(status, body.GetOr([]))
        case None => Error(CannotParseResponse)
  }

  /** A successful exchange does not consult the status mapping at all. */
  lemma SuccessIgnoresStatusMapping(execution: Execution, statusOf: int -> Option<Status>, other: int -> Option<Status>)
    requires execution.Executed? && 200 <= execution.code < 300
    ensures Classify(execution, statusOf) == Classify(execution, other)
  {
  }

  /** The last element of a non-empty sequence. */
  function Last<T>(xs: seq<T>): T
    requires xs != []
  {
    xs[|xs| - 1]
  }

  /** The outputs `f` gives to each input in turn, as a function of that input and the inputs before it. */
  function AnswersOf<A, B>(f: (seq<A>, A) -> B, inputs: seq<A>): (outputs: seq<B>)
    ensures |outputs| == |inputs|
    decreases |inputs|
  {
    if inputs == [] then []
    else AnswersOf(f, inputs[..|inputs| - 1]) + [f(inputs[..|inputs| - 1], inputs[|inputs| - 1])]
  }

  /** Answering one more input keeps the earlier answers and adds the answer to it. */
  lemma AnswersOfSnoc<A, B>(f: (seq<A>, A) -> B, inputs: seq<A>, x: A)
    ensures AnswersOf(f, inputs + [x]) == AnswersOf(f, inputs) + [f(inputs, x)]
  {
    assert (inputs + [x])[..|inputs|] == inputs;
  }

  /** Every answer is the answer to its own input, given the inputs before it. */
  lemma {:induction false} AnswersOfAt<A, B>(f: (seq<A>, A) -> B, inputs: seq<A>, i: nat)
    requires i < |inputs|
    ensures AnswersOf(f, inputs)[i] == f(inputs[..i], inputs[i])
    decreases |inputs|
  {
    var n := |inputs| - 1;
    if i < n {
      AnswersOfAt(f, inputs[..n], i);
      assert inputs[..n][..i] == inputs[..i];
    }
  }

  /** The HTTP client: sends each request to the server, recording every request and response. */
  class HttpClient {
    /** Whether an HTTP request can be built from a URLRequest (building throws otherwise). */
    const buildable: Request<Bytes> -> bool
    /** The server: its answer given the requests executed so far and the new one. */
    const server: (seq<Request<Bytes>>, Request<Bytes>) -> Execution
    /** The status-code mapping. */
    const statusOf: int -> Option<Status>

    /** Every request handed to `Send`, and the response each one completed with. */
    var requests: seq<Request<Bytes>>
    var responses: seq<Response>
    /** The prepared requests that reached the server, in order. */
    var executed: seq<Request<Bytes>>

    /**
     * Every request that reached the server was a buildable request handed
     * to `Send`, prepared, and each response is what the server answered to
     * it after executing the requests before it.
     */
    ghost predicate Valid()
      reads this
    {
      executed == Dispatched(requests) && responses == AnswersOf(Reply, requests)
    }

    /** The prepared form of each buildable request, in order: what reaches the server. */
    function Dispatched(handed: seq<Request<Bytes>>): (r: seq<Request<Bytes>>)
      ensures |r| <= |handed|
    {
      if handed == [] then []
      else
        var last := handed[|handed| - 1];
        Dispatched(handed[..|handed| - 1]) + (if buildable(last) then [Prepared(last)] else [])
    }

    /** The response to `request` once the server has executed `history`. */
    function Outcome(history: seq<Request<Bytes>>, request: Request<Bytes>): Response {
      if !buildable(request) then Error(Unknown)
      else Classify(server(history, Prepared(request)), statusOf)
    }

    /** The response to `request` once the requests in `handed` have been sent. */
    function Reply(handed: seq<Request<Bytes>>, request: Request<Bytes>): Response {
      Outcome(Dispatched(handed), request)
    }

    constructor (buildable: Request<Bytes> -> bool, server: (seq<Request<Bytes>>, Request<Bytes>) -> Execution, statusOf: int -> Option<Status>)
      ensures Valid()
      ensures this.buildable == buildable && this.server == server && this.statusOf == statusOf
      ensures requests == [] && responses == [] && executed == []
    {
      this.buildable := buildable;
      this.server := server;
      this.statusOf := statusOf;
      requests := [];
      responses := [];
      executed := [];
    }

    /** `HTTPClient.send(request:completion:)`, with the completion's argument returned. */
    method Send(request: Request<Bytes>) returns (response: Response)
      requires Valid()
      modifies this
      ensures Valid()
      ensures response == Outcome(old(executed), request)
      ensures requests == old(requests) + [request] && responses == old(responses) + [response]
      ensures executed == if buildable(request) then old(executed) + [Prepared(request)] else old(executed)
    {
      var handed := requests + [request];
      assert handed[..|requests|] == requests;
      if !buildable(request) {
        response := Error(Unknown);
      } else {
        var httpRequest := Prepared(request);
        var execution := server(executed, httpRequest);
        executed := executed + [httpRequest];
        response := Classify(execution, statusOf);
      }
      AnswersOfSnoc(Reply, requests, request);
      requests := handed;
      responses := responses + [response];
    }

    /** Every logged response is the server's reply to its request, after the requests logged before it. */
    lemma Replied(i: nat)
      requires Valid() && i < |requests|
      ensures responses[i] == Outcome(Dispatched(requests[..i]), requests[i])
    {
      AnswersOfAt(Reply, requests, i);
    }
  }

  /** Credentials, kept only as the Authorization header value they encode to. */
  datatype Authorization = Authorization(headerValue: string)

  function HeaderOf(authorization: Option<Authorization>): (value: Option<string>)
    ensures value.Some? <==> authorization.Some?
  {
    if authorization.Some? then Some(authorization.value.headerValue) else None
  }

  /**
   * The new-credentials callback. Being a closure it may keep state of its
   * own, so its answer is a function of the responses it was given before
   * and of the new one.
   */
  class CredentialsCallback {
    const answer: (seq<Response>, Response) -> Option<Authorization>
    var asked: seq<Response>
    var answers: seq<Option<Authorization>>

    /** Each recorded answer is the callback's answer to the response it was given, after the ones before it. */
    ghost predicate Valid()
      reads this
    {
      answers == AnswersOf(answer, asked)
    }

    constructor (answer: (seq<Response>, Response) -> Option<Authorization>)
      ensures Valid() && this.answer == answer && asked == [] && answers == []
    {
      this.answer := answer;
      asked := [];
      answers := [];
    }

    method Ask(response: Response) returns (credentials: Option<Authorization>)
      requires Valid()
      modifies this
      ensures Valid()
      ensures credentials == answer(old(asked), response)
      ensures asked == old(asked) + [response] && answers == old(answers) + [credentials]
    {
      credentials := answer(asked, response);
      AnswersOfSnoc(answer, asked, response);
      asked := asked + [response];
      answers := answers + [credentials];
    }

    /** Every logged answer is the callback's answer to its response, after the responses it was given before. */
    lemma Answered(i: nat)
      requires Valid() && i < |asked|
      ensures answers[i] == answer(asked[..i], asked[i])
    {
      AnswersOfAt(answer, asked, i);
    }
  }

  /**
   * The request the provider hands to its base transport: the cached header
   * is added only when there is one and the request has no Authorization of
   * its own.
   */
  function Authorized(request: Request<Bytes>, cache: Option<string>): (r: Request<Bytes>)
    ensures cache.Some? && HeaderValue(request, AuthorizationField).None? ==> r == SetHeader(request, AuthorizationField, cache)
    ensures cache.None? || HeaderValue(request, AuthorizationField).Some? ==> r == request
    ensures HeaderValue(r, AuthorizationField) == if HeaderValue(request, AuthorizationField).Some? then HeaderValue(request, AuthorizationField) else cache
  {
    if cache.Some? && HeaderValue(request, AuthorizationField).None? then SetHeader(request, AuthorizationField, cache)
    else request
  }

  /**
   * A retry strips the Authorization header and sends again with fresh
   * credentials, so the retried request is the original one carrying exactly
   * the new credentials, whatever it carried before.
   */
  lemma RetriedRequest(request: Request<Bytes>, earlier: Option<string>, renewed: string)
    ensures Authorized(SetHeader(SetHeader(request, AuthorizationField, earlier), AuthorizationField, None), Some(renewed))
      == SetHeader(request, AuthorizationField, Some(renewed))
  {
    var stripped := SetHeader(SetHeader(request, AuthorizationField, earlier), AuthorizationField, None);
    SetHeaderTwice(request, AuthorizationField, earlier, None);
    SetHeaderTwice(request, AuthorizationField, None, Some(renewed));
  }

  lemma CountPresentSnoc(answers: seq<Option<Authorization>>, answer: Option<Authorization>)
    ensures CountPresent(answers + [answer]) == CountPresent(answers) + (if answer.Some? then 1 else 0)
  {
    assert (answers + [answer])[..|answers|] == answers;
  }

  /** Dropping a prefix of a sequence, then appending, is appending, then dropping. */
  lemma DropAppend<T>(xs: seq<T>, n: nat, ys: seq<T>)
    requires n <= |xs|
    ensures (xs + ys)[n..] == xs[n..] + ys
  {
  }

  /** Stripping the Authorization of a sent request leaves the original request without one, whatever was added. */
  lemma StrippedAuthorized(request: Request<Bytes>, pending: Request<Bytes>, cache: Option<string>)
    requires pending == request || pending == SetHeader(request, AuthorizationField, None)
    ensures SetHeader(Authorized(pending, cache), AuthorizationField, None) == SetHeader(request, AuthorizationField, None)
  {
    SetHeaderTwice(request, AuthorizationField, None, None);
    SetHeaderTwice(request, AuthorizationField, None, cache);
    SetHeaderTwice(request, AuthorizationField, cache, None);
    SetHeaderTwice(pending, AuthorizationField, cache, None);
  }

  /** How many of the answers carried credentials. */
  function CountPresent(answers: seq<Option<Authorization>>): (n: nat)
    ensures n <= |answers|
    ensures n == |answers| <==> forall k :: 0 <= k < |answers| ==> answers[k].Some?
  {
    if answers == [] then 0
    else CountPresent(answers[..|answers| - 1]) + (if answers[|answers| - 1].Some? then 1 else 0)
  }

  /** Every reply but the last was a 401. */
  predicate UnauthorizedButLast(replies: seq<Response>) {
    forall k :: 0 <= k < |replies| - 1 ==> replies[k].IsUnauthorized()
  }

  /** The callback was asked once per answer, each time with the reply of the same rank. */
  predicate AskedWithReplies(asked: seq<Response>, answers: seq<Option<Authorization>>, replies: seq<Response>) {
    |asked| == |answers| <= |replies| && forall k :: 0 <= k < |answers| ==> asked[k] == replies[k]
  }

  /** Every retry carries exactly the credentials the callback returned just before it. */
  predicate RetriesCarryAnswers(request: Request<Bytes>, sent: seq<Request<Bytes>>, answers: seq<Option<Authorization>>) {
    |sent| <= |answers| + 1 &&
    forall j :: 0 <= j < |sent| - 1 ==>
      answers[j].Some? && sent[j + 1] == SetHeader(request, AuthorizationField, HeaderOf(answers[j]))
  }

  lemma UnauthorizedButLastSnoc(replies: seq<Response>, reply: Response)
    requires UnauthorizedButLast(replies)
    requires replies != [] ==> replies[|replies| - 1].IsUnauthorized()
    ensures UnauthorizedButLast(replies + [reply])
  {
    forall k | 0 <= k < |replies|
      ensures (replies + [reply])[k].IsUnauthorized()
    {
      assert (replies + [reply])[k] == replies[k];
    }
  }

  lemma AskedWithRepliesSnoc(asked: seq<Response>, answers: seq<Option<Authorization>>, replies: seq<Response>,
                             reply: Response, answer: Option<Authorization>)
    requires AskedWithReplies(asked, answers, replies) && |answers| == |replies|
    ensures AskedWithReplies(asked + [reply], answers + [answer], replies + [reply])
  {
    forall k | 0 <= k < |answers|
      ensures (asked + [reply])[k] == (replies + [reply])[k]
    {
      assert (asked + [reply])[k] == asked[k] && (replies + [reply])[k] == replies[k];
    }
  }

  lemma AskedWithRepliesExtend(asked: seq<Response>, answers: seq<Option<Authorization>>, replies: seq<Response>, reply: Response)
    requires AskedWithReplies(asked, answers, replies)
    ensures AskedWithReplies(asked, answers, replies + [reply])
  {
    forall k | 0 <= k < |answers|
      ensures asked[k] == (replies + [reply])[k]
    {
      assert (replies + [reply])[k] == replies[k];
    }
  }

  lemma RetriesCarryAnswersSnoc(request: Request<Bytes>, sent: seq<Request<Bytes>>, answers: seq<Option<Authorization>>,
                                next: Request<Bytes>, answers': seq<Option<Authorization>>)
    requires RetriesCarryAnswers(request, sent, answers)
    requires answers <= answers'
    requires sent != [] ==>
      |sent| <= |answers| && answers[|sent| - 1].Some? &&
      next == SetHeader(request, AuthorizationField, HeaderOf(answers[|sent| - 1]))
    ensures RetriesCarryAnswers(request, sent + [next], answers')
  {
    var sent' := sent + [next];
    assert |sent'| <= |answers'| + 1;
    forall j | 0 <= j < |sent'| - 1
      ensures answers'[j].Some? && sent'[j + 1] == SetHeader(request, AuthorizationField, HeaderOf(answers'[j]))
    {
      assert j < |answers| && answers'[j] == answers[j];
      if j + 1 < |sent| {
        assert sent'[j + 1] == sent[j + 1];
      }
    }
  }

  /**
   * What one call of the provider's `send` has done so far, stated on values:
   * `sent` and `replies` are the requests handed to the base transport and
   * its replies, `asked` and `answers` the callback's inputs and results,
   * `cache` the cached header now, and `completed` whether the completion
   * has been called.
   */
  ghost predicate RetryTrace(
    request: Request<Bytes>, initialCache: Option<string>, hasCallback: bool,
    sent: seq<Request<Bytes>>, replies: seq<Response>,
    asked: seq<Response>, answers: seq<Option<Authorization>>,
    cache: Option<string>, completed: bool)
  {
    && |sent| == |replies|
    && (completed ==> |sent| > 0)
    // the first attempt carries the cached header unless the request has its own
    && (|sent| > 0 ==> sent[0] == Authorized(request, initialCache))
    && UnauthorizedButLast(replies)
    // the callback is asked once per 401 reply, with that reply, and never without a callback
    && (!hasCallback ==> answers == [])
    && |answers| == (if |replies| > 0 && replies[|replies| - 1].IsUnauthorized() && hasCallback then |replies|
                     else if |replies| > 0 then |replies| - 1 else 0)
    && AskedWithReplies(asked, answers, replies)
    && RetriesCarryAnswers(request, sent, answers)
    // one send per answer with credentials, plus the one that completed
    && |sent| == CountPresent(answers) + (if completed then 1 else 0)
    // the cache is the initial one until the callback answers, then its last answer
    && cache == (if answers == [] then initialCache else HeaderOf(answers[|answers| - 1]))
    // a call still going on is about to retry with the credentials it just obtained
    && (!completed && |sent| > 0 ==> replies[|replies| - 1].IsUnauthorized() && hasCallback && cache.Some?)
  }

  /** One pass of `send`: attempt, and on a 401 with a callback, refresh the cache from its answer. */
  lemma RetryTraceStep(
    request: Request<Bytes>, initialCache: Option<string>, hasCallback: bool,
    sent: seq<Request<Bytes>>, replies: seq<Response>,
    asked: seq<Response>, answers: seq<Option<Authorization>>,
    cache: Option<string>, pending: Request<Bytes>, reply: Response, answer: Option<Authorization>)
    requires RetryTrace(request, initialCache, hasCallback, sent, replies, asked, answers, cache, false)
    requires pending == if sent == [] then request else SetHeader(request, AuthorizationField, None)
    ensures var refresh := hasCallback && reply.IsUnauthorized();
      var newCache := if refresh then HeaderOf(answer) else cache;
      RetryTrace(request, initialCache, hasCallback,
        sent + [Authorized(pending, cache)], replies + [reply],
        if refresh then asked + [reply] else asked, if refresh then answers + [answer] else answers,
        newCache, !(refresh && newCache.Some?))
  {
    if hasCallback && reply.IsUnauthorized() {
      RetryTraceRefresh(request, initialCache, sent, replies, asked, answers, cache, pending, reply, answer);
    } else {
      RetryTraceKeep(request, initialCache, hasCallback, sent, replies, asked, answers, cache, pending, reply);
    }
  }

  /** A pass whose 401 reply goes to the callback: its answer is recorded and becomes the cache. */
  lemma RetryTraceRefresh(
    request: Request<Bytes>, initialCache: Option<string>,
    sent: seq<Request<Bytes>>, replies: seq<Response>,
    asked: seq<Response>, answers: seq<Option<Authorization>>,
    cache: Option<string>, pending: Request<Bytes>, reply: Response, answer: Option<Authorization>)
    requires RetryTrace(request, initialCache, true, sent, replies, asked, answers, cache, false)
    requires pending == if sent == [] then request else SetHeader(request, AuthorizationField, None)
    requires reply.IsUnauthorized()
    ensures RetryTrace(request, initialCache, true, sent + [Authorized(pending, cache)], replies + [reply],
      asked + [reply], answers + [answer], HeaderOf(answer), HeaderOf(answer).None?)
  {
    var next := Authorized(pending, cache);
    if sent != [] {
      SetHeaderTwice(request, AuthorizationField, None, cache);
    }
    UnauthorizedButLastSnoc(replies, reply);
    CountPresentSnoc(answers, answer);
    RetriesCarryAnswersSnoc(request, sent, answers, next, answers + [answer]);
    AskedWithRepliesSnoc(asked, answers, replies, reply, answer);
  }

  /** A pass that completes: the reply is not a 401, or there is no callback to ask. */
  lemma RetryTraceKeep(
    request: Request<Bytes>, initialCache: Option<string>, hasCallback: bool,
    sent: seq<Request<Bytes>>, replies: seq<Response>,
    asked: seq<Response>, answers: seq<Option<Authorization>>,
    cache: Option<string>, pending: Request<Bytes>, reply: Response)
    requires RetryTrace(request, initialCache, hasCallback, sent, replies, asked, answers, cache, false)
    requires pending == if sent == [] then request else SetHeader(request, AuthorizationField, None)
    requires !(hasCallback && reply.IsUnauthorized())
    ensures RetryTrace(request, initialCache, hasCallback, sent + [Authorized(pending, cache)], replies + [reply],
      asked, answers, cache, true)
  {
    var next := Authorized(pending, cache);
    if sent != [] {
      SetHeaderTwice(request, AuthorizationField, None, cache);
    }
    UnauthorizedButLastSnoc(replies, reply);
    RetriesCarryAnswersSnoc(request, sent, answers, next, answers);
    AskedWithRepliesExtend(asked, answers, replies, reply);
  }

  /** A call handed no allowance for sends has done nothing. */
  lemma RetryTraceStart(request: Request<Bytes>, initialCache: Option<string>, hasCallback: bool)
    ensures RetryTrace(request, initialCache, hasCallback, [], [], [], [], initialCache, false)
  {
  }

  /** Without a callback there is exactly one send, the cache is kept, and the call completes with the reply. */
  lemma NoCallbackSendsOnce(
    request: Request<Bytes>, initialCache: Option<string>,
    sent: seq<Request<Bytes>>, replies: seq<Response>,
    asked: seq<Response>, answers: seq<Option<Authorization>>,
    cache: Option<string>, completed: bool)
    requires RetryTrace(request, initialCache, false, sent, replies, asked, answers, cache, completed)
    requires |sent| > 0
    ensures completed && sent == [Authorized(request, initialCache)] && cache == initialCache
  {
  }

  /**
   * A call that completed with a 401 while a callback is installed did so
   * because the callback answered nil, and that erased the cache.
   */
  lemma UnauthorizedCompletionErasesCache(
    request: Request<Bytes>, initialCache: Option<string>,
    sent: seq<Request<Bytes>>, replies: seq<Response>,
    asked: seq<Response>, answers: seq<Option<Authorization>>,
    cache: Option<string>)
    requires RetryTrace(request, initialCache, true, sent, replies, asked, answers, cache, true)
    requires replies[|replies| - 1].IsUnauthorized()
    ensures answers != [] && answers[|answers| - 1].None? && cache.None?
  {
    var init := answers[..|answers| - 1];
    assert forall k :: 0 <= k < |init| ==> init[k] == answers[k] && sent[k + 1] == sent[k + 1];
    assert CountPresent(init) == |init|;
  }

  /** A reply other than 401 completes the call at once: it is the last one, and the cache is what it was when it was sent. */
  lemma OtherReplyCompletes(
    request: Request<Bytes>, initialCache: Option<string>, hasCallback: bool,
    sent: seq<Request<Bytes>>, replies: seq<Response>,
    asked: seq<Response>, answers: seq<Option<Authorization>>,
    cache: Option<string>, completed: bool, k: nat)
    requires RetryTrace(request, initialCache, hasCallback, sent, replies, asked, answers, cache, completed)
    requires k < |replies| && !replies[k].IsUnauthorized()
    ensures k == |replies| - 1 && completed && |answers| == k
    ensures cache == (if k == 0 then initialCache else HeaderOf(answers[k - 1]))
  {
  }

  /** Every request after the first carries new credentials: the callback answered with credentials that many times. */
  lemma RetriesCountAnswers(
    request: Request<Bytes>, initialCache: Option<string>, hasCallback: bool,
    sent: seq<Request<Bytes>>, replies: seq<Response>,
    asked: seq<Response>, answers: seq<Option<Authorization>>,
    cache: Option<string>)
    requires RetryTrace(request, initialCache, hasCallback, sent, replies, asked, answers, cache, true)
    ensures |sent| == 1 + CountPresent(answers)
    ensures forall k :: 0 < k < |sent| ==> HeaderValue(sent[k], AuthorizationField) == HeaderOf(answers[k - 1])
  {
    forall k | 0 < k < |sent|
      ensures HeaderValue(sent[k], AuthorizationField) == HeaderOf(answers[k - 1])
    {
    }
  }

  /** The authorization-retry decorator around a base transport. */
  class AuthorizationProvider {
    const base: HttpClient
    var encodedAuthorizationHeader: Option<string>
    const requestNewCredentialsCallback: Option<CredentialsCallback>

    /** The callback object, if any: the only state besides the base the provider drives. */
    function CallbackFrame(): set<object> {
      if requestNewCredentialsCallback.Some? then {requestNewCredentialsCallback.value} else {}
    }

    /** What the callback has been asked and has answered so far (nothing without a callback). */
    ghost function Asked(): seq<Response>
      reads CallbackFrame()
    {
      if requestNewCredentialsCallback.Some? then requestNewCredentialsCallback.value.asked else []
    }

    ghost function Answers(): seq<Option<Authorization>>
      reads CallbackFrame()
    {
      if requestNewCredentialsCallback.Some? then requestNewCredentialsCallback.value.answers else []
    }

    ghost predicate Valid()
      reads this, base, CallbackFrame()
    {
      base.Valid() && (requestNewCredentialsCallback.Some? ==> requestNewCredentialsCallback.value.Valid())
    }

    constructor (base: HttpClient, initialAuthorization: Option<Authorization>, newCredentialsCallback: Option<CredentialsCallback>)
      requires base.Valid() && (newCredentialsCallback.Some? ==> newCredentialsCallback.value.Valid())
      ensures Valid()
      ensures this.base == base && requestNewCredentialsCallback == newCredentialsCallback
      ensures encodedAuthorizationHeader == HeaderOf(initialAuthorization)
    {
      this.base := base;
      encodedAuthorizationHeader := HeaderOf(initialAuthorization);
      requestNewCredentialsCallback := newCredentialsCallback;
    }

    /**
     * One pass of `send(request:completion:)` without the re-entry: add the
     * cached header, send through the base, and on a 401 refresh the cache
     * from the callback. `retry` says whether the source would now send again.
     */
    method Attempt(pending: Request<Bytes>) returns (finalRequest: Request<Bytes>, reply: Response, retry: bool)
      requires Valid()
      modifies this, base, CallbackFrame()
      ensures Valid()
      ensures finalRequest == Authorized(pending, old(encodedAuthorizationHeader))
      ensures base.requests == old(base.requests) + [finalRequest]
      ensures base.responses == old(base.responses) + [reply]
      ensures reply == base.Reply(old(base.requests), finalRequest)
      ensures if reply.IsUnauthorized() && requestNewCredentialsCallback.Some? then
          && |Answers()| == |old(Answers())| + 1
          && Asked() == old(Asked()) + [reply]
          && Answers() == old(Answers()) + [requestNewCredentialsCallback.value.answer(old(Asked()), reply)]
          && encodedAuthorizationHeader == HeaderOf(Answers()[|Answers()| - 1])
          && retry == encodedAuthorizationHeader.Some?
        else
          && Asked() == old(Asked()) && Answers() == old(Answers())
          && encodedAuthorizationHeader == old(encodedAuthorizationHeader) && !retry
    {
      finalRequest := Authorized(pending, encodedAuthorizationHeader);
      reply := base.Send(finalRequest);
      retry := false;
      if reply.IsUnauthorized() && requestNewCredentialsCallback.Some? {
        var credentials := requestNewCredentialsCallback.value.Ask(reply);
        encodedAuthorizationHeader := HeaderOf(credentials);
        retry := encodedAuthorizationHeader.Some?;
      }
    }

    /**
     * The state of a `send` call that started with `n0` requests sent, the
     * callback asked `q0` times and answered `a0` times, and the cache at
     * `initialCache`: the part of the trace since then follows the protocol.
     */
    ghost predicate InProgress(request: Request<Bytes>, initialCache: Option<string>, n0: nat, q0: nat, a0: nat, completed: bool)
      reads this, base, CallbackFrame()
    {
      && Valid()
      && n0 <= |base.requests| && q0 <= |Asked()| && a0 <= |Answers()|
      && RetryTrace(request, initialCache, requestNewCredentialsCallback.Some?,
           base.requests[n0..], base.responses[n0..], Asked()[q0..], Answers()[a0..],
           encodedAuthorizationHeader, completed)
    }

    /**
     * The bookkeeping of one pass, stated on the state before it: the part
     * of the trace since the call began grows by the pass's send and, when
     * the callback was asked, by its answer.
     */
    lemma PassProgress(request: Request<Bytes>, initialCache: Option<string>, n0: nat, q0: nat, a0: nat,
                       requestsBefore: seq<Request<Bytes>>, responsesBefore: seq<Response>,
                       askedBefore: seq<Response>, answersBefore: seq<Option<Authorization>>, cache: Option<string>,
                       pending: Request<Bytes>, sent: Request<Bytes>, reply: Response, retry: bool)
      requires Valid()
      requires n0 <= |requestsBefore| == |responsesBefore| && q0 <= |askedBefore| && a0 <= |answersBefore|
      requires RetryTrace(request, initialCache, requestNewCredentialsCallback.Some?,
        requestsBefore[n0..], responsesBefore[n0..], askedBefore[q0..], answersBefore[a0..], cache, false)
      requires pending == if |requestsBefore| == n0 then request else SetHeader(request, AuthorizationField, None)
      requires sent == Authorized(pending, cache)
      requires base.requests == requestsBefore + [sent] && base.responses == responsesBefore + [reply]
      requires if reply.IsUnauthorized() && requestNewCredentialsCallback.Some? then
          && |Answers()| == |answersBefore| + 1
          && Asked() == askedBefore + [reply]
          && Answers() == answersBefore + [Answers()[|Answers()| - 1]]
          && encodedAuthorizationHeader == HeaderOf(Answers()[|Answers()| - 1])
          && retry == encodedAuthorizationHeader.Some?
        else
          && Asked() == askedBefore && Answers() == answersBefore
          && encodedAuthorizationHeader == cache && !retry
      ensures InProgress(request, initialCache, n0, q0, a0, !retry)
      ensures askedBefore <= Asked() && answersBefore <= Answers()
    {
      var hasCallback := requestNewCredentialsCallback.Some?;
      var answer := if hasCallback && reply.IsUnauthorized() then Answers()[|Answers()| - 1] else None;
      RetryTraceStep(request, initialCache, hasCallback, requestsBefore[n0..], responsesBefore[n0..],
        askedBefore[q0..], answersBefore[a0..], cache, pending, reply, answer);
      DropAppend(requestsBefore, n0, [sent]);
      DropAppend(responsesBefore, n0, [reply]);
      if hasCallback && reply.IsUnauthorized() {
        DropAppend(askedBefore, q0, [reply]);
        DropAppend(answersBefore, a0, [answer]);
      }
    }

    /** One pass of `send` inside a call in progress, and the request the re-entered `send` would start from. */
    method Pass(ghost request: Request<Bytes>, ghost initialCache: Option<string>, ghost n0: nat, ghost q0: nat, ghost a0: nat,
                pending: Request<Bytes>)
      returns (reply: Response, retry: bool, next: Request<Bytes>)
      requires InProgress(request, initialCache, n0, q0, a0, false)
      requires pending == if |base.requests| == n0 then request else SetHeader(request, AuthorizationField, None)
      modifies this, base, CallbackFrame()
      ensures InProgress(request, initialCache, n0, q0, a0, !retry)
      ensures |base.requests| == |old(base.requests)| + 1 && old(base.requests) <= base.requests
      ensures base.responses == old(base.responses) + [reply] && reply == Last(base.responses)
      ensures old(Asked()) <= Asked() && old(Answers()) <= Answers()
      ensures retry ==> next == SetHeader(request, AuthorizationField, None)
    {
      ghost var cache := encodedAuthorizationHeader;
      ghost var requestsBefore, responsesBefore := base.requests, base.responses;
      ghost var askedBefore, answersBefore := Asked(), Answers();
      var sent;
      sent, reply, retry := Attempt(pending);
      PassProgress(request, initialCache, n0, q0, a0, requestsBefore, responsesBefore, askedBefore, answersBefore,
        cache, pending, sent, reply, retry);
      next := pending;
      if retry {
        StrippedAuthorized(request, pending, cache);
        next := SetHeader(sent, AuthorizationField, None);
      }
    }

    /** A call that has sent nothing yet is in progress from the current state. */
    lemma Begin(request: Request<Bytes>)
      requires Valid()
      ensures InProgress(request, encodedAuthorizationHeader, |base.requests|, |Asked()|, |Answers()|, false)
    {
      RetryTraceStart(request, encodedAuthorizationHeader, requestNewCredentialsCallback.Some?);
      assert base.requests[|base.requests|..] == [] && base.responses[|base.responses|..] == [];
      assert Asked()[|Asked()|..] == [] && Answers()[|Answers()|..] == [];
    }

    /**
     * `send(request:completion:)`. The source retries by calling itself, with
     * no bound; here the retries are a loop allowed at most `fuel` base sends,
     * and the result is `None` when that allowance runs out while the source
     * would have retried again. The response returned is the base's last
     * logged reply, which the base's `Valid` (kept by `InProgress`) makes the
     * server's outcome for the last request sent (`HttpClient.Replied`).
     */
    method Send(request: Request<Bytes>, fuel: nat) returns (response: Option<Response>)
      requires Valid()
      modifies this, base, CallbackFrame()
      ensures InProgress(request, old(encodedAuthorizationHeader), |old(base.requests)|, |old(Asked())|, |old(Answers())|,
        response.Some?)
      ensures old(base.requests) <= base.requests && old(base.responses) <= base.responses
      ensures old(Asked()) <= Asked() && old(Answers()) <= Answers()
      ensures |base.requests| - |old(base.requests)| <= fuel
      ensures response.Some? || |base.requests| - |old(base.requests)| == fuel
      ensures response.Some? ==> base.responses != [] && response.value == Last(base.responses)
    {
      var n0 := |base.requests|;
      ghost var c0 := encodedAuthorizationHeader;
      ghost var q0 := |Asked()|;
      ghost var a0 := |Answers()|;
      var pending := request;
      var n := 0;
      var done := false;
      response := None;
      Begin(request);
      while !done && n < fuel
        invariant n <= fuel && |base.requests| == n0 + n
        invariant InProgress(request, c0, n0, q0, a0, done)
        invariant old(base.requests) <= base.requests && old(base.responses) <= base.responses
        invariant old(Asked()) <= Asked() && old(Answers()) <= Answers()
        invariant done == response.Some?
        invariant done ==> response.value == Last(base.responses)
        invariant !done ==> pending == if n == 0 then request else SetHeader(request, AuthorizationField, None)
        decreases fuel - n
      {
        var reply, retry, next := Pass(request, c0, n0, q0, a0, pending);
        n := n + 1;
        done := !retry;
        if retry {
          pending := next;
        } else {
          response := Some(reply);
        }
      }
    }
  }
}
