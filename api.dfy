/**
 * The backend client: endpoint paths, request headers, the normalisation of
 * failed exchanges into one `ApiError`, and the task-status poller.
 *
 * An HTTP exchange is given as its outcome: `fetch` either fails (with the
 * message of the error it throws) or yields a `Response`. JSON decoding is an
 * abstract codec `string -> Result<T, string>` whose failure carries the
 * message of the error `parse` throws.
 */
module ApiClient {
  import opened Wrappers
  import opened Strings

  const DefaultApiBase := "/api"
  const DefaultErrorMessage := "An error occurred"
  const UploadFailedMessage := "Upload failed"
  /**
   * The sentinel detail for responses that are not usable JSON. It is written
   * as a concatenation of short pieces so that facts about its characters
   * (such as `'<' !in ServiceUnavailableMessage`) can be proved piece by piece
   * instead of over one long literal.
   */
  const ServiceUnavailableMessage := "Service is " + "unavailable. " + "Please check " + "your connection."
  const NetworkErrorMessage := "Network error. Please check your connection."
  const ContentTypeHeader := "Content-Type"
  const JsonContentType := "application/json"
  const DoctypeMarker := "<!DOCTYPE html>"
  const HtmlMarker := "<html"
  const DefaultPollInterval := 2000
  const CompletedStatus := "completed"
  const FailedStatus := "failed"

  /** The one error shape the rest of the client observes. */
  datatype ApiError = ApiError(detail: string, status: int)

  /** A value a rejected promise carries: an `ApiError` object or a JavaScript `Error`. */
  datatype Thrown = Api(error: ApiError) | JsError(message: string)
  {
    /** `err.detail`, None where the property is undefined. */
    function Detail(): Option<string> {
      if Api? then Some(error.detail) else None
    }

    /** `err.message`, None where the property is undefined. */
    function Message(): Option<string> {
      if JsError? then Some(message) else None
    }
  }

  /** JavaScript truthiness of an optional string. */
  predicate Truthy(v: Option<string>) {
    v.Some? && v.value != ""
  }

  /** `v || fallback` for an optional string. */
  function Or(v: Option<string>, fallback: string): string {
    if Truthy(v) then v.value else fallback
  }

  /** A response body: its text, or the reason reading it failed. */
  datatype Body = Body(text: string) | Unreadable(reason: string)

  datatype Response = Response(status: int, contentType: Option<string>, body: Body)

  /** The two fields of a JSON error body the client looks at. */
  datatype ErrorBody = ErrorBody(detail: Option<string>, message: Option<string>)

  /** The ok status of the WHATWG Fetch Standard, section 2.2.3: 200 to 299. */
  predicate IsOk(status: int) {
    200 <= status <= 299
  }

  /** `response.text()`. */
  function ReadText(body: Body): Result<string, string> {
    match body
    case Body(text) => Success(text)
    case Unreadable(reason) => Failure(reason)
  }

  /** `response.json()`: read the body, then decode it. */
  function ReadJson<T>(body: Body, decode: string -> Result<T, string>): Result<T, string> {
    match body
    case Body(text) => decode(text)
    case Unreadable(reason) => Failure(reason)
  }

  /** The response declares a JSON body (a substring test on the content type). */
  predicate DeclaresJson(contentType: Option<string>) {
    contentType.Some? && Contains(contentType.value, JsonContentType)
  }

  /** The text holds a markup document marker anywhere (a substring test, not a prefix test). */
  predicate LooksLikeMarkup(text: string) {
    Contains(text, DoctypeMarker) || Contains(text, HtmlMarker)
  }

  /**
   * The classification `request` and `uploadDocument` share for a response
   * that is not ok; `fallback` is the message each starts from.
   */
  function ClassifyFailure(r: Response, fallback: string, decode: string -> Result<ErrorBody, string>): (e: ApiError)
    ensures e.status == r.status
    ensures DeclaresJson(r.contentType) && ReadJson(r.body, decode).Success? ==>
      var b := ReadJson(r.body, decode).value;
      (Truthy(b.detail) ==> e.detail == b.detail.value) &&
      (!Truthy(b.detail) && Truthy(b.message) ==> e.detail == b.message.value) &&
      (!Truthy(b.detail) && !Truthy(b.message) ==> e.detail == fallback)
    ensures DeclaresJson(r.contentType) && ReadJson(r.body, decode).Failure? ==> e.detail == ServiceUnavailableMessage
    ensures !DeclaresJson(r.contentType) && r.body.Unreadable? ==> e.detail == ServiceUnavailableMessage
    ensures !DeclaresJson(r.contentType) && r.body.Body? && LooksLikeMarkup(r.body.text) ==>
      e.detail == ServiceUnavailableMessage
    ensures !DeclaresJson(r.contentType) && r.body.Body? && !LooksLikeMarkup(r.body.text) ==>
      e.detail == (if r.body.text != "" then r.body.text else fallback)
  {
    var detail :=
      if DeclaresJson(r.contentType) then
        match ReadJson(r.body, decode)
        case Success(b) => Or(b.detail, Or(b.message, fallback))
        case Failure(_) => ServiceUnavailableMessage
      else
        match ReadText(r.body)
        case Success(text) =>
          if LooksLikeMarkup(text) then ServiceUnavailableMessage else Or(Some(text), fallback)
        case Failure(_) => ServiceUnavailableMessage;
    ApiError(detail, r.status)
  }

  /** The classification ends with the caller's default message. */
  predicate UsesFallback(r: Response, decode: string -> Result<ErrorBody, string>) {
    if DeclaresJson(r.contentType) then
      ReadJson(r.body, decode).Success? &&
      !Truthy(ReadJson(r.body, decode).value.detail) && !Truthy(ReadJson(r.body, decode).value.message)
    else
      r.body.Body? && r.body.text == ""
  }

  /** Two call sites with different default messages classify alike, except where the default is used. */
  lemma FallbackIsTheOnlyDifference(r: Response, a: string, b: string, decode: string -> Result<ErrorBody, string>)
    ensures UsesFallback(r, decode) ==>
      ClassifyFailure(r, a, decode) == ApiError(a, r.status) && ClassifyFailure(r, b, decode) == ApiError(b, r.status)
    ensures !UsesFallback(r, decode) ==> ClassifyFailure(r, a, decode) == ClassifyFailure(r, b, decode)
  {
    if !DeclaresJson(r.contentType) && r.body.Body? && r.body.text == "" {
      MissingFirstCharNotContained(r.body.text, DoctypeMarker);
      MissingFirstCharNotContained(r.body.text, HtmlMarker);
    }
  }

  /** The default message is kept only when nothing better is known, so the detail is never empty. */
  lemma DetailNeverEmpty(r: Response, fallback: string, decode: string -> Result<ErrorBody, string>)
    requires fallback != ""
    ensures ClassifyFailure(r, fallback, decode).detail != ""
  {
  }

  lemma SentinelHasNoAngleBracket()
    ensures '<' !in ServiceUnavailableMessage
  {
    assert '<' !in "Service is ";
    assert '<' !in "unavailable. ";
    assert '<' !in "Please check ";
    assert '<' !in "your connection.";
  }

  /** The sentinel holds no '<', so it is not markup. */
  lemma SentinelIsNotMarkup()
    ensures !LooksLikeMarkup(ServiceUnavailableMessage)
  {
    SentinelHasNoAngleBracket();
    MissingFirstCharNotContained(ServiceUnavailableMessage, DoctypeMarker);
    MissingFirstCharNotContained(ServiceUnavailableMessage, HtmlMarker);
  }

  /** A body that is not declared JSON never reaches the user as markup. */
  lemma NonJsonDetailIsNotMarkup(r: Response, fallback: string, decode: string -> Result<ErrorBody, string>)
    requires !DeclaresJson(r.contentType) && !LooksLikeMarkup(fallback)
    ensures !LooksLikeMarkup(ClassifyFailure(r, fallback, decode).detail)
  {
    SentinelIsNotMarkup();
  }

  /** A markup body yields the sentinel whatever the status. */
  lemma MarkupBodyIsUnavailable(status: int, contentType: Option<string>, text: string, fallback: string,
                                decode: string -> Result<ErrorBody, string>)
    requires !DeclaresJson(contentType) && LooksLikeMarkup(text)
    ensures ClassifyFailure(Response(status, contentType, Body(text)), fallback, decode)
      == ApiError(ServiceUnavailableMessage, status)
  {
  }

  /** The error `request` throws when no usable response arrived. */
  function NetworkError(): ApiError {
    ApiError(NetworkErrorMessage, 0)
  }

  /**
   * `request`: a JSON exchange whose every failure is an `ApiError`. A thrown
   * value without a truthy status (a failed fetch, a malformed success body,
   * an error response with status 0) becomes the network error.
   */
  function Request<T>(fetched: Result<Response, string>, decodeError: string -> Result<ErrorBody, string>,
                      decodeBody: string -> Result<T, string>): (r: Result<T, ApiError>)
    ensures r.Success? <==>
      fetched.Success? && IsOk(fetched.value.status) && ReadJson(fetched.value.body, decodeBody).Success?
    ensures r.Success? ==> r.value == ReadJson(fetched.value.body, decodeBody).value
    ensures r.Failure? && r.error.status != 0 ==>
      fetched.Success? && !IsOk(fetched.value.status) &&
      r.error == ClassifyFailure(fetched.value, DefaultErrorMessage, decodeError)
    ensures r.Failure? && r.error.status == 0 ==> r.error == NetworkError()
  {
    match fetched
    case Failure(_) => Failure(NetworkError())
    case Success(resp) =>
      if !IsOk(resp.status) then
        var e := ClassifyFailure(resp, DefaultErrorMessage, decodeError);
        if e.status != 0 then Failure(e) else Failure(NetworkError())
      else
        match ReadJson(resp.body, decodeBody)
        case Success(v) => Success(v)
        case Failure(_) => Failure(NetworkError())
  }

  /** A non-ok response with a non-zero status is rethrown with that status and its classified detail. */
  lemma RequestKeepsRejection<T>(resp: Response, decodeError: string -> Result<ErrorBody, string>,
                                 decodeBody: string -> Result<T, string>)
    requires !IsOk(resp.status) && resp.status != 0
    ensures Request(Success(resp), decodeError, decodeBody)
      == Failure(ClassifyFailure(resp, DefaultErrorMessage, decodeError))
  {
  }

  /** A failed fetch and a malformed success body both become the network error. */
  lemma RequestNetworkFailures<T>(reason: string, resp: Response, decodeError: string -> Result<ErrorBody, string>,
                                  decodeBody: string -> Result<T, string>)
    ensures Request(Failure(reason), decodeError, decodeBody) == Failure(NetworkError())
    ensures IsOk(resp.status) && ReadJson(resp.body, decodeBody).Failure? ==>
      Request(Success(resp), decodeError, decodeBody) == Failure(NetworkError())
  {
  }

  /** Every failure of `request` has a non-empty detail. */
  lemma RequestDetailNeverEmpty<T>(fetched: Result<Response, string>, decodeError: string -> Result<ErrorBody, string>,
                                   decodeBody: string -> Result<T, string>)
    requires Request(fetched, decodeError, decodeBody).Failure?
    ensures Request(fetched, decodeError, decodeBody).error.detail != ""
  {
    if fetched.Success? {
      DetailNeverEmpty(fetched.value, DefaultErrorMessage, decodeError);
    }
  }

  /** A JSON error body `{"detail": "x"}` with status 404 gives `{detail: "x", status: 404}`. */
  lemma JsonDetailExample<T>(text: string, decodeError: string -> Result<ErrorBody, string>,
                             decodeBody: string -> Result<T, string>)
    requires decodeError(text) == Success(ErrorBody(Some("x"), None))
    ensures Request(Success(Response(404, Some(JsonContentType), Body(text))), decodeError, decodeBody)
      == Failure(ApiError("x", 404))
  {
    assert OccursAt(JsonContentType, JsonContentType, 0);
  }

  /**
   * `uploadDocument`: the same classification with 'Upload failed' as the
   * default; a failed fetch or a malformed success body propagates raw.
   */
  function UploadDocument<T>(fetched: Result<Response, string>, decodeError: string -> Result<ErrorBody, string>,
                             decodeBody: string -> Result<T, string>): (r: Result<T, Thrown>)
    ensures fetched.Failure? ==> r == Failure(JsError(fetched.error))
    ensures fetched.Success? && !IsOk(fetched.value.status) ==>
      r == Failure(Api(ClassifyFailure(fetched.value, UploadFailedMessage, decodeError)))
    ensures fetched.Success? && IsOk(fetched.value.status) ==>
      (r.Success? <==> ReadJson(fetched.value.body, decodeBody).Success?) &&
      (r.Success? ==> r.value == ReadJson(fetched.value.body, decodeBody).value) &&
      (r.Failure? ==> r.error == JsError(ReadJson(fetched.value.body, decodeBody).error))
  {
    match fetched
    case Failure(reason) => Failure(JsError(reason))
    case Success(resp) =>
      if !IsOk(resp.status) then Failure(Api(ClassifyFailure(resp, UploadFailedMessage, decodeError)))
      else
        match ReadJson(resp.body, decodeBody)
        case Success(v) => Success(v)
        case Failure(reason) => Failure(JsError(reason))
  }

  /**
   * For a rejected response with a non-zero status, `request` and
   * `uploadDocument` report the same error unless the default message is used.
   */
  lemma UploadClassifiesLikeRequest<T, U>(resp: Response, decodeError: string -> Result<ErrorBody, string>,
                                          decodeT: string -> Result<T, string>, decodeU: string -> Result<U, string>)
    requires !IsOk(resp.status) && resp.status != 0
    ensures var fromRequest := Request(Success(resp), decodeError, decodeT);
      var fromUpload := UploadDocument(Success(resp), decodeError, decodeU);
      fromRequest.Failure? && fromUpload.Failure? && fromUpload.error.Api? &&
      (UsesFallback(resp, decodeError) ==>
        fromRequest.error.detail == DefaultErrorMessage && fromUpload.error.error.detail == UploadFailedMessage) &&
      (!UsesFallback(resp, decodeError) ==> fromRequest.error == fromUpload.error.error)
  {
    FallbackIsTheOnlyDifference(resp, DefaultErrorMessage, UploadFailedMessage, decodeError);
  }

  /** The `document_name` form field: the given name, or the file's own. */
  function DocumentNameField(fileName: string, documentName: Option<string>): (name: string)
    ensures Truthy(documentName) ==> name == documentName.value
    ensures !Truthy(documentName) ==> name == fileName
  {
    Or(documentName, fileName)
  }

  /** The headers of a JSON request: the JSON content type first, then the caller's, which win. */
  function RequestHeaders(caller: map<string, string>): (h: map<string, string>)
    ensures h.Keys == caller.Keys + {ContentTypeHeader}
    ensures forall k :: k in caller ==> h[k] == caller[k]
    ensures ContentTypeHeader !in caller ==> h[ContentTypeHeader] == JsonContentType
  {
    map[ContentTypeHeader := JsonContentType] + caller
  }

  /** Success payloads of the document endpoints. */
  datatype UploadResponse = UploadResponse(fileId: string, filename: string, status: string, message: string)
  datatype EmbeddingResponse = EmbeddingResponse(taskId: string, fileId: string, status: string, message: string)
  datatype UploadedFile = UploadedFile(fileId: string, filename: string, sizeBytes: int, contentType: string)
  datatype FilesPage = FilesPage(files: seq<UploadedFile>, total: int, page: int, pageSize: int)
  datatype DeleteResponse = DeleteResponse(fileId: string, status: string, message: string)

  datatype HttpMethod = Get | Post | Delete

  /** The client's calls to the backend. */
  datatype Operation =
    | Health
    | Query
    | UploadFile
    | GenerateEmbeddings(documentId: string)
    | ListDocuments(page: Option<int>, pageSize: Option<int>)
    | DeleteDocument(documentId: string)
    | GetTaskStatus(taskId: string)

  function MethodOf(op: Operation): HttpMethod {
    match op
    case Query | UploadFile | GenerateEmbeddings(_) => Post
    case DeleteDocument(_) => Delete
    case _ => Get
  }

  /** The endpoint path of an operation (ids are interpolated as they are). */
  function PathOf(op: Operation): (path: string)
    ensures |path| > 0 && path[0] == '/'
  {
    match op
    case Health => "/health"
    case Query => "/query"
    case UploadFile => "/uploads"
    case GenerateEmbeddings(id) => "/embeddings/" + id
    case ListDocuments(page, pageSize) =>
      "/documents?page=" + IntToString(if page.Some? then page.value else 1)
      + "&page_size=" + IntToString(if pageSize.Some? then pageSize.value else 10)
    case DeleteDocument(id) => "/documents/" + id
    case GetTaskStatus(id) => "/tasks/" + id
  }

  /** `API_BASE`: the configured base URL, or '/api' when it is unset or empty. */
  function ApiBase(configured: Option<string>): (base: string)
    ensures configured.Some? && configured.value != "" ==> base == configured.value
    ensures configured.None? || configured.value == "" ==> base == DefaultApiBase
    ensures base != ""
  {
    Or(configured, DefaultApiBase)
  }

  /** The URL of an operation: the base followed by the path. */
  function Url(configured: Option<string>, op: Operation): (url: string)
    ensures |url| == |ApiBase(configured)| + |PathOf(op)|
    ensures url[..|ApiBase(configured)|] == ApiBase(configured)
    ensures url[|ApiBase(configured)|..] == PathOf(op)
  {
    ApiBase(configured) + PathOf(op)
  }

  lemma ListDocumentsDefaults()
    ensures PathOf(ListDocuments(None, None)) == PathOf(ListDocuments(Some(1), Some(10)))
    ensures PathOf(ListDocuments(None, None)) == "/documents?page=" + "1" + "&page_size=" + "10"
    ensures Url(None, ListDocuments(None, None)) == "/api" + PathOf(ListDocuments(None, None))
  {
    DecimalOneAndTen();
  }

  lemma DecimalOneAndTen()
    ensures IntToString(1) == "1" && IntToString(10) == "10"
  {
    assert Decimal(1) == "1";
  }

  /** Different task ids are polled at different URLs. */
  lemma TaskUrlsDistinct(configured: Option<string>, a: string, b: string)
    requires a != b
    ensures Url(configured, GetTaskStatus(a)) != Url(configured, GetTaskStatus(b))
  {
    var pa, pb := PathOf(GetTaskStatus(a)), PathOf(GetTaskStatus(b));
    assert pa[7..] == a && pb[7..] == b;
    var base := ApiBase(configured);
    assert (base + pa)[|base|..] == pa && (base + pb)[|base|..] == pb;
  }

  /** A task status: a read-only projection of the server's task. */
  datatype TaskStatus = TaskStatus(
    taskId: string,
    status: string,
    fileId: Option<string>,
    message: string,
    chunksProcessed: int,
    totalChunks: int,
    createdAt: string,
    completedAt: Option<string>)

  /** What one status request gave: a status, or the error `request` threw. */
  type PollResult = Result<TaskStatus, ApiError>

  datatype PollOutcome = Resolved(final: TaskStatus) | Rejected(reason: Thrown) | StillPolling

  /**
   * What a run of the poller shows: its outcome, how many status requests it
   * issued, the statuses passed to the progress callback and the delays it
   * scheduled before re-polling.
   */
  datatype PollTrace = PollTrace(outcome: PollOutcome, requests: nat, reported: seq<TaskStatus>, delays: seq<int>)

  /** A result after which the poller issues no further request. */
  predicate Ends(r: PollResult) {
    r.Failure? || r.value.status == CompletedStatus || r.value.status == FailedStatus
  }

  function Ending(r: PollResult): PollOutcome
    requires Ends(r)
  {
    match r
    case Failure(e) => Rejected(Api(e))
    case Success(s) => if s.status == CompletedStatus then Resolved(s) else Rejected(JsError(s.message))
  }

  function IntervalOrDefault(interval: Option<int>): int {
    if interval.Some? then interval.value else DefaultPollInterval
  }

  /**
   * `pollTaskStatus` against a scripted server: the i-th status request gets
   * `script[i]`. A script that runs out leaves the poller still polling.
   */
  function PollSpec(script: seq<PollResult>, withProgress: bool, interval: int): (t: PollTrace)
    ensures t.requests <= |script|
    ensures t.requests == 0 <==> script == []
    ensures t.outcome.StillPolling? ==> t.requests == |script|
    ensures |t.delays| == if t.outcome.StillPolling? then t.requests else t.requests - 1
    ensures forall k :: 0 <= k < |t.delays| ==> t.delays[k] == interval
    ensures !withProgress ==> t.reported == []
    decreases |script|
  {
    if script == [] then PollTrace(StillPolling, 0, [], [])
    else
      var first := script[0];
      var shown := if withProgress && first.Success? then [first.value] else [];
      if Ends(first) then PollTrace(Ending(first), 1, shown, [])
      else
        var rest := PollSpec(script[1..], withProgress, interval);
        PollTrace(rest.outcome, rest.requests + 1, shown + rest.reported, [interval] + rest.delays)
  }

  /** The statuses among a sequence of results. */
  function Statuses(rs: seq<PollResult>): seq<TaskStatus> {
    if rs == [] then []
    else (if rs[0].Success? then [rs[0].value] else []) + Statuses(rs[1..])
  }

  /**
   * The poller stops at the first status that is completed or failed, or at
   * the first failed request: exactly that many requests are issued, and every
   * status received up to and including it is reported.
   */
  lemma {:induction false} PollStopsAtFirstEnd(script: seq<PollResult>, k: nat, withProgress: bool, interval: int)
    requires k < |script| && Ends(script[k])
    requires forall j :: 0 <= j < k ==> !Ends(script[j])
    ensures var t := PollSpec(script, withProgress, interval);
      t.outcome == Ending(script[k]) && t.requests == k + 1 &&
      t.reported == (if withProgress then Statuses(script[..k + 1]) else [])
    decreases k
  {
    if k > 0 {
      PollStopsAtFirstEnd(script[1..], k - 1, withProgress, interval);
      assert script[..k + 1] == [script[0]] + script[1..][..k];
    } else {
      assert script[..1] == [script[0]];
    }
  }

  /** While no result ends polling, every status is reported and the poller keeps polling. */
  lemma {:induction false} PollWithoutEnd(script: seq<PollResult>, withProgress: bool, interval: int)
    requires forall j :: 0 <= j < |script| ==> !Ends(script[j])
    ensures var t := PollSpec(script, withProgress, interval);
      t.outcome.StillPolling? && t.requests == |script| &&
      t.reported == (if withProgress then Statuses(script) else [])
    decreases |script|
  {
    if script != [] {
      PollWithoutEnd(script[1..], withProgress, interval);
    }
  }

  /** Once a result has ended polling, later results are never requested. */
  lemma {:induction false} PollIgnoresLaterResults(script: seq<PollResult>, tail: seq<PollResult>,
                                                   withProgress: bool, interval: int)
    requires exists j :: 0 <= j < |script| && Ends(script[j])
    ensures PollSpec(script + tail, withProgress, interval) == PollSpec(script, withProgress, interval)
    decreases |script|
  {
    assert (script + tail)[0] == script[0];
    if !Ends(script[0]) {
      var j :| 0 <= j < |script| && Ends(script[j]);
      assert Ends(script[1..][j - 1]);
      PollIgnoresLaterResults(script[1..], tail, withProgress, interval);
      assert (script + tail)[1..] == script[1..] + tail;
    }
  }

  /** Processing 1/10, processing 5/10, completed: three requests, three reports, resolved, then silence. */
  lemma PollCompletedScenario(p1: TaskStatus, p2: TaskStatus, done: TaskStatus, tail: seq<PollResult>)
    requires p1.status == "processing" && p1.chunksProcessed == 1 && p1.totalChunks == 10
    requires p2.status == "processing" && p2.chunksProcessed == 5 && p2.totalChunks == 10
    requires done.status == CompletedStatus
    ensures PollSpec([Success(p1), Success(p2), Success(done)] + tail, true, DefaultPollInterval)
      == PollTrace(Resolved(done), 3, [p1, p2, done], [DefaultPollInterval, DefaultPollInterval])
  {
    var script := [Success(p1), Success(p2), Success(done)];
    assert Ends(script[2]);
    PollIgnoresLaterResults(script, tail, true, DefaultPollInterval);
    assert script[1..] == [Success(p2), Success(done)];
    assert script[1..][1..] == [Success(done)];
    var last := PollSpec([Success(done)], true, DefaultPollInterval);
    assert last == PollTrace(Resolved(done), 1, [done], []);
    assert PollSpec(script[1..], true, DefaultPollInterval)
      == PollTrace(Resolved(done), 2, [p2, done], [DefaultPollInterval]);
  }

  /** A failed task rejects with its own message after one request, whatever follows. */
  lemma PollFailedScenario(failed: TaskStatus, tail: seq<PollResult>)
    requires failed.status == FailedStatus && failed.message == "parse error"
    ensures PollSpec([Success(failed)] + tail, true, DefaultPollInterval)
      == PollTrace(Rejected(JsError("parse error")), 1, [failed], [])
  {
  }

  /** Extends a trace's prefix with the trace of the rest of the script. */
  function Then(prefix: PollTrace, rest: PollTrace): PollTrace {
    PollTrace(rest.outcome, prefix.requests + rest.requests, prefix.reported + rest.reported, prefix.delays + rest.delays)
  }

  lemma ThenAssociative(a: PollTrace, b: PollTrace, c: PollTrace)
    ensures Then(Then(a, b), c) == Then(a, Then(b, c))
  {
    assert (a.reported + b.reported) + c.reported == a.reported + (b.reported + c.reported);
    assert (a.delays + b.delays) + c.delays == a.delays + (b.delays + c.delays);
  }

  /** The trace of the poller from request `i` on, indexed rather than sliced, as the loop sees it. */
  function PollFrom(script: seq<PollResult>, i: nat, withProgress: bool, interval: int): PollTrace
    requires i <= |script|
    decreases |script| - i
  {
    if i == |script| then PollTrace(StillPolling, 0, [], [])
    else
      var r := script[i];
      var shown := if withProgress && r.Success? then [r.value] else [];
      if Ends(r) then PollTrace(Ending(r), 1, shown, [])
      else Then(PollTrace(StillPolling, 1, shown, [interval]), PollFrom(script, i + 1, withProgress, interval))
  }

  lemma {:induction false} PollFromIsSpec(script: seq<PollResult>, i: nat, withProgress: bool, interval: int)
    requires i <= |script|
    ensures PollFrom(script, i, withProgress, interval) == PollSpec(script[i..], withProgress, interval)
    decreases |script| - i
  {
    if i < |script| {
      PollFromIsSpec(script, i + 1, withProgress, interval);
      assert script[i..][0] == script[i];
      assert script[i..][1..] == script[i + 1..];
    }
  }

  /** The trace after one more request, taken while polling had not yet stopped. */
  function StepTrace(t: PollTrace, r: PollResult, withProgress: bool, interval: int): PollTrace {
    var shown := if withProgress && r.Success? then [r.value] else [];
    if Ends(r) then PollTrace(Ending(r), t.requests + 1, t.reported + shown, t.delays)
    else PollTrace(StillPolling, t.requests + 1, t.reported + shown, t.delays + [interval])
  }

  /** One request keeps the loop's invariant: the trace so far followed by the rest is the whole trace. */
  lemma StepKeepsTrace(script: seq<PollResult>, i: nat, withProgress: bool, interval: int, t: PollTrace, whole: PollTrace)
    requires i < |script| && t.outcome.StillPolling?
    requires Then(t, PollFrom(script, i, withProgress, interval)) == whole
    ensures var next := StepTrace(t, script[i], withProgress, interval);
      (next.outcome.StillPolling? ==> Then(next, PollFrom(script, i + 1, withProgress, interval)) == whole) &&
      (!next.outcome.StillPolling? ==> next == whole)
  {
    var r := script[i];
    var shown := if withProgress && r.Success? then [r.value] else [];
    if !Ends(r) {
      ThenAssociative(t, PollTrace(StillPolling, 1, shown, [interval]), PollFrom(script, i + 1, withProgress, interval));
    }
  }

  /**
   * One run of the inner `poll`: request the status, hand it to the progress
   * callback, then settle or schedule the next run after `interval`.
   */
  method Poll(result: PollResult, withProgress: bool, interval: int, path: string,
              requested: seq<string>, reported: seq<TaskStatus>, delays: seq<int>)
    returns (outcome: PollOutcome, requested': seq<string>, reported': seq<TaskStatus>, delays': seq<int>)
    ensures requested' == requested + [path]
    ensures PollTrace(outcome, |requested'|, reported', delays')
      == StepTrace(PollTrace(StillPolling, |requested|, reported, delays), result, withProgress, interval)
  {
    requested', reported', delays' := requested + [path], reported, delays;
    if withProgress && result.Success? {
      reported' := reported' + [result.value];
    }
    if Ends(result) {
      outcome := Ending(result);
    } else {
      outcome := StillPolling;
      delays' := delays' + [interval];
    }
  }

  /**
   * `pollTaskStatus(taskId, onProgress, interval)` against a scripted server;
   * `requested` lists the paths of the status requests issued.
   */
  method PollTaskStatus(taskId: string, script: seq<PollResult>, withProgress: bool, interval: Option<int>)
    returns (outcome: PollOutcome, requested: seq<string>, reported: seq<TaskStatus>, delays: seq<int>)
    ensures PollTrace(outcome, |requested|, reported, delays)
      == PollSpec(script, withProgress, IntervalOrDefault(interval))
    ensures forall k :: 0 <= k < |requested| ==> requested[k] == PathOf(GetTaskStatus(taskId))
  {
    var every := IntervalOrDefault(interval);
    var path := PathOf(GetTaskStatus(taskId));
    ghost var whole := PollSpec(script, withProgress, every);
    outcome, requested, reported, delays := StillPolling, [], [], [];
    var i := 0;
    PollFromIsSpec(script, 0, withProgress, every);
    assert script[0..] == script;
    while i < |script| && outcome.StillPolling?
      invariant 0 <= i <= |script| && |requested| == i
      invariant forall k :: 0 <= k < i ==> requested[k] == path
      invariant outcome.StillPolling? ==>
        Then(PollTrace(outcome, i, reported, delays), PollFrom(script, i, withProgress, every)) == whole
      invariant !outcome.StillPolling? ==> PollTrace(outcome, i, reported, delays) == whole
      decreases |script| - i
    {
      ghost var before := PollTrace(outcome, i, reported, delays);
      StepKeepsTrace(script, i, withProgress, every, before, whole);
      outcome, requested, reported, delays := Poll(script[i], withProgress, every, path, requested, reported, delays);
      i := i + 1;
    }
  }
}
