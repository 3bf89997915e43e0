/** The log record `BaseLoggingMixin` accumulates over one call, and the three
    hooks that fill it: `initial` before the handler runs, `handle_exception`
    when it raises, and `finalize_response` after it, which hands the record
    to `handle_log`. */
module Lifecycle {
  import opened Values
  import opened Sanitizer
  import opened Derive
  import opened Http
  import opened Policy

  /** The view's configuration: the sanitiser's inputs, `PATH_LENGTH`,
      the effective `decode_request_body`, and the logging policy. */
  datatype Config = Config(
    cleaner: Cleaner,
    pathLength: nat,
    decodeRequestBody: bool,
    policy: Policy)

  /** What the view offers for introspection: its verb-named attributes and
      its `action` attribute, if any. */
  datatype View = View(handlers: map<string, Option<TypeName>>, action: ActionAttr)

  /** The fields `finalize_response` adds when the call is logged. */
  datatype Captured = Captured(
    remoteAddr: string,
    view: Option<string>,
    viewMethod: Option<string>,
    path: string,
    host: string,
    userAgent: string,
    verb: string,
    queryParams: Val,
    user: Option<User>,
    usernamePersistent: string,
    responseMs: nat,
    response: Val,
    statusCode: int)

  /** `self.log`: set up by `initial`, possibly given `errors`, and completed
      by `finalize_response`. Instants are in microseconds. */
  datatype LogRecord = LogRecord(
    requestedAt: int,
    data: Val,
    errors: Option<string>,
    captured: Option<Captured>)

  /** How a hook ends: normally, or with an exception propagating. */
  datatype Status = Completed | Raised(error: Error)

  datatype Begun = Begun(log: LogRecord, status: Status)

  /** The value `initial` cleans: `request.data.dict()` when available,
      `request.data` otherwise. */
  function BodyValue(d: ParsedData): Val
    requires !d.ParseFailure?
  {
    if d.WithDict? then d.asDict else d.value
  }

  /** `initial`: a fresh record stamped `now`, with an interim `data` (empty
      text when body decoding is off, the cleaned raw body otherwise), then
      the parent's `initial`, then the cleaned parsed body. An exception from
      the parent or from parsing propagates and leaves the interim `data`. */
  function Initial(cfg: Config, req: Request, now: int, superInitial: Status): (r: Begun)
    ensures r.log.requestedAt == now
    ensures r.log.errors.None? && r.log.captured.None?
    ensures r.status.Completed? <==> superInitial.Completed? && !req.data.ParseFailure?
    ensures superInitial.Raised? ==> r.status == superInitial
    ensures superInitial.Completed? && req.data.ParseFailure? ==> r.status == Raised(req.data.error)
    ensures r.status.Completed? ==> r.log.data == Clean(cfg.cleaner, BodyValue(req.data))
    ensures r.status.Raised? && cfg.decodeRequestBody ==>
              r.log.data == Str(cfg.cleaner.foreign.decode(req.body))
    ensures r.status.Raised? && !cfg.decodeRequestBody ==> r.log.data == Str("")
  {
    var interim := if cfg.decodeRequestBody then Clean(cfg.cleaner, Bytes(req.body)) else Str("");
    var log := LogRecord(now, interim, None, None);
    if superInitial.Raised? then Begun(log, superInitial)
    else if req.data.ParseFailure? then Begun(log, Raised(req.data.error))
    else Begun(log.(data := Clean(cfg.cleaner, BodyValue(req.data))), Completed)
  }

  /** The result of the parent's `handle_exception`: a response, or the
      exception it re-raises. */
  datatype Handling = Handled(response: Response) | Reraised(error: Error)

  datatype AfterException = AfterException(log: LogRecord, outcome: Handling)

  /** `handle_exception`: when the parent turns the exception into a
      response, the record gets the traceback text as `errors`; when the
      parent re-raises, the record is left alone. */
  function HandleException(log: LogRecord, parent: Handling, traceback: string)
    : (r: AfterException)
    ensures r.outcome == parent
    ensures r.log.requestedAt == log.requestedAt && r.log.data == log.data
    ensures r.log.captured == log.captured
    ensures r.log.errors == if parent.Handled? then Some(traceback) else log.errors
  {
    match parent
    case Handled(_) => AfterException(log.(errors := Some(traceback)), parent)
    case Reraised(_) => AfterException(log, parent)
  }

  /** The response body `finalize_response` cleans; `None` for streaming. */
  function ResponseBody(content: Content): Val
  {
    match content
    case Streaming => Null
    case Rendered(v) => v
    case Buffered(v) => v
  }

  /** `request.META.get("HTTP_USER_AGENT", "")`. */
  function UserAgent(meta: map<string, string>): string
  {
    if "HTTP_USER_AGENT" in meta then meta["HTTP_USER_AGENT"] else ""
  }

  /** The response-phase fields, including the fallback that shows `data`
      as `query_params` when the cleaned query parameters are empty. */
  function Capture(cfg: Config, log: LogRecord, req: Request, view: View,
                   resp: Response, finishedAt: int): (c: Captured)
    ensures c.remoteAddr == IpAddress(cfg.cleaner.foreign, req.meta)
    ensures c.view == ViewName(cfg.cleaner.foreign, view.handlers, req.verb)
    ensures c.viewMethod == ViewMethod(cfg.cleaner.foreign, view.action, req.verb)
    ensures c.userAgent == if "HTTP_USER_AGENT" in req.meta then req.meta["HTTP_USER_AGENT"] else ""
    ensures c.path <= req.path
    ensures |c.path| == if |req.path| < cfg.pathLength then |req.path| else cfg.pathLength
    ensures finishedAt >= log.requestedAt ==>
              c.responseMs * 1000 <= finishedAt - log.requestedAt < (c.responseMs + 1) * 1000
    ensures finishedAt < log.requestedAt ==> c.responseMs == 0
    ensures resp.content.Streaming? ==> c.response == Null
    ensures resp.content.Rendered? ==> c.response == Clean(cfg.cleaner, resp.content.content)
    ensures resp.content.Buffered? ==> c.response == Clean(cfg.cleaner, resp.content.value)
    ensures req.queryParams == [] ==> c.queryParams == log.data
    ensures req.queryParams != [] ==>
              && c.queryParams == Clean(cfg.cleaner, Dict(req.queryParams))
              && c.queryParams.Dict? && |c.queryParams.entries| == |req.queryParams|
    ensures c.user.None? <==> req.user.isAnonymous
    ensures !req.user.isAnonymous ==> c.user == Some(req.user)
    ensures c.usernamePersistent == if req.user.isAnonymous then AnonymousName else req.user.username
    ensures c.statusCode == resp.statusCode && c.verb == req.verb && c.host == req.host
  {
    var f := cfg.cleaner.foreign;
    var user := LoggedUser(req.user);
    var query := Clean(cfg.cleaner, Dict(req.queryParams));
    Captured(
      remoteAddr := IpAddress(f, req.meta),
      view := ViewName(f, view.handlers, req.verb),
      viewMethod := ViewMethod(f, view.action, req.verb),
      path := TruncatePath(req.path, cfg.pathLength),
      host := req.host,
      userAgent := UserAgent(req.meta),
      verb := req.verb,
      queryParams := if query == Dict([]) then log.data else query,
      user := user,
      usernamePersistent := PersistentUsername(user),
      responseMs := ResponseMs(log.requestedAt, finishedAt),
      response := Clean(cfg.cleaner, ResponseBody(resp.content)),
      statusCode := resp.statusCode)
  }

  /** What became of the `handle_log` call. */
  datatype SinkCall = NotCalled | Stored(record: LogRecord) | Swallowed(record: LogRecord, error: Error)

  datatype Finalized = Finalized(log: LogRecord, response: Response, sink: SinkCall)

  /** `finalize_response`, given the response the parent's
      `finalize_response` returned, the clock, and the outcome `handle_log`
      has on a record. The response is always returned as it came; a call
      the policy rejects leaves the record alone and is not handed on; an
      exception from `handle_log` is swallowed. */
  function FinalizeResponse(cfg: Config, log: LogRecord, req: Request, view: View,
                            resp: Response, finishedAt: int, handleLog: LogRecord -> Status)
    : (r: Finalized)
    ensures r.response == resp
    ensures r.sink.Stored? || r.sink.Swallowed? ==> r.sink.record == r.log
    ensures !Decide(cfg.policy, req, resp) ==> r.log == log && r.sink == NotCalled
    ensures Decide(cfg.policy, req, resp) ==>
              && r.log.requestedAt == log.requestedAt
              && r.log.data == log.data
              && r.log.errors == log.errors
              && r.log.captured == Some(Capture(cfg, log, req, view, resp, finishedAt))
              && (handleLog(r.log).Completed? ==> r.sink == Stored(r.log))
              && (handleLog(r.log).Raised? ==> r.sink == Swallowed(r.log, handleLog(r.log).error))
  {
    if !Decide(cfg.policy, req, resp) then Finalized(log, resp, NotCalled)
    else
      var record := log.(captured := Some(Capture(cfg, log, req, view, resp, finishedAt)));
      match handleLog(record)
      case Completed => Finalized(record, resp, Stored(record))
      case Raised(e) => Finalized(record, resp, Swallowed(record, e))
  }

  /** With neither hook defined, `handle_log` is called exactly when
      `logging_methods` is `"__all__"` or lists the request method. */
  lemma DefaultPolicyGatesSink(cfg: Config, log: LogRecord, req: Request, view: View,
                               resp: Response, finishedAt: int, handleLog: LogRecord -> Status)
    requires cfg.policy.legacyHook.None? && cfg.policy.shouldLogOverride.None?
    ensures var r := FinalizeResponse(cfg, log, req, view, resp, finishedAt, handleLog);
      r.sink != NotCalled
      <==> cfg.policy.loggingMethods.AllMethods? || req.verb in cfg.policy.loggingMethods.verbs
  {
  }

  /** A `_should_log` hook alone decides whether `handle_log` is called,
      whatever `logging_methods` and an overriding `should_log` say. */
  lemma LegacyHookGatesSink(cfg: Config, log: LogRecord, req: Request, view: View,
                            resp: Response, finishedAt: int, handleLog: LogRecord -> Status)
    requires cfg.policy.legacyHook.Some?
    ensures var r := FinalizeResponse(cfg, log, req, view, resp, finishedAt, handleLog);
      r.sink != NotCalled <==> cfg.policy.legacyHook.value(req, resp)
  {
  }

  // ---------------------------------------------------------------------
  // The record stays masked

  /** Every sanitised field of the record is masked. */
  ghost predicate RecordMasked(c: Cleaner, log: LogRecord)
  {
    && Masked(c, log.data)
    && (log.captured.Some? ==>
          Masked(c, log.captured.value.queryParams) && Masked(c, log.captured.value.response))
  }

  /** `initial` produces a masked record, on every path. */
  lemma InitialMasks(cfg: Config, req: Request, now: int, superInitial: Status)
    ensures RecordMasked(cfg.cleaner, Initial(cfg, req, now, superInitial).log)
  {
    if superInitial.Completed? && !req.data.ParseFailure? {
      CleanMasks(cfg.cleaner, BodyValue(req.data));
    }
  }

  /** The sanitised response-phase fields are masked, given a masked `data`
      for the query-parameter fallback. */
  lemma CaptureMasks(cfg: Config, log: LogRecord, req: Request, view: View,
                     resp: Response, finishedAt: int)
    requires Masked(cfg.cleaner, log.data)
    ensures var cap := Capture(cfg, log, req, view, resp, finishedAt);
      Masked(cfg.cleaner, cap.queryParams) && Masked(cfg.cleaner, cap.response)
  {
    CleanMasks(cfg.cleaner, Dict(req.queryParams));
    CleanMasks(cfg.cleaner, ResponseBody(resp.content));
  }

  /** `finalize_response` keeps a masked record masked and hands nothing
      unmasked to `handle_log`. */
  lemma FinalizeKeepsMasked(cfg: Config, log: LogRecord, req: Request, view: View,
                            resp: Response, finishedAt: int, handleLog: LogRecord -> Status)
    requires RecordMasked(cfg.cleaner, log)
    ensures var r := FinalizeResponse(cfg, log, req, view, resp, finishedAt, handleLog);
      && RecordMasked(cfg.cleaner, r.log)
      && (r.sink.Stored? || r.sink.Swallowed? ==> RecordMasked(cfg.cleaner, r.sink.record))
  {
    if Decide(cfg.policy, req, resp) {
      CaptureMasks(cfg, log, req, view, resp, finishedAt);
    }
  }

  /** A whole call — `initial`, optionally `handle_exception`, then
      `finalize_response` — only ever hands a masked record to `handle_log`. */
  lemma CallHandsOnlyMaskedRecords(
    cfg: Config, req: Request, view: View, now: int, superInitial: Status,
    raised: Option<(Handling, string)>, resp: Response, finishedAt: int,
    handleLog: LogRecord -> Status)
    ensures var begun := Initial(cfg, req, now, superInitial);
      var log := if raised.Some? then HandleException(begun.log, raised.value.0, raised.value.1).log
                 else begun.log;
      var r := FinalizeResponse(cfg, log, req, view, resp, finishedAt, handleLog);
      r.sink.Stored? || r.sink.Swallowed? ==> RecordMasked(cfg.cleaner, r.sink.record)
  {
    var begun := Initial(cfg, req, now, superInitial);
    InitialMasks(cfg, req, now, superInitial);
    var log := if raised.Some? then HandleException(begun.log, raised.value.0, raised.value.1).log
               else begun.log;
    assert RecordMasked(cfg.cleaner, log);
    FinalizeKeepsMasked(cfg, log, req, view, resp, finishedAt, handleLog);
  }

  // ---------------------------------------------------------------------
  // What masking does not reach: text is never inspected

  /** When the parent's `initial` raises (an authentication, permission or
      throttling failure) or parsing the body fails, with body decoding on,
      the exception reaches `handle_exception` before the cleaned data is
      stored: the record handed to `handle_log` holds the decoded raw body as
      `data`, unmasked whatever it spells out. */
  lemma FailedInitialLogsRawBody(cfg: Config, req: Request, view: View, now: int,
                                 superInitial: Status, traceback: string, resp: Response,
                                 finishedAt: int, handleLog: LogRecord -> Status)
    requires cfg.decodeRequestBody && (superInitial.Raised? || req.data.ParseFailure?)
    requires Decide(cfg.policy, req, resp)
    ensures var begun := Initial(cfg, req, now, superInitial);
      var handled := HandleException(begun.log, Handled(resp), traceback);
      var r := FinalizeResponse(cfg, handled.log, req, view, resp, finishedAt, handleLog);
      && begun.status
         == (if superInitial.Raised? then superInitial else Raised(req.data.error))
      && r.sink != NotCalled
      && r.sink.record.data == Str(cfg.cleaner.foreign.decode(req.body))
      && r.sink.record.errors == Some(traceback)
  {
  }

  /** Any non-streaming body given as bytes, whether `rendered_content` or
      `getvalue()`, is only decoded: the logged response is its text,
      unmasked. */
  lemma BodyBytesAreOnlyDecoded(cfg: Config, log: LogRecord, req: Request, view: View,
                                resp: Response, finishedAt: int, bs: seq<byte>)
    requires resp.content == Rendered(Bytes(bs)) || resp.content == Buffered(Bytes(bs))
    ensures Capture(cfg, log, req, view, resp, finishedAt).response
            == Str(cfg.cleaner.foreign.decode(bs))
  {
  }
}
