/** The policy that decides whether a call is logged: `should_log` and the
    `_should_log` compatibility hook. */
module Policy {
  import opened Values
  import opened Http

  /** `logging_methods`: the string `"__all__"` or a collection of HTTP
      methods. */
  datatype LoggingMethods = AllMethods | Methods(verbs: seq<string>)

  /** The decision hooks a view may define: a `should_log` override and the
      older `_should_log` name. */
  datatype Policy = Policy(
    loggingMethods: LoggingMethods,
    shouldLogOverride: Option<(Request, Response) -> bool>,
    legacyHook: Option<(Request, Response) -> bool>)

  /** The default `should_log`. */
  function ShouldLog(methods: LoggingMethods, verb: string): (r: bool)
    ensures r <==> methods.AllMethods? || verb in methods.verbs
  {
    match methods
    case AllMethods => true
    case Methods(verbs) => verb in verbs
  }

  /** The hook `finalize_response` consults: `_should_log` when defined,
      otherwise `should_log`, overridden or not. */
  function Decide(p: Policy, req: Request, resp: Response): (r: bool)
    ensures p.legacyHook.Some? ==> r == p.legacyHook.value(req, resp)
    ensures p.legacyHook.None? && p.shouldLogOverride.Some? ==>
              r == p.shouldLogOverride.value(req, resp)
    ensures p.legacyHook.None? && p.shouldLogOverride.None? ==>
              (r <==> p.loggingMethods.AllMethods? || req.verb in p.loggingMethods.verbs)
  {
    if p.legacyHook.Some? then p.legacyHook.value(req, resp)
    else if p.shouldLogOverride.Some? then p.shouldLogOverride.value(req, resp)
    else ShouldLog(p.loggingMethods, req.verb)
  }
}
