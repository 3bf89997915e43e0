/** Concrete calls through the model: the address forms the logger
    normalises, a login body with a password, a method the policy excludes,
    and a string value the sanitiser re-parses. Each states which answers of
    the foreign calls it relies on. */
module Scenarios {
  import opened Values
  import opened Sanitizer
  import opened Derive
  import opened Http
  import opened Policy
  import opened Lifecycle

  const Ipv4Host: string := "203.0.113.5"
  const Ipv4Token: string := "203.0.113.5:8080"
  const Ipv6Address: string := "2001:db8::1"
  const Ipv6Token: string := "[2001:db8::1]:443"
  const ForwardedChain: string := "[2001:db8::1]:443, 10.0.0.1"

  lemma Ipv4TokenShape()
    ensures ',' !in Ipv4Token && Ipv4Token == Ipv4Host + ":" + "8080"
    ensures '[' !in Ipv4Host && ']' !in Ipv4Host && ':' !in Ipv4Host && ']' !in "8080"
  {
  }

  lemma Ipv6TokenShape()
    ensures ForwardedChain == Ipv6Token + [','] + " 10.0.0.1" && ',' !in Ipv6Token
    ensures Ipv6Token == "[" + Ipv6Address + "]" + ":443"
    ensures ']' !in Ipv6Address && Ipv6Address[0] != '['
  {
  }

  /** An IPv4 address with a port, as `REMOTE_ADDR` with no forwarded-for
      header, loses the port. */
  lemma Ipv4PortIsStripped(f: Foreign, meta: map<string, string>)
    requires ForwardedFor !in meta && RemoteAddr in meta && meta[RemoteAddr] == Ipv4Token
    requires f.parseIp(Ipv4Token).None?
    requires f.parseIp(Ipv4Host) == Some(Ipv4Host)
    ensures IpAddress(f, meta) == Ipv4Host
  {
    Ipv4TokenShape();
    BeforeWithoutSeparator(Ipv4Token, ',');
    IpAddressStripsPort(f, meta, Ipv4Host, "8080", Ipv4Host);
  }

  /** A bracketed IPv6 address with a port, as the first forwarded-for
      entry, loses the brackets and the port, whatever `REMOTE_ADDR` says. */
  lemma Ipv6BracketsAreStripped(f: Foreign, meta: map<string, string>)
    requires ForwardedFor in meta && meta[ForwardedFor] == ForwardedChain
    requires f.parseIp(Ipv6Address) == Some(Ipv6Address)
    ensures IpAddress(f, meta) == Ipv6Address
  {
    Ipv6TokenShape();
    BeforeStopsAtSeparator(Ipv6Token, ',', " 10.0.0.1");
    IpAddressStripsBrackets(f, meta, Ipv6Address, ":443", Ipv6Address);
  }

  const LoginBody: Val :=
    Dict([Entry("username", Str("bob")), Entry("password", Str("hunter2"))])

  const MaskedLoginBody: Val :=
    Dict([Entry("username", Str("bob")), Entry("password", Str(DefaultSubstitute))])

  function LoginRequest(user: User): Request
  {
    Request("GET", "/api/login", map[], [], "example.com", [], user, WithoutDict(LoginBody))
  }

  /** Cleaning the login body masks the password and keeps the user name. */
  lemma LoginBodyIsMasked(f: Foreign)
    requires f.lower("username") == "username" && f.lower("password") == "password"
    requires f.literalEval("bob").None?
    ensures Clean(Cleaner(f, {}, DefaultSubstitute), LoginBody) == MaskedLoginBody
  {
  }

  /** The same login body as the request's raw text. */
  const LoginText: string := "{\"username\": \"bob\", \"password\": \"hunter2\"}"

  /** As written, a raw body is only decoded: the login text, whose dict has
      the sensitive key "password", is kept verbatim with the password in it. */
  lemma LoginTextIsLoggedVerbatim(f: Foreign, body: seq<byte>)
    requires f.decode(body) == LoginText
    requires f.literalEval(LoginText) == Some(LoginBody)
    requires f.lower("password") == "password"
    ensures IsSensitive(Cleaner(f, {}, DefaultSubstitute), "password")
    ensures ParsesToCollection(Cleaner(f, {}, DefaultSubstitute), Str(LoginText))
    ensures Clean(Cleaner(f, {}, DefaultSubstitute), Bytes(body)) == Str(LoginText)
  {
  }

  /** With the bytes branch corrected, the same raw text is logged as the
      masked login body. */
  lemma LoginTextIsRedacted(f: Foreign, body: seq<byte>)
    requires f.decode(body) == LoginText
    requires f.literalEval(LoginText) == Some(LoginBody)
    requires f.lower("username") == "username" && f.lower("password") == "password"
    requires f.literalEval("bob").None?
    ensures CleanRedacting(Cleaner(f, {}, DefaultSubstitute), Bytes(body)) == MaskedLoginBody
  {
  }

  /** A body holding a password is logged with the password masked and the
      user name kept; with no query parameters, `query_params` shows the same
      masked body. */
  lemma LoginPasswordIsMasked(
    f: Foreign, user: User, view: View, resp: Response, now: int, finishedAt: int,
    handleLog: LogRecord -> Status)
    requires f.lower("username") == "username" && f.lower("password") == "password"
    requires f.literalEval("bob").None?
    ensures var cfg := Config(Cleaner(f, {}, DefaultSubstitute), 200, true, Policy(AllMethods, None, None));
      var begun := Initial(cfg, LoginRequest(user), now, Completed);
      var r := FinalizeResponse(cfg, begun.log, LoginRequest(user), view, resp, finishedAt, handleLog);
      && begun.status == Completed
      && r.log.data == MaskedLoginBody
      && r.log.captured.Some?
      && r.log.captured.value.queryParams == MaskedLoginBody
  {
    var cfg := Config(Cleaner(f, {}, DefaultSubstitute), 200, true, Policy(AllMethods, None, None));
    var req := LoginRequest(user);
    LoginBodyIsMasked(f);
    assert BodyValue(req.data) == LoginBody;
    var begun := Initial(cfg, req, now, Completed);
    assert begun.log.data == MaskedLoginBody;
    assert Decide(cfg.policy, req, resp);
    var cap := Capture(cfg, begun.log, req, view, resp, finishedAt);
    assert req.queryParams == [];
    assert cap.queryParams == MaskedLoginBody;
  }

  /** With `logging_methods` limited to POST and no hook, a GET is not
      logged. */
  lemma PostOnlyPolicyRejectsGet(p: Policy, req: Request, resp: Response)
    requires p == Policy(Methods(["POST"]), None, None)
    requires req.verb == "GET"
    ensures !Decide(p, req, resp)
  {
  }

  /** ... so a GET is neither recorded nor handed to `handle_log`, and its
      response passes through. */
  lemma GetIsNotLoggedWhenOnlyPostIs(
    cfg: Config, log: LogRecord, req: Request, view: View, resp: Response,
    finishedAt: int, handleLog: LogRecord -> Status)
    requires cfg.policy == Policy(Methods(["POST"]), None, None)
    requires req.verb == "GET"
    ensures FinalizeResponse(cfg, log, req, view, resp, finishedAt, handleLog)
            == Finalized(log, resp, NotCalled)
  {
  }

  /** A failing sink changes nothing the caller sees: the response is the
      one `finalize_response` was given. */
  lemma SinkFailureIsInvisible(
    cfg: Config, log: LogRecord, req: Request, view: View, resp: Response,
    finishedAt: int, e: Error)
    requires Decide(cfg.policy, req, resp)
    ensures var r := FinalizeResponse(cfg, log, req, view, resp, finishedAt, _ => Raised(e));
      r.response == resp && r.sink.Swallowed? && r.sink.error == e
  {
  }

  /** A dict without sensitive keys is not always left as it was: a string
      value spelling out a list is replaced by the list. */
  lemma ListTextIsReparsed(c: Cleaner)
    requires c.foreign.literalEval("[1]") == Some(List([Int(1)]))
    requires !IsSensitive(c, "ids")
    ensures Clean(c, Dict([Entry("ids", Str("[1]"))])) == Dict([Entry("ids", List([Int(1)]))])
  {
    var items := CleanList(c, [Int(1)]);
    assert items == [Int(1)];
    assert CleanValue(c, "ids", Str("[1]")) == List([Int(1)]);
    var es := CleanEntries(c, [Entry("ids", Str("[1]"))]);
    assert es == [Entry("ids", List([Int(1)]))];
  }
}
