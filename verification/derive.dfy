/** The pure helpers `BaseLoggingMixin` derives response-phase fields with:
    the client address, the elapsed time, the truncated path, the view's name
    and method, and the user. */
module Derive {
  import opened Values
  import opened Http

  /** `s.split(sep)[0]`: everything before the first `sep`, or all of `s`. */
  function Before(s: string, sep: char): (r: string)
    ensures r <= s
    ensures sep !in r
    ensures |r| < |s| ==> s[|r|] == sep
  {
    if s == [] || s[0] == sep then [] else [s[0]] + Before(s[1..], sep)
  }

  /** `s.lstrip(ch)`: `s` without its leading run of `ch`. */
  function LStrip(s: string, ch: char): (r: string)
    ensures |r| <= |s| && r == s[|s| - |r|..]
    ensures forall i :: 0 <= i < |s| - |r| ==> s[i] == ch
    ensures r == [] || r[0] != ch
  {
    if s != [] && s[0] == ch then LStrip(s[1..], ch) else s
  }

  lemma {:induction false} BeforeStopsAtSeparator(a: string, sep: char, rest: string)
    requires sep !in a
    ensures Before(a + [sep] + rest, sep) == a
  {
    if a != [] {
      assert (a + [sep] + rest)[1..] == a[1..] + [sep] + rest;
      BeforeStopsAtSeparator(a[1..], sep, rest);
    }
  }

  lemma BeforeWithoutSeparator(a: string, sep: char)
    requires sep !in a
    ensures Before(a, sep) == a
  {
  }

  // ---------------------------------------------------------------------
  // Client address

  const ForwardedFor: string := "HTTP_X_FORWARDED_FOR"
  const RemoteAddr: string := "REMOTE_ADDR"

  /** The raw address token: the first comma-separated entry of a non-empty
      forwarded-for header, else of `REMOTE_ADDR` (default empty). */
  function AddressToken(meta: map<string, string>): (t: string)
    ensures ',' !in t
    ensures ForwardedFor in meta && meta[ForwardedFor] != "" ==>
              var h := meta[ForwardedFor]; t <= h && (|t| < |h| ==> h[|t|] == ',')
    ensures !(ForwardedFor in meta && meta[ForwardedFor] != "") && RemoteAddr in meta ==>
              var h := meta[RemoteAddr]; t <= h && (|t| < |h| ==> h[|t|] == ',')
    ensures !(ForwardedFor in meta && meta[ForwardedFor] != "") && RemoteAddr !in meta ==> t == ""
  {
    if ForwardedFor in meta && meta[ForwardedFor] != "" then Before(meta[ForwardedFor], ',')
    else Before(if RemoteAddr in meta then meta[RemoteAddr] else "", ',')
  }

  /** The bracketed-IPv6 reading of a token: strip leading `[`, cut at `]`. */
  function BracketCandidate(t: string): string
  {
    Before(LStrip(t, '['), ']')
  }

  /** The IPv4-with-port reading of a token: cut at the first `:`. */
  function PortCandidate(t: string): string
  {
    Before(t, ':')
  }

  /** `_get_ip_address`: the canonical form of the first candidate reading of
      the token that is a valid IP address, else the raw token. */
  function IpAddress(f: Foreign, meta: map<string, string>): (r: string)
    ensures var t := AddressToken(meta);
      && (f.parseIp(BracketCandidate(t)).Some? ==> r == f.parseIp(BracketCandidate(t)).value)
      && (f.parseIp(BracketCandidate(t)).None? && f.parseIp(PortCandidate(t)).Some? ==>
            r == f.parseIp(PortCandidate(t)).value)
      && (f.parseIp(BracketCandidate(t)).None? && f.parseIp(PortCandidate(t)).None? ==> r == t)
  {
    var t := AddressToken(meta);
    match f.parseIp(BracketCandidate(t))
    case Some(ip) => ip
    case None =>
      match f.parseIp(PortCandidate(t))
      case Some(ip) => ip
      case None => t
  }

  /** `<ipv4>:<port>` yields the canonical IPv4 address, provided the whole
      token is not itself a valid address. */
  lemma {:induction false} IpAddressStripsPort(
    f: Foreign, meta: map<string, string>, host: string, port: string, canonical: string)
    requires AddressToken(meta) == host + ":" + port
    requires '[' !in host && ']' !in host && ':' !in host && ']' !in port
    requires f.parseIp(host + ":" + port).None?
    requires f.parseIp(host) == Some(canonical)
    ensures IpAddress(f, meta) == canonical
  {
    var t := host + ":" + port;
    assert ']' !in t by {
      assert forall i :: 0 <= i < |t| ==> t[i] in host || t[i] == ':' || t[i] in port;
    }
    assert t[0] != '[' by {
      if host != [] { assert t[0] == host[0]; } else { assert t[0] == ':'; }
    }
    assert LStrip(t, '[') == t;
    BeforeWithoutSeparator(t, ']');
    BeforeStopsAtSeparator(host, ':', port);
  }

  lemma LStripOneBracket(s: string)
    requires s != [] && s[0] != '['
    ensures LStrip("[" + s, '[') == s
  {
  }

  /** `[<ipv6>]:<port>` (or `[<ipv6>]`) yields the canonical IPv6 address. */
  lemma {:induction false} IpAddressStripsBrackets(
    f: Foreign, meta: map<string, string>, addr: string, rest: string, canonical: string)
    requires AddressToken(meta) == "[" + addr + "]" + rest
    requires ']' !in addr && (addr == [] || addr[0] != '[')
    requires f.parseIp(addr) == Some(canonical)
    ensures IpAddress(f, meta) == canonical
  {
    var inner := addr + "]" + rest;
    assert inner[0] != '[' by {
      if addr != [] { assert inner[0] == addr[0]; } else { assert inner[0] == ']'; }
    }
    assert "[" + addr + "]" + rest == "[" + inner;
    LStripOneBracket(inner);
    assert BracketCandidate(AddressToken(meta)) == Before(inner, ']');
    BeforeStopsAtSeparator(addr, ']', rest);
  }

  /** A bare valid address is returned in canonical form. */
  lemma {:induction false} IpAddressOfBareAddress(
    f: Foreign, meta: map<string, string>, canonical: string)
    requires var t := AddressToken(meta); ']' !in t && (t == [] || t[0] != '[')
    requires f.parseIp(AddressToken(meta)) == Some(canonical)
    ensures IpAddress(f, meta) == canonical
  {
    BeforeWithoutSeparator(AddressToken(meta), ']');
  }

  // ---------------------------------------------------------------------
  // Elapsed time

  /** Python's `int()` of a quotient: division truncating toward zero. */
  function TruncDiv(a: int, b: int): int
    requires b > 0
  {
    if a >= 0 then a / b else -((-a) / b)
  }

  /** `_get_response_ms`, with both instants in microseconds: the elapsed
      whole milliseconds, truncated, and 0 when the clock went backwards. */
  function ResponseMs(requestedAt: int, finishedAt: int): (ms: nat)
    ensures finishedAt >= requestedAt ==>
              ms * 1000 <= finishedAt - requestedAt < (ms + 1) * 1000
    ensures finishedAt < requestedAt ==> ms == 0
  {
    var elapsed := TruncDiv(finishedAt - requestedAt, 1000);
    if elapsed > 0 then elapsed else 0
  }

  /** Truncating and then clamping agrees with clamping the floored
      quotient, `max(0, floor(elapsed / 1000))`. */
  lemma ResponseMsIsClampedFloor(requestedAt: int, finishedAt: int)
    ensures ResponseMs(requestedAt, finishedAt)
            == if (finishedAt - requestedAt) / 1000 > 0 then (finishedAt - requestedAt) / 1000 else 0
  {
  }

  // ---------------------------------------------------------------------
  // Path, view, user

  /** `request.path[:PATH_LENGTH]` for a non-negative `PATH_LENGTH`. */
  function TruncatePath(path: string, pathLength: nat): (r: string)
    ensures r <= path
    ensures |r| == if |path| < pathLength then |path| else pathLength
  {
    if |path| <= pathLength then path else path[..pathLength]
  }

  /** Whether the view has an `action` attribute and, if so, its value
      (`None` for Python `None`). */
  datatype ActionAttr = NoAction | HasAction(action: Option<string>)

  /** `_get_view_method`: a truthy `action`, `None` for a falsy one, and the
      lower-cased HTTP method when there is no `action` attribute. */
  function ViewMethod(f: Foreign, action: ActionAttr, verb: string): (r: Option<string>)
    ensures action.NoAction? ==> r == Some(f.lower(verb))
    ensures action.HasAction? ==>
              (r.None? <==> action.action.None? || action.action.value == "")
    ensures action.HasAction? && r.Some? ==> r == action.action
  {
    match action
    case NoAction => Some(f.lower(verb))
    case HasAction(a) => if a.Some? && a.value != "" then a else None
  }

  /** The class of the object a handler is bound to: `__module__` and
      `__name__`. */
  datatype TypeName = TypeName(moduleName: string, name: string)

  /** `_get_view_name`: the view's attributes named after lower-cased HTTP
      verbs map to `type(handler.__self__)`, the class of the object the
      handler is bound to (for an ordinary method the view's own class, even
      when the method is inherited), or to `None` when the attribute is not
      a bound method (it has no `__self__`). */
  function ViewName(f: Foreign, handlers: map<string, Option<TypeName>>, verb: string)
    : (r: Option<string>)
    ensures r.Some? <==> f.lower(verb) in handlers && handlers[f.lower(verb)].Some?
    ensures r.Some? ==> exists o :: handlers[f.lower(verb)] == Some(o)
                                    && r.value == o.moduleName + "." + o.name
  {
    var name := f.lower(verb);
    if name in handlers && handlers[name].Some? then
      var cls := handlers[name].value;
      Some(cls.moduleName + "." + cls.name)
    else None
  }

  const AnonymousName: string := "Anonymous"

  /** `_get_user`: no user for an anonymous one. */
  function LoggedUser(u: User): (r: Option<User>)
    ensures r.None? <==> u.isAnonymous
    ensures r.Some? ==> r.value == u
  {
    if u.isAnonymous then None else Some(u)
  }

  /** `username_persistent`: the user's name, or `"Anonymous"`. */
  function PersistentUsername(user: Option<User>): (name: string)
    ensures user.None? ==> name == AnonymousName
    ensures user.Some? ==> name == user.value.username
  {
    if user.Some? then user.value.username else AnonymousName
  }

  /** The persisted name is `"Anonymous"` exactly for an anonymous user or a
      signed-in user who is called `"Anonymous"`: the name does not tell the
      two apart. */
  lemma PersistedAsAnonymous(u: User)
    ensures PersistentUsername(LoggedUser(u)) == AnonymousName
            <==> u.isAnonymous || u.username == AnonymousName
  {
  }

  /** Without an `action` attribute the view name and the view method look at
      the same attribute: a name is logged exactly when the view has a bound
      handler under the logged method. */
  lemma ViewNameFollowsViewMethod(f: Foreign, handlers: map<string, Option<TypeName>>, verb: string)
    ensures ViewMethod(f, NoAction, verb).Some?
    ensures var m := ViewMethod(f, NoAction, verb).value;
      ViewName(f, handlers, verb).Some? <==> m in handlers && handlers[m].Some?
  {
  }
}
