# Request-log construction in drf-api-tracking, modelled in Dafny

`BaseLoggingMixin` (in `rest_framework_tracking/base_mixins.py`) sits in a
Django REST Framework view. It builds one log record per API call and hands the
record to a persistence hook. This project models that record logic as pure
Dafny functions over immutable values, and proves properties of it:

- **The sanitiser `_clean_data`** (`Sanitizer`). It decodes bytes and cleans
  lists element by element. It copies dicts, re-parses each value with
  `ast.literal_eval`, recurses into parsed lists and dicts, and masks with
  `CLEANED_SUBSTITUTE` every value whose lower-cased key is sensitive. The
  sensitive keys are the built-in names plus the view's `sensitive_fields`.
- **The derivation helpers** (`Derive`): the client address, the elapsed
  milliseconds, the truncated path, the view name and view method, and the
  logged user.
- **The logging policy** (`Policy`): `should_log`, and the `_should_log`
  hook that takes precedence over it.
- **The three lifecycle hooks** (`Lifecycle`). Each is a function from the
  record and an abstract request or response to the new record and an
  outcome:
  - `initial` stamps the record and stores the cleaned body.
  - `handle_exception` stores the traceback.
  - `finalize_response` adds the response-phase fields when the policy says
    so, and calls `handle_log`, swallowing its exceptions.
- **Concrete calls** (`Scenarios`): the address forms the code comments
  list, a login body holding a password, a method the policy excludes, a
  failing sink, and a string value that gets re-parsed.

Python values are the datatype `Values.Val`. A dict is a sequence of
`Entry(key, value)` in insertion order. Library calls are the function-typed
fields of `Values.Foreign`:
- `bytes.decode(errors="replace")`;
- `ast.literal_eval`, with `None` for `ValueError`/`SyntaxError`;
- `str.lower`;
- `ipaddress.ip_address`, returning the canonical text.

Here a string of length `n` has size `n + 1`, and every other value has
size 1 plus its parts. `Foreign.Sound()` says that `literal_eval` never
returns a value larger than its source text. Every literal spells out at
least one character per unit of this size, so this holds of Python's parser.
The model builds the bound into the parse step: `Sanitizer.Reparse` refuses
a parse larger than its text. The bound is what makes the recursion into
re-parsed values terminate. `Sanitizer.ReparseIsLiteralEval` shows that for
a sound parser the refusal never happens.

`literal_eval` is applied only to string values. On any other value Python
raises `ValueError` ("malformed node"), which the code swallows, so the value
stays as it is. Instants are integer microseconds.

Behaviour of the code worth knowing, each with the member that states it:
- **Cleaning is not the identity on dicts without sensitive keys.** A string
  value spelling out a list or dict is replaced by the cleaned parse
  (`Scenarios.ListTextIsReparsed`). Cleaning is the identity on the values
  `Sanitizer.AlreadyClean` describes (`Sanitizer.CleanFixesAlreadyClean`).
  That is one direction only: a dict whose sensitive key already holds the
  substitute is left unchanged too. Cleaning is idempotent on every value
  (`Sanitizer.CleanIdempotent`).
- **`handle_exception` can re-raise.** It re-raises whatever the parent
  `handle_exception` raises, and `errors` is then not set
  (`Lifecycle.HandleException`).
- **`"Anonymous"` does not mean anonymous.** The persisted name is
  `"Anonymous"` exactly when the user is anonymous or is called `"Anonymous"`
  (`Derive.PersistedAsAnonymous`).
- **Truncation equals flooring here.** The code truncates the elapsed time
  (`int()`) and then clamps it at 0. For the clamped result this equals the
  floor (`Derive.ResponseMsIsClampedFloor`).
- **Bytes and strings are not cleaned everywhere.** Bytes are decoded at the
  top level and inside lists, but kept as bytes when they are a dict value.
  Strings inside lists are never re-parsed.

What masking covers. `Sanitizer.Masked` is about dict entries only: every
dict the value reaches maps each sensitive key to the substitute. A string is
never looked into, so any string counts as masked. The masking lemmas
(`Sanitizer.CleanMasks`, `Lifecycle.InitialMasks`, `Lifecycle.CaptureMasks`,
`Lifecycle.CallHandsOnlyMaskedRecords`) say nothing about text. Two texts reach
`handle_log` unmasked:
- the decoded raw body, whenever the parent's `initial` or body parsing
  raises with body decoding on: `data` is set from `request.body` before the
  parent's `initial` runs and is replaced only after parsing succeeds, so a
  throttled or unauthenticated login POST is logged with its password
  (`Lifecycle.FailedInitialLogsRawBody`);
- any non-streaming response body given as bytes, whether `rendered_content`
  or `getvalue()`, which is only decoded (`Lifecycle.BodyBytesAreOnlyDecoded`).

See "## Findings".

## Model

| member | source | states |
|---|---|---|
| Sanitizer.Clean | rest_framework_tracking/base_mixins.py:196-227 | bytes become their decoded text; a list stays a list of the same length; a dict stays a dict with the same keys in the same order; any other value is returned unchanged |
| Sanitizer.CleanList | rest_framework_tracking/base_mixins.py:199-200 | the cleaned list has the input's length, and element i is the cleaned element i |
| Sanitizer.CleanEntries | rest_framework_tracking/base_mixins.py:212-226 | the dict copy keeps every key at its position, and each value is cleaned under its own key |
| Sanitizer.CleanValue | rest_framework_tracking/base_mixins.py:218-226 | a sensitive key's value becomes the substitute, whatever it was. Otherwise: a string that parses to a list or dict becomes the cleaned parse; a list or dict is cleaned in place; anything else is kept verbatim, including a string that parses to a scalar or fails to parse |
| Sanitizer.Reparse | rest_framework_tracking/base_mixins.py:219-222 | the literal_eval attempt never yields a larger value, and it leaves a non-string value unchanged |
| Sanitizer.ReparseIsLiteralEval | rest_framework_tracking/base_mixins.py:219-222 | for a parser whose results are never larger than their text, the attempt is exactly literal_eval's result, or the value itself when literal_eval raises |
| Sanitizer.CleanMasks | rest_framework_tracking/base_mixins.py:203-226 | after cleaning, every dict reachable through lists and dict values maps each sensitive key to exactly the substitute, because masking comes after the recursion |
| Sanitizer.CleanListMasks | rest_framework_tracking/base_mixins.py:199-200 | every element of a cleaned list is masked at every depth |
| Sanitizer.CleanEntriesMasks | rest_framework_tracking/base_mixins.py:218-226 | every value of a cleaned dict is masked at every depth |
| Sanitizer.CleanValueMasks | rest_framework_tracking/base_mixins.py:218-226 | a cleaned dict value is masked at every depth |
| Sanitizer.CleanIdempotent | rest_framework_tracking/base_mixins.py:196-227 | cleaning a cleaned value changes nothing |
| Sanitizer.CleanListIdempotent | rest_framework_tracking/base_mixins.py:199-200 | re-cleaning each cleaned list element changes nothing |
| Sanitizer.CleanEntriesIdempotent | rest_framework_tracking/base_mixins.py:218-226 | re-cleaning each cleaned dict value under its key changes nothing |
| Sanitizer.CleanValueIdempotent | rest_framework_tracking/base_mixins.py:218-226 | re-cleaning a cleaned dict value under the same key changes nothing |
| Sanitizer.CleanFixesAlreadyClean | rest_framework_tracking/base_mixins.py:196-227 | a value with no bytes outside dict values, no sensitive key and no dict value spelling out a list or dict is returned unchanged |
| Derive.Before | rest_framework_tracking/base_mixins.py:121 | `split(sep)[0]` is the longest prefix without the separator, ending just before the first separator if there is one |
| Derive.LStrip | rest_framework_tracking/base_mixins.py:131 | `lstrip` drops exactly the leading run of the character: the rest is a suffix that does not start with it |
| Derive.AddressToken | rest_framework_tracking/base_mixins.py:119-123 | the token is the part of a non-empty forwarded-for header before its first comma; otherwise the part of REMOTE_ADDR before its first comma, or empty when that is missing |
| Derive.IpAddress | rest_framework_tracking/base_mixins.py:117-139 | the canonical form of the bracket-stripped candidate if that is a valid address, else of the port-stripped candidate if that is valid, else the raw token |
| Derive.IpAddressStripsPort | rest_framework_tracking/base_mixins.py:125-139 | for a token `<ipv4>:<port>` that is not itself a valid address, the result is the canonical IPv4 address |
| Derive.IpAddressStripsBrackets | rest_framework_tracking/base_mixins.py:125-139 | for a token `[<ipv6>]` followed by anything, the result is the canonical IPv6 address |
| Derive.IpAddressOfBareAddress | rest_framework_tracking/base_mixins.py:131-135 | a valid address without brackets comes back in canonical form |
| Derive.ResponseMs | rest_framework_tracking/base_mixins.py:166-173 | never negative; the whole milliseconds elapsed when the clock moved forward, 0 when it went backwards |
| Derive.ResponseMsIsClampedFloor | rest_framework_tracking/base_mixins.py:171-173 | truncate-then-clamp equals the clamped floor of the elapsed milliseconds |
| Derive.TruncatePath | rest_framework_tracking/base_mixins.py:113-115 | the stored path is the prefix of the request path of length min(PATH_LENGTH, length of the path) |
| Derive.ViewMethod | rest_framework_tracking/base_mixins.py:153-157 | a truthy `action` is used as is, a falsy one gives None, and without the attribute the lower-cased HTTP method is used |
| Derive.ViewName | rest_framework_tracking/base_mixins.py:141-151 | a name exists exactly when the view has a bound handler under the lower-cased method, and it is the module and name of `type(handler.__self__)`, the class of the object the handler is bound to (for an ordinary method the view's own class, even when inherited), joined by a dot |
| Derive.LoggedUser | rest_framework_tracking/base_mixins.py:159-164 | no user exactly when the request's user is anonymous, the user itself otherwise |
| Derive.PersistentUsername | rest_framework_tracking/base_mixins.py:89 | "Anonymous" when there is no user, the user's name otherwise |
| Derive.PersistedAsAnonymous | rest_framework_tracking/base_mixins.py:76-89 | the persisted name is "Anonymous" exactly when the user is anonymous or is a signed-in user called "Anonymous" |
| Derive.ViewNameFollowsViewMethod | rest_framework_tracking/base_mixins.py:141-157 | without an `action` attribute a view name is logged exactly when the view has a bound handler under the logged view method |
| Policy.ShouldLog | rest_framework_tracking/base_mixins.py:175-182 | true exactly when logging_methods is "__all__" or lists the request method |
| Policy.Decide | rest_framework_tracking/base_mixins.py:58-63 | a `_should_log` hook decides when defined; otherwise an overriding `should_log` decides; otherwise the default policy does |
| Lifecycle.Initial | rest_framework_tracking/base_mixins.py:28-45 | requested_at is always the current time. After a successful parse, data is the cleaned parsed body (`.dict()` when available), whatever the decoding setting. When the parent or the parser raises, the exception propagates and data keeps its interim value: "" with decoding off, the decoded raw body with it on |
| Lifecycle.HandleException | rest_framework_tracking/base_mixins.py:47-51 | the parent's outcome is returned unchanged; errors becomes the traceback only when the parent returned a response; nothing else in the record changes |
| Lifecycle.Capture | rest_framework_tracking/base_mixins.py:69-96 | response is None for a streaming response, else the cleaned rendered content or getvalue(). query_params is data when there are no query parameters, else the cleaned parameters with the same keys. The user is absent for an anonymous user and is `request.user` otherwise. Path, time, address, view, user agent, method and status come from their helpers |
| Lifecycle.FinalizeResponse | rest_framework_tracking/base_mixins.py:53-103 | the parent's response is always returned. When the policy says no, the record is unchanged and handle_log is not called. Otherwise the response-phase fields are added, and the completed record goes to handle_log, whose exception is swallowed |
| Lifecycle.CaptureMasks | rest_framework_tracking/base_mixins.py:78-96 | every dict in the cleaned query parameters and the cleaned response maps its sensitive keys to the substitute, and so does the data fallback when data does; text in them is not inspected |
| Lifecycle.InitialMasks | rest_framework_tracking/base_mixins.py:28-45 | on every path, every dict in the data initial stores maps its sensitive keys to the substitute; an interim text body is not inspected |
| Lifecycle.FinalizeKeepsMasked | rest_framework_tracking/base_mixins.py:63-103 | finalize_response keeps the dict-entry masking of the record, and only a record so masked reaches handle_log |
| Lifecycle.CallHandsOnlyMaskedRecords | rest_framework_tracking/base_mixins.py:28-103 | over a whole call (initial, maybe handle_exception, finalize_response), every dict in a record handed to handle_log maps its sensitive keys to the substitute; text fields are not covered |
| Lifecycle.DefaultPolicyGatesSink | rest_framework_tracking/base_mixins.py:58-63 | with neither hook defined, handle_log is called exactly when logging_methods is "__all__" or lists the request method |
| Lifecycle.LegacyHookGatesSink | rest_framework_tracking/base_mixins.py:58-63 | a `_should_log` hook alone decides whether handle_log is called |
| Lifecycle.FailedInitialLogsRawBody | rest_framework_tracking/base_mixins.py:28-51 | when the parent's initial raises or body parsing fails, with decoding on, that exception propagates and the record handed to handle_log has the decoded raw body as data and the traceback as errors |
| Lifecycle.BodyBytesAreOnlyDecoded | rest_framework_tracking/base_mixins.py:69-91 | any non-streaming body given as bytes, rendered_content or getvalue(), is logged as its decoded text |
| Scenarios.Ipv4PortIsStripped | rest_framework_tracking/base_mixins.py:117-139 | REMOTE_ADDR "203.0.113.5:8080" is logged as "203.0.113.5" |
| Scenarios.Ipv6BracketsAreStripped | rest_framework_tracking/base_mixins.py:117-139 | forwarded-for "[2001:db8::1]:443, 10.0.0.1" is logged as "2001:db8::1", whatever REMOTE_ADDR says |
| Scenarios.LoginBodyIsMasked | rest_framework_tracking/base_mixins.py:203-226 | {"username": "bob", "password": "hunter2"} is cleaned to {"username": "bob", "password": the substitute} |
| Scenarios.LoginPasswordIsMasked | rest_framework_tracking/base_mixins.py:28-96 | a GET with that body and no query parameters is logged with the masked body as data and as query_params |
| Scenarios.PostOnlyPolicyRejectsGet | rest_framework_tracking/base_mixins.py:175-182 | with logging_methods ["POST"] and no hook, a GET is not logged |
| Scenarios.GetIsNotLoggedWhenOnlyPostIs | rest_framework_tracking/base_mixins.py:63-103 | such a GET leaves the record as it was, never reaches handle_log, and its response passes through |
| Scenarios.SinkFailureIsInvisible | rest_framework_tracking/base_mixins.py:97-103 | when handle_log raises, the caller still gets the response unchanged and the exception is swallowed |
| Sanitizer.CleanRedacting | rest_framework_tracking/base_mixins.py:196-197 | corrected bytes branch: bytes whose text spells out a list or dict become the cleaned parse, other bytes their text; every other value is cleaned as before |
| Sanitizer.CleanRedactingMasks | rest_framework_tracking/base_mixins.py:196-227 | the corrected cleaning maps every sensitive key of every dict it yields to the substitute, including the dict a body spells out |
| Scenarios.LoginTextIsLoggedVerbatim | rest_framework_tracking/base_mixins.py:196-197 | the raw text of the login body, whose dict has the sensitive key "password", is cleaned to that same text with the password in it |
| Scenarios.LoginTextIsRedacted | rest_framework_tracking/base_mixins.py:196-227 | with the corrected bytes branch the same raw text is logged as the masked login body |
| Scenarios.ListTextIsReparsed | rest_framework_tracking/base_mixins.py:218-224 | a non-sensitive value "[1]" is replaced by the list [1], so cleaning a dict without sensitive keys can change it |

## Left out

- The ATOMIC_REQUESTS rollback toggle (`base_mixins.py:64-68`) is left out. It
  is Django database-connection state, with no effect on the record.
- `handle_log` (`base_mixins.py:105-111`) is a persistence hook. It is a
  parameter returning success or an exception.
- `logger.exception` is reduced to the `Swallowed` outcome. The diagnostic
  text is not modelled.
- The parent class's `initial`, `handle_exception` and `finalize_response`
  are given as inputs: a status, a response or re-raised exception, and the
  finalized response. An exception from the parent's `finalize_response` is
  not modelled.
- `now()` is left out. The two instants are parameters.
- `traceback.format_exc()` is left out. Its text is a parameter.
- The internals of `literal_eval`, `ipaddress`, `str.lower` and
  `bytes.decode` are left out. They are unconstrained fields of `Foreign`.
- Sanitizer.Reparse: refuses a parse larger than its source text, which
  `literal_eval` does not do. Python's parser never produces such a parse
  (`Foreign.Sound()`), and `Sanitizer.ReparseIsLiteralEval` shows the two
  agree whenever it holds.
- Derive.ResponseMs: uses exact integer microseconds. The code computes
  `total_seconds() * 1000` in floating point, which can round across a
  millisecond boundary.
- `app_settings` is not part of this model. `PATH_LENGTH` is a natural
  number, so negative slicing is left out. `decode_request_body` is the
  effective value of the view attribute, which falls back to
  `DECODE_REQUEST_BODY`.
- A `logging_methods` string other than `"__all__"` is left out. Python's
  `in` then tests for a substring. The model takes `"__all__"` or a list of
  methods.
- Dict keys that are not strings are left out. On them `key.lower()` raises.
- `literal_eval` raising anything other than `ValueError`/`SyntaxError` is
  left out. One example is `TypeError` for an unhashable key.
- The `.dict()` conversions of `request.data` and `request.query_params`
  are not modelled. The model takes their results as given.
- `request.get_host()` raising `DisallowedHost` is left out. So is
  `request.user` raising during authentication.
- `request.body` raising in `initial` is left out. Examples are
  `RawPostDataException` and `RequestDataTooBig`, raised before `data` is
  set. The raw body is an input.
- `response.rendered_content` or `response.getvalue()` raising in
  `finalize_response` is left out. The body is an input, and such an
  exception would leave the hook before `handle_log`.
- `CLEANED_SUBSTITUTE` is the `substitute` field of `Sanitizer.Cleaner`, so
  a view may override it. The `__init__` check that it is a string holds by
  typing. The input is never mutated, because Dafny values are immutable. The source
  gets the same effect by working on a `dict(data)` copy.
- `rest_framework_tracking/base_models.py` is a database schema. Its field
  list only shapes `Lifecycle.LogRecord`.

## Findings

| source | as written | input that shows it | evidently intended | confidence | as-written member | corrected member |
|---|---|---|---|---|---|---|
| rest_framework_tracking/base_mixins.py:196-197 | `_clean_data` only decodes bytes, so a raw request body or bytes rendered content is logged as text with its sensitive values in it. `initial` applies `_clean_data` to `request.body`, and that text stays in `data` when the parent's `initial` or body parsing raises; any non-streaming response body given as bytes, rendered or `getvalue()`, is likewise only decoded | raw body `{"username": "bob", "password": "hunter2"}` | sensitive values are replaced before the record leaves, as they are for a dict value whose text spells out a dict | low: not executed; keeping the raw body may be meant as a debugging aid | Scenarios.LoginTextIsLoggedVerbatim | Sanitizer.CleanRedacting |

`Sanitizer.CleanRedactingMasks` and `Scenarios.LoginTextIsRedacted` prove the
intended property of the corrected definition. The lifecycle functions keep
the code as written, so that their lemmas describe the shipped behaviour.
`Lifecycle.FailedInitialLogsRawBody` and `Lifecycle.BodyBytesAreOnlyDecoded` trace the as-written behaviour through to `handle_log`.
