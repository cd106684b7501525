# HTTPStep (old-style) in Dafny

A model of Buildbot's legacy HTTP build step, `master/buildbot/steps/http_oldstyle.py`.
The model covers these parts:

- **The `_session` holder.** `getSession`, `setSession` and `closeSession` share one HTTP session across steps.
- **`HTTPStep.__init__`.** It checks the method and captures the whitelisted `requestsParams` options.
- **`HTTPStep.run`.** It assembles `requestkwargs`, sorts `params` by key, renders `data` and sends the request. It then logs the redirect chain and the final response through `log_response`, finishes the log, sets `descriptionDone` and classifies the final status.
- **The per-verb subclasses.** These are POST, GET, PUT, DELETE, HEAD and OPTIONS.

How each part is modelled:

- **The log sink.** The step's logs are a `LogSink` object whose `logs` field is a sequence of `LogStream`s: a name, the ordered `(channel, text)` writes and a finished flag. A log is addressed by its index, and every `addLog`/`addHeader`/`addStdout`/`addStderr`/`finish` call is a method on the sink.
- **The order across logs.** The sink also keeps a ghost `trace`: every call made on it, across all logs, in order (`Event`). Each logging method states the events it adds, so the contracts fix the interleaving too: for instance a response's `content` log is opened and written before the rule that follows a redirect hop. `TraceReplay.ReplayStep` proves that replaying a step's events onto the earlier logs gives exactly the logs the step leaves behind.
- **The request.** `session.request` is not executed. Its outcome is an input of `Run`: a `Reply`, which is either the responses (the redirect history oldest first, then the final response) or a connection error with its text.
- **The specification functions.** `SummaryWrites`, `StepTranscript`, `StepLogs`, `SentArgs` and `StepOutcome` say which writes, logs, request arguments and result `run` produces. The imperative methods are proved against them. `TranscriptFacts` then proves what these functions promise: status and content lines per response, rules per redirect, the parameters as sent, and the connection-error transcript.
- **Python values.** A Python option value is `PyValue`: `None`, a dict (its items in iteration order) or any other object (its `str` rendering and its truth value). A truthy `params` that is not a dict stands for a value that has no `items` method, so the sort fails at `params.items()` with an AttributeError. This happens after the `Parameters:` heading and before any request. The model represents it as the result `Raised`, with the log left unfinished.

Modules: `Wrappers` (Option, Result), `Text` (Python `str` ordering, decimal rendering), `PyValues`, `ParamsOrder` (the params sort), `Logs` (the log sink), `Sessions` (the holder), `Request` (method check, whitelist, request arguments), `Transcript` (the writes and the calls on the sink as functions), `TranscriptFacts` (properties of the transcript), `TraceReplay` (the ordered calls against the per-log view), `HttpStep` (the step class and its constructors).

## Model

| member | source | states |
|---|---|---|
| Sessions.SessionHolder.GetSession | master/buildbot/steps/http_oldstyle.py:40-45 | When no session is held, it creates a fresh open one, holds it and registers one shutdown trigger. Otherwise it returns the held session and registers nothing. |
| Sessions.SessionHolder.SetSession | master/buildbot/steps/http_oldstyle.py:48-50 | The given value, possibly none, becomes the held session. |
| Sessions.SessionHolder.CloseSession | master/buildbot/steps/http_oldstyle.py:53-57 | The previously held session, if any, is closed, and the holder is left empty. |
| Sessions.GetSessionTwice | master/buildbot/steps/http_oldstyle.py:40-45 | `getSession` is idempotent: two calls return the same session and register at most one shutdown trigger between them. |
| Request.KnownMethodIffVerb | master/buildbot/steps/http_oldstyle.py:77-78 | The method check accepts a string exactly when it is the name of one of the six verb subclasses. |
| HttpStep.NewHTTPStep | master/buildbot/steps/http_oldstyle.py:72-86 | A configuration error with the message `Wrong method given: '<m>' is not known` exactly when the method is unknown. Otherwise a valid step with the method and URL, every whitelisted option equal to the kwarg or None, and the remaining kwargs for BuildStep. |
| HttpStep.HTTPStep.constructor | master/buildbot/steps/http_oldstyle.py:80-84 | The setattr/pop loop: every whitelisted name is set from `kwargs.pop(name, None)`, and the other kwargs are left over. |
| HttpStep.NewVerbStep | master/buildbot/steps/http_oldstyle.py:172-211 | A verb subclass fails with Python's duplicate-keyword `TypeError` exactly when the caller passed `method` among the kwargs. Otherwise it constructs a valid step with its own method name and the URL, every whitelisted option equal to the kwarg or None, and the remaining kwargs for BuildStep. |
| Request.RequestsParamsDistinct | master/buildbot/steps/http_oldstyle.py:65-68 | The fourteen whitelisted option names are pairwise distinct. |
| Request.AssembleRequestKwargs | master/buildbot/steps/http_oldstyle.py:95-103 | The loop builds exactly `RequestArgs`: `method`, `url` and the non-None whitelisted options. |
| Request.RequestArgsAreKwargs | master/buildbot/steps/http_oldstyle.py:95-103 | `RequestArgs` holds `method` and `url`, no other non-whitelisted key, each whitelisted key exactly when its value is not None, and the values unchanged. |
| Request.KwargsAreRequestArgs | master/buildbot/steps/http_oldstyle.py:95-103 | Any dict meeting that description is `RequestArgs`. |
| Request.SentArgs | master/buildbot/steps/http_oldstyle.py:110-128 | No request is sent exactly when params is truthy and not a dict. A request always carries `method` and `url` with the step's values. |
| Request.SentArgsContents | master/buildbot/steps/http_oldstyle.py:95-117 | No request exactly when params is truthy and not a dict. Otherwise the request has the description above, except that a non-empty params dict is sent as its items sorted by key: the same multiset of pairs, keys non-decreasing. |
| ParamsOrder.SortByKeyCorrect | master/buildbot/steps/http_oldstyle.py:114 | The sort by key returns a permutation of the items, with keys non-decreasing. |
| ParamsOrder.SortByKeyStrictlyAscending | master/buildbot/steps/http_oldstyle.py:114 | With distinct keys, the sorted keys are strictly ascending. |
| ParamsOrder.SortByKeyIsTheSortedOrder | master/buildbot/steps/http_oldstyle.py:114 | With distinct keys, every arrangement sorted by key and holding the same items equals ours, so any correct sort by key (Python's `sorted` included) agrees with the model. |
| ParamsOrder.SortedArrangementUnique | master/buildbot/steps/http_oldstyle.py:114 | Items with distinct keys have only one arrangement sorted by key. |
| ParamsOrder.SortByKeyKeepsSorted | master/buildbot/steps/http_oldstyle.py:114 | Items already sorted by key are left unchanged. |
| ParamsOrder.InsertByKeyMembers | master/buildbot/steps/http_oldstyle.py:114 | One insertion step adds exactly the inserted item to the multiset. |
| ParamsOrder.InsertByKeySorted | master/buildbot/steps/http_oldstyle.py:114 | One insertion step keeps a key-sorted sequence sorted. |
| Text.StrLeTotal | master/buildbot/steps/http_oldstyle.py:114 | Python's `str` order compares any two keys. |
| Text.StrLeTransitive | master/buildbot/steps/http_oldstyle.py:114 | Python's `str` order is transitive. |
| Text.StrLeAntisymmetric | master/buildbot/steps/http_oldstyle.py:114 | Two keys each at most the other are equal. |
| Text.NatToDecimal | master/buildbot/steps/http_oldstyle.py:143 | `%d` of a natural number is a non-empty digit string with no leading zero. |
| Text.DecimalRoundTrip | master/buildbot/steps/http_oldstyle.py:143 | Reading the digits back gives the number. |
| Text.IntToDecimalInjective | master/buildbot/steps/http_oldstyle.py:143 | Different integers render differently. |
| HttpStep.HTTPStep.LogParameters | master/buildbot/steps/http_oldstyle.py:110-117 | Writes nothing for a falsy params. Otherwise writes the `Parameters:` heading, then one line per item in key order, and the sorted items replace params in the request. A non-dict params stops right after the heading and raises. |
| TranscriptFacts.ParamsLinesAreSent | master/buildbot/steps/http_oldstyle.py:110-117 | The `Parameters:` lines are exactly the params as sent, in the sent order: sorted by key and the same items as the dict. |
| HttpStep.HTTPStep.LogData | master/buildbot/steps/http_oldstyle.py:118-125 | The log gets exactly `DataSection` of the data option. |
| TranscriptFacts.DataSectionCases | master/buildbot/steps/http_oldstyle.py:118-125 | Falsy data writes nothing. A dict writes `Data:` and then one line per item in the dict's own order. Anything else writes `Data:` and a single line. |
| HttpStep.HTTPStep.WriteLines | master/buildbot/steps/http_oldstyle.py:116-117 | One `\t{k}: {v}` header line per item, in the order given. |
| Transcript.PairLines | master/buildbot/steps/http_oldstyle.py:153-154 | Line i of the result renders item i, on the header channel. |
| HttpStep.HTTPStep.LogResponse | master/buildbot/steps/http_oldstyle.py:150-169 | The transcript gets the response's `HopWrites`, and one new `content` log holds the response text on stdout. In the trace, all the transcript writes come first, then the opening of the content log, then the text on it. |
| HttpStep.HTTPStep.LogHop | master/buildbot/steps/http_oldstyle.py:152-167 | In order: the request headers, the URL, the status line, the response headers and the content line, all on the transcript and nowhere else. |
| HttpStep.HTTPStep.LogHopHead | master/buildbot/steps/http_oldstyle.py:152-161 | The `Request Header:` heading, one line per request header, the URL line and the status line, in order. |
| HttpStep.HTTPStep.LogHopBody | master/buildbot/steps/http_oldstyle.py:163-167 | The `Response Header:` heading, one line per response header and the content line, in order. |
| Transcript.HopWritesLayout | master/buildbot/steps/http_oldstyle.py:152-167 | A response's transcript, position by position: heading, request headers, URL, status line, heading, response headers, content line; nothing else. |
| HttpStep.HTTPStep.LogStatus | master/buildbot/steps/http_oldstyle.py:158-161 | Writes the status line `StatusWrite`: stdout for 200, stderr otherwise. |
| Transcript.StatusChannel | master/buildbot/steps/http_oldstyle.py:158-161 | The status line goes to stdout exactly for 200 (`requests.codes.ok`) and never to the header channel. |
| TranscriptFacts.StatusLineShowsCode | master/buildbot/steps/http_oldstyle.py:158-161 | The status line is on stdout exactly when the code is 200 and on stderr otherwise, and different codes give different lines. |
| HttpStep.HTTPStep.LogRedirects | master/buildbot/steps/http_oldstyle.py:133-137 | With redirects, the `Redirected n times:` line comes first, then each hop oldest first followed by the 60-`=` rule. There is one content log per hop, in order. Without redirects nothing is written and no call is made. |
| HttpStep.HTTPStep.LogRedirectHops | master/buildbot/steps/http_oldstyle.py:135-137 | The loop: after the passes for the first i hops, the transcript holds those hops each followed by its rule, their content logs follow in hop order, and the trace holds the passes one after another. |
| HttpStep.HTTPStep.LogRedirectHop | master/buildbot/steps/http_oldstyle.py:136-137 | One redirect hop: its response writes, the opening of its content log and the text on it, and only then the rule on the transcript. |
| HttpStep.HTTPStep.LogSummary | master/buildbot/steps/http_oldstyle.py:109-125 | The `Performing <method> request to <url>` line, the parameters and the data, all on "log", stopping after the parameters heading when params raises. |
| HttpStep.HTTPStep.LogReply | master/buildbot/steps/http_oldstyle.py:127-147 | A connection error writes one stderr line, returns FAILURE and leaves the log unfinished and `descriptionDone` unchanged. A response writes the redirect section and the final response, finishes the log, opens one content log per response, sets `descriptionDone` to `Status code: N` and classifies N. The trace gains exactly `ReplyEvents`, in the order of the calls. |
| HttpStep.HTTPStep.LogReceived | master/buildbot/steps/http_oldstyle.py:133-147 | After a response: the redirect section, the final response, then `finish`; content logs in response order; `descriptionDone` is `Status code: N` and the result `Classify(N)`. |
| HttpStep.HTTPStep.Run | master/buildbot/steps/http_oldstyle.py:91-147 | The step takes the held session (creating one if needed). It sends `SentArgs`, the sink gains exactly `StepLogs` and the trace exactly `StepEvents`, and the result is `StepOutcome`. `descriptionDone` changes only after a completed request. |
| HttpStep.HTTPStep.LogRequest | master/buildbot/steps/http_oldstyle.py:105-147 | From `addLog('log')` on: the same logs, trace, arguments, result and `descriptionDone` as `Run`, given the assembled request arguments. |
| Transcript.StepOutcome | master/buildbot/steps/http_oldstyle.py:110-147 | `run` raises exactly when params does, and returns SUCCESS exactly when the request completed with a final status below 400; otherwise FAILURE. |
| Transcript.Classify | master/buildbot/steps/http_oldstyle.py:144-147 | FAILURE exactly for a final status of 400 or more, SUCCESS otherwise; never a raise. |
| Transcript.StepLogsCases | master/buildbot/steps/http_oldstyle.py:105-147 | If params raises, "log" holds only the summary, unfinished. A connection error leaves it unfinished after the exception line. A completed request finishes it and adds one content log per response. |
| TranscriptFacts.StepLogsShape | master/buildbot/steps/http_oldstyle.py:105-169 | The logs are "log" first (finished exactly when the request completed), then one `content` log per logged response, each holding exactly that response's text. |
| TranscriptFacts.TranscriptResponses | master/buildbot/steps/http_oldstyle.py:133-167 | The transcript's `Status:` lines are the status lines of the logged responses, one each, in order, the final response last. The same holds for the content lines. The number of rules equals the number of redirects. A raising params or a connection error leaves none of these. |
| TranscriptFacts.ReplySections | master/buildbot/steps/http_oldstyle.py:127-139 | The same facts for what follows the request summary. |
| TranscriptFacts.RedirectHopsSections | master/buildbot/steps/http_oldstyle.py:135-137 | The same facts for the redirect hops: one status line and one content line per hop, in order, and one rule per hop. |
| TranscriptFacts.RedirectHopsSelect | master/buildbot/steps/http_oldstyle.py:135-137 | A kind of line that every response writes once, and the rule does not, appears once per hop in hop order. |
| TranscriptFacts.RedirectHopsRules | master/buildbot/steps/http_oldstyle.py:137 | There is one rule per redirect hop. |
| TranscriptFacts.HopSections | master/buildbot/steps/http_oldstyle.py:150-167 | One response writes exactly one `Status:` line, one content line and no rule. |
| TranscriptFacts.ConnectionErrorTranscript | master/buildbot/steps/http_oldstyle.py:127-131 | After a connection error, stderr holds exactly the exception line and stdout holds nothing. |
| TranscriptFacts.RedirectedComesFirst | master/buildbot/steps/http_oldstyle.py:133-134 | With redirects, the first stdout line is `Redirected n times:` with n the number of redirects. |
| TranscriptFacts.SummaryOnHeaders | master/buildbot/steps/http_oldstyle.py:109-125 | Everything written before the request goes to the header channel. |
| TranscriptFacts.StatusCodeLineShowsCode | master/buildbot/steps/http_oldstyle.py:143 | `descriptionDone` names the final code: two codes give the same text exactly when they are equal. |
| TranscriptFacts.ClassifyByStatusClass | master/buildbot/steps/http_oldstyle.py:144-147 | For codes 100-599, FAILURE is exactly the 4xx and 5xx classes of section 15 of RFC 9110, and SUCCESS is exactly classes 1xx-3xx. |
| Logs.LogSink.AddLog | master/buildbot/steps/http_oldstyle.py:105 | A new, empty, unfinished log with the given name, appended after the existing ones; the trace gains its opening. |
| Logs.LogSink.Add | master/buildbot/steps/http_oldstyle.py:109 | One write appended to the chosen log, all other logs unchanged; the trace gains that write. |
| Logs.LogSink.AddHeader | master/buildbot/steps/http_oldstyle.py:109 | One write on the header channel appended to the chosen log, and to the trace. |
| Logs.LogSink.AddStdout | master/buildbot/steps/http_oldstyle.py:134 | One write on stdout appended to the chosen log, and to the trace. |
| Logs.LogSink.AddStderr | master/buildbot/steps/http_oldstyle.py:130 | One write on stderr appended to the chosen log, and to the trace. |
| Logs.LogSink.Finish | master/buildbot/steps/http_oldstyle.py:141 | The log is marked finished, and nothing else changes; the trace gains the `finish`. |
| Sessions.Session.Close | master/buildbot/steps/http_oldstyle.py:56 | The session is closed. |
| Logs.AppendedTwice | master/buildbot/steps/http_oldstyle.py:109-169 | Two successive appends to one log are one append of both writes in order. |
| Logs.AppendedAcross | master/buildbot/steps/http_oldstyle.py:136-139 | In the per-log view, writing to "log" after content logs were opened gives the same logs as writing it all first; the trace is what keeps the actual order. |
| TraceReplay.ReplayStep | master/buildbot/steps/http_oldstyle.py:105-169 | Replaying the calls `run` makes, in trace order, onto the earlier logs gives exactly those logs followed by `StepLogs`, with every write and flag. |
| TraceReplay.ReplayReply | master/buildbot/steps/http_oldstyle.py:127-141 | The same for the calls after the request: the exception line alone, or the responses, their content logs and the `finish`. |
| TraceReplay.ReplayHops | master/buildbot/steps/http_oldstyle.py:135-137 | The same for the redirect loop: the hops and rules on the transcript, one content log per hop in order. |
| TraceReplay.ReplayHop | master/buildbot/steps/http_oldstyle.py:150-169 | The same for one response: its transcript writes, then its content log holding its text. |

## Left out

- The HTTP request itself (txrequests, requests, the thread pool) is an input `Reply`. Exceptions other than `ConnectionError` raised by the request are not modelled.
- The text of the connection error and Python's `str.format` rendering of option values, header values and `response.text` are opaque strings. Dict items are modelled as (key, rendered value) pairs, and keys are strings compared in Python's `str` order.
- Twisted's deferreds, `inlineCallbacks` and `reactor.addSystemEventTrigger` are plain sequential calls here. A registered shutdown trigger is only counted (`shutdownHooks`), never run.
- Races on the shared session, and the cookie or auth state it carries across steps, are concurrency concerns outside the model.
- The `txrequests is None` branch of `__init__` (an import failure) is not modelled.
- `warn_deprecated_if_oldstyle_subclass` is not modelled; it only emits a deprecation warning.
- `BuildStep.__init__` and renderables are not modelled. The leftover kwargs are kept as `stepKwargs` and nothing more is done with them.
- `config.error` is modelled as a failed construction (`Err`). Buildbot's mode that collects configuration errors and carries on is not modelled.
- `descriptionDone`: the class-level default `'Requested'` is modelled as the one-element list `["Requested"]`.
- Sessions.Session: only the `closed` flag of a session is modelled.
- Mappings other than `dict`: `PyValue` has one `Dict` case, and `Other` stands for values without an `items` method. A non-dict mapping (such as `requests.structures.CaseInsensitiveDict`) would be sorted and sent as params but shown on one line as data; the model cannot represent that object.
- The wording of the duplicate-keyword `TypeError` of the verb subclasses follows CPython and is kept as one fixed string.
