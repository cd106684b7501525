/** The writes `run` and `log_response` make, as functions of the step's attributes and of
    the reply to the request; the logs the sink ends up with; and the step's result. */
module Transcript {
  import opened Text
  import opened PyValues
  import opened ParamsOrder
  import opened Logs
  import opened Request

  /** One response of the redirect chain, or the final one, as far as the step reads it. */
  datatype Hop = Hop(url: string, statusCode: int, requestHeaders: seq<Pair>, headers: seq<Pair>, text: string)

  /** The outcome of `session.request`: a response with its redirect history (oldest
      first), or a connection error with its text. */
  datatype Reply = Received(history: seq<Hop>, final: Hop) | ConnectionError(detail: string)

  /** What `run` ends with: SUCCESS, FAILURE, or the AttributeError of a non-dict params. */
  datatype StepResult = SUCCESS | FAILURE | Raised

  /** `requests.codes.ok` */
  const StatusOk: int := 200

  const StatusTag: string := "Status: "
  const ContentTag: string := " ------ Content ------\n"
  /** `'=' * 60 + '\n'` */
  const RuleLine: string := "==============================" + "==============================" + "\n"

  /** `'\t{}: {}\n'.format(k, v)` */
  function PairLine(p: Pair): string
  {
    "\t" + p.0 + ": " + p.1 + "\n"
  }

  /** One header line per item, in the order given. */
  function PairLines(ps: seq<Pair>): (ws: seq<Write>)
    ensures |ws| == |ps|
    ensures forall i :: 0 <= i < |ps| ==> ws[i] == Write(Header, PairLine(ps[i]))
  {
    if ps == [] then [] else PairLines(ps[..|ps| - 1]) + [Write(Header, PairLine(ps[|ps| - 1]))]
  }

  lemma PairLinesSnoc(ps: seq<Pair>, i: nat)
    requires i < |ps|
    ensures PairLines(ps[..i + 1]) == PairLines(ps[..i]) + [Write(Header, PairLine(ps[i]))]
  {
    assert ps[..i + 1][..i] == ps[..i];
  }

  function PerformingLine(httpMethod: string, url: string): string
  {
    "Performing " + httpMethod + " request to " + url + "\n"
  }

  /** The `Parameters:` section: written when params is truthy; its items sorted by key
      when it is a dict (a non-dict raises right after the heading). */
  function ParamsSection(params: PyValue): seq<Write>
  {
    if !Truthy(params) then []
    else [Write(Header, "Parameters:\n")] + (if params.Dict? then PairLines(SortByKey(params.entries)) else [])
  }

  /** The `Data:` section: a dict's items in its own order, anything else on one line. */
  function DataSection(data: PyValue): seq<Write>
  {
    if !Truthy(data) then []
    else
      var lines := if data.Dict? then PairLines(data.entries) else [Write(Header, "\t" + data.shown + "\n")];
      [Write(Header, "Data:\n")] + lines
  }

  /** The `Status:` line goes to stdout only for 200. */
  function StatusChannel(code: int): (c: Channel)
    ensures c != Header
    ensures c == Stdout <==> code == 200
  {
    if code == StatusOk then Stdout else Stderr
  }

  function StatusWrite(h: Hop): Write
  {
    Write(StatusChannel(h.statusCode), StatusTag + IntToDecimal(h.statusCode) + "\n")
  }

  function ContentWrite(h: Hop): Write
  {
    Write(Stdout, ContentTag + h.text)
  }

  /** What `log_response` writes to the transcript for one response. */
  function HopWrites(h: Hop): seq<Write>
  {
    HopHeadWrites(h) + HopBodyWrites(h)
  }

  /** The transcript of one response, write by write: the request-header heading and one
      line per request header, the URL, the status line, the response-header heading and
      one line per response header, then the content line. */
  lemma HopWritesLayout(h: Hop)
    ensures var ws := HopWrites(h);
      && |ws| == |h.requestHeaders| + |h.headers| + 5
      && ws[0] == Write(Header, "Request Header:\n")
      && (forall i :: 1 <= i <= |h.requestHeaders| ==> ws[i] == Write(Header, PairLine(h.requestHeaders[i - 1])))
      && ws[|h.requestHeaders| + 1] == Write(Stdout, "URL: " + h.url + "\n")
      && ws[|h.requestHeaders| + 2] == StatusWrite(h)
      && ws[|h.requestHeaders| + 3] == Write(Header, "Response Header:\n")
      && (forall i :: 0 <= i < |h.headers| ==> ws[|h.requestHeaders| + 4 + i] == Write(Header, PairLine(h.headers[i])))
      && ws[|ws| - 1] == ContentWrite(h)
  {
  }

  /** The first part of `log_response`: the request headers, the URL and the status line. */
  function HopHeadWrites(h: Hop): seq<Write>
  {
    [Write(Header, "Request Header:\n")] + PairLines(h.requestHeaders)
    + [Write(Stdout, "URL: " + h.url + "\n"), StatusWrite(h)]
  }

  /** The rest of `log_response`'s transcript: the response headers and the content line. */
  function HopBodyWrites(h: Hop): seq<Write>
  {
    [Write(Header, "Response Header:\n")] + PairLines(h.headers) + [ContentWrite(h)]
  }

  /** Each redirect hop followed by a rule of 60 `=`. */
  function HopsWithRules(hs: seq<Hop>): seq<Write>
  {
    if hs == [] then []
    else HopsWithRules(hs[..|hs| - 1]) + RedirectHopWrites(hs[|hs| - 1])
  }

  /** One redirect hop and the rule after it. */
  function RedirectHopWrites(h: Hop): seq<Write>
  {
    HopWrites(h) + [Write(Stdout, RuleLine)]
  }

  lemma HopsWithRulesSnoc(hs: seq<Hop>, i: nat)
    requires i < |hs|
    ensures HopsWithRules(hs[..i + 1]) == HopsWithRules(hs[..i]) + RedirectHopWrites(hs[i])
  {
    assert hs[..i + 1][..i] == hs[..i];
  }

  function RedirectedLine(n: nat): string
  {
    "\nRedirected " + NatToDecimal(n) + " times:\n\n"
  }

  function RedirectSection(history: seq<Hop>): seq<Write>
  {
    if history == [] then [] else [Write(Stdout, RedirectedLine(|history|))] + HopsWithRules(history)
  }

  function ExceptionLine(detail: string): string
  {
    "An exception occurred " + "while performing the request: " + detail
  }

  /** What `run` writes before calling `session.request`; it stops after the
      `Parameters:` heading when params cannot be sorted. */
  function SummaryWrites(httpMethod: string, url: string, attrs: map<string, PyValue>): seq<Write>
  {
    var params := Attr(attrs, "params");
    [Write(Header, PerformingLine(httpMethod, url))] + ParamsSection(params)
      + (if ParamsRaise(params) then [] else DataSection(Attr(attrs, "data")))
  }

  /** The writes to the log named "log", in order. */
  function StepTranscript(httpMethod: string, url: string, attrs: map<string, PyValue>, reply: Reply): seq<Write>
  {
    SummaryWrites(httpMethod, url, attrs)
      + (if ParamsRaise(Attr(attrs, "params")) then [] else ReplySection(reply))
  }

  /** What follows the request summary: the exception line, or every response. */
  function ReplySection(reply: Reply): seq<Write>
  {
    match reply
    case ConnectionError(detail) => [Write(Stderr, ExceptionLine(detail))]
    case Received(history, final) => RedirectSection(history) + HopWrites(final)
  }

  /** The log named "content" that `log_response` opens for one response. */
  function ContentLog(h: Hop): LogStream
  {
    LogStream("content", [Write(Stdout, h.text)], false)
  }

  /** One content log per response, in the order the responses are logged. */
  function ContentLogs(hs: seq<Hop>): (logs: seq<LogStream>)
    ensures |logs| == |hs|
    ensures forall i :: 0 <= i < |hs| ==> logs[i] == ContentLog(hs[i])
  {
    if hs == [] then [] else ContentLogs(hs[..|hs| - 1]) + [ContentLog(hs[|hs| - 1])]
  }

  lemma ContentLogsSnoc(hs: seq<Hop>, i: nat)
    requires i < |hs|
    ensures ContentLogs(hs[..i + 1]) == ContentLogs(hs[..i]) + [ContentLog(hs[i])]
  {
    assert hs[..i + 1][..i] == hs[..i];
  }

  /** The calls `log_response` makes on the sink for one response, in order: its writes
      to the transcript `log`, then `addLog('content')`, which opens log `content`, and the
      response text on that log. */
  function HopEvents(log: nat, content: nat, h: Hop): seq<Event>
  {
    Tagged(log, HopWrites(h)) + [Opened(content, "content"), Wrote(content, Write(Stdout, h.text))]
  }

  /** One pass of the redirect loop: the response, then the rule on the transcript. */
  function RedirectHopEvents(log: nat, content: nat, h: Hop): seq<Event>
  {
    HopEvents(log, content, h) + [Wrote(log, Write(Stdout, RuleLine))]
  }

  /** The first `n` passes of the redirect loop over `hs`, oldest first; the content log
      of `hs[i]` is log `first + i`. */
  function HopsEvents(log: nat, first: nat, hs: seq<Hop>, n: nat): seq<Event>
    requires n <= |hs|
  {
    if n == 0 then [] else HopsEvents(log, first, hs, n - 1) + RedirectHopEvents(log, first + n - 1, hs[n - 1])
  }

  /** The logs after the passes of the redirect loop for `hs[..i]`, then one more pass. */
  lemma RedirectPassLogs(logs: seq<LogStream>, log: nat, hs: seq<Hop>, i: nat)
    requires i < |hs| && log < |logs|
    ensures Appended(Appended(logs, log, HopsWithRules(hs[..i])) + ContentLogs(hs[..i]), log, RedirectHopWrites(hs[i]))
              + [ContentLog(hs[i])]
         == Appended(logs, log, HopsWithRules(hs[..i + 1])) + ContentLogs(hs[..i + 1])
  {
    AppendedAcross(logs, log, HopsWithRules(hs[..i]), ContentLogs(hs[..i]), RedirectHopWrites(hs[i]), [ContentLog(hs[i])]);
    HopsWithRulesSnoc(hs, i);
    ContentLogsSnoc(hs, i);
  }

  lemma RedirectHopEventsAt(log: nat, content: nat, other: nat, h: Hop)
    requires content == other
    ensures RedirectHopEvents(log, content, h) == RedirectHopEvents(log, other, h)
  {
  }

  lemma HopsEventsUnfold(log: nat, first: nat, hs: seq<Hop>, i: nat)
    requires i < |hs|
    ensures HopsEvents(log, first, hs, i + 1) == HopsEvents(log, first, hs, i) + RedirectHopEvents(log, first + i, hs[i])
  {
  }

  /** One more pass of the redirect loop, its content log numbered `content`. */
  lemma HopsEventsNext(log: nat, first: nat, hs: seq<Hop>, i: nat, content: nat)
    requires i < |hs| && content == first + i
    ensures HopsEvents(log, first, hs, i + 1) == HopsEvents(log, first, hs, i) + RedirectHopEvents(log, content, hs[i])
  {
    HopsEventsUnfold(log, first, hs, i);
    RedirectHopEventsAt(log, first + i, content, hs[i]);
  }

  /** The trace after the first `i` passes of the redirect loop, then one more pass. */
  lemma RedirectPassTrace(trace: seq<Event>, log: nat, first: nat, hs: seq<Hop>, i: nat, content: nat)
    requires i < |hs| && content == first + i
    ensures trace + HopsEvents(log, first, hs, i) + RedirectHopEvents(log, content, hs[i])
         == trace + HopsEvents(log, first, hs, i + 1)
  {
    HopsEventsNext(log, first, hs, i, content);
    ConcatAssociative(trace, HopsEvents(log, first, hs, i), RedirectHopEvents(log, content, hs[i]));
  }

  /** The sink holds one more log per pass of the redirect loop. */
  lemma PassLogsLength(logs: seq<LogStream>, log: nat, hs: seq<Hop>, i: nat)
    requires log < |logs| && i <= |hs|
    ensures |Appended(logs, log, HopsWithRules(hs[..i])) + ContentLogs(hs[..i])| == |logs| + i
  {
  }

  /** The `if r.history:` block: the count line, then the redirect loop. */
  function RedirectEvents(log: nat, first: nat, history: seq<Hop>): seq<Event>
  {
    if history == [] then [] else [Wrote(log, Write(Stdout, RedirectedLine(|history|)))] + HopsEvents(log, first, history, |history|)
  }

  /** The calls after `session.request`: the exception line, or every response followed by
      `finish`; the content logs are numbered from `first`. */
  function ReplyEvents(log: nat, first: nat, reply: Reply): seq<Event>
  {
    match reply
    case ConnectionError(detail) => [Wrote(log, Write(Stderr, ExceptionLine(detail)))]
    case Received(history, final) =>
      RedirectEvents(log, first, history) + HopEvents(log, first + |history|, final) + [Closed(log)]
  }

  lemma ReceivedUnfold(log: nat, first: nat, reply: Reply)
    requires reply.Received?
    ensures ReplyEvents(log, first, reply)
         == RedirectEvents(log, first, reply.history) + HopEvents(log, first + |reply.history|, reply.final) + [Closed(log)]
  {
  }

  lemma HopEventsAt(log: nat, content: nat, other: nat, h: Hop)
    requires content == other
    ensures HopEvents(log, content, h) == HopEvents(log, other, h)
  {
  }

  /** The calls after a completed request, with the final response's content log
      numbered `content`, just after the redirects' content logs. */
  lemma ReceivedEvents(log: nat, first: nat, reply: Reply, content: nat)
    requires reply.Received? && content == first + |reply.history|
    ensures ReplyEvents(log, first, reply)
         == RedirectEvents(log, first, reply.history) + HopEvents(log, content, reply.final) + [Closed(log)]
  {
    var r := RedirectEvents(log, first, reply.history);
    var unfolded := HopEvents(log, first + |reply.history|, reply.final);
    ReceivedUnfold(log, first, reply);
    HopEventsAt(log, first + |reply.history|, content, reply.final);
    assert unfolded == HopEvents(log, content, reply.final);
    assert r + unfolded + [Closed(log)] == r + HopEvents(log, content, reply.final) + [Closed(log)];
  }

  /** The trace after the redirect section, the final response and `finish`. */
  lemma ReplyTrace(trace: seq<Event>, log: nat, first: nat, reply: Reply, content: nat)
    requires reply.Received? && content == first + |reply.history|
    ensures trace + RedirectEvents(log, first, reply.history) + HopEvents(log, content, reply.final) + [Closed(log)]
         == trace + ReplyEvents(log, first, reply)
  {
    var r := RedirectEvents(log, first, reply.history);
    var h := HopEvents(log, content, reply.final);
    ReceivedEvents(log, first, reply, content);
    ConcatAssociative(trace, r, h);
    ConcatAssociative(trace, r + h, [Closed(log)]);
  }

  /** Every call `run` makes on a sink that already holds `log` logs, in order: opening
      "log" (which becomes log `log`), the summary, then what follows the request. */
  function StepEvents(httpMethod: string, url: string, attrs: map<string, PyValue>, reply: Reply, log: nat): seq<Event>
  {
    [Opened(log, "log")] + Tagged(log, SummaryWrites(httpMethod, url, attrs))
      + (if ParamsRaise(Attr(attrs, "params")) then [] else ReplyEvents(log, log + 1, reply))
  }

  /** The responses `run` logs: the redirect hops oldest first, then the final one. */
  function LoggedHops(attrs: map<string, PyValue>, reply: Reply): seq<Hop>
  {
    if ParamsRaise(Attr(attrs, "params")) || reply.ConnectionError? then []
    else reply.history + [reply.final]
  }

  /** The logs `run` opens, in order: "log" (finished only after a completed request),
      then one "content" log per logged response. */
  function StepLogs(httpMethod: string, url: string, attrs: map<string, PyValue>, reply: Reply): seq<LogStream>
  {
    var completed := !ParamsRaise(Attr(attrs, "params")) && reply.Received?;
    [LogStream("log", StepTranscript(httpMethod, url, attrs, reply), completed)]
      + ContentLogs(LoggedHops(attrs, reply))
  }

  /** The logs of `run` case by case: a raising params option leaves "log" unfinished
      after the summary; a connection error leaves it unfinished after the exception
      line; a completed request finishes it and adds one content log per response. */
  lemma StepLogsCases(httpMethod: string, url: string, attrs: map<string, PyValue>, reply: Reply)
    ensures ParamsRaise(Attr(attrs, "params")) ==>
      StepLogs(httpMethod, url, attrs, reply) == [LogStream("log", SummaryWrites(httpMethod, url, attrs), false)]
    ensures !ParamsRaise(Attr(attrs, "params")) && reply.ConnectionError? ==>
      StepLogs(httpMethod, url, attrs, reply)
        == [LogStream("log", SummaryWrites(httpMethod, url, attrs) + ReplySection(reply), false)]
    ensures !ParamsRaise(Attr(attrs, "params")) && reply.Received? ==>
      StepLogs(httpMethod, url, attrs, reply)
        == [LogStream("log", SummaryWrites(httpMethod, url, attrs) + ReplySection(reply), true)]
           + ContentLogs(reply.history + [reply.final])
  {
    assert ContentLogs([]) == [];
    assert SummaryWrites(httpMethod, url, attrs) + [] == SummaryWrites(httpMethod, url, attrs);
  }

  /** When params raises, `run` has opened "log" and written the summary to it, and
      nothing more. */
  lemma RaisedStep(logs: seq<LogStream>, trace: seq<Event>, log: nat, httpMethod: string, url: string,
                   attrs: map<string, PyValue>, reply: Reply)
    requires log == |logs| && ParamsRaise(Attr(attrs, "params"))
    ensures logs + StepLogs(httpMethod, url, attrs, reply)
         == Appended(logs + [LogStream("log", [], false)], log, SummaryWrites(httpMethod, url, attrs))
    ensures trace + StepEvents(httpMethod, url, attrs, reply, log)
         == trace + [Opened(log, "log")] + Tagged(log, SummaryWrites(httpMethod, url, attrs))
  {
    var summary := SummaryWrites(httpMethod, url, attrs);
    StepLogsCases(httpMethod, url, attrs, reply);
    AppendedLast(logs, LogStream("log", [], false), summary);
    assert [] + summary == summary;
    ConcatAssociative(trace, [Opened(log, "log")], Tagged(log, summary));
    assert [Opened(log, "log")] + Tagged(log, summary) + [] == [Opened(log, "log")] + Tagged(log, summary);
  }

  /** Otherwise `run` has opened "log", written the summary and then what follows the
      request, finishing "log" and opening the content logs after a completed request. */
  lemma RepliedStep(logs: seq<LogStream>, trace: seq<Event>, log: nat, first: nat, httpMethod: string, url: string,
                    attrs: map<string, PyValue>, reply: Reply)
    requires log == |logs| && first == log + 1 && !ParamsRaise(Attr(attrs, "params"))
    ensures
      var replied := Appended(Appended(logs + [LogStream("log", [], false)], log, SummaryWrites(httpMethod, url, attrs)),
                              log, ReplySection(reply));
      logs + StepLogs(httpMethod, url, attrs, reply) ==
        if reply.ConnectionError? then replied else Finished(replied, log) + ContentLogs(reply.history + [reply.final])
    ensures trace + StepEvents(httpMethod, url, attrs, reply, log)
         == trace + [Opened(log, "log")] + Tagged(log, SummaryWrites(httpMethod, url, attrs))
              + ReplyEvents(log, first, reply)
  {
    var n := log;
    var summary := SummaryWrites(httpMethod, url, attrs);
    var both := summary + ReplySection(reply);
    StepLogsCases(httpMethod, url, attrs, reply);
    NewLogWrittenTwice(logs, "log", summary, ReplySection(reply));
    if reply.Received? {
      FinishedLast(logs, LogStream("log", both, false));
      ConcatAssociative(logs, [LogStream("log", both, true)], ContentLogs(reply.history + [reply.final]));
    }
    ConcatAssociative(trace, [Opened(n, "log")], Tagged(n, summary));
    ConcatAssociative(trace, [Opened(n, "log")] + Tagged(n, summary), ReplyEvents(n, n + 1, reply));
  }

  /** The logs after the redirect section, the final response and `finish`. */
  lemma ReceivedLogs(logs: seq<LogStream>, log: nat, reply: Reply)
    requires log < |logs| && reply.Received?
    ensures Finished(Appended(Appended(logs, log, RedirectSection(reply.history)) + ContentLogs(reply.history), log,
                              HopWrites(reply.final)) + [ContentLog(reply.final)], log)
         == Finished(Appended(logs, log, ReplySection(reply)), log) + ContentLogs(reply.history + [reply.final])
  {
    var history, final := reply.history, reply.final;
    AppendedAcross(logs, log, RedirectSection(history), ContentLogs(history), HopWrites(final), [ContentLog(final)]);
    ContentLogsSnoc(history + [final], |history|);
    assert (history + [final])[..|history| + 1] == history + [final];
    assert (history + [final])[..|history|] == history;
    FinishedBeforeLater(Appended(logs, log, ReplySection(reply)), ContentLogs(history + [final]), log);
  }

  /** A final status below 400 is SUCCESS, anything else FAILURE. */
  function Classify(code: int): (r: StepResult)
    ensures r != Raised
    ensures r == FAILURE <==> code >= 400
  {
    if code < 400 then SUCCESS else FAILURE
  }

  /** How `run` ends: it raises exactly when params does, and succeeds exactly when the
      request completed with a final status below 400. */
  function StepOutcome(attrs: map<string, PyValue>, reply: Reply): (r: StepResult)
    ensures r == Raised <==> ParamsRaise(Attr(attrs, "params"))
    ensures r == SUCCESS <==> !ParamsRaise(Attr(attrs, "params")) && reply.Received? && reply.final.statusCode < 400
  {
    if ParamsRaise(Attr(attrs, "params")) then Raised
    else match reply
      case ConnectionError(_) => FAILURE
      case Received(_, final) => Classify(final.statusCode)
  }

  function StatusCodeLine(code: int): string
  {
    "Status code: " + IntToDecimal(code)
  }
}
