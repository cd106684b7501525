/** The HTTPStep build step and its per-verb subclasses. */
module HttpStep {
  import opened Wrappers
  import opened Text
  import opened PyValues
  import opened ParamsOrder
  import opened Logs
  import opened Sessions
  import opened Request
  import opened Transcript

  class HTTPStep {
    const httpMethod: string
    const url: string
    /** The whitelisted options, set one by one by `__init__` (`None` where not given). */
    const attrs: map<string, PyValue>
    /** The keyword arguments left after the whitelisted ones are popped: BuildStep's. */
    const stepKwargs: map<string, PyValue>
    var descriptionDone: seq<string>
    var session: Session?

    /** The method is a known one and every whitelisted option has been set. */
    ghost predicate Valid()
      reads this
    {
      IsKnownMethod(httpMethod) && attrs.Keys == set p | p in RequestsParams
    }

    /** `__init__` after the method check: record method and URL, then pop every
        whitelisted option out of the keyword arguments into an attribute. */
    constructor (url: string, httpMethod: string, kwargs: map<string, PyValue>)
      requires IsKnownMethod(httpMethod)
      ensures Valid() && this.httpMethod == httpMethod && this.url == url
      ensures forall p :: p in RequestsParams ==> p in attrs && attrs[p] == Attr(kwargs, p)
      ensures stepKwargs == kwargs - (set p | p in RequestsParams)
      ensures descriptionDone == ["Requested"] && session == null
    {
      var options: map<string, PyValue> := map[];
      var rest := kwargs;
      RequestsParamsDistinct();
      for i := 0 to |RequestsParams|
        invariant options.Keys == set p | p in RequestsParams[..i]
        invariant forall p :: p in options ==> options[p] == Attr(kwargs, p)
        invariant rest == kwargs - (set p | p in RequestsParams[..i])
      {
        var param := RequestsParams[i];
        assert param !in RequestsParams[..i];
        options := options[param := Attr(rest, param)];
        rest := rest - {param};
        assert RequestsParams[..i + 1] == RequestsParams[..i] + [param];
      }
      assert RequestsParams[..|RequestsParams|] == RequestsParams;
      this.httpMethod := httpMethod;
      this.url := url;
      attrs := options;
      stepKwargs := rest;
      descriptionDone := ["Requested"];
      session := null;
    }

    /** The `if self.params:` block of `run`: when params is truthy, the `Parameters:`
        heading, then the items sorted by key, which also replace params in the request. A
        params value that is not a dict fails at `.items()`. */
    method LogParameters(sink: LogSink, log: nat, kw: map<string, Arg>)
      returns (sent: map<string, Arg>, raised: bool)
      requires log < |sink.logs|
      modifies sink
      ensures raised == ParamsRaise(Attr(attrs, "params"))
      ensures sink.logs == Appended(old(sink.logs), log, ParamsSection(Attr(attrs, "params")))
      ensures sink.trace == old(sink.trace) + Tagged(log, ParamsSection(Attr(attrs, "params")))
      ensures !raised ==> sent == if Truthy(Attr(attrs, "params"))
        then kw["params" := SortedItems(SortByKey(Attr(attrs, "params").entries))]
        else kw
    {
      sent, raised := kw, false;
      var params := Attr(attrs, "params");
      if !Truthy(params) {
        AppendedNothing(sink.logs, log);
        assert sink.trace + [] == sink.trace;
        return;
      }
      sink.AddHeader(log, "Parameters:\n");
      ghost var written := [Write(Header, "Parameters:\n")];
      TaggedOne(log, Write(Header, "Parameters:\n"));
      if !params.Dict? {
        // `params.items()` raises AttributeError
        assert written + [] == written;
        raised := true;
        return;
      }
      var items := SortByKey(params.entries);
      sent := kw["params" := SortedItems(items)];
      WriteLines(sink, log, items);
      AppendedTwice(old(sink.logs), log, written, PairLines(items));
      TaggedTwice(old(sink.trace), log, written, PairLines(items));
    }

    /** The `if data:` block of `run`: when data is truthy, the `Data:` heading, then a
        dict's items in its own order, or the value on one line. */
    method LogData(sink: LogSink, log: nat)
      requires log < |sink.logs|
      modifies sink
      ensures sink.logs == Appended(old(sink.logs), log, DataSection(Attr(attrs, "data")))
      ensures sink.trace == old(sink.trace) + Tagged(log, DataSection(Attr(attrs, "data")))
    {
      var data := Attr(attrs, "data");
      if !Truthy(data) {
        AppendedNothing(sink.logs, log);
        assert sink.trace + [] == sink.trace;
        return;
      }
      sink.AddHeader(log, "Data:\n");
      ghost var written := [Write(Header, "Data:\n")];
      TaggedOne(log, Write(Header, "Data:\n"));
      if data.Dict? {
        WriteLines(sink, log, data.entries);
        AppendedTwice(old(sink.logs), log, written, PairLines(data.entries));
        TaggedTwice(old(sink.trace), log, written, PairLines(data.entries));
      } else {
        sink.AddHeader(log, "\t" + data.shown + "\n");
        AppendedTwice(old(sink.logs), log, written, [Write(Header, "\t" + data.shown + "\n")]);
        TaggedOne(log, Write(Header, "\t" + data.shown + "\n"));
        TaggedTwice(old(sink.trace), log, written, [Write(Header, "\t" + data.shown + "\n")]);
      }
    }

    /** The loops `for k, v in ...: addHeader('\t{}: {}\n'.format(k, v))` of `run` and
        `log_response`: one header line per item, in the order given. */
    method WriteLines(sink: LogSink, log: nat, items: seq<Pair>)
      requires log < |sink.logs|
      modifies sink
      ensures sink.logs == Appended(old(sink.logs), log, PairLines(items))
      ensures sink.trace == old(sink.trace) + Tagged(log, PairLines(items))
    {
      AppendedNothing(sink.logs, log);
      assert sink.trace + [] == sink.trace;
      for i := 0 to |items|
        invariant sink.logs == Appended(old(sink.logs), log, PairLines(items[..i]))
        invariant sink.trace == old(sink.trace) + Tagged(log, PairLines(items[..i]))
      {
        sink.AddHeader(log, PairLine(items[i]));
        AppendedTwice(old(sink.logs), log, PairLines(items[..i]), [Write(Header, PairLine(items[i]))]);
        TaggedOne(log, Write(Header, PairLine(items[i])));
        TaggedTwice(old(sink.trace), log, PairLines(items[..i]), [Write(Header, PairLine(items[i]))]);
        PairLinesSnoc(items, i);
      }
      assert items[..|items|] == items;
    }

    /** `log_response`: the request headers, URL, status (stdout for 200, stderr
        otherwise), response headers and content go to the transcript, and the content
        also to a new log named "content". */
    method LogResponse(sink: LogSink, log: nat, hop: Hop)
      requires log < |sink.logs|
      modifies sink
      ensures sink.logs == Appended(old(sink.logs), log, HopWrites(hop)) + [ContentLog(hop)]
      ensures sink.trace == old(sink.trace) + HopEvents(log, |old(sink.logs)|, hop)
    {
      LogHop(sink, log, hop);
      ghost var before := sink.logs;
      ghost var traced := sink.trace;
      var content := sink.AddLog("content");
      sink.AddStdout(content, hop.text);
      AppendedLast(before, LogStream("content", [], false), [Write(Stdout, hop.text)]);
      assert [] + [Write(Stdout, hop.text)] == [Write(Stdout, hop.text)];
      assert sink.trace == traced + [Opened(content, "content"), Wrote(content, Write(Stdout, hop.text))];
    }

    /** The transcript part of `log_response`. */
    method LogHop(sink: LogSink, log: nat, hop: Hop)
      requires log < |sink.logs|
      modifies sink
      ensures sink.logs == Appended(old(sink.logs), log, HopWrites(hop))
      ensures sink.trace == old(sink.trace) + Tagged(log, HopWrites(hop))
    {
      LogHopHead(sink, log, hop);
      LogHopBody(sink, log, hop);
      AppendedTwice(old(sink.logs), log, HopHeadWrites(hop), HopBodyWrites(hop));
      TaggedTwice(old(sink.trace), log, HopHeadWrites(hop), HopBodyWrites(hop));
    }

    /** `log_response` up to the status line: the request headers, the URL and the status. */
    method LogHopHead(sink: LogSink, log: nat, hop: Hop)
      requires log < |sink.logs|
      modifies sink
      ensures sink.logs == Appended(old(sink.logs), log, HopHeadWrites(hop))
      ensures sink.trace == old(sink.trace) + Tagged(log, HopHeadWrites(hop))
    {
      sink.AddHeader(log, "Request Header:\n");
      ghost var written := [Write(Header, "Request Header:\n")];
      TaggedOne(log, Write(Header, "Request Header:\n"));

      WriteLines(sink, log, hop.requestHeaders);
      AppendedTwice(old(sink.logs), log, written, PairLines(hop.requestHeaders));
      TaggedTwice(old(sink.trace), log, written, PairLines(hop.requestHeaders));
      written := written + PairLines(hop.requestHeaders);

      sink.AddStdout(log, "URL: " + hop.url + "\n");
      AppendedTwice(old(sink.logs), log, written, [Write(Stdout, "URL: " + hop.url + "\n")]);
      TaggedOne(log, Write(Stdout, "URL: " + hop.url + "\n"));
      TaggedTwice(old(sink.trace), log, written, [Write(Stdout, "URL: " + hop.url + "\n")]);
      written := written + [Write(Stdout, "URL: " + hop.url + "\n")];

      LogStatus(sink, log, hop);
      AppendedTwice(old(sink.logs), log, written, [StatusWrite(hop)]);
      TaggedOne(log, StatusWrite(hop));
      TaggedTwice(old(sink.trace), log, written, [StatusWrite(hop)]);
      written := written + [StatusWrite(hop)];
      assert written == HopHeadWrites(hop);
    }

    /** The rest of `log_response`'s transcript: the response headers and the content. */
    method LogHopBody(sink: LogSink, log: nat, hop: Hop)
      requires log < |sink.logs|
      modifies sink
      ensures sink.logs == Appended(old(sink.logs), log, HopBodyWrites(hop))
      ensures sink.trace == old(sink.trace) + Tagged(log, HopBodyWrites(hop))
    {
      sink.AddHeader(log, "Response Header:\n");
      ghost var written := [Write(Header, "Response Header:\n")];
      TaggedOne(log, Write(Header, "Response Header:\n"));

      WriteLines(sink, log, hop.headers);
      AppendedTwice(old(sink.logs), log, written, PairLines(hop.headers));
      TaggedTwice(old(sink.trace), log, written, PairLines(hop.headers));
      written := written + PairLines(hop.headers);

      sink.AddStdout(log, ContentTag + hop.text);
      AppendedTwice(old(sink.logs), log, written, [ContentWrite(hop)]);
      TaggedOne(log, ContentWrite(hop));
      TaggedTwice(old(sink.trace), log, written, [ContentWrite(hop)]);
      written := written + [ContentWrite(hop)];
      assert written == HopBodyWrites(hop);
    }

    /** The status line: stdout when the code is 200 (`requests.codes.ok`), stderr otherwise. */
    method LogStatus(sink: LogSink, log: nat, hop: Hop)
      requires log < |sink.logs|
      modifies sink
      ensures sink.logs == Appended(old(sink.logs), log, [StatusWrite(hop)])
      ensures sink.trace == old(sink.trace) + [Wrote(log, StatusWrite(hop))]
    {
      if hop.statusCode == StatusOk {
        sink.AddStdout(log, StatusTag + IntToDecimal(hop.statusCode) + "\n");
      } else {
        sink.AddStderr(log, StatusTag + IntToDecimal(hop.statusCode) + "\n");
      }
    }

    /** The body of the redirect loop: one hop, whose content log is opened before the
        rule of 60 `=` is written to the transcript. */
    method LogRedirectHop(sink: LogSink, log: nat, hop: Hop)
      requires log < |sink.logs|
      modifies sink
      ensures sink.logs == Appended(old(sink.logs), log, RedirectHopWrites(hop)) + [ContentLog(hop)]
      ensures sink.trace == old(sink.trace) + RedirectHopEvents(log, |old(sink.logs)|, hop)
    {
      LogResponse(sink, log, hop);
      sink.AddStdout(log, RuleLine);
      AppendedAcross(old(sink.logs), log, HopWrites(hop), [ContentLog(hop)], [Write(Stdout, RuleLine)], []);
      assert [ContentLog(hop)] + [] == [ContentLog(hop)];
    }

    /** The `if r.history:` block of `run`: when there were redirects, the
        `Redirected n times:` line, then the redirect loop. */
    method LogRedirects(sink: LogSink, log: nat, history: seq<Hop>)
      requires log < |sink.logs|
      modifies sink
      ensures sink.logs == Appended(old(sink.logs), log, RedirectSection(history)) + ContentLogs(history)
      ensures sink.trace == old(sink.trace) + RedirectEvents(log, |old(sink.logs)|, history)
    {
      if history == [] {
        AppendedNothing(sink.logs, log);
        assert sink.trace + [] == sink.trace;
        return;
      }
      ghost var first := |sink.logs|;
      ghost var line := Write(Stdout, RedirectedLine(|history|));
      sink.AddStdout(log, RedirectedLine(|history|));
      LogRedirectHops(sink, log, history);
      AppendedAcross(old(sink.logs), log, [line], [], HopsWithRules(history), ContentLogs(history));
      assert Appended(old(sink.logs), log, [line]) + [] == Appended(old(sink.logs), log, [line]);
      assert [] + ContentLogs(history) == ContentLogs(history);
      ConcatAssociative(old(sink.trace), [Wrote(log, line)], HopsEvents(log, first, history, |history|));
    }

    /** `for rr in r.history:` every hop, oldest first, each followed by the rule. */
    method LogRedirectHops(sink: LogSink, log: nat, hops: seq<Hop>)
      requires log < |sink.logs|
      modifies sink
      ensures sink.logs == Appended(old(sink.logs), log, HopsWithRules(hops)) + ContentLogs(hops)
      ensures sink.trace == old(sink.trace) + HopsEvents(log, |old(sink.logs)|, hops, |hops|)
    {
      assert hops[..0] == [];
      AppendedNothing(sink.logs, log);
      assert sink.logs + [] == sink.logs;
      assert sink.trace + [] == sink.trace;
      for i := 0 to |hops|
        invariant sink.logs == Appended(old(sink.logs), log, HopsWithRules(hops[..i])) + ContentLogs(hops[..i])
        invariant sink.trace == old(sink.trace) + HopsEvents(log, |old(sink.logs)|, hops, i)
      {
        ghost var content := |sink.logs|;
        PassLogsLength(old(sink.logs), log, hops, i);
        LogRedirectHop(sink, log, hops[i]);
        RedirectPassLogs(old(sink.logs), log, hops, i);
        RedirectPassTrace(old(sink.trace), log, |old(sink.logs)|, hops, i, content);
      }
      assert hops[..|hops|] == hops;
    }

    /** `run`: take the shared session, build the request arguments, write the request
        summary, then either record the connection error or log every response, finish
        the log, describe the final status and classify it. */
    method Run(holder: SessionHolder, sink: LogSink, reply: Reply)
      returns (result: StepResult, sent: Option<map<string, Arg>>)
      requires Valid()
      modifies this, holder, sink
      ensures session == holder.current && session != null
      ensures old(holder.current) != null ==>
        session == old(holder.current) && holder.shutdownHooks == old(holder.shutdownHooks)
      ensures old(holder.current) == null ==>
        fresh(session) && holder.shutdownHooks == old(holder.shutdownHooks) + 1
      ensures sent == SentArgs(httpMethod, url, attrs)
      ensures result == StepOutcome(attrs, reply)
      ensures sink.logs == old(sink.logs) + StepLogs(httpMethod, url, attrs, reply)
      ensures sink.trace == old(sink.trace) + StepEvents(httpMethod, url, attrs, reply, |old(sink.logs)|)
      ensures descriptionDone ==
        if result == Raised || reply.ConnectionError? then old(descriptionDone)
        else [StatusCodeLine(reply.final.statusCode)]
    {
      session := holder.GetSession();
      var kw := AssembleRequestKwargs(httpMethod, url, attrs);
      result, sent := LogRequest(sink, kw, reply);
    }

    /** The part of `run` after `requestkwargs` is built: open "log", write the summary,
        then send the request and log its outcome. */
    method LogRequest(sink: LogSink, kw: map<string, Arg>, reply: Reply)
      returns (result: StepResult, sent: Option<map<string, Arg>>)
      requires kw == RequestArgs(httpMethod, url, attrs)
      modifies this, sink
      ensures session == old(session)
      ensures sent == SentArgs(httpMethod, url, attrs)
      ensures result == StepOutcome(attrs, reply)
      ensures sink.logs == old(sink.logs) + StepLogs(httpMethod, url, attrs, reply)
      ensures sink.trace == old(sink.trace) + StepEvents(httpMethod, url, attrs, reply, |old(sink.logs)|)
      ensures descriptionDone ==
        if result == Raised || reply.ConnectionError? then old(descriptionDone)
        else [StatusCodeLine(reply.final.statusCode)]
    {
      var log := sink.AddLog("log");
      var args, raised := LogSummary(sink, log, kw);
      if raised {
        RaisedStep(old(sink.logs), old(sink.trace), log, httpMethod, url, attrs, reply);
        result, sent := Raised, None;
        return;
      }
      sent := Some(args);
      ghost var first := |sink.logs|;
      result := LogReply(sink, log, reply);
      RepliedStep(old(sink.logs), old(sink.trace), log, first, httpMethod, url, attrs, reply);
    }

    /** The part of `run` before `session.request`: the `Performing` line, the parameters and the data. */
    method LogSummary(sink: LogSink, log: nat, kw: map<string, Arg>)
      returns (sent: map<string, Arg>, raised: bool)
      requires log < |sink.logs|
      modifies sink
      ensures raised == ParamsRaise(Attr(attrs, "params"))
      ensures sink.logs == Appended(old(sink.logs), log, SummaryWrites(httpMethod, url, attrs))
      ensures sink.trace == old(sink.trace) + Tagged(log, SummaryWrites(httpMethod, url, attrs))
      ensures !raised ==> sent == if Truthy(Attr(attrs, "params"))
        then kw["params" := SortedItems(SortByKey(Attr(attrs, "params").entries))]
        else kw
    {
      sink.AddHeader(log, PerformingLine(httpMethod, url));
      ghost var written := [Write(Header, PerformingLine(httpMethod, url))];
      TaggedOne(log, Write(Header, PerformingLine(httpMethod, url)));
      sent, raised := LogParameters(sink, log, kw);
      AppendedTwice(old(sink.logs), log, written, ParamsSection(Attr(attrs, "params")));
      TaggedTwice(old(sink.trace), log, written, ParamsSection(Attr(attrs, "params")));
      written := written + ParamsSection(Attr(attrs, "params"));
      if raised {
        assert written + [] == written;
        return;
      }
      LogData(sink, log);
      AppendedTwice(old(sink.logs), log, written, DataSection(Attr(attrs, "data")));
      TaggedTwice(old(sink.trace), log, written, DataSection(Attr(attrs, "data")));
    }

    /** The part of `run` after `session.request`: record a connection error on stderr and fail, or log the
        redirect chain and the final response, finish the log, describe the final status
        and classify it. */
    method LogReply(sink: LogSink, log: nat, reply: Reply) returns (result: StepResult)
      requires log < |sink.logs|
      modifies this, sink
      ensures reply.ConnectionError? ==>
        && result == FAILURE
        && descriptionDone == old(descriptionDone)
        && sink.logs == Appended(old(sink.logs), log, ReplySection(reply))
      ensures reply.Received? ==>
        && result == Classify(reply.final.statusCode)
        && descriptionDone == [StatusCodeLine(reply.final.statusCode)]
        && sink.logs == Finished(Appended(old(sink.logs), log, ReplySection(reply)), log)
                        + ContentLogs(reply.history + [reply.final])
      ensures sink.trace == old(sink.trace) + ReplyEvents(log, |old(sink.logs)|, reply)
      ensures session == old(session)
    {
      match reply
      case ConnectionError(detail) =>
        sink.AddStderr(log, ExceptionLine(detail));
        result := FAILURE;
      case Received(_, _) =>
        result := LogReceived(sink, log, reply);
    }

    /** A completed request: the redirect chain and the final response, then `finish`, the
        `Status code:` description and the classification of the final status. */
    method LogReceived(sink: LogSink, log: nat, reply: Reply) returns (result: StepResult)
      requires log < |sink.logs| && reply.Received?
      modifies this, sink
      ensures result == Classify(reply.final.statusCode)
      ensures descriptionDone == [StatusCodeLine(reply.final.statusCode)]
      ensures sink.logs == Finished(Appended(old(sink.logs), log, ReplySection(reply)), log)
                           + ContentLogs(reply.history + [reply.final])
      ensures sink.trace == old(sink.trace) + ReplyEvents(log, |old(sink.logs)|, reply)
      ensures session == old(session)
    {
      ghost var first := |sink.logs|;
      LogRedirects(sink, log, reply.history);
      ghost var content := |sink.logs|;
      assert content == first + |reply.history|;
      LogResponse(sink, log, reply.final);
      sink.Finish(log);
      ReceivedLogs(old(sink.logs), log, reply);
      ReplyTrace(old(sink.trace), log, first, reply, content);
      descriptionDone := [StatusCodeLine(reply.final.statusCode)];
      result := Classify(reply.final.statusCode);
    }
  }

  /** `HTTPStep(url, method, **kwargs)`: a configuration error unless the method is one of
      the six known ones; otherwise a step holding every whitelisted option. */
  method NewHTTPStep(url: string, httpMethod: string, kwargs: map<string, PyValue>)
    returns (r: Result<HTTPStep, string>)
    ensures r.Err? <==> !IsKnownMethod(httpMethod)
    ensures r.Err? ==> r.error == WrongMethodMessage(httpMethod)
    ensures r.Ok? ==> fresh(r.value) && r.value.Valid()
    ensures r.Ok? ==> r.value.httpMethod == httpMethod && r.value.url == url
    ensures r.Ok? ==> forall p :: p in RequestsParams ==> r.value.attrs[p] == Attr(kwargs, p)
    ensures r.Ok? ==> r.value.stepKwargs == kwargs - (set p | p in RequestsParams)
  {
    if !IsKnownMethod(httpMethod) {
      return Err(WrongMethodMessage(httpMethod));
    }
    var step := new HTTPStep(url, httpMethod, kwargs);
    return Ok(step);
  }

  /** The subclasses POST, GET, PUT, DELETE, HEAD and OPTIONS: `__init__(url, **kwargs)`
      calls `HTTPStep.__init__(url, method=<verb>, **kwargs)`, which raises a `TypeError`
      when the caller passed `method` too; otherwise the method check always passes. */
  method NewVerbStep(verb: Verb, url: string, kwargs: map<string, PyValue>)
    returns (r: Result<HTTPStep, string>)
    ensures r.Err? <==> "method" in kwargs
    ensures r.Err? ==> r.error == DuplicateMethodMessage
    ensures r.Ok? ==> fresh(r.value) && r.value.Valid()
    ensures r.Ok? ==> r.value.httpMethod == VerbName(verb) && r.value.url == url
    ensures r.Ok? ==> forall p :: p in RequestsParams ==> r.value.attrs[p] == Attr(kwargs, p)
    ensures r.Ok? ==> r.value.stepKwargs == kwargs - (set p | p in RequestsParams)
  {
    if "method" in kwargs {
      return Err(DuplicateMethodMessage);
    }
    KnownMethodIffVerb(VerbName(verb));
    r := NewHTTPStep(url, VerbName(verb), kwargs);
  }
}
