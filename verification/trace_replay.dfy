/** The ordered trace of a step's calls on the sink, read back: replaying it onto the
    logs the sink held before gives exactly the logs the step leaves behind, so the trace
    and the per-log view agree, and the trace adds the order across logs. */
module TraceReplay {
  import opened PyValues
  import opened Logs
  import opened Request
  import opened Transcript

  /** One response: its writes to the transcript, then its content log, opened next. */
  lemma ReplayHop(logs: seq<LogStream>, log: nat, content: nat, h: Hop)
    requires log < |logs| && content == |logs|
    ensures Replay(logs, HopEvents(log, content, h)) == Appended(logs, log, HopWrites(h)) + [ContentLog(h)]
  {
    var ws := HopWrites(h);
    var x := LogStream("content", [], false);
    var w := Write(Stdout, h.text);
    var m := Appended(logs, log, ws);
    assert HopEvents(log, content, h) == Tagged(log, ws) + [Opened(content, "content"), Wrote(content, w)];
    assert [Opened(content, "content"), Wrote(content, w)] == [Opened(content, "content")] + [Wrote(content, w)];
    ReplayConcat(logs, Tagged(log, ws), [Opened(content, "content"), Wrote(content, w)]);
    ReplayTagged(logs, log, ws);
    ReplayConcat(m, [Opened(content, "content")], [Wrote(content, w)]);
    ReplayOne(m, Opened(content, "content"));
    assert ReplayEvent(m, Opened(content, "content")) == m + [x];
    ReplayOne(m + [x], Wrote(content, w));
    AppendedLast(m, x, [w]);
    assert x.(writes := x.writes + [w]) == ContentLog(h);
  }

  /** One pass of the redirect loop: the response, its content log, then the rule. */
  lemma ReplayRedirectHop(logs: seq<LogStream>, log: nat, content: nat, h: Hop)
    requires log < |logs| && content == |logs|
    ensures Replay(logs, RedirectHopEvents(log, content, h))
         == Appended(logs, log, RedirectHopWrites(h)) + [ContentLog(h)]
  {
    var rule := Wrote(log, Write(Stdout, RuleLine));
    ReplayConcat(logs, HopEvents(log, content, h), [rule]);
    ReplayHop(logs, log, content, h);
    ReplayOne(Appended(logs, log, HopWrites(h)) + [ContentLog(h)], rule);
    AppendedBeforeLater(Appended(logs, log, HopWrites(h)), [ContentLog(h)], log, [Write(Stdout, RuleLine)]);
    AppendedTwice(logs, log, HopWrites(h), [Write(Stdout, RuleLine)]);
  }

  /** One more pass of the redirect loop, replayed after the passes before it. */
  lemma ReplayPass(logs: seq<LogStream>, log: nat, first: nat, hs: seq<Hop>, i: nat, content: nat,
                   before: seq<LogStream>)
    requires i < |hs| && content == first + i && log < |before| && |before| == content
    requires Replay(logs, HopsEvents(log, first, hs, i)) == before
    ensures Replay(logs, HopsEvents(log, first, hs, i + 1))
         == Appended(before, log, RedirectHopWrites(hs[i])) + [ContentLog(hs[i])]
  {
    ReplayRedirectHop(before, log, content, hs[i]);
    ReplayConcat(logs, HopsEvents(log, first, hs, i), RedirectHopEvents(log, content, hs[i]));
    HopsEventsNext(log, first, hs, i, content);
  }

  /** The first `n` passes of the redirect loop over `hs`. */
  lemma {:induction false} ReplayHops(logs: seq<LogStream>, log: nat, first: nat, hs: seq<Hop>, n: nat)
    requires log < |logs| && first == |logs| && n <= |hs|
    ensures Replay(logs, HopsEvents(log, first, hs, n))
         == Appended(logs, log, HopsWithRules(hs[..n])) + ContentLogs(hs[..n])
    decreases n
  {
    if n == 0 {
      assert hs[..0] == [];
      AppendedNothing(logs, log);
    } else {
      var i := n - 1;
      ReplayHops(logs, log, first, hs, i);
      PassLogsLength(logs, log, hs, i);
      ReplayPass(logs, log, first, hs, i, first + i, Appended(logs, log, HopsWithRules(hs[..i])) + ContentLogs(hs[..i]));
      RedirectPassLogs(logs, log, hs, i);
    }
  }

  /** The `if r.history:` block: the count line, then the redirect loop. */
  lemma ReplayRedirects(logs: seq<LogStream>, log: nat, first: nat, history: seq<Hop>)
    requires log < |logs| && first == |logs|
    ensures Replay(logs, RedirectEvents(log, first, history))
         == Appended(logs, log, RedirectSection(history)) + ContentLogs(history)
  {
    if history == [] {
      AppendedNothing(logs, log);
    } else {
      var count := Wrote(log, Write(Stdout, RedirectedLine(|history|)));
      ReplayConcat(logs, [count], HopsEvents(log, first, history, |history|));
      ReplayOne(logs, count);
      ReplayHops(Appended(logs, log, [count.write]), log, first, history, |history|);
      assert history[..|history|] == history;
      AppendedTwice(logs, log, [count.write], HopsWithRules(history));
    }
  }

  /** The final response and `finish`, after calls that left the logs `m`. */
  lemma ReplayFinalHop(logs: seq<LogStream>, log: nat, content: nat, h: Hop, front: seq<Event>, m: seq<LogStream>)
    requires log < |m| && |m| == content && Replay(logs, front) == m
    ensures Replay(logs, front + HopEvents(log, content, h) + [Closed(log)])
         == Finished(Appended(m, log, HopWrites(h)) + [ContentLog(h)], log)
  {
    var hop := HopEvents(log, content, h);
    ReplayConcat(logs, front + hop, [Closed(log)]);
    ReplayConcat(logs, front, hop);
    ReplayHop(m, log, content, h);
    ReplayOne(Appended(m, log, HopWrites(h)) + [ContentLog(h)], Closed(log));
  }

  /** A completed request: the redirect section, the final response and `finish`. */
  lemma ReplayReceived(logs: seq<LogStream>, log: nat, first: nat, reply: Reply)
    requires log < |logs| && first == |logs| && reply.Received?
    ensures Replay(logs, ReplyEvents(log, first, reply))
         == Finished(Appended(logs, log, ReplySection(reply)), log) + ContentLogs(reply.history + [reply.final])
  {
    var m := Appended(logs, log, RedirectSection(reply.history)) + ContentLogs(reply.history);
    var content := first + |reply.history|;
    ReceivedEvents(log, first, reply, content);
    ReplayRedirects(logs, log, first, reply.history);
    ReplayFinalHop(logs, log, content, reply.final, RedirectEvents(log, first, reply.history), m);
    ReceivedLogs(logs, log, reply);
  }

  /** What follows the request: the exception line, or every response and `finish`. */
  lemma ReplayReply(logs: seq<LogStream>, log: nat, first: nat, reply: Reply)
    requires log < |logs| && first == |logs|
    ensures Replay(logs, ReplyEvents(log, first, reply)) ==
      if reply.ConnectionError? then Appended(logs, log, ReplySection(reply))
      else Finished(Appended(logs, log, ReplySection(reply)), log) + ContentLogs(reply.history + [reply.final])
  {
    match reply
    case ConnectionError(detail) =>
      ReplayOne(logs, Wrote(log, Write(Stderr, ExceptionLine(detail))));
    case Received(_, _) =>
      ReplayReceived(logs, log, first, reply);
  }

  /** Opening "log" and writing the request summary to it. */
  lemma ReplaySummary(logs: seq<LogStream>, log: nat, summary: seq<Write>)
    requires log == |logs|
    ensures Replay(logs, [Opened(log, "log")] + Tagged(log, summary))
         == Appended(logs + [LogStream("log", [], false)], log, summary)
  {
    ReplayConcat(logs, [Opened(log, "log")], Tagged(log, summary));
    ReplayOne(logs, Opened(log, "log"));
    ReplayTagged(logs + [LogStream("log", [], false)], log, summary);
  }

  /** Opening "log", writing `summary` to it, then everything after the request. */
  lemma ReplaySent(logs: seq<LogStream>, log: nat, summary: seq<Write>, reply: Reply)
    requires log == |logs|
    ensures
      var replied := Appended(Appended(logs + [LogStream("log", [], false)], log, summary), log, ReplySection(reply));
      Replay(logs, [Opened(log, "log")] + Tagged(log, summary) + ReplyEvents(log, log + 1, reply))
        == if reply.ConnectionError? then replied else Finished(replied, log) + ContentLogs(reply.history + [reply.final])
  {
    var head := [Opened(log, "log")] + Tagged(log, summary);
    ReplaySummary(logs, log, summary);
    ReplayConcat(logs, head, ReplyEvents(log, log + 1, reply));
    ReplayReply(Appended(logs + [LogStream("log", [], false)], log, summary), log, log + 1, reply);
  }

  lemma StepEventsSent(httpMethod: string, url: string, attrs: map<string, PyValue>, reply: Reply, log: nat)
    ensures !ParamsRaise(Attr(attrs, "params")) ==>
      StepEvents(httpMethod, url, attrs, reply, log)
        == [Opened(log, "log")] + Tagged(log, SummaryWrites(httpMethod, url, attrs)) + ReplyEvents(log, log + 1, reply)
  {
  }

  lemma StepLogsSent(logs: seq<LogStream>, httpMethod: string, url: string, attrs: map<string, PyValue>, reply: Reply)
    ensures !ParamsRaise(Attr(attrs, "params")) ==>
      var replied := Appended(Appended(logs + [LogStream("log", [], false)], |logs|, SummaryWrites(httpMethod, url, attrs)),
                              |logs|, ReplySection(reply));
      logs + StepLogs(httpMethod, url, attrs, reply)
        == if reply.ConnectionError? then replied else Finished(replied, |logs|) + ContentLogs(reply.history + [reply.final])
  {
    if !ParamsRaise(Attr(attrs, "params")) {
      RepliedStep(logs, [], |logs|, |logs| + 1, httpMethod, url, attrs, reply);
    }
  }

  /** The calls of a step whose request was sent, replayed. */
  lemma ReplaySentStep(logs: seq<LogStream>, log: nat, httpMethod: string, url: string,
                       attrs: map<string, PyValue>, reply: Reply)
    requires log == |logs| && !ParamsRaise(Attr(attrs, "params"))
    ensures Replay(logs, StepEvents(httpMethod, url, attrs, reply, log)) == logs + StepLogs(httpMethod, url, attrs, reply)
  {
    ReplaySent(logs, log, SummaryWrites(httpMethod, url, attrs), reply);
    StepEventsSent(httpMethod, url, attrs, reply, log);
    StepLogsSent(logs, httpMethod, url, attrs, reply);
  }

  /** Every call `run` makes, replayed onto the logs the sink held before, gives those
      logs followed by exactly the logs the step opens, with their writes and flags. */
  lemma ReplayStep(logs: seq<LogStream>, log: nat, httpMethod: string, url: string,
                   attrs: map<string, PyValue>, reply: Reply)
    requires log == |logs|
    ensures Replay(logs, StepEvents(httpMethod, url, attrs, reply, log)) == logs + StepLogs(httpMethod, url, attrs, reply)
  {
    if ParamsRaise(Attr(attrs, "params")) {
      var summary := SummaryWrites(httpMethod, url, attrs);
      var head := [Opened(log, "log")] + Tagged(log, summary);
      ReplaySummary(logs, log, summary);
      assert StepEvents(httpMethod, url, attrs, reply, log) == head + [];
      assert head + [] == head;
      RaisedStep(logs, [], log, httpMethod, url, attrs, reply);
    } else {
      ReplaySentStep(logs, log, httpMethod, url, attrs, reply);
    }
  }
}
