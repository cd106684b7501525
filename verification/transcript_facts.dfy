/** What the transcript of `run` shows, read back from the writes: one `Status:` line and
    one content section per logged response in order, a rule after every redirect hop,
    the parameters exactly as sent, and for a connection error a single stderr line. */
module TranscriptFacts {
  import opened Wrappers
  import opened Text
  import opened PyValues
  import opened ParamsOrder
  import opened Logs
  import opened Request
  import opened Transcript

  /** The writes of `ws` that `keep` accepts, in order. */
  function Select(ws: seq<Write>, keep: Write -> bool): (r: seq<Write>)
    ensures |r| <= |ws|
    ensures forall i :: 0 <= i < |r| ==> keep(r[i])
  {
    if ws == [] then []
    else Select(ws[..|ws| - 1], keep) + (if keep(ws[|ws| - 1]) then [ws[|ws| - 1]] else [])
  }

  /** The result of `f` for each response, in order. */
  function Mapped(hs: seq<Hop>, f: Hop -> Write): (r: seq<Write>)
    ensures |r| == |hs|
    ensures forall i :: 0 <= i < |hs| ==> r[i] == f(hs[i])
  {
    if hs == [] then [] else Mapped(hs[..|hs| - 1], f) + [f(hs[|hs| - 1])]
  }

  /** A `Status: N` line (written to stdout or stderr). */
  predicate IsStatusLine(w: Write)
  {
    w.channel != Header && StatusTag <= w.text
  }

  /** The ` ------ Content ------` line that carries a response's text. */
  predicate IsContentLine(w: Write)
  {
    w.channel == Stdout && ContentTag <= w.text
  }

  /** The rule of 60 `=` after a redirect hop. */
  predicate IsRule(w: Write)
  {
    w == Write(Stdout, RuleLine)
  }

  predicate OnStdout(w: Write)
  {
    w.channel == Stdout
  }

  predicate OnStderr(w: Write)
  {
    w.channel == Stderr
  }

  /** A selection that never keeps a header-channel write. */
  ghost predicate IgnoresHeaders(keep: Write -> bool)
  {
    forall w: Write :: w.channel == Header ==> !keep(w)
  }

  lemma {:induction false} SelectConcat(a: seq<Write>, b: seq<Write>, keep: Write -> bool)
    ensures Select(a + b, keep) == Select(a, keep) + Select(b, keep)
    decreases |b|
  {
    if b == [] {
      assert a + b == a;
    } else {
      var front := b[..|b| - 1];
      assert (a + b)[..|a + b| - 1] == a + front;
      assert (a + b)[|a + b| - 1] == b[|b| - 1];
      SelectConcat(a, front, keep);
    }
  }

  lemma SelectOne(w: Write, keep: Write -> bool)
    ensures Select([w], keep) == if keep(w) then [w] else []
  {
    assert [w][..0] == [];
  }

  lemma SelectTwo(v: Write, w: Write, keep: Write -> bool)
    ensures Select([v, w], keep) == Select([v], keep) + Select([w], keep)
  {
    assert [v, w] == [v] + [w];
    SelectConcat([v], [w], keep);
  }

  /** Everything the request summary writes goes to the header channel. */
  lemma SummaryOnHeaders(httpMethod: string, url: string, attrs: map<string, PyValue>)
    ensures forall i :: 0 <= i < |SummaryWrites(httpMethod, url, attrs)| ==>
      SummaryWrites(httpMethod, url, attrs)[i].channel == Header
  {
    var params := Attr(attrs, "params");
    var data := Attr(attrs, "data");
    assert forall i :: 0 <= i < |ParamsSection(params)| ==> ParamsSection(params)[i].channel == Header by {
      if Truthy(params) && params.Dict? {
        var lines := PairLines(SortByKey(params.entries));
        assert forall i :: 0 <= i < |lines| ==> lines[i].channel == Header;
      }
    }
    assert forall i :: 0 <= i < |DataSection(data)| ==> DataSection(data)[i].channel == Header by {
      if Truthy(data) && data.Dict? {
        assert forall i :: 0 <= i < |PairLines(data.entries)| ==> PairLines(data.entries)[i].channel == Header;
      }
    }
  }

  lemma {:induction false} SelectNone(ws: seq<Write>, keep: Write -> bool)
    requires forall i :: 0 <= i < |ws| ==> !keep(ws[i])
    ensures Select(ws, keep) == []
    decreases |ws|
  {
    if ws != [] {
      SelectNone(ws[..|ws| - 1], keep);
    }
  }

  /** A selection that ignores headers finds nothing among header writes. */
  lemma HeadersIgnored(ws: seq<Write>, keep: Write -> bool)
    requires IgnoresHeaders(keep)
    requires forall i :: 0 <= i < |ws| ==> ws[i].channel == Header
    ensures Select(ws, keep) == []
  {
    SelectNone(ws, keep);
  }

  /** A selection that ignores headers sees, in one response, only its URL, status and
      content lines. */
  lemma HopSelect(h: Hop, keep: Write -> bool)
    requires IgnoresHeaders(keep)
    ensures Select(HopWrites(h), keep)
         == Select([Write(Stdout, "URL: " + h.url + "\n"), StatusWrite(h)], keep) + Select([ContentWrite(h)], keep)
  {
    var request := [Write(Header, "Request Header:\n")] + PairLines(h.requestHeaders);
    var shown := [Write(Stdout, "URL: " + h.url + "\n"), StatusWrite(h)];
    var response := [Write(Header, "Response Header:\n")] + PairLines(h.headers);
    assert HopWrites(h) == request + shown + response + [ContentWrite(h)];
    HeadersIgnored(request, keep);
    HeadersIgnored(response, keep);
    SelectBetween(request, shown, response, [ContentWrite(h)], keep);
  }

  lemma SelectBetween(a: seq<Write>, s: seq<Write>, b: seq<Write>, c: seq<Write>, keep: Write -> bool)
    requires Select(a, keep) == [] && Select(b, keep) == []
    ensures Select(a + s + b + c, keep) == Select(s, keep) + Select(c, keep)
  {
    SelectConcat(a + s + b, c, keep);
    SelectConcat(a + s, b, keep);
    SelectConcat(a, s, keep);
  }

  lemma StatusLineIsNotContent(h: Hop)
    ensures IsStatusLine(StatusWrite(h)) && !IsContentLine(StatusWrite(h)) && !IsRule(StatusWrite(h))
  {
    assert StatusWrite(h).text[0] == 'S';
    assert RuleLine[0] == '=';
  }

  lemma ContentLineIsNotStatus(h: Hop)
    ensures IsContentLine(ContentWrite(h)) && !IsStatusLine(ContentWrite(h)) && !IsRule(ContentWrite(h))
  {
    assert ContentWrite(h).text[0] == ' ';
    assert RuleLine[0] == '=';
  }

  lemma UrlLineIsPlain(url: string)
    ensures var w := Write(Stdout, "URL: " + url + "\n");
      !IsStatusLine(w) && !IsContentLine(w) && !IsRule(w)
  {
    assert ("URL: " + url + "\n")[0] == 'U';
    assert RuleLine[0] == '=';
  }

  lemma RedirectedLineIsPlain(n: nat)
    ensures var w := Write(Stdout, RedirectedLine(n));
      !IsStatusLine(w) && !IsContentLine(w) && !IsRule(w)
  {
    assert RedirectedLine(n)[0] == '\n';
    assert RuleLine[0] == '=';
  }

  lemma ExceptionLineIsPlain(detail: string)
    ensures var w := Write(Stderr, ExceptionLine(detail));
      !IsStatusLine(w) && !IsContentLine(w)
  {
    assert ExceptionLine(detail)[0] == 'A';
  }

  lemma RuleIsPlain()
    ensures !IsStatusLine(Write(Stdout, RuleLine)) && !IsContentLine(Write(Stdout, RuleLine))
  {
    assert RuleLine[0] == '=';
  }

  /** Exactly one `Status:` line and one content line per response, and no rule. */
  lemma HopSections(h: Hop)
    ensures Select(HopWrites(h), IsStatusLine) == [StatusWrite(h)]
    ensures Select(HopWrites(h), IsContentLine) == [ContentWrite(h)]
    ensures Select(HopWrites(h), IsRule) == []
  {
    HopSelect(h, IsStatusLine);
    HopSelect(h, IsContentLine);
    HopSelect(h, IsRule);
    StatusLineIsNotContent(h);
    ContentLineIsNotStatus(h);
    UrlLineIsPlain(h.url);
    SelectTwo(Write(Stdout, "URL: " + h.url + "\n"), StatusWrite(h), IsStatusLine);
    SelectTwo(Write(Stdout, "URL: " + h.url + "\n"), StatusWrite(h), IsContentLine);
    SelectTwo(Write(Stdout, "URL: " + h.url + "\n"), StatusWrite(h), IsRule);
    SelectOne(Write(Stdout, "URL: " + h.url + "\n"), IsStatusLine);
    SelectOne(Write(Stdout, "URL: " + h.url + "\n"), IsContentLine);
    SelectOne(Write(Stdout, "URL: " + h.url + "\n"), IsRule);
    SelectOne(StatusWrite(h), IsStatusLine);
    SelectOne(StatusWrite(h), IsContentLine);
    SelectOne(StatusWrite(h), IsRule);
    SelectOne(ContentWrite(h), IsStatusLine);
    SelectOne(ContentWrite(h), IsContentLine);
    SelectOne(ContentWrite(h), IsRule);
  }

  /** In the redirect part, a line kind that each response shows once, as `f` of it, and
      that the rule does not have, appears once per hop in hop order. */
  lemma {:induction false} RedirectHopsSelect(hs: seq<Hop>, keep: Write -> bool, f: Hop -> Write)
    requires forall h :: Select(HopWrites(h), keep) == [f(h)]
    requires !keep(Write(Stdout, RuleLine))
    ensures Select(HopsWithRules(hs), keep) == Mapped(hs, f)
    decreases |hs|
  {
    if hs != [] {
      var front := hs[..|hs| - 1];
      var last := hs[|hs| - 1];
      RedirectHopsSelect(front, keep, f);
      SelectConcat(HopsWithRules(front), RedirectHopWrites(last), keep);
      SelectConcat(HopWrites(last), [Write(Stdout, RuleLine)], keep);
      SelectOne(Write(Stdout, RuleLine), keep);
    }
  }

  /** One rule per redirect hop. */
  lemma {:induction false} RedirectHopsRules(hs: seq<Hop>)
    ensures |Select(HopsWithRules(hs), IsRule)| == |hs|
    decreases |hs|
  {
    if hs != [] {
      var front := hs[..|hs| - 1];
      var last := hs[|hs| - 1];
      RedirectHopsRules(front);
      HopSections(last);
      SelectConcat(HopsWithRules(front), RedirectHopWrites(last), IsRule);
      SelectConcat(HopWrites(last), [Write(Stdout, RuleLine)], IsRule);
      SelectOne(Write(Stdout, RuleLine), IsRule);
    }
  }

  /** In the redirect part, the status and content lines follow the hops in order, and
      there is one rule per hop. */
  lemma RedirectHopsSections(hs: seq<Hop>)
    ensures Select(HopsWithRules(hs), IsStatusLine) == Mapped(hs, StatusWrite)
    ensures Select(HopsWithRules(hs), IsContentLine) == Mapped(hs, ContentWrite)
    ensures |Select(HopsWithRules(hs), IsRule)| == |hs|
  {
    forall h: Hop
      ensures Select(HopWrites(h), IsStatusLine) == [StatusWrite(h)]
      ensures Select(HopWrites(h), IsContentLine) == [ContentWrite(h)]
    {
      HopSections(h);
    }
    RuleIsPlain();
    RedirectHopsSelect(hs, IsStatusLine, StatusWrite);
    RedirectHopsSelect(hs, IsContentLine, ContentWrite);
    RedirectHopsRules(hs);
  }

  /** The part of the transcript after the summary, seen by a selection that ignores
      headers. */
  lemma TranscriptSelect(httpMethod: string, url: string, attrs: map<string, PyValue>, reply: Reply,
                         keep: Write -> bool)
    requires IgnoresHeaders(keep)
    ensures Select(StepTranscript(httpMethod, url, attrs, reply), keep)
         == if ParamsRaise(Attr(attrs, "params")) then [] else Select(ReplySection(reply), keep)
  {
    SummaryOnHeaders(httpMethod, url, attrs);
    var summary := SummaryWrites(httpMethod, url, attrs);
    SelectNone(summary, keep);
    var rest := if ParamsRaise(Attr(attrs, "params")) then [] else ReplySection(reply);
    SelectConcat(summary, rest, keep);
  }

  /** What follows the summary: one `Status:` line and one content section per response,
      oldest first with the final response last, one rule per redirect; none of them
      after a connection error. */
  lemma ReplySections(reply: Reply)
    ensures var hops := if reply.ConnectionError? then [] else reply.history + [reply.final];
      && Select(ReplySection(reply), IsStatusLine) == Mapped(hops, StatusWrite)
      && Select(ReplySection(reply), IsContentLine) == Mapped(hops, ContentWrite)
    ensures |Select(ReplySection(reply), IsRule)| == if reply.ConnectionError? then 0 else |reply.history|
  {
    match reply
    case ConnectionError(detail) =>
      ExceptionLineIsPlain(detail);
      SelectOne(Write(Stderr, ExceptionLine(detail)), IsStatusLine);
      SelectOne(Write(Stderr, ExceptionLine(detail)), IsContentLine);
      SelectOne(Write(Stderr, ExceptionLine(detail)), IsRule);
    case Received(history, final) =>
      RedirectSectionSections(history);
      HopSections(final);
      SelectConcat(RedirectSection(history), HopWrites(final), IsStatusLine);
      SelectConcat(RedirectSection(history), HopWrites(final), IsContentLine);
      SelectConcat(RedirectSection(history), HopWrites(final), IsRule);
      MappedSnoc(history, final, StatusWrite);
      MappedSnoc(history, final, ContentWrite);
  }

  lemma SelectionsIgnoreHeaders()
    ensures IgnoresHeaders(IsStatusLine) && IgnoresHeaders(IsContentLine) && IgnoresHeaders(IsRule)
    ensures IgnoresHeaders(OnStdout) && IgnoresHeaders(OnStderr)
  {
  }

  /** The whole transcript: one `Status:` line and one content section per logged
      response, oldest first with the final response last, and one rule per redirect.
      A raising params option or a connection error leaves none of them. */
  lemma TranscriptResponses(httpMethod: string, url: string, attrs: map<string, PyValue>, reply: Reply)
    ensures Select(StepTranscript(httpMethod, url, attrs, reply), IsStatusLine)
         == Mapped(LoggedHops(attrs, reply), StatusWrite)
    ensures Select(StepTranscript(httpMethod, url, attrs, reply), IsContentLine)
         == Mapped(LoggedHops(attrs, reply), ContentWrite)
    ensures |Select(StepTranscript(httpMethod, url, attrs, reply), IsRule)|
         == if ParamsRaise(Attr(attrs, "params")) || reply.ConnectionError? then 0 else |reply.history|
  {
    SelectionsIgnoreHeaders();
    TranscriptSelect(httpMethod, url, attrs, reply, IsStatusLine);
    TranscriptSelect(httpMethod, url, attrs, reply, IsContentLine);
    TranscriptSelect(httpMethod, url, attrs, reply, IsRule);
    ReplySections(reply);
  }

  lemma RedirectSectionSections(history: seq<Hop>)
    ensures Select(RedirectSection(history), IsStatusLine) == Mapped(history, StatusWrite)
    ensures Select(RedirectSection(history), IsContentLine) == Mapped(history, ContentWrite)
    ensures |Select(RedirectSection(history), IsRule)| == |history|
  {
    RedirectHopsSections(history);
    if history != [] {
      var line := Write(Stdout, RedirectedLine(|history|));
      RedirectedLineIsPlain(|history|);
      SkipFirst(line, HopsWithRules(history), IsStatusLine);
      SkipFirst(line, HopsWithRules(history), IsContentLine);
      SkipFirst(line, HopsWithRules(history), IsRule);
    }
  }

  /** A first write that the selection does not keep leaves the selection unchanged. */
  lemma SkipFirst(w: Write, ws: seq<Write>, keep: Write -> bool)
    requires !keep(w)
    ensures Select([w] + ws, keep) == Select(ws, keep)
  {
    SelectConcat([w], ws, keep);
    SelectOne(w, keep);
  }

  lemma MappedSnoc(hs: seq<Hop>, h: Hop, f: Hop -> Write)
    ensures Mapped(hs + [h], f) == Mapped(hs, f) + [f(h)]
  {
    assert (hs + [h])[..|hs|] == hs;
  }

  /** A connection error leaves one line on stderr, the exception, and nothing on stdout. */
  lemma ConnectionErrorTranscript(httpMethod: string, url: string, attrs: map<string, PyValue>, detail: string)
    requires !ParamsRaise(Attr(attrs, "params"))
    ensures Select(StepTranscript(httpMethod, url, attrs, ConnectionError(detail)), OnStderr)
         == [Write(Stderr, ExceptionLine(detail))]
    ensures Select(StepTranscript(httpMethod, url, attrs, ConnectionError(detail)), OnStdout) == []
  {
    SelectionsIgnoreHeaders();
    TranscriptSelect(httpMethod, url, attrs, ConnectionError(detail), OnStderr);
    TranscriptSelect(httpMethod, url, attrs, ConnectionError(detail), OnStdout);
    SelectOne(Write(Stderr, ExceptionLine(detail)), OnStderr);
    SelectOne(Write(Stderr, ExceptionLine(detail)), OnStdout);
  }

  /** After redirects, the first line outside the headers is `Redirected n times`. */
  lemma RedirectedComesFirst(httpMethod: string, url: string, attrs: map<string, PyValue>,
                             history: seq<Hop>, final: Hop)
    requires !ParamsRaise(Attr(attrs, "params")) && history != []
    ensures var shown := Select(StepTranscript(httpMethod, url, attrs, Received(history, final)), OnStdout);
      |shown| > 0 && shown[0] == Write(Stdout, RedirectedLine(|history|))
  {
    var line := Write(Stdout, RedirectedLine(|history|));
    SelectionsIgnoreHeaders();
    TranscriptSelect(httpMethod, url, attrs, Received(history, final), OnStdout);
    SelectConcat(RedirectSection(history), HopWrites(final), OnStdout);
    SelectConcat([line], HopsWithRules(history), OnStdout);
    SelectOne(line, OnStdout);
  }

  /** The `Parameters:` lines list the params exactly as they are sent, one
      `\t{k}: {v}` line per item, in the sent order (sorted by key). */
  lemma ParamsLinesAreSent(httpMethod: string, url: string, attrs: map<string, PyValue>)
    requires Truthy(Attr(attrs, "params")) && Attr(attrs, "params").Dict?
    ensures SentArgs(httpMethod, url, attrs).Some?
    ensures var kw := SentArgs(httpMethod, url, attrs).value;
      && "params" in kw && kw["params"].SortedItems?
      && ParamsSection(Attr(attrs, "params")) == [Write(Header, "Parameters:\n")] + PairLines(kw["params"].items)
      && SortedByKey(kw["params"].items)
      && multiset(kw["params"].items) == multiset(Attr(attrs, "params").entries)
  {
    SortByKeyCorrect(Attr(attrs, "params").entries);
  }

  /** `Data:` rendering: nothing for a falsy value; for a dict the heading and one line per
      item in the dict's own order; for anything else the heading and a single line. */
  lemma DataSectionCases(data: PyValue)
    ensures !Truthy(data) ==> DataSection(data) == []
    ensures Truthy(data) && data.Dict? ==>
      && |DataSection(data)| == 1 + |data.entries|
      && DataSection(data)[0] == Write(Header, "Data:\n")
      && forall i :: 0 <= i < |data.entries| ==> DataSection(data)[i + 1] == Write(Header, PairLine(data.entries[i]))
    ensures Truthy(data) && !data.Dict? ==>
      DataSection(data) == [Write(Header, "Data:\n"), Write(Header, "\t" + data.shown + "\n")]
  {
  }

  /** The `Status:` line is on stdout exactly for 200, and different codes give different
      lines. */
  lemma StatusLineShowsCode(h: Hop, g: Hop)
    ensures StatusWrite(h).channel == Stdout <==> h.statusCode == StatusOk
    ensures StatusWrite(h).channel == Stderr <==> h.statusCode != StatusOk
    ensures StatusWrite(h) == StatusWrite(g) ==> h.statusCode == g.statusCode
  {
    if StatusWrite(h) == StatusWrite(g) {
      var t := StatusTag;
      assert IntToDecimal(h.statusCode) + "\n" == StatusWrite(h).text[|t|..];
      assert IntToDecimal(g.statusCode) + "\n" == StatusWrite(g).text[|t|..];
      assert IntToDecimal(h.statusCode) == (IntToDecimal(h.statusCode) + "\n")[..|IntToDecimal(h.statusCode) + "\n"| - 1];
      assert IntToDecimal(g.statusCode) == (IntToDecimal(g.statusCode) + "\n")[..|IntToDecimal(g.statusCode) + "\n"| - 1];
      IntToDecimalInjective(h.statusCode, g.statusCode);
    }
  }

  /** `descriptionDone` names the final status code: different codes, different texts. */
  lemma StatusCodeLineShowsCode(a: int, b: int)
    ensures StatusCodeLine(a) == StatusCodeLine(b) <==> a == b
  {
    if StatusCodeLine(a) == StatusCodeLine(b) {
      var tag := "Status code: ";
      assert IntToDecimal(a) == StatusCodeLine(a)[|tag|..];
      assert IntToDecimal(b) == StatusCodeLine(b)[|tag|..];
      IntToDecimalInjective(a, b);
    }
  }

  /** For the codes section 15 of RFC 9110 defines (100-599), FAILURE is exactly the
      client error (4xx) and server error (5xx) classes. */
  lemma ClassifyByStatusClass(code: int)
    requires 100 <= code <= 599
    ensures Classify(code) == FAILURE <==> code / 100 == 4 || code / 100 == 5
    ensures Classify(code) == SUCCESS <==> 1 <= code / 100 <= 3
  {
  }

  /** The logs `run` opens: "log" first, finished exactly when the request completed,
      then one "content" log per logged response, each holding that response's text on
      stdout. */
  lemma StepLogsShape(httpMethod: string, url: string, attrs: map<string, PyValue>, reply: Reply)
    ensures var logs := StepLogs(httpMethod, url, attrs, reply);
      var hops := LoggedHops(attrs, reply);
      && |logs| == 1 + |hops|
      && logs[0].name == "log"
      && logs[0].writes == StepTranscript(httpMethod, url, attrs, reply)
      && (logs[0].finished <==> !ParamsRaise(Attr(attrs, "params")) && reply.Received?)
      && forall i :: 0 <= i < |hops| ==>
           logs[i + 1] == LogStream("content", [Write(Stdout, hops[i].text)], false)
  {
    var completed := !ParamsRaise(Attr(attrs, "params")) && reply.Received?;
    FirstThenContents(LogStream("log", StepTranscript(httpMethod, url, attrs, reply), completed),
      LoggedHops(attrs, reply));
  }

  lemma FirstThenContents(first: LogStream, hops: seq<Hop>)
    ensures var logs := [first] + ContentLogs(hops);
      && |logs| == 1 + |hops| && logs[0] == first
      && forall i :: 0 <= i < |hops| ==> logs[i + 1] == LogStream("content", [Write(Stdout, hops[i].text)], false)
  {
  }
}
