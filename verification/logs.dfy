/** The host's logging sink as the step sees it: `addLog(name)` opens a log, and on a log
    `addHeader`, `addStdout` and `addStderr` append text to one of three channels and
    `finish` closes it. A log object is represented by its position in the sink's list. */
module Logs {

  datatype Channel = Header | Stdout | Stderr

  /** One awaited write: the channel and the text appended to it. */
  datatype Write = Write(channel: Channel, text: string)

  datatype LogStream = LogStream(name: string, writes: seq<Write>, finished: bool)

  /** One awaited call on the sink: `addLog` opening log `log`, a write to log `log`, or
      `finish` on it. The calls of a step, across all its logs, form one ordered trace. */
  datatype Event = Opened(log: nat, name: string) | Wrote(log: nat, write: Write) | Closed(log: nat)

  /** The writes `ws` made to log `id`, one event each, in order. */
  function Tagged(id: nat, ws: seq<Write>): (r: seq<Event>)
    ensures |r| == |ws|
  {
    if ws == [] then [] else Tagged(id, ws[..|ws| - 1]) + [Wrote(id, ws[|ws| - 1])]
  }

  lemma {:induction false} TaggedConcat(id: nat, a: seq<Write>, b: seq<Write>)
    ensures Tagged(id, a + b) == Tagged(id, a) + Tagged(id, b)
    decreases |b|
  {
    if b == [] {
      assert a + b == a;
    } else {
      var front := b[..|b| - 1];
      assert (a + b)[..|a + b| - 1] == a + front;
      TaggedConcat(id, a, front);
    }
  }

  lemma TaggedOne(id: nat, w: Write)
    ensures Tagged(id, [w]) == [Wrote(id, w)]
  {
    assert [w][..0] == [];
  }

  /** Two stretches of writes to one log, appended to a trace one after the other. */
  lemma TaggedTwice(trace: seq<Event>, id: nat, a: seq<Write>, b: seq<Write>)
    ensures trace + Tagged(id, a) + Tagged(id, b) == trace + Tagged(id, a + b)
  {
    TaggedConcat(id, a, b);
  }

  /** `logs` with the writes `ws` appended to log `id`. */
  function Appended(logs: seq<LogStream>, id: nat, ws: seq<Write>): (r: seq<LogStream>)
    requires id < |logs|
    ensures |r| == |logs|
  {
    logs[id := logs[id].(writes := logs[id].writes + ws)]
  }

  lemma AppendedNothing(logs: seq<LogStream>, id: nat)
    requires id < |logs|
    ensures Appended(logs, id, []) == logs
  {
    assert logs[id].writes + [] == logs[id].writes;
  }

  lemma AppendedLast(logs: seq<LogStream>, x: LogStream, ws: seq<Write>)
    ensures Appended(logs + [x], |logs|, ws) == logs + [x.(writes := x.writes + ws)]
  {
  }

  lemma AppendedTwice(logs: seq<LogStream>, id: nat, a: seq<Write>, b: seq<Write>)
    requires id < |logs|
    ensures Appended(Appended(logs, id, a), id, b) == Appended(logs, id, a + b)
  {
    assert logs[id].writes + a + b == logs[id].writes + (a + b);
  }

  lemma AppendedBeforeLater(logs: seq<LogStream>, later: seq<LogStream>, id: nat, ws: seq<Write>)
    requires id < |logs|
    ensures Appended(logs + later, id, ws) == Appended(logs, id, ws) + later
  {
  }

  lemma ConcatAssociative<T>(a: seq<T>, b: seq<T>, c: seq<T>)
    ensures (a + b) + c == a + (b + c)
  {
  }

  /** `logs` with log `id` finished. */
  function Finished(logs: seq<LogStream>, id: nat): (r: seq<LogStream>)
    requires id < |logs|
    ensures |r| == |logs|
  {
    logs[id := logs[id].(finished := true)]
  }

  lemma FinishedBeforeLater(logs: seq<LogStream>, later: seq<LogStream>, id: nat)
    requires id < |logs|
    ensures Finished(logs + later, id) == Finished(logs, id) + later
  {
  }

  /** A log opened last and then written twice holds both writes in order. */
  lemma NewLogWrittenTwice(logs: seq<LogStream>, name: string, a: seq<Write>, b: seq<Write>)
    ensures Appended(Appended(logs + [LogStream(name, [], false)], |logs|, a), |logs|, b)
         == logs + [LogStream(name, a + b, false)]
  {
    AppendedTwice(logs + [LogStream(name, [], false)], |logs|, a, b);
    AppendedLast(logs, LogStream(name, [], false), a + b);
    assert [] + (a + b) == a + b;
  }

  lemma FinishedLast(logs: seq<LogStream>, x: LogStream)
    ensures Finished(logs + [x], |logs|) == logs + [x.(finished := true)]
  {
  }

  /** Appending to an earlier log after further logs were opened. */
  lemma AppendedAcross(logs: seq<LogStream>, id: nat, a: seq<Write>, later: seq<LogStream>,
                       b: seq<Write>, more: seq<LogStream>)
    requires id < |logs|
    ensures Appended(Appended(logs, id, a) + later, id, b) + more == Appended(logs, id, a + b) + (later + more)
  {
    AppendedBeforeLater(Appended(logs, id, a), later, id, b);
    AppendedTwice(logs, id, a, b);
  }

  /** The sink's logs after the call `e` on `logs`; a call naming a log the sink does not
      hold (or, for `addLog`, a number other than the next one) changes nothing. */
  function ReplayEvent(logs: seq<LogStream>, e: Event): seq<LogStream>
  {
    match e
    case Opened(id, name) => if id == |logs| then logs + [LogStream(name, [], false)] else logs
    case Wrote(id, w) => if id < |logs| then Appended(logs, id, [w]) else logs
    case Closed(id) => if id < |logs| then Finished(logs, id) else logs
  }

  /** The logs obtained by making the calls `es`, in order, on a sink holding `logs`. */
  function Replay(logs: seq<LogStream>, es: seq<Event>): seq<LogStream>
  {
    if es == [] then logs else ReplayEvent(Replay(logs, es[..|es| - 1]), es[|es| - 1])
  }

  lemma {:induction false} ReplayConcat(logs: seq<LogStream>, a: seq<Event>, b: seq<Event>)
    ensures Replay(logs, a + b) == Replay(Replay(logs, a), b)
    decreases |b|
  {
    if b == [] {
      assert a + b == a;
    } else {
      var front := b[..|b| - 1];
      assert (a + b)[..|a + b| - 1] == a + front;
      ReplayConcat(logs, a, front);
    }
  }

  lemma ReplayOne(logs: seq<LogStream>, e: Event)
    ensures Replay(logs, [e]) == ReplayEvent(logs, e)
  {
    assert [e][..0] == [];
  }

  /** Replaying the writes `ws` to log `id` appends them to that log. */
  lemma {:induction false} ReplayTagged(logs: seq<LogStream>, id: nat, ws: seq<Write>)
    requires id < |logs|
    ensures Replay(logs, Tagged(id, ws)) == Appended(logs, id, ws)
    decreases |ws|
  {
    if ws == [] {
      AppendedNothing(logs, id);
    } else {
      var front := ws[..|ws| - 1];
      var t := Tagged(id, ws);
      assert t[..|t| - 1] == Tagged(id, front);
      ReplayTagged(logs, id, front);
      AppendedTwice(logs, id, front, [ws[|ws| - 1]]);
      assert front + [ws[|ws| - 1]] == ws;
    }
  }

  class LogSink {
    var logs: seq<LogStream>
    /** Every call made on the sink so far, across all its logs, in order. */
    ghost var trace: seq<Event>

    constructor ()
      ensures logs == [] && trace == []
    {
      logs := [];
      trace := [];
    }

    method AddLog(name: string) returns (id: nat)
      modifies this
      ensures id == |old(logs)|
      ensures logs == old(logs) + [LogStream(name, [], false)]
      ensures trace == old(trace) + [Opened(id, name)]
    {
      id := |logs|;
      logs := logs + [LogStream(name, [], false)];
      trace := trace + [Opened(id, name)];
    }

    method Add(id: nat, channel: Channel, text: string)
      requires id < |logs|
      modifies this
      ensures logs == Appended(old(logs), id, [Write(channel, text)])
      ensures trace == old(trace) + [Wrote(id, Write(channel, text))]
    {
      logs := Appended(logs, id, [Write(channel, text)]);
      trace := trace + [Wrote(id, Write(channel, text))];
    }

    method AddHeader(id: nat, text: string)
      requires id < |logs|
      modifies this
      ensures logs == Appended(old(logs), id, [Write(Header, text)])
      ensures trace == old(trace) + [Wrote(id, Write(Header, text))]
    {
      Add(id, Header, text);
    }

    method AddStdout(id: nat, text: string)
      requires id < |logs|
      modifies this
      ensures logs == Appended(old(logs), id, [Write(Stdout, text)])
      ensures trace == old(trace) + [Wrote(id, Write(Stdout, text))]
    {
      Add(id, Stdout, text);
    }

    method AddStderr(id: nat, text: string)
      requires id < |logs|
      modifies this
      ensures logs == Appended(old(logs), id, [Write(Stderr, text)])
      ensures trace == old(trace) + [Wrote(id, Write(Stderr, text))]
    {
      Add(id, Stderr, text);
    }

    method Finish(id: nat)
      requires id < |logs|
      modifies this
      ensures logs == Finished(old(logs), id)
      ensures trace == old(trace) + [Closed(id)]
    {
      logs := Finished(logs, id);
      trace := trace + [Closed(id)];
    }
  }
}
