/** The TDLib client over time: output arriving in chunks, with continuations, timers, requests and
    exits of the process between them. */
module TdlibRuns {
  import opened Prelude
  import opened Tdlib
  import opened TdlibSends

  /** A `data` event, or any step that is not a line. */
  datatype Event = Chunk(text: string) | Between(step: Step)

  datatype Machine = Machine(buffer: string, session: Session)

  predicate Possible(m: Machine, event: Event) {
    event.Between? ==> !event.step.Line? && Enabled(m.session, event.step)
  }

  /** A chunk does what Client.HandleOutput ensures. */
  function Next(m: Machine, event: Event, parse: string -> Value): Machine
    requires Possible(m, event)
  {
    match event
    case Chunk(text) =>
      Machine(Remainder(m.buffer + text), DispatchAll(m.session, ParseAll(Lines(m.buffer + text), parse)))
    case Between(step) => m.(session := After(m.session, step))
  }

  ghost predicate Runs(m: Machine, events: seq<Event>, n: Machine, parse: string -> Value)
    decreases |events|
  {
    if events == [] then m == n
    else Possible(m, events[0]) && Runs(Next(m, events[0], parse), events[1..], n, parse)
  }

  /** All output so far. */
  function Output(events: seq<Event>): string {
    if events == [] then "" else (if events[0].Chunk? then events[0].text else "") + Output(events[1..])
  }

  // ---- the run, line by line ---------------------------------------------------------

  function AsLines(values: seq<Value>): seq<Step> {
    seq(|values|, i requires 0 <= i < |values| => Line(values[i]))
  }

  /** The run with each chunk replaced by the lines it completes. */
  function LineByLine(buffer: string, events: seq<Event>, parse: string -> Value): seq<Step>
    decreases |events|
  {
    if events == [] then []
    else
      match events[0]
      case Chunk(text) =>
        AsLines(ParseAll(Lines(buffer + text), parse)) + LineByLine(Remainder(buffer + text), events[1..], parse)
      case Between(step) => [step] + LineByLine(buffer, events[1..], parse)
  }

  /** The values processed, in order. */
  function Values(steps: seq<Step>): seq<Value> {
    if steps == [] then [] else (if steps[0].Line? then [steps[0].value] else []) + Values(steps[1..])
  }

  lemma {:induction false} ValuesConcat(a: seq<Step>, b: seq<Step>)
    ensures Values(a + b) == Values(a) + Values(b)
  {
    if a == [] {
      assert a + b == b;
    } else {
      var rest := a[1..];
      ValuesConcat(rest, b);
      assert a == [a[0]] + rest && a + b == [a[0]] + (rest + b);
      ValuesFirst(a[0], rest);
      ValuesFirst(a[0], rest + b);
    }
  }

  lemma ValuesFirst(step: Step, rest: seq<Step>)
    ensures Values([step] + rest) == (if step.Line? then [step.value] else []) + Values(rest)
  {
    assert ([step] + rest)[1..] == rest;
  }

  lemma {:induction false} ValuesOfLines(values: seq<Value>)
    ensures Values(AsLines(values)) == values
  {
    if values != [] {
      assert AsLines(values)[1..] == AsLines(values[1..]);
      ValuesOfLines(values[1..]);
    }
  }

  /** A run of steps in which a step that is not possible does nothing. */
  function Stepped(s: Session, steps: seq<Step>): Session
    decreases |steps|
  {
    if steps == [] then s
    else if steps[0].Line? then Stepped(Dispatch(s, steps[0].value), steps[1..])
    else Stepped(if Enabled(s, steps[0]) then After(s, steps[0]) else s, steps[1..])
  }

  lemma {:induction false} SteppedLines(s: Session, values: seq<Value>, more: seq<Step>)
    ensures Stepped(s, AsLines(values) + more) == Stepped(DispatchAll(s, values), more)
    decreases |values|
  {
    if values == [] {
      assert AsLines(values) + more == more;
    } else {
      var first, rest := values[0], values[1..];
      assert AsLines(values) + more == [Line(first)] + (AsLines(rest) + more);
      assert ([Line(first)] + (AsLines(rest) + more))[1..] == AsLines(rest) + more;
      SteppedLines(Dispatch(s, first), rest, more);
      assert values == [first] + rest;
      DispatchFirst(s, first, rest);
    }
  }

  lemma ParseSplits(a: seq<string>, b: seq<string>, parse: string -> Value)
    ensures ParseAll(a + b, parse) == ParseAll(a, parse) + ParseAll(b, parse)
  {
  }

  /** Chunk independence: whatever happens between the chunks, the values processed are exactly the
      newline-terminated lines of the whole output so far, parsed and in order, and the buffer is what
      follows the last newline. */
  lemma {:induction false} OutputInOrder(buffer: string, s: Session, events: seq<Event>, n: Machine, parse: string -> Value)
    requires NEWLINE !in buffer && Runs(Machine(buffer, s), events, n, parse)
    ensures Values(LineByLine(buffer, events, parse)) == ParseAll(Lines(buffer + Output(events)), parse)
    ensures n.buffer == Remainder(buffer + Output(events))
    ensures n.session == Stepped(s, LineByLine(buffer, events, parse))
    decreases |events|
  {
    if events == [] {
      assert buffer + "" == buffer;
      IndexOfNone(buffer);
      assert Lines(buffer) == [] && ParseAll([], parse) == [];
    } else {
      var next := Next(Machine(buffer, s), events[0], parse);
      match events[0] {
        case Chunk(text) => ChunkFirst(buffer, s, events, n, parse);
        case Between(step) =>
          OutputInOrder(buffer, next.session, events[1..], n, parse);
          assert Output(events) == Output(events[1..]);
          var rest := LineByLine(buffer, events[1..], parse);
          assert ([step] + rest)[1..] == rest;
      }
    }
  }

  lemma {:induction false} ChunkFirst(buffer: string, s: Session, events: seq<Event>, n: Machine, parse: string -> Value)
    requires NEWLINE !in buffer && Runs(Machine(buffer, s), events, n, parse)
    requires events != [] && events[0].Chunk?
    ensures Values(LineByLine(buffer, events, parse)) == ParseAll(Lines(buffer + Output(events)), parse)
    ensures n.buffer == Remainder(buffer + Output(events))
    ensures n.session == Stepped(s, LineByLine(buffer, events, parse))
    decreases |events|, 0
  {
    var head, tail := buffer + events[0].text, Output(events[1..]);
    var values := ParseAll(Lines(head), parse);
    var rest := LineByLine(Remainder(head), events[1..], parse);
    FramingRoundTrip(head);
    OutputInOrder(Remainder(head), DispatchAll(s, values), events[1..], n, parse);
    assert buffer + Output(events) == head + tail;
    FramingSplits(head, tail);
    ParseSplits(Lines(head), Lines(Remainder(head) + tail), parse);
    ValuesConcat(AsLines(values), rest);
    ValuesOfLines(values);
    SteppedLines(s, values, rest);
  }

  // ---- a chunked run is a run of lines -------------------------------------------------

  /** No line brings a temporary id that was seen before. */
  predicate NewTemporaries(s: Session, steps: seq<Step>)
    decreases |steps|
  {
    steps == []
    || ((steps[0].Line? ==> Enabled(s, steps[0]))
        && NewTemporaries(if Enabled(s, steps[0]) then After(s, steps[0]) else s, steps[1..]))
  }

  lemma LeadsFirst(s: Session, step: Step, rest: seq<Step>, t: Session)
    requires Enabled(s, step) && Leads(After(s, step), rest, t)
    ensures Leads(s, [step] + rest, t)
  {
    assert ([step] + rest)[1..] == rest;
  }

  /** The lines of a chunk, taken one after another. */
  lemma {:induction false} LinesLead(s: Session, values: seq<Value>, more: seq<Step>, t: Session)
    requires NewTemporaries(s, AsLines(values) + more)
    ensures NewTemporaries(DispatchAll(s, values), more)
    ensures Leads(DispatchAll(s, values), more, t) ==> Leads(s, AsLines(values) + more, t)
    decreases |values|
  {
    if values == [] {
      assert AsLines(values) + more == more;
    } else {
      var first, rest := values[0], values[1..];
      var all := AsLines(values) + more;
      assert all == [Line(first)] + (AsLines(rest) + more);
      assert all[1..] == AsLines(rest) + more;
      LinesLead(Dispatch(s, first), rest, more, t);
      assert values == [first] + rest;
      DispatchFirst(s, first, rest);
      if Leads(DispatchAll(s, values), more, t) {
        LeadsFirst(s, Line(first), AsLines(rest) + more, t);
      }
    }
  }

  lemma DispatchFirst(s: Session, first: Value, rest: seq<Value>)
    ensures DispatchAll(s, [first] + rest) == DispatchAll(Dispatch(s, first), rest)
  {
    DispatchAllConcat(s, [first], rest);
    assert [first][..0] == [];
    assert DispatchAll(s, [first]) == Dispatch(DispatchAll(s, []), first);
  }

  /** With new temporary ids, a chunked run is the run of its lines, so all that holds of those holds of it. */
  lemma {:induction false} ChunkedRunIsRun(buffer: string, s: Session, events: seq<Event>, n: Machine, parse: string -> Value)
    requires Runs(Machine(buffer, s), events, n, parse)
    requires NewTemporaries(s, LineByLine(buffer, events, parse))
    ensures Leads(s, LineByLine(buffer, events, parse), n.session)
    decreases |events|
  {
    if events != [] {
      match events[0] {
        case Chunk(text) =>
          var values := ParseAll(Lines(buffer + text), parse);
          var rest := LineByLine(Remainder(buffer + text), events[1..], parse);
          LinesLead(s, values, rest, n.session);
          ChunkedRunIsRun(Remainder(buffer + text), DispatchAll(s, values), events[1..], n, parse);
        case Between(step) =>
          var rest := LineByLine(buffer, events[1..], parse);
          assert ([step] + rest)[1..] == rest;
          ChunkedRunIsRun(buffer, After(s, step), events[1..], n, parse);
          LeadsFirst(s, step, rest, n.session);
      }
    }
  }

  /** However the output is cut up: every continued send waits or has ended once, and one that resolved did
      so with a message an update brought. */
  lemma ChunkedSendsEndOnce(events: seq<Event>, n: Machine, parse: string -> Value)
    requires Runs(Machine("", INITIAL), events, n, parse)
    requires NewTemporaries(INITIAL, LineByLine("", events, parse))
    ensures var s := n.session;
            && |s.completed| <= 100
            && (forall id :: id in s.waiters ==> !Has(s.completed, id) && !Has(s.outcomes, id))
            && (forall id :: id in s.continued <==> id in s.waiters || Has(s.outcomes, id))
            && (forall i, j :: 0 <= i < j < |s.outcomes| ==> s.outcomes[i].id != s.outcomes[j].id)
            && (forall e :: e in s.outcomes && e.value.Resolved? ==> Succeeded(e.id, e.value.message) in s.updates)
  {
    ChunkedRunIsRun("", INITIAL, events, n, parse);
    SendsEndOnce(LineByLine("", events, parse), n.session);
  }

  /** However the output is cut up: a completion ahead of its continuation resolves the send if fewer than a
      hundred unmatched ones intervene. */
  lemma ChunkedCompletionResolves(buffer: string, s: Session, id: int, message: Message, events: seq<Event>, n: Machine,
                     parse: string -> Value)
    requires Inv(s) && id !in s.waiters && !Has(s.completed, id)
    requires var u := Dispatch(s, Succeeded(id, message));
             var steps := LineByLine(buffer, events, parse);
             && Runs(Machine(buffer, u), events, n, parse) && NewTemporaries(u, steps)
             && AllAside(u, steps, id) && Unmatched(u, steps) < 100
    requires n.session.ready != [] && n.session.ready[0] == Sending(id)
    ensures Continue(n.session).outcomes == n.session.outcomes + [Entry(id, Resolved(message))]
  {
    var u := Dispatch(s, Succeeded(id, message));
    ChunkedRunIsRun(buffer, u, events, n, parse);
    EarlyCompletionResolves(s, id, message, LineByLine(buffer, events, parse), n.session);
  }
}
