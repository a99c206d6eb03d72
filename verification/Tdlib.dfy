/** The Telegram worker's TDLib client: newline framing of the child process's output, request
    correlation, and the race between a send's response and its completion update. */
module Tdlib {
  import opened Prelude

  // ---- framing -----------------------------------------------------------------

  const NEWLINE: char := '\n'

  /** The index of the first newline, or the length if there is none. */
  function IndexOf(s: string): (k: nat)
    ensures k <= |s| && NEWLINE !in s[..k] && (k < |s| ==> s[k] == NEWLINE)
  {
    if s == "" || s[0] == NEWLINE then 0
    else
      var k := IndexOf(s[1..]);
      assert s[..k + 1] == [s[0]] + s[1..][..k];
      k + 1
  }

  /** The complete lines of a text, without their newlines. */
  function Lines(s: string): seq<string>
    decreases |s|
  {
    var k := IndexOf(s);
    if k == |s| then [] else [s[..k]] + Lines(s[k + 1..])
  }

  /** What follows the last newline. */
  function Remainder(s: string): string
    decreases |s|
  {
    var k := IndexOf(s);
    if k == |s| then s else Remainder(s[k + 1..])
  }

  function Join(lines: seq<string>, rest: string): string {
    if lines == [] then rest else lines[0] + [NEWLINE] + Join(lines[1..], rest)
  }

  lemma JoinFirst(line: string, lines: seq<string>, rest: string)
    ensures Join([line] + lines, rest) == line + [NEWLINE] + Join(lines, rest)
  {
    assert ([line] + lines)[1..] == lines;
  }

  /** The framing reads a text apart and Join puts it back. */
  lemma {:induction false} FramingRoundTrip(s: string)
    ensures Join(Lines(s), Remainder(s)) == s
    ensures NEWLINE !in Remainder(s) && forall l :: l in Lines(s) ==> NEWLINE !in l
    decreases |s|
  {
    var k := IndexOf(s);
    if k < |s| {
      var line, rest := s[..k], s[k + 1..];
      FramingRoundTrip(rest);
      JoinFirst(line, Lines(rest), Remainder(rest));
      assert s == line + [NEWLINE] + rest;
    } else {
      assert s[..k] == s;
    }
  }

  lemma {:induction false} IndexIs(s: string, k: nat)
    requires k < |s| && s[k] == NEWLINE && NEWLINE !in s[..k]
    ensures IndexOf(s) == k
  {
    if k > 0 {
      assert s[0] == s[..k][0] && s[1..][..k - 1] == s[..k][1..];
      IndexIs(s[1..], k - 1);
    }
  }

  lemma IndexOfLine(line: string, after: string)
    requires NEWLINE !in line
    ensures IndexOf(line + [NEWLINE] + after) == |line|
  {
    var s := line + [NEWLINE] + after;
    assert s[..|line|] == line;
    IndexIs(s, |line|);
  }

  lemma IndexOfNone(s: string)
    requires NEWLINE !in s
    ensures IndexOf(s) == |s|
  {
  }

  /** The only way to read a text as newline-free lines and a newline-free rest. */
  lemma {:induction false} FramingUnique(lines: seq<string>, rest: string)
    requires NEWLINE !in rest && forall l :: l in lines ==> NEWLINE !in l
    ensures Lines(Join(lines, rest)) == lines && Remainder(Join(lines, rest)) == rest
    decreases |lines|
  {
    if lines == [] {
      IndexOfNone(rest);
    } else {
      var s := Join(lines, rest);
      var k := |lines[0]|;
      assert lines[0] in lines;
      IndexOfLine(lines[0], Join(lines[1..], rest));
      assert s[..k] == lines[0] && s[k + 1..] == Join(lines[1..], rest);
      FramingUnique(lines[1..], rest);
    }
  }

  lemma {:induction false} JoinConcat(a: seq<string>, b: seq<string>, rest: string)
    ensures Join(a + b, rest) == Join(a, Join(b, rest))
  {
    if a == [] {
      assert a + b == b;
    } else {
      assert (a + b)[1..] == a[1..] + b;
      JoinConcat(a[1..], b, rest);
    }
  }

  lemma {:induction false} JoinRest(a: seq<string>, rest: string, more: string)
    ensures Join(a, rest) + more == Join(a, rest + more)
  {
    if a != [] {
      JoinRest(a[1..], rest, more);
      var head := a[0] + [NEWLINE];
      assert head + Join(a[1..], rest) + more == head + (Join(a[1..], rest) + more);
    }
  }

  /** Reading on after a prefix: the prefix's remainder is the start of the next line. */
  lemma FramingSplits(a: string, b: string)
    ensures Lines(a + b) == Lines(a) + Lines(Remainder(a) + b)
    ensures Remainder(a + b) == Remainder(Remainder(a) + b)
  {
    FramingRoundTrip(a);
    var s := Remainder(a) + b;
    FramingRoundTrip(s);
    JoinRest(Lines(a), Remainder(a), b);
    JoinConcat(Lines(a), Lines(s), Remainder(s));
    FramingUnique(Lines(a) + Lines(s), Remainder(s));
  }

  function Concat(chunks: seq<string>): string {
    if chunks == [] then "" else chunks[0] + Concat(chunks[1..])
  }

  // ---- values --------------------------------------------------------------------

  /** The JSON text of a TDLib message. */
  type Message = string

  /** How a request's response continues: a send whose message is still being sent goes on to wait
      for its completion; everything else is final. */
  datatype Response = Rejected | Final | Sending(temporary: int)

  /** A trimmed line after JSON.parse; unusable if it is empty, not JSON or not an object. */
  datatype Value =
    | Unusable
    | Reply(extra: nat, response: Response)
    | Succeeded(sent: int, message: Message)
    | Failed(sent: int)
    | OtherUpdate

  /** How a send that had to wait ends: with the final message, refused, unknown after the timeout, or
      with the child process. */
  datatype Outcome = Resolved(message: Message) | Refused | TimedOut | Exited

  datatype Entry<T> = Entry(id: int, value: T)

  /** A JavaScript Map from ids, in insertion order. */
  type Ordered = seq<Entry<Message>>

  function Get(m: Ordered, id: int): Option<Message> {
    if m == [] then None else if m[0].id == id then Some(m[0].value) else Get(m[1..], id)
  }

  /** A key already present keeps its place. */
  function Put(m: Ordered, id: int, value: Message): Ordered {
    if m == [] then [Entry(id, value)]
    else if m[0].id == id then [Entry(id, value)] + m[1..]
    else [m[0]] + Put(m[1..], id, value)
  }

  function Drop(m: Ordered, id: int): Ordered {
    if m == [] then [] else if m[0].id == id then m[1..] else [m[0]] + Drop(m[1..], id)
  }

  const CAPACITY: nat := 100

  /** Remember an early completion, forgetting the oldest beyond the capacity. */
  function Remember(m: Ordered, id: int, value: Message): Ordered {
    var next := Put(m, id, value);
    if |next| > CAPACITY then Drop(next, next[0].id) else next
  }

  /** `ready` are responses whose continuations have not run yet; the last three record the past: sends
      whose continuation has run, how each ended, and the updates passed to the handlers. */
  datatype Session = Session(
    pending: set<nat>,
    ready: seq<Response>,
    waiters: set<int>,
    completed: Ordered,
    continued: set<int>,
    outcomes: seq<Entry<Outcome>>,
    updates: seq<Value>)

  /** What handleOutput does with one value. */
  function Dispatch(s: Session, v: Value): Session {
    match v
    case Unusable => s
    case Reply(extra, response) =>
      if extra !in s.pending then s
      else s.(pending := s.pending - {extra}, ready := s.ready + [response])
    case Succeeded(id, message) =>
      var t := s.(updates := s.updates + [v]);
      if id in s.waiters
      then t.(waiters := s.waiters - {id}, outcomes := s.outcomes + [Entry(id, Resolved(message))])
      else t.(completed := Remember(s.completed, id, message))
    case Failed(id) =>
      var t := s.(updates := s.updates + [v]);
      if id in s.waiters then t.(waiters := s.waiters - {id}, outcomes := s.outcomes + [Entry(id, Refused)]) else t
    case OtherUpdate => s.(updates := s.updates + [v])
  }

  function DispatchAll(s: Session, values: seq<Value>): Session {
    if values == [] then s else Dispatch(DispatchAll(s, values[..|values| - 1]), values[|values| - 1])
  }

  lemma {:induction false} DispatchAllConcat(s: Session, a: seq<Value>, b: seq<Value>)
    ensures DispatchAll(s, a + b) == DispatchAll(DispatchAll(s, a), b)
  {
    if b == [] {
      assert a + b == a;
    } else {
      assert (a + b)[..|a + b| - 1] == a + b[..|b| - 1];
      DispatchAllConcat(s, a, b[..|b| - 1]);
    }
  }

  /** Run the oldest continuation: sendMessage after its response arrived. */
  function Continue(s: Session): Session
    requires s.ready != []
  {
    var r := s.ready[0];
    var t := s.(ready := s.ready[1..]);
    if !r.Sending? then t
    else
      var early := Get(s.completed, r.temporary);
      if early.Some?
      then t.(completed := Drop(s.completed, r.temporary), continued := s.continued + {r.temporary},
              outcomes := s.outcomes + [Entry(r.temporary, Resolved(early.value))])
      else t.(waiters := s.waiters + {r.temporary}, continued := s.continued + {r.temporary})
  }

  function Expire(s: Session, id: int): Session {
    if id in s.waiters then s.(waiters := s.waiters - {id}, outcomes := s.outcomes + [Entry(id, TimedOut)]) else s
  }

  /** A request times out, or writing it fails. */
  function Abandon(s: Session, extra: nat): Session { s.(pending := s.pending - {extra}) }

  /** `order` is the insertion order of the waiters' map. */
  predicate Lists(order: seq<int>, waiters: set<int>) {
    && (forall i :: 0 <= i < |order| ==> order[i] in waiters)
    && (forall i, j :: 0 <= i < j < |order| ==> order[i] != order[j])
    && (forall id :: id in waiters ==> id in order)
  }

  function Endings(order: seq<int>): seq<Entry<Outcome>> {
    seq(|order|, i requires 0 <= i < |order| => Entry(order[i], Outcome.Exited))
  }

  /** The child process exits: every request and every waiting send is rejected. */
  function Exit(s: Session, order: seq<int>): Session {
    s.(pending := {}, waiters := {}, outcomes := s.outcomes + Endings(order))
  }

  // ---- the client ------------------------------------------------------------------

  function ParseAll(lines: seq<string>, parse: string -> Value): seq<Value> {
    seq(|lines|, i requires 0 <= i < |lines| => parse(lines[i]))
  }

  lemma OneMoreLine(all: string, done: seq<string>, line: string, rest: string)
    requires NEWLINE !in line
    requires Lines(all) == done + Lines(line + [NEWLINE] + rest) && Remainder(all) == Remainder(line + [NEWLINE] + rest)
    ensures Lines(all) == done + [line] + Lines(rest) && Remainder(all) == Remainder(rest)
  {
    LineFirst(line, rest);
    assert done + ([line] + Lines(rest)) == done + [line] + Lines(rest);
  }

  lemma LineFirst(line: string, rest: string)
    requires NEWLINE !in line
    ensures Lines(line + [NEWLINE] + rest) == [line] + Lines(rest)
    ensures Remainder(line + [NEWLINE] + rest) == Remainder(rest)
  {
    var s := line + [NEWLINE] + rest;
    IndexOfLine(line, rest);
    assert s[..|line|] == line && s[|line| + 1..] == rest;
  }

  lemma OneMoreValue(s: Session, done: seq<string>, line: string, parse: string -> Value)
    ensures DispatchAll(s, ParseAll(done + [line], parse)) == Dispatch(DispatchAll(s, ParseAll(done, parse)), parse(line))
  {
    var values := ParseAll(done + [line], parse);
    assert values[..|done|] == ParseAll(done, parse);
  }

  class Client {
    var buffer: string
    var session: Session
    const parse: string -> Value

    constructor (parse: string -> Value)
      ensures buffer == "" && session == Session({}, [], {}, [], {}, [], []) && this.parse == parse
    {
      buffer := "";
      session := Session({}, [], {}, [], {}, [], []);
      this.parse := parse;
    }

    /** One parsed line: settle a request, a waiting send or nothing, and tell the handlers. */
    method Handle(v: Value)
      modifies this`session
      ensures session == Dispatch(old(session), v)
    {
      var s := session;
      match v {
        case Unusable => return;
        case Reply(extra, response) =>
          if extra in s.pending {
            s := s.(pending := s.pending - {extra});
            s := s.(ready := s.ready + [response]);
          }
          session := s;
          return;
        case Succeeded(id, message) =>
          if id in s.waiters {
            s := s.(waiters := s.waiters - {id});
            s := s.(outcomes := s.outcomes + [Entry(id, Resolved(message))]);
          } else {
            s := s.(completed := Put(s.completed, id, message));
            if |s.completed| > CAPACITY {
              var oldest := s.completed[0].id;
              s := s.(completed := Drop(s.completed, oldest));
            }
          }
        case Failed(id) =>
          if id in s.waiters {
            s := s.(waiters := s.waiters - {id});
            s := s.(outcomes := s.outcomes + [Entry(id, Refused)]);
          }
        case OtherUpdate =>
      }
      session := s.(updates := s.updates + [v]);
    }

    /** sendMessage from where its request has resolved. */
    method ResumeSend()
      requires session.ready != []
      modifies this`session
      ensures session == Continue(old(session))
    {
      var response := session.ready[0];
      session := session.(ready := session.ready[1..]);
      if !response.Sending? {
        return;
      }
      var temporary := response.temporary;
      session := session.(continued := session.continued + {temporary});
      var completed := Get(session.completed, temporary);
      if completed.Some? {
        session := session.(completed := Drop(session.completed, temporary));
        session := session.(outcomes := session.outcomes + [Entry(temporary, Resolved(completed.value))]);
        return;
      }
      session := session.(waiters := session.waiters + {temporary});
    }

    method GiveUpRequest(extra: nat)
      modifies this`session
      ensures session == Abandon(old(session), extra)
    {
      if extra in session.pending {
        session := session.(pending := session.pending - {extra});
      }
    }

    method GiveUpSend(id: int)
      modifies this`session
      ensures session == Expire(old(session), id)
    {
      if id in session.waiters {
        session := session.(waiters := session.waiters - {id});
        session := session.(outcomes := session.outcomes + [Entry(id, TimedOut)]);
      }
    }

    /** The exit handler: reject the waiting sends one by one, then clear both maps. */
    method OnExit(order: seq<int>)
      requires Lists(order, session.waiters)
      modifies this`session
      ensures session == Exit(old(session), order)
    {
      var s := session;
      s := s.(pending := {});
      assert s.outcomes + Endings([]) == s.outcomes;
      for i := 0 to |order|
        invariant s == old(session).(pending := {}, outcomes := old(session).outcomes + Endings(order[..i]))
      {
        assert Endings(order[..i + 1]) == Endings(order[..i]) + [Entry(order[i], Outcome.Exited)];
        s := s.(outcomes := s.outcomes + [Entry(order[i], Outcome.Exited)]);
      }
      assert order[..|order|] == order;
      session := s.(waiters := {});
    }

    /** Process every complete line and keep the rest for the next chunk. */
    method HandleOutput(chunk: string)
      modifies this
      ensures buffer == Remainder(old(buffer) + chunk)
      ensures session == DispatchAll(old(session), ParseAll(Lines(old(buffer) + chunk), parse))
    {
      buffer := buffer + chunk;
      ghost var all := buffer;
      ghost var done: seq<string> := [];
      assert ParseAll(done, parse) == [];
      while true
        invariant Lines(all) == done + Lines(buffer) && Remainder(all) == Remainder(buffer)
        invariant session == DispatchAll(old(session), ParseAll(done, parse))
        decreases |buffer|
      {
        var newline := IndexOf(buffer);
        if newline == |buffer| {
          assert done + Lines(buffer) == done;
          return;
        }
        var line := buffer[..newline];
        assert buffer == line + [NEWLINE] + buffer[newline + 1..];
        buffer := buffer[newline + 1..];
        Handle(parse(line));
        OneMoreLine(all, done, line, buffer);
        OneMoreValue(old(session), done, line, parse);
        done := done + [line];
      }
    }
  }

  /** What a sequence of chunks does when no continuation runs in between. */
  ghost function Fed(buffer: string, s: Session, chunks: seq<string>, parse: string -> Value): (string, Session)
    decreases |chunks|
  {
    if chunks == [] then (buffer, s)
    else
      Fed(Remainder(buffer + chunks[0]), DispatchAll(s, ParseAll(Lines(buffer + chunks[0]), parse)), chunks[1..], parse)
  }

  lemma ParseConcat(s: Session, a: seq<string>, b: seq<string>, parse: string -> Value)
    ensures DispatchAll(s, ParseAll(a + b, parse)) == DispatchAll(DispatchAll(s, ParseAll(a, parse)), ParseAll(b, parse))
  {
    assert ParseAll(a + b, parse) == ParseAll(a, parse) + ParseAll(b, parse);
    DispatchAllConcat(s, ParseAll(a, parse), ParseAll(b, parse));
  }

  /** Chunk independence: however the output is cut up, exactly the newline-terminated lines of the
      whole are processed, in order, and the buffer ends as what follows the last newline. */
  lemma {:induction false} ChunkIndependence(buffer: string, s: Session, chunks: seq<string>, parse: string -> Value)
    requires NEWLINE !in buffer
    ensures Fed(buffer, s, chunks, parse)
         == (Remainder(buffer + Concat(chunks)), DispatchAll(s, ParseAll(Lines(buffer + Concat(chunks)), parse)))
    decreases |chunks|
  {
    if chunks == [] {
      assert buffer + "" == buffer;
      IndexOfNone(buffer);
      assert Lines(buffer) == [] && ParseAll([], parse) == [];
    } else {
      var head := buffer + chunks[0];
      var tail := Concat(chunks[1..]);
      assert buffer + Concat(chunks) == head + tail;
      FramingSplits(head, tail);
      FramingRoundTrip(head);
      var a, b := Lines(head), Lines(Remainder(head) + tail);
      ParseConcat(s, a, b, parse);
      ChunkIndependence(Remainder(head), DispatchAll(s, ParseAll(a, parse)), chunks[1..], parse);
    }
  }
}
