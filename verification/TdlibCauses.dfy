/** What the handlers of a TDLib client get to see, which reply answers a request, and why each send ended. */
module TdlibCauses {
  import opened Prelude
  import opened Tdlib
  import opened TdlibSends
  import opened TdlibRuns

  // ---- updates -------------------------------------------------------------------

  /** The usable values that answer no request. */
  function Heard(values: seq<Value>): seq<Value> {
    if values == [] then []
    else (if values[0].Unusable? || values[0].Reply? then [] else [values[0]]) + Heard(values[1..])
  }

  function Taken(s: Session, step: Step): Session {
    if step.Line? then Dispatch(s, step.value) else if Enabled(s, step) then After(s, step) else s
  }

  lemma StepUpdates(s: Session, step: Step)
    ensures Taken(s, step).updates ==
              s.updates + (if !step.Line? || step.value.Unusable? || step.value.Reply? then [] else [step.value])
  {
  }

  lemma {:induction false} HandlersSeeUpdates(s: Session, steps: seq<Step>)
    ensures Stepped(s, steps).updates == s.updates + Heard(Values(steps))
    decreases |steps|
  {
    if steps != [] {
      var step, rest := steps[0], Values(steps[1..]);
      HandlersSeeUpdates(Taken(s, step), steps[1..]);
      StepUpdates(s, step);
      if step.Line? {
        assert Values(steps) == [step.value] + rest && Values(steps)[1..] == rest;
      } else {
        assert Values(steps) == rest;
      }
    }
  }

  /** However the output is cut up, and whatever happens in between, the handlers see exactly the usable
      lines of the whole output that are no replies, once each and in order. */
  lemma UpdatesInOrder(events: seq<Event>, n: Machine, parse: string -> Value)
    requires Runs(Machine("", INITIAL), events, n, parse)
    ensures n.session.updates == Heard(ParseAll(Lines(Output(events)), parse))
  {
    OutputInOrder("", INITIAL, events, n, parse);
    assert "" + Output(events) == Output(events);
    HandlersSeeUpdates(INITIAL, LineByLine("", events, parse));
  }

  // ---- replies --------------------------------------------------------------------

  predicate Settles(step: Step, extra: nat) {
    step.Exit? || step == GiveUp(extra) || (step.Line? && step.value.Reply? && step.value.extra == extra)
  }

  lemma {:induction false} StillPending(s: Session, steps: seq<Step>, t: Session, extra: nat)
    requires Leads(s, steps, t) && forall i :: 0 <= i < |steps| ==> !Settles(steps[i], extra)
    ensures extra in t.pending <==> extra in s.pending || Request(extra) in steps
    decreases |steps|
  {
    if steps != [] {
      assert steps == [steps[0]] + steps[1..];
      assert !Settles(steps[0], extra);
      StillPending(After(s, steps[0]), steps[1..], t, extra);
    }
  }

  /** A request is answered by the first reply that carries its id, unless it was given up or the process
      exited before; a second reply with the id changes nothing. */
  lemma FirstReplyAnswers(s: Session, extra: nat, steps: seq<Step>, t: Session, first: Response, second: Response)
    requires Leads(After(s, Request(extra)), steps, t)
    requires forall i :: 0 <= i < |steps| ==> !Settles(steps[i], extra)
    ensures var u := Dispatch(t, Reply(extra, first));
            && u == t.(pending := t.pending - {extra}, ready := t.ready + [first])
            && Dispatch(u, Reply(extra, second)) == u
  {
    StillPending(After(s, Request(extra)), steps, t, extra);
  }

  // ---- causes ---------------------------------------------------------------------

  /** What can end a send in this way. */
  predicate IsCause(step: Step, e: Entry<Outcome>) {
    match e.value
    case Resolved(message) => true // found among the updates below
    case Refused => step == Line(Failed(e.id))
    case TimedOut => step == Timer(e.id)
    case Exited => step.Exit? && e.id in step.order
  }

  lemma NewEnding(s: Session, step: Step, e: Entry<Outcome>)
    requires Enabled(s, step) && e in After(s, step).outcomes && e !in s.outcomes
    ensures IsCause(step, e)
    ensures !e.value.Resolved? ==> e.id in s.waiters && e.id !in After(s, step).waiters
    ensures e.value.Resolved? ==>
              step == Line(Succeeded(e.id, e.value.message))
              || (step.Resume? && s.ready != [] && s.ready[0] == Sending(e.id) && Get(s.completed, e.id) == Some(e.value.message))
  {
  }

  /** In every run a send is refused only by an update that its message failed, timed out only by its own timer,
      and ended by an exit only if it was waiting then. */
  lemma {:induction false} EndingHasCause(s: Session, steps: seq<Step>, t: Session, e: Entry<Outcome>) returns (i: nat)
    requires Leads(s, steps, t) && e in t.outcomes && e !in s.outcomes
    ensures i < |steps| && IsCause(steps[i], e)
    decreases |steps|
  {
    if e in After(s, steps[0]).outcomes {
      NewEnding(s, steps[0], e);
      i := 0;
    } else {
      i := EndingHasCause(After(s, steps[0]), steps[1..], t, e);
      i := i + 1;
    }
  }

  /** The other way round: each of them ends a waiting send at once, and an exit ends all. */
  lemma CauseEnds(s: Session, id: int, message: Message, order: seq<int>)
    requires id in s.waiters && Lists(order, s.waiters)
    ensures var t := After(s, Timer(id)); t.outcomes == s.outcomes + [Entry(id, TimedOut)] && id !in t.waiters
    ensures var t := After(s, Line(Failed(id))); t.outcomes == s.outcomes + [Entry(id, Refused)] && id !in t.waiters
    ensures var t := After(s, Line(Succeeded(id, message)));
            t.outcomes == s.outcomes + [Entry(id, Resolved(message))] && id !in t.waiters
    ensures var t := After(s, Exit(order)); t.waiters == {} && t.pending == {} && Entry(id, Exited) in t.outcomes
  {
    var k :| 0 <= k < |order| && order[k] == id;
    assert Endings(order)[k] == Entry(id, Outcome.Exited);
  }

  /** A reply to a request that was given up, or made before the process exited, changes nothing. */
  lemma SettledIsIgnored(s: Session, step: Step, extra: nat, steps: seq<Step>, t: Session, r: Response)
    requires Enabled(s, step) && (step == GiveUp(extra) || step.Exit?)
    requires Leads(After(s, step), steps, t) && Request(extra) !in steps
    ensures Dispatch(t, Reply(extra, r)) == t
  {
    NotPending(After(s, step), steps, t, extra);
  }

  lemma {:induction false} NotPending(s: Session, steps: seq<Step>, t: Session, extra: nat)
    requires Leads(s, steps, t) && extra !in s.pending && Request(extra) !in steps
    ensures extra !in t.pending
    decreases |steps|
  {
    if steps != [] {
      assert steps == [steps[0]] + steps[1..];
      NotPending(After(s, steps[0]), steps[1..], t, extra);
    }
  }
}
