/** The Go worker's command handling: at most four handlers, sixteen buffered results, one loop that
    both accepts commands and writes results. */
module Commands {
  import opened Prelude

  const HANDLERS: nat := 4
  const BUFFER: nat := 16

  type Id = string

  /** `running` and `pushing` are handlers at work and handlers with a result to deliver; `exiting`
      have delivered and still hold their token; `busy` is a refusal the loop itself is delivering. */
  datatype State = State(
    received: multiset<Id>,
    running: multiset<Id>,
    pushing: multiset<Id>,
    exiting: nat,
    busy: Option<Id>,
    results: seq<Id>,
    written: seq<Id>)

  const INITIAL: State := State(multiset{}, multiset{}, multiset{}, 0, None, [], [])

  datatype Step =
    | Receive(id: Id)
    | PushBusy
    | Finish(id: Id)
    | Push(id: Id)
    | Release
    | Write

  function Tokens(s: State): nat { |s.running| + |s.pushing| + s.exiting }

  /** The loop is in its select. */
  predicate AtSelect(s: State) { s.busy.None? }

  predicate Enabled(s: State, step: Step) {
    match step
    case Receive(_) => AtSelect(s)
    case PushBusy => s.busy.Some? && |s.results| < BUFFER
    case Finish(id) => id in s.running
    case Push(id) => id in s.pushing && |s.results| < BUFFER
    case Release => s.exiting > 0
    case Write => AtSelect(s) && s.results != []
  }

  function After(s: State, step: Step): State
    requires Enabled(s, step)
  {
    match step
    case Receive(id) =>
      var r := s.(received := s.received + multiset{id});
      if Tokens(s) < HANDLERS then r.(running := s.running + multiset{id}) else r.(busy := Some(id))
    case PushBusy => s.(results := s.results + [s.busy.value], busy := None)
    case Finish(id) => s.(running := s.running - multiset{id}, pushing := s.pushing + multiset{id})
    case Push(id) => s.(pushing := s.pushing - multiset{id}, exiting := s.exiting + 1, results := s.results + [id])
    case Release => s.(exiting := s.exiting - 1)
    case Write => s.(results := s.results[1..], written := s.written + [s.results[0]])
  }

  ghost predicate Leads(s: State, steps: seq<Step>, t: State)
    decreases |steps|
  {
    if steps == [] then s == t
    else Enabled(s, steps[0]) && Leads(After(s, steps[0]), steps[1..], t)
  }

  /** How often the id occurs among handlers, answers under way and answers written. */
  function Places(s: State, id: Id): nat {
    s.running[id] + s.pushing[id] + (if s.busy == Some(id) then 1 else 0)
    + multiset(s.results)[id] + multiset(s.written)[id]
  }

  /** How many commands were received and are not yet answered. */
  function Unanswered(s: State): int { |s.received| - |s.written| }

  predicate Bounded(s: State) {
    && Tokens(s) <= HANDLERS && |s.results| <= BUFFER
    && Unanswered(s) == |s.running| + |s.pushing| + (if s.busy.Some? then 1 else 0) + |s.results|
  }

  ghost predicate Inv(s: State) { Bounded(s) && forall id :: s.received[id] == Places(s, id) }

  lemma StepBounded(s: State, step: Step)
    requires Bounded(s) && Enabled(s, step)
    ensures Bounded(After(s, step))
  {
    match step {
      case Receive(id) => assert |s.running + multiset{id}| == |s.running| + 1;
      case Finish(id) =>
        assert |s.running - multiset{id}| == |s.running| - 1 && |s.pushing + multiset{id}| == |s.pushing| + 1;
      case Push(id) => assert |s.pushing - multiset{id}| == |s.pushing| - 1;
      case _ =>
    }
  }

  lemma StepPlaces(s: State, step: Step, id: Id)
    requires Enabled(s, step)
    ensures Places(After(s, step), id) == Places(s, id) + (if step == Receive(id) then 1 else 0)
  {
    if step.Write? {
      assert s.results == [s.results[0]] + s.results[1..];
    }
  }

  lemma StepKeeps(s: State, step: Step)
    requires Inv(s) && Enabled(s, step)
    ensures Inv(After(s, step))
  {
    StepBounded(s, step);
    forall id
      ensures After(s, step).received[id] == Places(After(s, step), id)
    {
      StepPlaces(s, step, id);
    }
  }

  lemma {:induction false} RunKeeps(s: State, steps: seq<Step>, t: State)
    requires Inv(s) && Leads(s, steps, t)
    ensures Inv(t)
    decreases |steps|
  {
    if steps != [] {
      StepKeeps(s, steps[0]);
      RunKeeps(After(s, steps[0]), steps[1..], t);
    }
  }

  /** Conservation while the session lives: every command received is in exactly one place, at most
      four are with handlers, at most sixteen answers are buffered, and none is answered twice. */
  lemma CommandsConserved(steps: seq<Step>, s: State)
    requires Leads(INITIAL, steps, s)
    ensures forall id :: s.received[id] ==
              s.running[id] + s.pushing[id] + (if s.busy == Some(id) then 1 else 0)
              + multiset(s.results)[id] + multiset(s.written)[id]
    ensures |s.running| + |s.pushing| <= 4 && |s.results| <= 16
    ensures forall id :: multiset(s.written)[id] <= s.received[id]
  {
    RunKeeps(INITIAL, steps, s);
    assert forall id :: s.received[id] == Places(s, id);
  }

  /** A command is started exactly if fewer than four handlers hold their tokens, among them those that have
      delivered and are about to leave; otherwise it is refused, and the loop has to buffer the refusal. */
  lemma StartedIff(steps: seq<Step>, s: State, id: Id)
    requires Leads(INITIAL, steps, s) && Enabled(s, Receive(id))
    ensures var t := After(s, Receive(id));
            && t.received[id] == s.received[id] + 1
            && (t.running[id] == s.running[id] + 1 <==> |s.running| + |s.pushing| + s.exiting < 4)
            && (t.busy == Some(id) <==> |s.running| + |s.pushing| + s.exiting == 4)
  {
    RunKeeps(INITIAL, steps, s);
  }

  /** The answers given, in the order in which they were. */
  function Answered(s: State, step: Step): seq<Id>
    requires Enabled(s, step)
  {
    match step
    case PushBusy => [s.busy.value]
    case Push(id) => [id]
    case _ => []
  }

  ghost function AnsweredOver(s: State, steps: seq<Step>): seq<Id>
    decreases |steps|
  {
    if steps == [] || !Enabled(s, steps[0]) then []
    else Answered(s, steps[0]) + AnsweredOver(After(s, steps[0]), steps[1..])
  }

  lemma AnsweredStep(s: State, step: Step)
    requires Enabled(s, step)
    ensures var t := After(s, step); t.written + t.results == s.written + s.results + Answered(s, step)
  {
    if step.Write? {
      assert s.results == [s.results[0]] + s.results[1..];
    }
  }

  /** Answers are written in the order in which they were given, none left out. */
  lemma {:induction false} AnswersInOrder(s: State, steps: seq<Step>, t: State)
    requires Leads(s, steps, t)
    ensures t.written + t.results == s.written + s.results + AnsweredOver(s, steps)
    decreases |steps|
  {
    if steps != [] {
      var next := After(s, steps[0]);
      AnsweredStep(s, steps[0]);
      AnswersInOrder(next, steps[1..], t);
      assert s.written + s.results + (Answered(s, steps[0]) + AnsweredOver(next, steps[1..]))
          == s.written + s.results + Answered(s, steps[0]) + AnsweredOver(next, steps[1..]);
    }
  }

  // ---- where it can stop ---------------------------------------------------------------

  /** The loop is refusing a command and the buffer, which only the loop empties, is full. */
  predicate Wedged(s: State) { s.busy.Some? && |s.results| == BUFFER }

  /** From there no run receives, refuses, delivers or writes anything again. */
  lemma {:induction false} WedgedForEver(s: State, steps: seq<Step>, t: State)
    requires Wedged(s) && Leads(s, steps, t)
    ensures Wedged(t) && t.received == s.received && t.results == s.results && t.written == s.written
    decreases |steps|
  {
    if steps != [] {
      WedgedForEver(After(s, steps[0]), steps[1..], t);
    }
  }

  /** No step of the loop is possible. */
  ghost predicate LoopStuck(s: State) {
    !Enabled(s, PushBusy) && !Enabled(s, Write) && forall id :: !Enabled(s, Receive(id))
  }

  lemma StuckIsWedged(s: State, id: Id)
    requires Bounded(s)
    ensures LoopStuck(s) <==> Wedged(s)
  {
    assert s.busy.None? ==> Enabled(s, Receive(id));
  }

  /** Along the run at most `n` commands are unanswered at any time: what a sender can see to. */
  ghost predicate Within(s: State, steps: seq<Step>, n: nat)
    decreases |steps|
  {
    Unanswered(s) <= n && (steps != [] && Enabled(s, steps[0]) ==> Within(After(s, steps[0]), steps[1..], n))
  }

  lemma {:induction false} WithinAtEnd(s: State, steps: seq<Step>, t: State, n: nat)
    requires Leads(s, steps, t) && Within(s, steps, n)
    ensures Unanswered(t) <= n
    decreases |steps|
  {
    if steps != [] {
      WithinAtEnd(After(s, steps[0]), steps[1..], t, n);
    }
  }

  lemma {:induction false} ReceivedGrows(s: State, steps: seq<Step>, t: State)
    requires Leads(s, steps, t)
    ensures |s.received| <= |t.received|
    ensures forall n: nat :: |t.received| <= n ==> Within(s, steps, n)
    decreases |steps|
  {
    if steps != [] {
      var next := After(s, steps[0]);
      assert |s.received| <= |next.received|;
      ReceivedGrows(next, steps[1..], t);
    }
  }

  ghost predicate NeverStuck(n: nat) {
    forall steps, s :: Leads(INITIAL, steps, s) && Within(INITIAL, steps, n) ==> !LoopStuck(s)
  }

  /** Exactly when the loop can stop: it never does in the runs that leave at most `n` commands
      unanswered, if and only if `n` is at most sixteen. */
  lemma LoopGoesOnIff(n: nat)
    ensures NeverStuck(n) <==> n <= 16
  {
    if n <= 16 {
      forall steps, s | Leads(INITIAL, steps, s) && Within(INITIAL, steps, n)
        ensures !LoopStuck(s)
      {
        RunKeeps(INITIAL, steps, s);
        WithinAtEnd(INITIAL, steps, s, n);
        StuckIsWedged(s, "");
      }
    } else {
      var steps, s := WedgeReachable("");
      RunKeeps(INITIAL, steps, s);
      StuckIsWedged(s, "");
      ReceivedGrows(INITIAL, steps, s);
      assert Leads(INITIAL, steps, s) && Within(INITIAL, steps, n) && LoopStuck(s);
    }
  }

  // ---- the shortest way there ------------------------------------------------------------

  function Copies(id: Id, n: nat): (m: multiset<Id>)
    ensures |m| == n
  {
    multiset{}[id := n]
  }

  /** The first `k` commands are handled and their results buffered; of the last four handlers the
      tokens are still held. */
  function Buffered(id: Id, k: nat): State {
    State(Copies(id, k), multiset{}, multiset{}, if k <= BUFFER - HANDLERS then 0 else k - (BUFFER - HANDLERS),
          None, seq(k, i => id), [])
  }

  lemma {:induction false} LeadsTrans(s: State, a: seq<Step>, t: State, b: seq<Step>, u: State)
    requires Leads(s, a, t) && Leads(t, b, u)
    ensures Leads(s, a + b, u)
    decreases |a|
  {
    if a == [] {
      assert a + b == b;
    } else {
      assert (a + b)[0] == a[0] && (a + b)[1..] == a[1..] + b;
      LeadsTrans(After(s, a[0]), a[1..], t, b, u);
    }
  }

  lemma LeadsFurther(s: State, steps: seq<Step>, t: State, x: Step)
    requires Leads(s, steps, t) && Enabled(t, x)
    ensures Leads(s, steps + [x], After(t, x))
  {
    assert [x][1..] == [];
    LeadsTrans(s, steps, t, [x], After(t, x));
  }

  /** The next command has been received and handled; its result is still to be buffered. */
  function Handled(id: Id, k: nat): State {
    Buffered(id, k).(received := Copies(id, k + 1), pushing := multiset{id})
  }

  lemma HandleOne(id: Id, k: nat, start: State, steps: seq<Step>) returns (more: seq<Step>)
    requires k < BUFFER && Leads(start, steps, Buffered(id, k))
    ensures Leads(start, more, Handled(id, k))
  {
    var s := Buffered(id, k);
    var a := s.(received := Copies(id, k + 1), running := multiset{id});
    assert After(s, Receive(id)) == a;
    LeadsFurther(start, steps, s, Receive(id));
    more := steps + [Receive(id)];
    assert After(a, Finish(id)) == Handled(id, k);
    LeadsFurther(start, more, a, Finish(id));
    more := more + [Finish(id)];
  }

  /** One more command received, handled and buffered. */
  lemma BufferOne(id: Id, k: nat, start: State, steps: seq<Step>) returns (more: seq<Step>)
    requires k < BUFFER && Leads(start, steps, Buffered(id, k))
    ensures Leads(start, more, Buffered(id, k + 1))
  {
    more := HandleOne(id, k, start, steps);
    var b := Handled(id, k);
    assert seq(k, i => id) + [id] == seq(k + 1, i => id);
    var c := After(b, Push(id));
    assert c == Buffered(id, k + 1).(exiting := b.exiting + 1);
    LeadsFurther(start, more, b, Push(id));
    more := more + [Push(id)];
    if k < BUFFER - HANDLERS {
      LeadsFurther(start, more, c, Release);
      more := more + [Release];
    }
  }

  lemma {:induction false} BufferedReachable(id: Id, k: nat) returns (steps: seq<Step>)
    requires k <= BUFFER
    ensures Leads(INITIAL, steps, Buffered(id, k))
  {
    if k == 0 {
      steps := [];
      assert Buffered(id, 0) == INITIAL;
    } else {
      var fewer := BufferedReachable(id, k - 1);
      steps := BufferOne(id, k - 1, INITIAL, fewer);
    }
  }

  /** The wedge is reachable with seventeen commands: sixteen results unwritten, the last four handlers
      not quite gone, and one refusal. */
  lemma WedgeReachable(id: Id) returns (steps: seq<Step>, s: State)
    ensures Leads(INITIAL, steps, s) && Wedged(s)
    ensures |s.received| == 17 && s.written == []
  {
    var rest := BufferedReachable(id, BUFFER);
    var full := Buffered(id, BUFFER);
    s := After(full, Receive(id));
    steps := rest + [Receive(id)];
    LeadsFurther(INITIAL, rest, full, Receive(id));
  }
}
