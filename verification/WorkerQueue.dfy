/** The Telegram worker's MessageQueue: frames from the socket handed to callers of `next`. */
module WorkerQueue {
  import opened Prelude

  /** A frame after JSON.parse; objects and arrays keep their text. */
  datatype Frame =
    | Null
    | Bool(value: bool)
    | Number(number: real)
    | Text(text: string)
    | Composite(json: string)
  {
    /** What JavaScript takes for true. */
    predicate Truthy() {
      match this
      case Null => false
      case Bool(value) => value
      case Number(number) => number != 0.0
      case Text(text) => text != ""
      case Composite(_) => true
    }
  }

  type Caller = nat

  datatype Handed = Handed(frame: Frame, to: Caller)

  /** `arrived`, `handed` and `rejected` record the past. */
  datatype Queue = Queue(
    messages: seq<Frame>, waiters: seq<Caller>, failed: bool,
    arrived: seq<Frame>, handed: seq<Handed>, rejected: seq<Caller>)

  const EMPTY: Queue := Queue([], [], false, [], [], [])

  datatype Step =
    | Arrive(frame: Frame)
    | Garbage            // a frame that is not JSON
    | Close              // the socket closes or reports an error
    | Next(caller: Caller)
    | GiveUp(caller: Caller) // aborted or timed out while waiting

  function Failed(q: Queue): Queue {
    q.(failed := true, waiters := [], rejected := q.rejected + q.waiters)
  }

  function Without(waiters: seq<Caller>, caller: Caller): seq<Caller> {
    if waiters == [] then []
    else if waiters[0] == caller then waiters[1..]
    else [waiters[0]] + Without(waiters[1..], caller)
  }

  function After(q: Queue, step: Step): Queue {
    match step
    case Arrive(frame) =>
      var r := q.(arrived := q.arrived + [frame]);
      if q.waiters != [] then r.(waiters := q.waiters[1..], handed := q.handed + [Handed(frame, q.waiters[0])])
      else r.(messages := q.messages + [frame])
    case Garbage => Failed(q)
    case Close => Failed(q)
    case Next(caller) =>
      // the queued frame is taken off before it is looked at
      var r := if q.messages == [] then q else q.(messages := q.messages[1..]);
      if q.messages != [] && q.messages[0].Truthy() then r.(handed := q.handed + [Handed(q.messages[0], caller)])
      else if q.failed then r.(rejected := q.rejected + [caller])
      else r.(waiters := q.waiters + [caller])
    case GiveUp(caller) =>
      if caller in q.waiters
      then q.(waiters := Without(q.waiters, caller), rejected := q.rejected + [caller]) else q
  }

  function Run(q: Queue, steps: seq<Step>): Queue
    decreases |steps|
  {
    if steps == [] then q else Run(After(q, steps[0]), steps[1..])
  }

  // ---- the queue object ------------------------------------------------------------

  class MessageQueue {
    var messages: seq<Frame>
    var waiters: seq<Caller>
    var failed: bool
    ghost var arrived: seq<Frame>
    ghost var handed: seq<Handed>
    ghost var rejected: seq<Caller>

    ghost function Value(): Queue
      reads this
    {
      Queue(messages, waiters, failed, arrived, handed, rejected)
    }

    constructor ()
      ensures Value() == EMPTY
    {
      messages, waiters, failed := [], [], false;
      arrived, handed, rejected := [], [], [];
    }

    /** The socket's message callback; `frame` is absent if the data does not parse. */
    method OnMessage(frame: Option<Frame>)
      modifies this
      ensures Value() == After(old(Value()), if frame.Some? then Arrive(frame.value) else Garbage)
    {
      if frame.None? {
        Fail();
        return;
      }
      arrived := arrived + [frame.value];
      if waiters != [] {
        var waiter := waiters[0];
        waiters := waiters[1..];
        handed := handed + [Handed(frame.value, waiter)];
      } else {
        messages := messages + [frame.value];
      }
    }

    /** The answer at once, if there is one: a frame, or a rejection. */
    method Next(caller: Caller) returns (frame: Option<Frame>, reject: bool)
      modifies this
      ensures Value() == After(old(Value()), Step.Next(caller))
      ensures frame.Some? ==> handed == old(handed) + [Handed(frame.value, caller)]
      ensures frame.None? ==> handed == old(handed) && (reject <==> old(failed))
    {
      frame, reject := None, false;
      if messages != [] {
        var existing := messages[0];
        messages := messages[1..];
        if existing.Truthy() {
          handed := handed + [Handed(existing, caller)];
          return Some(existing), false;
        }
      }
      if failed {
        rejected := rejected + [caller];
        return None, true;
      }
      waiters := waiters + [caller];
    }

    method Remove(caller: Caller)
      modifies this
      ensures Value() == After(old(Value()), GiveUp(caller))
    {
      if caller in waiters {
        waiters := Splice(waiters, caller);
        rejected := rejected + [caller];
      }
    }

    method Fail()
      modifies this
      ensures Value() == Failed(old(Value()))
    {
      failed := true;
      rejected := rejected + waiters;
      waiters := [];
    }
  }

  /** Remove the first occurrence of the caller, found by its index. */
  method Splice(waiters: seq<Caller>, caller: Caller) returns (r: seq<Caller>)
    requires caller in waiters
    ensures r == Without(waiters, caller)
  {
    var index := 0;
    while waiters[index] != caller
      invariant index < |waiters| && caller !in waiters[..index]
      decreases |waiters| - index
    {
      assert waiters == waiters[..index] + [waiters[index]] + waiters[index + 1..];
      index := index + 1;
    }
    WithoutAt(waiters, caller, index);
    r := waiters[..index] + waiters[index + 1..];
  }

  lemma {:induction false} WithoutAt(waiters: seq<Caller>, caller: Caller, index: nat)
    requires index < |waiters| && waiters[index] == caller && caller !in waiters[..index]
    ensures Without(waiters, caller) == waiters[..index] + waiters[index + 1..]
  {
    if index > 0 {
      assert waiters[0] == waiters[..index][0];
      assert waiters[1..][..index - 1] == waiters[..index][1..];
      WithoutAt(waiters[1..], caller, index - 1);
      assert waiters[1..][index..] == waiters[index + 1..];
      assert waiters[..index] == [waiters[0]] + waiters[1..][..index - 1];
    }
  }

  // ---- order, conservation and exclusion ----------------------------------------------

  function Frames(handed: seq<Handed>): seq<Frame> {
    seq(|handed|, i requires 0 <= i < |handed| => handed[i].frame)
  }

  function Callers(handed: seq<Handed>): seq<Caller> {
    seq(|handed|, i requires 0 <= i < |handed| => handed[i].to)
  }

  /** Arrivals are handed out in order, each once, and no caller waits while a frame is queued. */
  ghost predicate Law(q: Queue) {
    Frames(q.handed) + q.messages == q.arrived && (q.messages == [] || q.waiters == [])
  }

  predicate Clean(steps: seq<Step>) {
    forall i :: 0 <= i < |steps| && steps[i].Arrive? ==> steps[i].frame.Truthy()
  }

  ghost predicate AllTruthy(messages: seq<Frame>) { forall m :: m in messages ==> m.Truthy() }

  lemma FramesAppend(handed: seq<Handed>, h: Handed)
    ensures Frames(handed + [h]) == Frames(handed) + [h.frame]
    ensures Callers(handed + [h]) == Callers(handed) + [h.to]
  {
  }

  lemma LawArrive(q: Queue, frame: Frame)
    requires Law(q) && frame.Truthy() && AllTruthy(q.messages)
    ensures Law(After(q, Arrive(frame))) && AllTruthy(After(q, Arrive(frame)).messages)
  {
    if q.waiters != [] {
      FramesAppend(q.handed, Handed(frame, q.waiters[0]));
      assert Frames(q.handed) + [frame] + [] == q.arrived + [frame];
    } else {
      assert Frames(q.handed) + (q.messages + [frame]) == q.arrived + [frame];
    }
  }

  lemma LawNext(q: Queue, caller: Caller)
    requires Law(q) && AllTruthy(q.messages)
    ensures Law(After(q, Next(caller))) && AllTruthy(After(q, Next(caller)).messages)
  {
    if q.messages != [] {
      var head, tail := q.messages[0], q.messages[1..];
      assert head in q.messages;
      FramesAppend(q.handed, Handed(head, caller));
      assert Frames(q.handed) + [head] + tail == Frames(q.handed) + q.messages;
      assert forall m :: m in tail ==> m in q.messages;
    }
  }

  lemma LawStep(q: Queue, step: Step)
    requires Law(q) && (step.Arrive? ==> step.frame.Truthy()) && AllTruthy(q.messages)
    ensures Law(After(q, step)) && AllTruthy(After(q, step).messages)
  {
    match step {
      case Arrive(frame) => LawArrive(q, frame);
      case Next(caller) => LawNext(q, caller);
      case _ =>
    }
  }

  lemma {:induction false} LawRun(q: Queue, steps: seq<Step>)
    requires Law(q) && Clean(steps) && AllTruthy(q.messages)
    ensures Law(Run(q, steps))
    decreases |steps|
  {
    if steps != [] {
      LawStep(q, steps[0]);
      LawRun(After(q, steps[0]), steps[1..]);
    }
  }

  /** Steps whose frames are all taken from `frames`. */
  ghost predicate Draws(steps: seq<Step>, frames: set<Frame>) {
    forall i :: 0 <= i < |steps| && steps[i].Arrive? ==> steps[i].frame in frames
  }

  /** The law holds of every run over a set of frames exactly if the set has no frame that JavaScript
      takes for false: such a frame, once queued, is taken off and dropped by the next caller. */
  lemma LawIff(frames: set<Frame>)
    ensures (forall steps :: Draws(steps, frames) ==> Law(Run(EMPTY, steps))) <==> (forall f :: f in frames ==> f.Truthy())
  {
    if forall f :: f in frames ==> f.Truthy() {
      forall steps | Draws(steps, frames)
        ensures Law(Run(EMPTY, steps))
      {
        assert Frames([]) + [] == [];
        LawRun(EMPTY, steps);
      }
    } else {
      var f :| f in frames && !f.Truthy();
      var steps := [Arrive(f), Next(0)];
      FalsyIsDropped(f, f, 0);
      assert Draws(steps, frames);
      assert !Law(Run(EMPTY, steps));
    }
  }

  /** A false frame is lost to everyone, and the caller who dropped it then waits although the frame
      behind it is there. */
  lemma FalsyIsDropped(f: Frame, g: Frame, caller: Caller)
    requires !f.Truthy()
    ensures var q := Run(EMPTY, [Arrive(f), Next(caller)]);
            q.arrived == [f] && q.handed == [] && q.messages == [] && q.waiters == [caller]
    ensures var q := Run(EMPTY, [Arrive(f), Arrive(g), Next(caller)]);
            q.messages == [g] && q.waiters == [caller]
  {
    var a := After(EMPTY, Arrive(f));
    assert [Arrive(f), Next(caller)][1..] == [Next(caller)] && [Next(caller)][1..] == [];
    assert Run(a, [Next(caller)]) == Run(After(a, Next(caller)), []);
    var b := After(a, Arrive(g));
    assert [Arrive(f), Arrive(g), Next(caller)][1..] == [Arrive(g), Next(caller)];
    assert [Arrive(g), Next(caller)][1..] == [Next(caller)];
    assert Run(b, [Next(caller)]) == Run(After(b, Next(caller)), []);
  }

  // ---- callers ------------------------------------------------------------------------

  /** The calls made so far. */
  ghost function Calls(steps: seq<Step>): multiset<Caller> {
    if steps == [] then multiset{}
    else Calls(steps[..|steps| - 1]) + (if steps[|steps| - 1].Next? then multiset{steps[|steps| - 1].caller} else multiset{})
  }

  ghost function Settled(q: Queue): multiset<Caller> {
    multiset(q.waiters) + multiset(Callers(q.handed)) + multiset(q.rejected)
  }

  lemma {:induction false} WithoutOne(waiters: seq<Caller>, caller: Caller)
    requires caller in waiters
    ensures multiset(waiters) == multiset(Without(waiters, caller)) + multiset{caller}
  {
    assert waiters == [waiters[0]] + waiters[1..];
    if waiters[0] != caller {
      WithoutOne(waiters[1..], caller);
    }
  }

  lemma SettledArrive(q: Queue, frame: Frame)
    ensures Settled(After(q, Arrive(frame))) == Settled(q)
  {
    if q.waiters != [] {
      assert q.waiters == [q.waiters[0]] + q.waiters[1..];
      FramesAppend(q.handed, Handed(frame, q.waiters[0]));
    }
  }

  lemma SettledNext(q: Queue, caller: Caller)
    ensures Settled(After(q, Next(caller))) == Settled(q) + multiset{caller}
  {
    if q.messages != [] && q.messages[0].Truthy() {
      FramesAppend(q.handed, Handed(q.messages[0], caller));
    }
  }

  lemma SettledGiveUp(q: Queue, caller: Caller)
    ensures Settled(After(q, GiveUp(caller))) == Settled(q)
  {
    if caller in q.waiters {
      WithoutOne(q.waiters, caller);
    }
  }

  lemma SettledStep(q: Queue, step: Step)
    ensures Settled(After(q, step)) == Settled(q) + (if step.Next? then multiset{step.caller} else multiset{})
  {
    match step {
      case Arrive(frame) => SettledArrive(q, frame);
      case Next(caller) => SettledNext(q, caller);
      case GiveUp(caller) => SettledGiveUp(q, caller);
      case _ =>
    }
  }

  lemma {:induction false} RunLast(q: Queue, steps: seq<Step>)
    requires steps != []
    ensures Run(q, steps) == After(Run(q, steps[..|steps| - 1]), steps[|steps| - 1])
    decreases |steps|
  {
    if |steps| > 1 {
      RunLast(After(q, steps[0]), steps[1..]);
      assert steps[1..][..|steps| - 2] == steps[..|steps| - 1][1..];
    }
  }

  /** Whatever arrives, every call of `next` is still waiting or got exactly one answer. */
  lemma {:induction false} CallersConserved(steps: seq<Step>)
    ensures Settled(Run(EMPTY, steps)) == Calls(steps)
    decreases |steps|
  {
    if steps == [] {
      assert Callers([]) == [];
    } else {
      CallersConserved(steps[..|steps| - 1]);
      RunLast(EMPTY, steps);
      SettledStep(Run(EMPTY, steps[..|steps| - 1]), steps[|steps| - 1]);
    }
  }

  // ---- failure and order --------------------------------------------------------------

  predicate Breaks(step: Step) { step.Garbage? || step.Close? }

  /** The queue has failed exactly if the socket closed or sent garbage; nobody waits from then on, and before
      only those are rejected who gave up. */
  lemma {:induction false} FailedIff(q: Queue, steps: seq<Step>)
    requires q.failed ==> q.waiters == []
    ensures var r := Run(q, steps);
            && (r.failed <==> q.failed || exists i :: 0 <= i < |steps| && Breaks(steps[i]))
            && (r.failed ==> r.waiters == [])
    ensures forall c :: c in Run(q, steps).rejected && !Run(q, steps).failed ==> c in q.rejected || GiveUp(c) in steps
    decreases |steps|
  {
    if steps != [] {
      var next, rest := After(q, steps[0]), steps[1..];
      assert steps == [steps[0]] + rest;
      FailedIff(next, rest);
      assert next.failed <==> q.failed || Breaks(steps[0]);
      if exists i :: 0 <= i < |rest| && Breaks(rest[i]) {
        var i :| 0 <= i < |rest| && Breaks(rest[i]);
        assert Breaks(steps[i + 1]);
      }
    }
  }

  /** The callers of `next` in the order of their calls, but for those that were rejected. */
  function Kept(calls: seq<Caller>, rejected: seq<Caller>): seq<Caller> {
    if calls == [] then []
    else
      var n := |calls| - 1;
      Kept(calls[..n], rejected) + (if calls[n] in rejected then [] else [calls[n]])
  }

  function CallsInOrder(steps: seq<Step>): seq<Caller> {
    if steps == [] then []
    else
      var n := |steps| - 1;
      CallsInOrder(steps[..n]) + (if steps[n].Next? then [steps[n].caller] else [])
  }

  predicate DistinctCallers(calls: seq<Caller>) { forall i, j :: 0 <= i < j < |calls| ==> calls[i] != calls[j] }

  lemma {:induction false} KeptMembers(calls: seq<Caller>, rejected: seq<Caller>)
    ensures forall c :: c in Kept(calls, rejected) <==> c in calls && c !in rejected
  {
    if calls != [] {
      var n := |calls| - 1;
      KeptMembers(calls[..n], rejected);
      assert calls == calls[..n] + [calls[n]];
    }
  }

  lemma {:induction false} KeptSame(calls: seq<Caller>, a: seq<Caller>, b: seq<Caller>)
    requires forall c :: c in calls ==> (c in a <==> c in b)
    ensures Kept(calls, a) == Kept(calls, b)
  {
    if calls != [] {
      KeptSame(calls[..|calls| - 1], a, b);
    }
  }

  lemma {:induction false} KeptDistinct(calls: seq<Caller>, rejected: seq<Caller>)
    requires DistinctCallers(calls)
    ensures DistinctCallers(Kept(calls, rejected))
  {
    if calls != [] {
      var n := |calls| - 1;
      KeptDistinct(calls[..n], rejected);
      KeptMembers(calls[..n], rejected);
    }
  }

  lemma {:induction false} KeptConcat(x: seq<Caller>, y: seq<Caller>, rejected: seq<Caller>)
    ensures Kept(x + y, rejected) == Kept(x, rejected) + Kept(y, rejected)
  {
    if y == [] {
      assert x + y == x;
    } else {
      var n := |y| - 1;
      assert (x + y)[..|x + y| - 1] == x + y[..n];
      KeptConcat(x, y[..n], rejected);
    }
  }

  lemma {:induction false} KeptTwice(calls: seq<Caller>, a: seq<Caller>, b: seq<Caller>)
    ensures Kept(calls, a + b) == Kept(Kept(calls, a), b)
  {
    if calls != [] {
      var n := |calls| - 1;
      KeptTwice(calls[..n], a, b);
      if calls[n] !in a {
        KeptConcat(Kept(calls[..n], a), [calls[n]], b);
        assert [calls[n]][..0] == [];
        assert Kept([calls[n]], b) == Kept([], b) + (if calls[n] in b then [] else [calls[n]]);
      } else {
        assert Kept(calls, a) == Kept(calls[..n], a);
        assert Kept(calls, a + b) == Kept(calls[..n], a + b);
      }
    }
  }

  lemma {:induction false} KeptAll(x: seq<Caller>, rejected: seq<Caller>)
    requires forall c :: c in x ==> c !in rejected
    ensures Kept(x, rejected) == x
  {
    if x != [] {
      var n := |x| - 1;
      KeptAll(x[..n], rejected);
      assert x[n] in x && x == x[..n] + [x[n]];
    }
  }

  lemma {:induction false} KeptNone(x: seq<Caller>, rejected: seq<Caller>)
    requires forall c :: c in x ==> c in rejected
    ensures Kept(x, rejected) == []
  {
    if x != [] {
      var n := |x| - 1;
      KeptNone(x[..n], rejected);
      assert x[n] in x;
    }
  }

  lemma {:induction false} KeptWithout(w: seq<Caller>, c: Caller)
    requires DistinctCallers(w)
    ensures Kept(w, [c]) == Without(w, c)
  {
    if w != [] {
      assert w == [w[0]] + w[1..];
      KeptConcat([w[0]], w[1..], [c]);
      assert [w[0]][..0] == [];
      assert Kept([w[0]], [c]) == Kept([], [c]) + (if w[0] == c then [] else [w[0]]);
      if w[0] == c {
        KeptAll(w[1..], [c]);
      } else {
        KeptWithout(w[1..], c);
      }
    }
  }

  lemma DistinctApart(h: seq<Caller>, w: seq<Caller>)
    requires DistinctCallers(h + w)
    ensures DistinctCallers(w) && forall c :: c in h ==> c !in w
  {
    var all := h + w;
    assert forall i :: 0 <= i < |w| ==> all[|h| + i] == w[i];
    forall c | c in h
      ensures c !in w
    {
      var i :| 0 <= i < |h| && h[i] == c;
      assert all[i] == c;
    }
  }

  /** Taking waiters out of the line: all of them, or one. */
  lemma LineWithout(calls: seq<Caller>, rejected: seq<Caller>, h: seq<Caller>, w: seq<Caller>, out: seq<Caller>)
    requires DistinctCallers(calls) && h + w == Kept(calls, rejected)
    requires forall c :: c in out ==> c in w
    ensures Kept(calls, rejected + out) == h + Kept(w, out)
  {
    KeptTwice(calls, rejected, out);
    KeptConcat(h, w, out);
    KeptDistinct(calls, rejected);
    DistinctApart(h, w);
    KeptAll(h, out);
  }

  /** Those who were handed a frame, then those who wait, are all that called in that order. */
  ghost predicate InLine(q: Queue, calls: seq<Caller>) {
    && Callers(q.handed) + q.waiters == Kept(calls, q.rejected)
    && forall c :: c in q.rejected ==> c in calls
  }

  lemma NextLine(q: Queue, calls: seq<Caller>, caller: Caller)
    requires InLine(q, calls) && Law(q) && AllTruthy(q.messages) && caller !in calls
    ensures InLine(After(q, Next(caller)), calls + [caller])
  {
    var r := After(q, Next(caller));
    assert (calls + [caller])[..|calls|] == calls;
    KeptSame(calls, q.rejected, r.rejected);
    if q.messages != [] {
      assert q.messages[0] in q.messages;
      FramesAppend(q.handed, Handed(q.messages[0], caller));
    }
  }

  lemma OtherLine(q: Queue, calls: seq<Caller>, step: Step)
    requires InLine(q, calls) && DistinctCallers(calls) && !step.Next?
    ensures InLine(After(q, step), calls)
  {
    var h, w := Callers(q.handed), q.waiters;
    KeptMembers(calls, q.rejected);
    assert forall c :: c in w ==> c in h + w;
    match step {
      case Arrive(frame) =>
        if w != [] {
          FramesAppend(q.handed, Handed(frame, w[0]));
          assert h + w == h + [w[0]] + w[1..];
        }
      case GiveUp(caller) =>
        if caller in w {
          LineWithout(calls, q.rejected, h, w, [caller]);
          KeptDistinct(calls, q.rejected);
          DistinctApart(h, w);
          KeptWithout(w, caller);
        }
      case _ =>
        LineWithout(calls, q.rejected, h, w, w);
        KeptNone(w, w);
    }
  }

  /** First come, first served: while no frame is false, frames go to the callers in the order of their calls,
      leaving out only those whose calls were rejected. */
  lemma {:induction false} CallersInOrder(steps: seq<Step>)
    requires Clean(steps) && DistinctCallers(CallsInOrder(steps))
    ensures var q := Run(EMPTY, steps);
            && Callers(q.handed) + q.waiters == Kept(CallsInOrder(steps), q.rejected)
            && (forall c :: c in q.rejected ==> c in CallsInOrder(steps))
            && Law(q) && AllTruthy(q.messages)
    decreases |steps|
  {
    if steps == [] {
      assert Callers([]) == [] && Frames([]) + [] == [];
    } else {
      var n := |steps| - 1;
      var before, calls := Run(EMPTY, steps[..n]), CallsInOrder(steps[..n]);
      assert forall i :: 0 <= i < |calls| ==> calls[i] == CallsInOrder(steps)[i];
      CallersInOrder(steps[..n]);
      RunLast(EMPTY, steps);
      LawStep(before, steps[n]);
      if steps[n].Next? {
        NewCaller(calls, steps[n].caller);
        NextLine(before, calls, steps[n].caller);
      } else {
        assert CallsInOrder(steps) == calls;
        OtherLine(before, calls, steps[n]);
      }
    }
  }

  lemma NewCaller(calls: seq<Caller>, caller: Caller)
    requires DistinctCallers(calls + [caller])
    ensures caller !in calls
  {
    var all := calls + [caller];
    assert all[|calls|] == caller;
    assert forall i :: 0 <= i < |calls| ==> all[i] == calls[i];
  }

  /** Who gives up while waiting leaves the line rejected; a failure rejects everyone in it. */
  lemma LeavesRejected(q: Queue, caller: Caller)
    requires caller in q.waiters
    ensures var r := After(q, GiveUp(caller));
            && multiset(r.waiters)[caller] == multiset(q.waiters)[caller] - 1
            && multiset(r.rejected)[caller] == multiset(q.rejected)[caller] + 1
    ensures caller in After(q, Close).rejected && caller in After(q, Garbage).rejected
  {
    WithoutOne(q.waiters, caller);
  }
}
