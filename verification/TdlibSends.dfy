/** The race between a send's response and its completion update, resolved by the waiter and
    completed maps. */
module TdlibSends {
  import opened Prelude
  import opened Tdlib

  // ---- the insertion-ordered map ---------------------------------------------------

  ghost predicate Distinct<T>(m: seq<Entry<T>>) {
    forall i, j :: 0 <= i < j < |m| ==> m[i].id != m[j].id
  }

  predicate Has<T>(m: seq<Entry<T>>, id: int) { exists i :: 0 <= i < |m| && m[i].id == id }

  /** How many entries are younger than `id`. */
  function Behind(m: Ordered, id: int): nat {
    if m == [] then 0 else if m[0].id == id then |m| - 1 else Behind(m[1..], id)
  }

  lemma HasSplit<T>(m: seq<Entry<T>>, id: int)
    requires m != []
    ensures Has(m, id) <==> m[0].id == id || Has(m[1..], id)
  {
    if Has(m, id) && m[0].id != id {
      var i :| 0 <= i < |m| && m[i].id == id;
      assert m[1..][i - 1].id == id;
    }
    if Has(m[1..], id) {
      var i :| 0 <= i < |m[1..]| && m[1..][i].id == id;
      assert m[i + 1].id == id;
    }
  }

  lemma {:induction false} GetHas(m: Ordered, id: int)
    ensures Get(m, id).Some? <==> Has(m, id)
    ensures Get(m, id).Some? ==> Entry(id, Get(m, id).value) in m
  {
    if m != [] {
      HasSplit(m, id);
      GetHas(m[1..], id);
    }
  }

  lemma {:induction false} PutNew(m: Ordered, id: int, value: Message)
    requires !Has(m, id)
    ensures Put(m, id, value) == m + [Entry(id, value)]
  {
    if m != [] {
      HasSplit(m, id);
      PutNew(m[1..], id, value);
    }
  }

  lemma {:induction false} PutOld(m: Ordered, id: int, value: Message)
    requires Has(m, id)
    ensures var r := Put(m, id, value);
            |r| == |m| && forall i :: 0 <= i < |m| ==> r[i].id == m[i].id && (r[i] == m[i] || r[i] == Entry(id, value))
  {
    HasSplit(m, id);
    if m[0].id != id {
      PutOld(m[1..], id, value);
    }
  }

  lemma AppendDistinct(m: Ordered, id: int, value: Message)
    requires Distinct(m) && !Has(m, id)
    ensures Distinct(m + [Entry(id, value)])
  {
  }

  lemma TailLacks<T>(m: seq<Entry<T>>)
    requires Distinct(m) && m != []
    ensures !Has(m[1..], m[0].id)
  {
    assert forall i :: 1 <= i < |m| ==> m[0].id != m[i].id;
  }

  lemma {:induction false} DropSome(m: Ordered, id: int)
    requires Distinct(m)
    ensures Distinct(Drop(m, id)) && |Drop(m, id)| <= |m|
    ensures forall o :: Has(Drop(m, id), o) <==> Has(m, o) && o != id
    ensures forall e :: e in Drop(m, id) ==> e in m
  {
    if m != [] {
      DropSome(m[1..], id);
      var rest := Drop(m[1..], id);
      forall o
        ensures Has(Drop(m, id), o) <==> Has(m, o) && o != id
      {
        HasSplit(m, o);
        if m[0].id != id {
          HasSplit(Drop(m, id), o);
        } else {
          TailLacks(m);
        }
      }
      if m[0].id != id {
        forall i | 0 <= i < |rest|
          ensures rest[i].id != m[0].id
        {
          assert Has(rest, rest[i].id);
          var j :| 0 <= j < |m[1..]| && m[1..][j].id == rest[i].id;
          assert m[j + 1].id == rest[i].id;
        }
        assert Drop(m, id) == [m[0]] + rest;
      }
    }
  }

  /** Dropping another key leaves an entry its value and no more behind it. */
  lemma {:induction false} DropOther(m: Ordered, id: int, t: int)
    requires id != t && Has(m, t)
    ensures Get(Drop(m, id), t) == Get(m, t) && Behind(Drop(m, id), t) <= Behind(m, t)
    ensures |Drop(m, id)| <= |m|
  {
    HasSplit(m, t);
    if m[0].id == t {
      DropShrinks(m, id);
    } else if m[0].id != id {
      DropOther(m[1..], id, t);
    }
  }

  lemma {:induction false} DropShrinks(m: Ordered, id: int)
    ensures |Drop(m, id)| <= |m|
  {
    if m != [] {
      DropShrinks(m[1..], id);
    }
  }

  lemma {:induction false} AppendBehind(m: Ordered, e: Entry<Message>, t: int)
    requires Has(m, t)
    ensures Behind(m + [e], t) == Behind(m, t) + 1 && Get(m + [e], t) == Get(m, t)
  {
    HasSplit(m, t);
    if m[0].id != t {
      AppendBehind(m[1..], e, t);
      assert (m + [e])[1..] == m[1..] + [e];
    }
  }

  lemma {:induction false} PutOther(m: Ordered, id: int, value: Message, t: int)
    requires Has(m, id) && Has(m, t) && id != t
    ensures Get(Put(m, id, value), t) == Get(m, t) && Behind(Put(m, id, value), t) == Behind(m, t)
  {
    HasSplit(m, t);
    HasSplit(m, id);
    PutOld(m, id, value);
    if m[0].id != id && m[0].id != t {
      PutOther(m[1..], id, value, t);
    }
  }

  lemma {:induction false} BehindBound(m: Ordered, t: int)
    requires Has(m, t)
    ensures Behind(m, t) < |m|
    ensures Behind(m, t) == |m| - 1 <==> m[0].id == t
  {
    HasSplit(m, t);
    if m[0].id != t {
      BehindBound(m[1..], t);
    }
  }

  /** Remembering another completion loses `t` exactly when `t` is the oldest of a full map and the key is new. */
  lemma RememberOther(m: Ordered, id: int, value: Message, t: int)
    requires Distinct(m) && |m| <= CAPACITY && Has(m, t) && id != t
    ensures var r := Remember(m, id, value);
            && (Has(r, t) <==> Has(m, id) || Behind(m, t) < CAPACITY - 1)
            && (Has(r, t) ==> Get(r, t) == Get(m, t) && Behind(r, t) <= Behind(m, t) + (if Has(m, id) then 0 else 1))
            && (Has(r, t) && !Has(m, id) && m[0].id == t ==> Behind(r, t) == Behind(m, t) + 1)
  {
    BehindBound(m, t);
    if Has(m, id) {
      PutOther(m, id, value, t);
      PutOld(m, id, value);
      GetHas(m, t);
      GetHas(Put(m, id, value), t);
    } else {
      PutNew(m, id, value);
      AppendBehind(m, Entry(id, value), t);
      GetHas(m, t);
      var next := m + [Entry(id, value)];
      GetHas(next, t);
      if |next| > CAPACITY {
        assert next[0] == m[0];
        if m[0].id == t {
          AppendDistinct(m, id, value);
          TailLacks(next);
        } else {
          HasSplit(next, t);
          DropOther(next, next[0].id, t);
          GetHas(next[1..], t);
        }
      }
    }
  }

  lemma HasAppend<T>(m: seq<Entry<T>>, e: Entry<T>, o: int)
    ensures Has(m + [e], o) <==> Has(m, o) || e.id == o
  {
    var next := m + [e];
    assert next[|m|].id == e.id;
    if Has(m, o) {
      var i :| 0 <= i < |m| && m[i].id == o;
      assert next[i].id == o;
    }
  }

  /** What remembering keeps of the map, and adds to it. */
  ghost predicate Remembers(m: Ordered, r: Ordered, id: int, value: Message) {
    && Distinct(r) && |r| <= CAPACITY
    && (forall o :: Has(r, o) ==> Has(m, o) || o == id)
    && (forall e :: e in r ==> e in m || e == Entry(id, value))
  }

  lemma RememberOld(m: Ordered, id: int, value: Message)
    requires Distinct(m) && |m| <= CAPACITY && Has(m, id)
    ensures Remembers(m, Remember(m, id, value), id, value)
  {
    PutOld(m, id, value);
    var r := Put(m, id, value);
    forall e | e in r
      ensures e in m || e == Entry(id, value)
    {
      var i :| 0 <= i < |r| && r[i] == e;
      assert m[i] in m;
    }
  }

  lemma RememberNew(m: Ordered, id: int, value: Message)
    requires Distinct(m) && |m| <= CAPACITY && !Has(m, id)
    ensures var r := Remember(m, id, value);
            Remembers(m, r, id, value) && Has(r, id) && Get(r, id) == Some(value) && Behind(r, id) == 0
  {
    PutNew(m, id, value);
    if |m| + 1 > CAPACITY {
      assert m + [Entry(id, value)] == [m[0]] + (m[1..] + [Entry(id, value)]);
      TailHas(m, id);
      assert forall e :: e in m[1..] ==> e in m;
      Appended(m[1..], id, value);
    } else {
      Appended(m, id, value);
    }
  }

  lemma Appended(m: Ordered, id: int, value: Message)
    requires Distinct(m) && |m| < CAPACITY && !Has(m, id)
    ensures var r := m + [Entry(id, value)];
            Remembers(m, r, id, value) && Has(r, id) && Get(r, id) == Some(value) && Behind(r, id) == 0
  {
    AppendDistinct(m, id, value);
    LastEntry(m, id, value);
    forall o
      ensures Has(m + [Entry(id, value)], o) <==> Has(m, o) || o == id
    {
      HasAppend(m, Entry(id, value), o);
    }
  }

  lemma RememberKeeps(m: Ordered, id: int, value: Message)
    requires Distinct(m) && |m| <= CAPACITY
    ensures Remembers(m, Remember(m, id, value), id, value)
  {
    if Has(m, id) {
      RememberOld(m, id, value);
    } else {
      RememberNew(m, id, value);
    }
  }

  lemma TailHas<T>(m: seq<Entry<T>>, id: int)
    requires m != []
    ensures forall o :: Has(m[1..], o) ==> Has(m, o)
    ensures !Has(m, id) ==> !Has(m[1..], id)
  {
    forall o
      ensures Has(m[1..], o) ==> Has(m, o)
    {
      HasSplit(m, o);
    }
  }

  lemma {:induction false} LastEntry(m: Ordered, id: int, value: Message)
    requires !Has(m, id)
    ensures var r := m + [Entry(id, value)];
            Get(r, id) == Some(value) && Behind(r, id) == 0 && Has(r, id)
  {
    var r := m + [Entry(id, value)];
    assert r[|m|].id == id;
    if m != [] {
      HasSplit(m, id);
      LastEntry(m[1..], id, value);
      assert r[1..] == m[1..] + [Entry(id, value)];
    }
  }

  // ---- runs -----------------------------------------------------------------------------

  datatype Step =
    | Request(extra: nat)
    | Line(value: Value)
    | Resume
    | Timer(id: int)
    | GiveUp(extra: nat)       // a request's timeout, or a failed write
    | Exit(order: seq<int>)    // the child process exits

  predicate InReady(s: Session, id: int) { Sending(id) in s.ready }

  /** TDLib gives every message being sent its own temporary id. */
  predicate Enabled(s: Session, step: Step) {
    match step
    case Line(Reply(_, Sending(id))) => id !in s.continued && !InReady(s, id)
    case Resume => s.ready != []
    case Exit(order) => Lists(order, s.waiters)
    case _ => true
  }

  function After(s: Session, step: Step): Session
    requires Enabled(s, step)
  {
    match step
    case Request(extra) => s.(pending := s.pending + {extra})
    case Line(v) => Dispatch(s, v)
    case Resume => Continue(s)
    case Timer(id) => Expire(s, id)
    case GiveUp(extra) => Abandon(s, extra)
    case Exit(order) => Tdlib.Exit(s, order)
  }

  ghost predicate Leads(s: Session, steps: seq<Step>, t: Session)
    decreases |steps|
  {
    if steps == [] then s == t
    else Enabled(s, steps[0]) && Leads(After(s, steps[0]), steps[1..], t)
  }

  const INITIAL: Session := Session({}, [], {}, [], {}, [], [])

  // ---- the invariant ----------------------------------------------------------------------

  ghost predicate MapsHold(s: Session) {
    && Distinct(s.completed) && |s.completed| <= CAPACITY
    && (forall id :: id in s.waiters ==> !Has(s.completed, id))
    && (forall e :: e in s.completed ==> Succeeded(e.id, e.value) in s.updates)
  }

  /** A continued send is waiting or has ended once, and a resolved one with a message an update brought. */
  ghost predicate SendsHold(s: Session) {
    && Distinct(s.outcomes)
    && (forall id :: id in s.continued <==> id in s.waiters || Has(s.outcomes, id))
    && (forall id :: id in s.waiters ==> !Has(s.outcomes, id))
    && (forall e :: e in s.outcomes && e.value.Resolved? ==> Succeeded(e.id, e.value.message) in s.updates)
  }

  ghost predicate ReadyHolds(s: Session) {
    && (forall i, j :: 0 <= i < j < |s.ready| && s.ready[i].Sending? ==> s.ready[i] != s.ready[j])
    && (forall id :: InReady(s, id) ==> id !in s.continued)
  }

  ghost predicate Inv(s: Session) { MapsHold(s) && SendsHold(s) && ReadyHolds(s) }

  /** A send ends: it was waiting, or is being continued now. */
  lemma Ends(s: Session, t: Session, id: int, outcome: Outcome)
    requires SendsHold(s) && !Has(s.outcomes, id)
    requires t.outcomes == s.outcomes + [Entry(id, outcome)]
    requires t.waiters == s.waiters - {id} && t.continued == s.continued + {id}
    requires forall u :: u in s.updates ==> u in t.updates
    requires outcome.Resolved? ==> Succeeded(id, outcome.message) in t.updates
    ensures SendsHold(t)
  {
    forall o
      ensures Has(t.outcomes, o) <==> Has(s.outcomes, o) || o == id
    {
      HasAppend(s.outcomes, Entry(id, outcome), o);
    }
  }

  lemma LineKeeps(s: Session, v: Value)
    requires Inv(s) && Enabled(s, Line(v))
    ensures Inv(Dispatch(s, v))
  {
    var t := Dispatch(s, v);
    match v {
      case Succeeded(id, message) =>
        if id in s.waiters {
          Ends(s, t, id, Resolved(message));
        } else {
          RememberKeeps(s.completed, id, message);
        }
      case Failed(id) =>
        if id in s.waiters {
          Ends(s, t, id, Refused);
        }
      case _ =>
    }
  }

  lemma ResumeKeeps(s: Session)
    requires Inv(s) && s.ready != []
    ensures Inv(Continue(s))
  {
    var t := Continue(s);
    var r := s.ready[0];
    assert forall x :: x in t.ready ==> x in s.ready;
    if r.Sending? {
      var id := r.temporary;
      assert InReady(s, id);
      GetHas(s.completed, id);
      if Get(s.completed, id).Some? {
        DropSome(s.completed, id);
        Ends(s, t, id, Resolved(Get(s.completed, id).value));
      }
    }
  }

  lemma StepKeeps(s: Session, step: Step)
    requires Inv(s) && Enabled(s, step)
    ensures Inv(After(s, step))
  {
    match step {
      case Request(_) =>
      case Line(v) => LineKeeps(s, v);
      case Resume => ResumeKeeps(s);
      case Timer(id) =>
        if id in s.waiters {
          Ends(s, After(s, step), id, TimedOut);
        }
      case GiveUp(_) =>
      case Exit(order) => ExitKeeps(s, order);
    }
  }

  lemma HasConcat<T>(a: seq<Entry<T>>, b: seq<Entry<T>>, id: int)
    ensures Has(a + b, id) <==> Has(a, id) || Has(b, id)
  {
    var c := a + b;
    if Has(a, id) {
      var i :| 0 <= i < |a| && a[i].id == id;
      assert c[i].id == id;
    }
    if Has(b, id) {
      var i :| 0 <= i < |b| && b[i].id == id;
      assert c[|a| + i].id == id;
    }
  }

  lemma HasEndings(order: seq<int>, waiters: set<int>)
    requires Lists(order, waiters)
    ensures Distinct(Endings(order)) && forall id :: Has(Endings(order), id) <==> id in waiters
  {
    forall id
      ensures Has(Endings(order), id) <==> id in waiters
    {
      if id in waiters {
        var i :| 0 <= i < |order| && order[i] == id;
        assert Endings(order)[i].id == id;
      }
    }
  }

  lemma DistinctConcat<T>(a: seq<Entry<T>>, b: seq<Entry<T>>)
    requires Distinct(a) && Distinct(b) && forall id :: !(Has(a, id) && Has(b, id))
    ensures Distinct(a + b)
  {
    forall i, j | 0 <= i < |a| && 0 <= j < |b|
      ensures a[i].id != b[j].id
    {
      assert Has(a, a[i].id);
    }
  }

  lemma ExitKeeps(s: Session, order: seq<int>)
    requires Inv(s) && Lists(order, s.waiters)
    ensures Inv(Tdlib.Exit(s, order))
  {
    var ends := Endings(order);
    HasEndings(order, s.waiters);
    DistinctConcat(s.outcomes, ends);
    forall id
      ensures Has(s.outcomes + ends, id) <==> Has(s.outcomes, id) || Has(ends, id)
    {
      HasConcat(s.outcomes, ends, id);
    }
  }

  lemma {:induction false} RunKeeps(s: Session, steps: seq<Step>, t: Session)
    requires Inv(s) && Leads(s, steps, t)
    ensures Inv(t)
    decreases |steps|
  {
    if steps != [] {
      StepKeeps(s, steps[0]);
      RunKeeps(After(s, steps[0]), steps[1..], t);
    }
  }

  /** In every run: no id is both waited for and remembered, at most a hundred completions are
      remembered, every continued send is waiting or has ended, none ends twice, and one that resolves
      does so with a message an update brought for it. */
  lemma SendsEndOnce(steps: seq<Step>, s: Session)
    requires Leads(INITIAL, steps, s)
    ensures |s.completed| <= 100
    ensures forall id :: id in s.waiters ==> !Has(s.completed, id) && !Has(s.outcomes, id)
    ensures forall id :: id in s.continued <==> id in s.waiters || Has(s.outcomes, id)
    ensures forall i, j :: 0 <= i < j < |s.outcomes| ==> s.outcomes[i].id != s.outcomes[j].id
    ensures forall e :: e in s.outcomes && e.value.Resolved? ==> Succeeded(e.id, e.value.message) in s.updates
  {
    RunKeeps(INITIAL, steps, s);
  }

  // ---- the completion first, the response later ----------------------------------------------

  /** A completion nobody waits for, of an id not remembered yet. */
  predicate IsUnmatched(s: Session, step: Step) {
    step.Line? && step.value.Succeeded? && step.value.sent !in s.waiters && !Has(s.completed, step.value.sent)
  }

  ghost function Unmatched(s: Session, steps: seq<Step>): nat
    decreases |steps|
  {
    if steps == [] || !Enabled(s, steps[0]) then 0
    else (if IsUnmatched(s, steps[0]) then 1 else 0) + Unmatched(After(s, steps[0]), steps[1..])
  }

  /** Steps that concern other sends than `id`. */
  predicate Aside(s: Session, step: Step, id: int) {
    && (step.Line? && step.value.Succeeded? ==> step.value.sent != id)
    && (step.Resume? && s.ready != [] ==> s.ready[0] != Sending(id))
  }

  ghost predicate AllAside(s: Session, steps: seq<Step>, id: int)
    decreases |steps|
  {
    steps == []
    || (Aside(s, steps[0], id) && (Enabled(s, steps[0]) ==> AllAside(After(s, steps[0]), steps[1..], id)))
  }

  lemma AsideStep(s: Session, step: Step, id: int)
    requires MapsHold(s) && Enabled(s, step) && Aside(s, step, id) && Has(s.completed, id)
    requires IsUnmatched(s, step) ==> Behind(s.completed, id) < CAPACITY - 1
    ensures var t := After(s, step);
            && Has(t.completed, id) && Get(t.completed, id) == Get(s.completed, id)
            && Behind(t.completed, id) <= Behind(s.completed, id) + (if IsUnmatched(s, step) then 1 else 0)
  {
    if step.Line? && step.value.Succeeded? && step.value.sent !in s.waiters {
      RememberOther(s.completed, step.value.sent, step.value.message, id);
    } else if step.Resume? && s.ready[0].Sending? {
      DropOther(s.completed, s.ready[0].temporary, id);
      GetHas(s.completed, id);
      GetHas(Drop(s.completed, s.ready[0].temporary), id);
    }
  }

  lemma {:induction false} StaysRemembered(s: Session, steps: seq<Step>, t: Session, id: int)
    requires Inv(s) && Leads(s, steps, t) && AllAside(s, steps, id) && Has(s.completed, id)
    requires Behind(s.completed, id) + Unmatched(s, steps) < CAPACITY
    ensures Get(t.completed, id) == Get(s.completed, id)
    decreases |steps|
  {
    if steps != [] {
      AsideStep(s, steps[0], id);
      StepKeeps(s, steps[0]);
      StaysRemembered(After(s, steps[0]), steps[1..], t, id);
    }
  }

  /** A completion processed before the continuation of its send is not lost as long as fewer than a
      hundred unmatched completions come in between: the continuation resolves with its message. */
  lemma EarlyCompletionResolves(s: Session, id: int, message: Message, steps: seq<Step>, t: Session)
    requires Inv(s) && id !in s.waiters && !Has(s.completed, id)
    requires var u := Dispatch(s, Succeeded(id, message));
             Leads(u, steps, t) && AllAside(u, steps, id) && Unmatched(u, steps) < 100
    requires t.ready != [] && t.ready[0] == Sending(id)
    ensures Continue(t).outcomes == t.outcomes + [Entry(id, Resolved(message))]
    ensures !Has(Continue(t).completed, id) && forall o :: o != id && Has(t.completed, o) ==> Has(Continue(t).completed, o)
  {
    var u := Dispatch(s, Succeeded(id, message));
    LineKeeps(s, Succeeded(id, message));
    RememberNew(s.completed, id, message);
    StaysRemembered(u, steps, t, id);
    RunKeeps(u, steps, t);
    DropSome(t.completed, id);
  }

  /** The other order: the waiter is resolved on the spot. */
  lemma LateCompletionResolves(s: Session, id: int, message: Message)
    requires Inv(s) && s.ready != [] && s.ready[0] == Sending(id) && !Has(s.completed, id)
    ensures var t := Continue(s);
            id in t.waiters && t.outcomes == s.outcomes
            && Dispatch(t, Succeeded(id, message)).outcomes == s.outcomes + [Entry(id, Resolved(message))]
  {
    GetHas(s.completed, id);
  }

  // ---- exactly when it is lost -----------------------------------------------------------------

  ghost predicate Burst(s: Session, id: int, ids: seq<int>) {
    && (forall i :: 0 <= i < |ids| ==> ids[i] != id && ids[i] !in s.waiters && !Has(s.completed, ids[i]))
    && (forall i, j :: 0 <= i < j < |ids| ==> ids[i] != ids[j])
  }

  function Completions(ids: seq<int>, message: Message): seq<Value> {
    seq(|ids|, i requires 0 <= i < |ids| => Succeeded(ids[i], message))
  }

  /** `n` completions of the burst have been processed: the early one has `n` behind it, or has gone. */
  ghost predicate BurstAt(s: Session, t: Session, id: int, ids: seq<int>, n: nat) {
    && Inv(t) && t.waiters == s.waiters
    && (forall i :: n <= i < |ids| ==> !Has(t.completed, ids[i]))
    && (if n < CAPACITY then Has(t.completed, id) && Behind(t.completed, id) == n else !Has(t.completed, id))
  }

  lemma {:induction false} BurstCounts(s: Session, id: int, ids: seq<int>, message: Message, n: nat)
    requires Inv(s) && Has(s.completed, id) && Behind(s.completed, id) == 0 && id !in s.waiters
    requires Burst(s, id, ids) && n <= |ids|
    ensures BurstAt(s, DispatchAll(s, Completions(ids, message)[..n]), id, ids, n)
  {
    var values := Completions(ids, message);
    if n == 0 {
      assert values[..0] == [];
    } else {
      BurstCounts(s, id, ids, message, n - 1);
      LastValue(s, values, n);
      BurstNext(s, DispatchAll(s, values[..n - 1]), id, ids, message, n);
    }
  }

  lemma LastValue(s: Session, values: seq<Value>, n: nat)
    requires 0 < n <= |values|
    ensures DispatchAll(s, values[..n]) == Dispatch(DispatchAll(s, values[..n - 1]), values[n - 1])
  {
    assert values[..n][..n - 1] == values[..n - 1];
  }

  lemma BurstNext(s: Session, t: Session, id: int, ids: seq<int>, message: Message, n: nat)
    requires Burst(s, id, ids) && 0 < n <= |ids| && BurstAt(s, t, id, ids, n - 1)
    ensures BurstAt(s, Dispatch(t, Succeeded(ids[n - 1], message)), id, ids, n)
  {
    var u := Dispatch(t, Succeeded(ids[n - 1], message));
    BurstStep(t, id, ids[n - 1], message, n);
    RememberKeeps(t.completed, ids[n - 1], message);
    BurstRest(s, t, u, id, ids, n);
  }

  lemma BurstRest(s: Session, t: Session, u: Session, id: int, ids: seq<int>, n: nat)
    requires Burst(s, id, ids) && 0 < n <= |ids|
    requires forall i :: n - 1 <= i < |ids| ==> !Has(t.completed, ids[i])
    requires forall o :: Has(u.completed, o) ==> Has(t.completed, o) || o == ids[n - 1]
    ensures forall i :: n <= i < |ids| ==> !Has(u.completed, ids[i])
  {
  }

  lemma BurstStep(t: Session, id: int, x: int, message: Message, n: nat)
    requires Inv(t) && x != id && x !in t.waiters && !Has(t.completed, x) && n > 0
    requires if n - 1 < CAPACITY then Has(t.completed, id) && Behind(t.completed, id) == n - 1 else !Has(t.completed, id)
    ensures var u := Dispatch(t, Succeeded(x, message));
            && Inv(u) && u.waiters == t.waiters && u.completed == Remember(t.completed, x, message)
            && (if n < CAPACITY then Has(u.completed, id) && Behind(u.completed, id) == n else !Has(u.completed, id))
  {
    LineKeeps(t, Succeeded(x, message));
    RememberKeeps(t.completed, x, message);
    if n <= CAPACITY {
      BehindBound(t.completed, id);
      RememberOther(t.completed, x, message, id);
      if n < CAPACITY {
        BehindGrows(t.completed, x, message, id);
      }
    }
  }

  lemma BehindGrows(m: Ordered, id: int, value: Message, t: int)
    requires Distinct(m) && |m| <= CAPACITY && Has(m, t) && id != t && !Has(m, id) && Behind(m, t) < CAPACITY - 1
    ensures Behind(Remember(m, id, value), t) == Behind(m, t) + 1
  {
    PutNew(m, id, value);
    AppendBehind(m, Entry(id, value), t);
    BehindBound(m, t);
    var next := m + [Entry(id, value)];
    if |next| > CAPACITY {
      assert next[0] == m[0] && m[0].id != t;
    }
  }

  /** Exactly a hundred: when nothing is continued meanwhile, an early completion is still remembered
      if and only if at most 99 others follow it. */
  lemma RememberedIff(s: Session, id: int, first: Message, ids: seq<int>, message: Message)
    requires Inv(s) && id !in s.waiters && !Has(s.completed, id)
    requires Burst(Dispatch(s, Succeeded(id, first)), id, ids)
    ensures var t := DispatchAll(Dispatch(s, Succeeded(id, first)), Completions(ids, message));
            Has(t.completed, id) <==> |ids| <= 99
  {
    var u := Dispatch(s, Succeeded(id, first));
    LineKeeps(s, Succeeded(id, first));
    RememberNew(s.completed, id, first);
    BurstCounts(u, id, ids, message, |ids|);
    assert Completions(ids, message)[..|ids|] == Completions(ids, message);
  }

  // ---- exactly when, in any run ------------------------------------------------------------------

  /** A new completion arrives while 99 younger ones are stored behind `id`. */
  predicate Evicts(s: Session, step: Step, id: int) {
    IsUnmatched(s, step) && Behind(s.completed, id) == CAPACITY - 1
  }

  ghost predicate EvictedAlong(s: Session, steps: seq<Step>, id: int)
    decreases |steps|
  {
    steps != [] && Enabled(s, steps[0])
    && (Evicts(s, steps[0], id) || EvictedAlong(After(s, steps[0]), steps[1..], id))
  }

  lemma EvictsStep(s: Session, step: Step, id: int)
    requires MapsHold(s) && Enabled(s, step) && Aside(s, step, id) && Has(s.completed, id)
    ensures Has(After(s, step).completed, id) <==> !Evicts(s, step, id)
    ensures !Evicts(s, step, id) ==> Get(After(s, step).completed, id) == Get(s.completed, id)
  {
    BehindBound(s.completed, id);
    if Evicts(s, step, id) {
      RememberOther(s.completed, step.value.sent, step.value.message, id);
    } else {
      AsideStep(s, step, id);
    }
  }

  lemma NotBackStep(s: Session, step: Step, id: int)
    requires MapsHold(s) && Enabled(s, step) && Aside(s, step, id) && !Has(s.completed, id)
    ensures !Has(After(s, step).completed, id)
  {
    if step.Line? && step.value.Succeeded? && step.value.sent !in s.waiters {
      RememberKeeps(s.completed, step.value.sent, step.value.message);
    } else if step.Resume? && s.ready[0].Sending? {
      DropSome(s.completed, s.ready[0].temporary);
    }
  }

  lemma {:induction false} NotBack(s: Session, steps: seq<Step>, t: Session, id: int)
    requires Inv(s) && Leads(s, steps, t) && AllAside(s, steps, id) && !Has(s.completed, id)
    ensures !Has(t.completed, id)
    decreases |steps|
  {
    if steps != [] {
      NotBackStep(s, steps[0], id);
      StepKeeps(s, steps[0]);
      NotBack(After(s, steps[0]), steps[1..], t, id);
    }
  }

  /** In any run, with continuations, timeouts and exits as they come: a remembered completion is still there,
      unchanged, if and only if no new one arrived while 99 younger ones were stored. */
  lemma {:induction false} StaysRememberedIff(s: Session, steps: seq<Step>, t: Session, id: int)
    requires Inv(s) && Leads(s, steps, t) && AllAside(s, steps, id) && Has(s.completed, id)
    ensures Has(t.completed, id) <==> !EvictedAlong(s, steps, id)
    ensures Has(t.completed, id) ==> Get(t.completed, id) == Get(s.completed, id)
    decreases |steps|
  {
    if steps != [] {
      var next := After(s, steps[0]);
      EvictsStep(s, steps[0], id);
      StepKeeps(s, steps[0]);
      if Has(next.completed, id) {
        StaysRememberedIff(next, steps[1..], t, id);
      } else {
        NotBack(next, steps[1..], t, id);
      }
    }
  }

  // ---- the failure first ----------------------------------------------------------------------

  /** No completion and no further failure comes for `id`. */
  predicate NoNews(steps: seq<Step>, id: int) {
    forall i :: 0 <= i < |steps| && steps[i].Line? ==>
      steps[i].value != Failed(id) && (steps[i].value.Succeeded? ==> steps[i].value.sent != id)
  }

  predicate GivenUp(o: Outcome) { o == TimedOut || o == Outcome.Exited }

  /** Nothing is known of the send: it can only be given up. */
  ghost predicate Unheard(s: Session, id: int) {
    !Has(s.completed, id) && forall e :: e in s.outcomes && e.id == id ==> GivenUp(e.value)
  }

  lemma UnheardStep(s: Session, step: Step, id: int)
    requires MapsHold(s) && Enabled(s, step) && Unheard(s, id) && NoNews([step], id)
    ensures Unheard(After(s, step), id)
  {
    assert [step][0] == step;
    match step {
      case Line(Succeeded(o, message)) =>
        if o !in s.waiters {
          RememberKeeps(s.completed, o, message);
        }
      case Resume => UnheardResume(s, id);
      case _ =>
    }
  }

  lemma UnheardResume(s: Session, id: int)
    requires MapsHold(s) && s.ready != [] && Unheard(s, id)
    ensures Unheard(Continue(s), id)
  {
    if s.ready[0].Sending? {
      var o := s.ready[0].temporary;
      GetHas(s.completed, o);
      DropSome(s.completed, o);
    }
  }

  lemma {:induction false} UnheardRun(s: Session, steps: seq<Step>, t: Session, id: int)
    requires Inv(s) && Leads(s, steps, t) && Unheard(s, id) && NoNews(steps, id)
    ensures Unheard(t, id)
    decreases |steps|
  {
    if steps != [] {
      UnheardStep(s, steps[0], id);
      StepKeeps(s, steps[0]);
      UnheardRun(After(s, steps[0]), steps[1..], t, id);
    }
  }

  lemma {:induction false} OutcomesStay(s: Session, steps: seq<Step>, t: Session)
    requires Leads(s, steps, t)
    ensures forall e :: e in s.outcomes ==> e in t.outcomes
    decreases |steps|
  {
    if steps != [] {
      OutcomesStay(After(s, steps[0]), steps[1..], t);
    }
  }

  /** A failure update ends its send as refused if and only if the send is waiting when it comes. Otherwise
      it is forgotten: whatever happens then, short of more news of that send, its only possible end is to
      be given up, by its timeout or with the process. */
  lemma FailureHeardIff(s: Session, id: int, steps: seq<Step>, t: Session)
    requires Inv(s) && !Has(s.completed, id) && !Has(s.outcomes, id)
    requires Leads(Dispatch(s, Failed(id)), steps, t) && NoNews(steps, id)
    ensures Entry(id, Refused) in t.outcomes <==> id in s.waiters
    ensures id !in s.waiters ==> forall e :: e in t.outcomes && e.id == id ==> e.value == TimedOut || e.value == Outcome.Exited
  {
    var u := Dispatch(s, Failed(id));
    LineKeeps(s, Failed(id));
    if id in s.waiters {
      assert Entry(id, Refused) in u.outcomes;
      OutcomesStay(u, steps, t);
    } else {
      assert forall e :: e in s.outcomes && e.id == id ==> Has(s.outcomes, id);
      UnheardRun(u, steps, t, id);
    }
  }
}
