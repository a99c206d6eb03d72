/** The realtime outbox: rows are committed by other transactions in any order of ids, read in
    batches of the lowest pending ids, published and then marked delivered. */
module Outbox {
  import opened Prelude
  import opened Tables
  import opened Listing

  type Table = map<nat, OutboxRow>

  /** What a subscriber is sent. */
  datatype Notice = Notice(id: nat, user: string, kind: EventKind, messageId: MessageId, message: Message)

  function NoticeOf(id: nat, row: OutboxRow): Notice {
    Notice(id, row.user, row.kind, row.messageId, row.message)
  }

  predicate IsPending(table: Table, id: nat) { id in table && table[id].deliveredAt.None? }

  function Undelivered(table: Table): set<nat> { set i | i in table && IsPending(table, i) }

  predicate Below(a: nat, b: nat) { a < b }

  lemma BelowIsStrict()
    ensures StrictOrder(Below)
  {
  }

  /** The pending ids, ascending. */
  ghost function Waiting(table: Table): (r: seq<nat>)
    ensures Ordered(r, Below) && Lists(r, Undelivered(table)) && |r| == |Undelivered(table)|
  {
    BelowIsStrict();
    ListingSize(Undelivered(table), Below);
    Of(Undelivered(table), Below)
  }

  lemma WaitingIs(table: Table, r: seq<nat>)
    requires Ordered(r, Below) && Lists(r, Undelivered(table))
    ensures Waiting(table) == r
  {
    BelowIsStrict();
    ListingIs(Undelivered(table), Below, r);
  }

  const DRAIN: nat := 100

  function Limit(limit: int): nat { if limit <= 0 || limit > 1000 then 100 else limit }

  ghost function Batch(table: Table): seq<nat> { First(Waiting(table), DRAIN) }

  function Notices(table: Table, ids: seq<nat>): (r: seq<Notice>)
    requires forall id :: id in ids ==> id in table
    ensures |r| == |ids| && forall i :: 0 <= i < |r| ==> r[i] == NoticeOf(ids[i], table[ids[i]])
  {
    seq(|ids|, i requires 0 <= i < |ids| => NoticeOf(ids[i], table[ids[i]]))
  }

  function Marked(table: Table, id: nat, now: Instant): Table {
    if IsPending(table, id) then table[id := table[id].(deliveredAt := Some(now))] else table
  }

  function MarkedAll(table: Table, ids: seq<nat>, now: Instant): Table {
    if ids == [] then table else Marked(MarkedAll(table, ids[..|ids| - 1], now), ids[|ids| - 1], now)
  }

  lemma MarkedOne(table: Table, id: nat, now: Instant)
    ensures forall i :: IsPending(Marked(table, id, now), i) <==> IsPending(table, i) && i != id
    ensures Marked(table, id, now).Keys == table.Keys
    ensures forall i :: i in table ==> NoticeOf(i, Marked(table, id, now)[i]) == NoticeOf(i, table[i])
  {
  }

  lemma {:induction false} MarkedAllPending(table: Table, ids: seq<nat>, now: Instant)
    ensures forall i :: IsPending(MarkedAll(table, ids, now), i) <==> IsPending(table, i) && i !in ids
    ensures MarkedAll(table, ids, now).Keys == table.Keys
    ensures forall i :: i in table ==> NoticeOf(i, MarkedAll(table, ids, now)[i]) == NoticeOf(i, table[i])
  {
    if ids != [] {
      var last := |ids| - 1;
      MarkedAllPending(table, ids[..last], now);
      var x, y := MarkedAll(table, ids[..last], now), MarkedAll(table, ids, now);
      assert y == Marked(x, ids[last], now);
      MarkedOne(x, ids[last], now);
      assert forall i :: i in ids <==> i in ids[..last] || i == ids[last];
    }
  }

  // ---- one drain, undisturbed ------------------------------------------------

  class Relay {
    var table: Table
    var published: seq<Notice>

    /** The lowest pending ids, ascending. */
    method PendingOutbox(limit: int) returns (ids: seq<nat>)
      ensures ids == First(Waiting(table), if 1 <= limit <= 1000 then limit else 100)
    {
      var bound := Limit(limit);
      var rest := Undelivered(table);
      ids := [];
      ghost var all := Waiting(table);
      assert all[..0] == [];
      while rest != {} && |ids| < bound
        invariant |ids| <= |all| && |ids| <= bound && ids == all[..|ids|]
        invariant forall i :: i in rest <==> i in all[|ids|..]
        decreases |rest|
      {
        var least := Least(rest);
        TakesNext(all, |ids|, least);
        ids := ids + [least];
        rest := rest - {least};
      }
      assert |ids| < |all| ==> all[|ids|] in all[|ids|..];
    }

    method MarkDelivered(id: nat, now: Instant)
      modifies this`table
      ensures table == Marked(old(table), id, now)
    {
      if id in table && table[id].deliveredAt.None? {
        table := table[id := table[id].(deliveredAt := Some(now))];
      }
    }

    /** One drain in which the calls numbered `publishFails` and `markFails` fail, if reached. */
    method Drain(now: Instant, publishFails: nat, markFails: nat) returns (ok: bool, ghost sent: nat, ghost marked: nat)
      modifies this
      ensures var batch := Batch(old(table));
              && marked <= sent <= |batch| && sent <= marked + 1
              && (forall id :: id in batch ==> id in old(table))
              && published == old(published) + Notices(old(table), batch)[..sent]
              && table == MarkedAll(old(table), batch[..marked], now)
              && (ok <==> marked == |batch|)
              && (ok <==> publishFails >= |batch| && markFails >= |batch|)
    {
      var batch := PendingOutbox(DRAIN);
      assert batch == Batch(table);
      forall id | id in batch
        ensures id in table
      {
        assert id in Waiting(table);
      }
      ok, sent, marked := Deliver(batch, Notices(table, batch), now, publishFails, markFails);
    }

    /** The loop of a drain: publish, then mark, one row after another. */
    method Deliver(batch: seq<nat>, events: seq<Notice>, now: Instant, publishFails: nat, markFails: nat)
      returns (ok: bool, ghost sent: nat, ghost marked: nat)
      requires |events| == |batch|
      modifies this
      ensures marked <= sent <= |batch| && sent <= marked + 1
      ensures published == old(published) + events[..sent]
      ensures table == MarkedAll(old(table), batch[..marked], now)
      ensures ok <==> marked == |batch|
      ensures ok <==> publishFails >= |batch| && markFails >= |batch|
    {
      sent, marked := 0, 0;
      for i := 0 to |batch|
        invariant sent == i && marked == i && i <= publishFails && i <= markFails
        invariant published == old(published) + events[..i]
        invariant table == MarkedAll(old(table), batch[..i], now)
      {
        if i == publishFails {
          return false, sent, marked;
        }
        published := published + [events[i]];
        sent := i + 1;
        assert events[..i + 1] == events[..i] + [events[i]];
        if i == markFails {
          return false, sent, marked;
        }
        MarkDelivered(batch[i], now);
        marked := i + 1;
        assert batch[..i + 1][..i] == batch[..i];
      }
      ok := true;
    }
  }

  method Least(s: set<nat>) returns (least: nat)
    requires s != {}
    ensures least in s && forall i :: i in s ==> least <= i
  {
    least :| least in s;
    var unseen := s;
    while unseen != {}
      invariant unseen <= s && least in s
      invariant forall i :: i in s && i !in unseen ==> least <= i
      decreases |unseen|
    {
      var i :| i in unseen;
      unseen := unseen - {i};
      if i < least {
        least := i;
      }
    }
  }

  /** The least of the rest of an ascending sequence is its next element. */
  lemma TakesNext(all: seq<nat>, n: nat, least: nat)
    requires Ordered(all, Below) && n <= |all|
    requires least in all[n..] && forall i :: i in all[n..] ==> least <= i
    ensures n < |all| && all[n] == least && all[..n + 1] == all[..n] + [least]
    ensures forall i :: i in all[n + 1..] <==> i in all[n..] && i != least
  {
    var k :| 0 <= k < |all[n..]| && all[n..][k] == least;
    assert all[n..][k] == all[n + k];
    assert all[n] == all[n..][0] && all[n] in all[n..];
    assert k > 0 ==> Below(all[n], all[n + k]);
    assert all[n..] == [all[n]] + all[n + 1..];
    assert forall j :: n < j < |all| ==> Below(all[n], all[j]);
  }

  // ---- clearing a backlog ------------------------------------------------------

  ghost function Drained(table: Table, now: Instant): Table { MarkedAll(table, Batch(table), now) }

  ghost function DrainedTimes(table: Table, now: Instant, times: nat): Table
    decreases times
  {
    if times == 0 then table else DrainedTimes(Drained(table, now), now, times - 1)
  }

  lemma TailMembers(all: seq<nat>, n: nat)
    requires Ordered(all, Below) && n <= |all|
    ensures forall i :: i in all[n..] <==> i in all && i !in all[..n]
  {
    assert all == all[..n] + all[n..];
    forall i | i in all[n..]
      ensures i !in all[..n]
    {
      var k :| n <= k < |all| && all[k] == i;
      assert forall j :: 0 <= j < n ==> Below(all[j], all[k]);
    }
  }

  lemma DrainTakesPrefix(table: Table, now: Instant)
    ensures Waiting(Drained(table, now)) == Waiting(table)[|Batch(table)|..]
  {
    var all := Waiting(table);
    var n := |Batch(table)|;
    assert Batch(table) == all[..n];
    MarkedAllPending(table, Batch(table), now);
    TailMembers(all, n);
    WaitingIs(Drained(table, now), all[n..]);
  }

  function Min(a: nat, b: nat): nat { if a <= b then a else b }

  /** Drains with nothing committed in between remove exactly a hundred rows each, lowest first. */
  lemma {:induction false} BacklogAfter(table: Table, now: Instant, times: nat)
    ensures Waiting(DrainedTimes(table, now, times)) == Waiting(table)[Min(times * 100, |Waiting(table)|)..]
    decreases times
  {
    if times > 0 {
      var next := Drained(table, now);
      DrainTakesPrefix(table, now);
      BacklogAfter(next, now, times - 1);
      DropMore(Waiting(table), Waiting(next), Waiting(DrainedTimes(next, now, times - 1)), times);
    }
  }

  lemma DropMore(all: seq<nat>, rest: seq<nat>, last: seq<nat>, times: nat)
    requires times > 0 && rest == all[Min(DRAIN, |all|)..] && last == rest[Min((times - 1) * DRAIN, |rest|)..]
    ensures last == all[Min(times * DRAIN, |all|)..]
  {
  }

  /** n pending rows are cleared by ceil(n / 100) undisturbed drains and by no fewer. */
  lemma BacklogClears(table: Table, now: Instant, times: nat)
    ensures Undelivered(DrainedTimes(table, now, times)) == {} <==> times >= (|Undelivered(table)| + 99) / 100
  {
    BacklogAfter(table, now, times);
    assert |Undelivered(DrainedTimes(table, now, times))| == |Waiting(DrainedTimes(table, now, times))|;
  }

  // ---- drains among commits, failures, restarts and retention --------------------

  datatype Progress =
    | Idle
    | Draining(batch: seq<Notice>, k: nat, sent: bool) // `sent`: batch[k] is published and not yet marked

  datatype State = State(
    table: Table,
    progress: Progress,
    published: seq<Notice>,
    // history: every row ever committed, drains completed, and publications whose mark never came
    committed: map<nat, Notice>,
    drains: nat,
    interrupted: multiset<nat>)

  datatype Step =
    | Commit(id: nat, row: OutboxRow)
    | Begin
    | PublishNext
    | MarkNext(now: Instant)
    | Finish
    | Abort
    | Prune(before: Instant)

  ghost predicate Enabled(s: State, step: Step) {
    match step
    case Commit(id, row) => id !in s.committed && row.deliveredAt.None?
    case Begin => s.progress.Idle?
    case PublishNext => s.progress.Draining? && s.progress.k < |s.progress.batch| && !s.progress.sent
    case MarkNext(_) => s.progress.Draining? && s.progress.k < |s.progress.batch| && s.progress.sent
    case Finish => s.progress.Draining? && s.progress.k == |s.progress.batch|
    case Abort => s.progress.Draining?
    case Prune(_) => true
  }

  function Trimmed(table: Table, before: Instant): Table {
    map i | i in table && !(table[i].deliveredAt.Some? && table[i].deliveredAt.value < before) :: table[i]
  }

  ghost function Selected(table: Table): (r: seq<Notice>)
    ensures |r| == |Batch(table)|
    ensures forall i :: 0 <= i < |r| ==> Batch(table)[i] in table && r[i] == NoticeOf(Batch(table)[i], table[Batch(table)[i]])
  {
    assert forall i :: i in Batch(table) ==> i in Waiting(table);
    Notices(table, Batch(table))
  }

  ghost function After(s: State, step: Step): State
    requires Enabled(s, step)
  {
    match step
    case Commit(id, row) => s.(table := s.table[id := row], committed := s.committed[id := NoticeOf(id, row)])
    case Begin => s.(progress := Draining(Selected(s.table), 0, false))
    case PublishNext =>
      s.(published := s.published + [s.progress.batch[s.progress.k]], progress := s.progress.(sent := true))
    case MarkNext(now) =>
      s.(table := Marked(s.table, s.progress.batch[s.progress.k].id, now),
         progress := s.progress.(k := s.progress.k + 1, sent := false))
    case Finish => s.(progress := Idle, drains := s.drains + 1)
    case Abort =>
      s.(progress := Idle,
         interrupted := if s.progress.sent && s.progress.k < |s.progress.batch|
                        then s.interrupted + multiset{s.progress.batch[s.progress.k].id} else s.interrupted)
    case Prune(before) => s.(table := Trimmed(s.table, before))
  }

  ghost predicate Initial(s: State) {
    s == State(map[], Idle, [], map[], 0, multiset{})
  }

  ghost predicate Leads(s: State, steps: seq<Step>, t: State)
    decreases |steps|
  {
    if steps == [] then s == t
    else Enabled(s, steps[0]) && Leads(After(s, steps[0]), steps[1..], t)
  }

  // ---- the invariant ----------------------------------------------------------

  ghost predicate RowsRecorded(s: State) {
    && (forall i :: i in s.committed ==> s.committed[i].id == i)
    && (forall i :: i in s.table ==> i in s.committed && NoticeOf(i, s.table[i]) == s.committed[i])
  }

  ghost predicate Recorded(s: State, n: Notice) {
    n.id in s.committed && s.committed[n.id] == n
  }

  ghost predicate BatchHolds(s: State) {
    s.progress.Draining? ==>
      var batch, k := s.progress.batch, s.progress.k;
      && k <= |batch| && (s.progress.sent ==> k < |batch|)
      && (forall i :: 0 <= i < |batch| ==> Recorded(s, batch[i]))
      && (forall i, j :: 0 <= i < j < |batch| ==> Below(batch[i].id, batch[j].id))
      && (forall i :: 0 <= i < |batch| ==> (IsPending(s.table, batch[i].id) <==> k <= i))
  }

  /** Whether the row is published and waiting for its mark. */
  predicate InHand(s: State, id: nat) {
    s.progress.Draining? && s.progress.sent && s.progress.k < |s.progress.batch|
    && s.progress.batch[s.progress.k].id == id
  }

  /** Every publication of a row is its one mark, the publication in hand, or an interrupted one. */
  ghost predicate Accounted(s: State) {
    && (forall n :: n in s.published ==> Recorded(s, n))
    && (forall i :: i in s.committed ==>
          multiset(s.published)[s.committed[i]]
          == (if IsPending(s.table, i) then 0 else 1) + s.interrupted[i] + (if InHand(s, i) then 1 else 0))
    && (forall i :: i in s.interrupted ==> i in s.committed)
  }

  ghost predicate Inv(s: State) { RowsRecorded(s) && BatchHolds(s) && Accounted(s) }

  lemma SelectedHolds(s: State)
    requires RowsRecorded(s)
    ensures BatchHolds(s.(progress := Draining(Selected(s.table), 0, false)))
  {
    var batch := Selected(s.table);
    forall i | 0 <= i < |batch|
      ensures Recorded(s, batch[i]) && IsPending(s.table, batch[i].id)
    {
      assert Batch(s.table)[i] in Waiting(s.table);
    }
  }

  lemma CommitKeeps(s: State, id: nat, row: OutboxRow)
    requires Inv(s) && Enabled(s, Commit(id, row))
    ensures Inv(After(s, Commit(id, row)))
  {
    var t := After(s, Commit(id, row));
    assert forall n :: Recorded(s, n) ==> Recorded(t, n);
    assert forall i :: i != id ==> (IsPending(t.table, i) <==> IsPending(s.table, i));
    CommitBatch(s, t, id);
    CommitAccounted(s, t, id);
  }

  lemma CommitBatch(s: State, t: State, id: nat)
    requires BatchHolds(s) && id !in s.committed && t.progress == s.progress
    requires forall n :: Recorded(s, n) ==> Recorded(t, n)
    requires forall i :: i != id ==> (IsPending(t.table, i) <==> IsPending(s.table, i))
    ensures BatchHolds(t)
  {
    assert s.progress.Draining? ==>
        forall i :: 0 <= i < |s.progress.batch| ==> Recorded(s, s.progress.batch[i]) && s.progress.batch[i].id != id;
  }

  lemma CommitAccounted(s: State, t: State, id: nat)
    requires Accounted(s) && BatchHolds(s) && id !in s.committed && IsPending(t.table, id) && id in t.committed
    requires t.committed == s.committed[id := t.committed[id]] && t.committed[id].id == id
    requires t.progress == s.progress && t.published == s.published && t.interrupted == s.interrupted
    requires forall i :: i != id ==> (IsPending(t.table, i) <==> IsPending(s.table, i))
    ensures Accounted(t)
  {
    assert forall n :: n in s.published ==> Recorded(s, n) && n.id != id;
    assert multiset(s.published)[t.committed[id]] == 0;
    assert s.interrupted[id] == 0;
    assert InHand(s, id) ==> Recorded(s, s.progress.batch[s.progress.k]);
  }

  lemma PublishKeeps(s: State)
    requires Inv(s) && Enabled(s, PublishNext)
    ensures Inv(After(s, PublishNext))
  {
    var t := After(s, PublishNext);
    var n := s.progress.batch[s.progress.k];
    forall i | i in s.committed
      ensures multiset(t.published)[s.committed[i]] == multiset(s.published)[s.committed[i]] + (if i == n.id then 1 else 0)
    {
      assert s.committed[i].id == i;
    }
  }

  lemma MarkKeeps(s: State, now: Instant)
    requires Inv(s) && Enabled(s, MarkNext(now))
    ensures Inv(After(s, MarkNext(now)))
  {
    var t := After(s, MarkNext(now));
    var n := s.progress.batch[s.progress.k];
    assert Recorded(s, n) && IsPending(s.table, n.id);
    assert forall i :: IsPending(t.table, i) <==> IsPending(s.table, i) && i != n.id;
    assert forall i :: !InHand(t, i) && (InHand(s, i) <==> i == n.id);
  }

  lemma AbortKeeps(s: State)
    requires Inv(s) && Enabled(s, Abort)
    ensures Inv(After(s, Abort))
  {
    var t := After(s, Abort);
    assert forall i :: !InHand(t, i) && t.interrupted[i] == s.interrupted[i] + (if InHand(s, i) then 1 else 0);
    assert s.progress.sent ==> Recorded(s, s.progress.batch[s.progress.k]);
  }

  lemma PruneKeeps(s: State, before: Instant)
    requires Inv(s)
    ensures Inv(After(s, Prune(before)))
  {
    assert forall i :: IsPending(After(s, Prune(before)).table, i) <==> IsPending(s.table, i);
  }

  lemma StepKeeps(s: State, step: Step)
    requires Inv(s) && Enabled(s, step)
    ensures Inv(After(s, step))
  {
    match step {
      case Commit(id, row) => CommitKeeps(s, id, row);
      case Begin => SelectedHolds(s);
      case PublishNext => PublishKeeps(s);
      case MarkNext(now) => MarkKeeps(s, now);
      case Finish =>
      case Abort => AbortKeeps(s);
      case Prune(before) => PruneKeeps(s, before);
    }
  }

  lemma {:induction false} Reached(s: State, steps: seq<Step>, t: State)
    requires Inv(s) && Leads(s, steps, t)
    ensures Inv(t)
    decreases |steps|
  {
    if steps != [] {
      StepKeeps(s, steps[0]);
      Reached(After(s, steps[0]), steps[1..], t);
    }
  }

  // ---- the theorems -------------------------------------------------------------

  /** In every run: only committed rows are published, unchanged; a row that is no longer pending,
      even one retention has removed, was published; and each publication beyond the first belongs to a
      drain that stopped between publishing and marking. */
  lemma OutboxConservation(start: State, steps: seq<Step>, s: State)
    requires Initial(start) && Leads(start, steps, s)
    ensures forall n :: n in s.published ==> n.id in s.committed && s.committed[n.id] == n
    ensures forall i :: i in s.committed ==> IsPending(s.table, i) || s.committed[i] in s.published
    ensures forall i :: i in s.committed ==> multiset(s.published)[s.committed[i]] <= 1 + s.interrupted[i]
  {
    assert Inv(start);
    Reached(start, steps, s);
  }

  // ---- no row is passed over for ever ---------------------------------------------

  /** Ids below `i` that have gone out. */
  ghost function GoneBelow(s: State, i: nat): set<nat> {
    set j | j in s.committed && j < i && !IsPending(s.table, j)
  }

  lemma {:induction false} BelowBound(x: set<nat>, i: nat)
    requires forall j :: j in x ==> j < i
    ensures |x| <= i
  {
    if i > 0 {
      BelowBound(x - {i - 1}, i - 1);
      if i - 1 in x {
        assert x == (x - {i - 1}) + {i - 1};
      } else {
        assert x == x - {i - 1};
      }
    }
  }

  /** While row `i` waits, each drain counted since `base` has taken a hundred ids below it. */
  ghost predicate Closing(s: State, i: nat, base: nat) {
    && (s.drains >= base ==> DRAIN * (s.drains - base) <= |GoneBelow(s, i)|)
    && (s.progress.Draining? && s.drains >= base ==>
          || (exists j :: s.progress.k <= j < |s.progress.batch| && s.progress.batch[j].id == i)
          || (&& |s.progress.batch| == DRAIN
              && (forall j :: 0 <= j < DRAIN ==> s.progress.batch[j].id < i)
              && DRAIN * (s.drains - base) + s.progress.k <= |GoneBelow(s, i)|))
  }

  lemma BatchReaches(table: Table, i: nat)
    requires IsPending(table, i)
    ensures var r := Selected(table);
            || (exists j :: 0 <= j < |r| && r[j].id == i)
            || (|r| == DRAIN && forall j :: 0 <= j < DRAIN ==> r[j].id < i)
  {
    var all := Waiting(table);
    assert i in all;
    var k :| 0 <= k < |all| && all[k] == i;
    var r := Selected(table);
    if k < |r| {
      assert r[k].id == i;
    } else {
      assert forall j :: 0 <= j < DRAIN ==> Below(all[j], all[k]);
    }
  }

  lemma GoneGrows(s: State, step: Step, i: nat)
    requires Inv(s) && Enabled(s, step)
    ensures |GoneBelow(s, i)| <= |GoneBelow(After(s, step), i)|
    ensures step.MarkNext? && s.progress.batch[s.progress.k].id < i ==>
              |GoneBelow(s, i)| < |GoneBelow(After(s, step), i)|
  {
    var a, b := GoneBelow(s, i), GoneBelow(After(s, step), i);
    assert a <= b;
    SmallerSet(a, b);
    if step.MarkNext? && s.progress.batch[s.progress.k].id < i {
      var j := s.progress.batch[s.progress.k].id;
      assert Recorded(s, s.progress.batch[s.progress.k]);
      assert IsPending(s.table, j);
      StrictlySmaller(a, b, j);
    }
  }

  lemma ClosingStep(s: State, step: Step, i: nat, base: nat)
    requires Inv(s) && Enabled(s, step) && Closing(s, i, base)
    requires IsPending(s.table, i) && IsPending(After(s, step).table, i)
    ensures Closing(After(s, step), i, base)
  {
    GoneGrows(s, step, i);
    match step {
      case Begin => BatchReaches(s.table, i);
      case _ =>
    }
  }

  lemma {:induction false} StaysGone(s: State, steps: seq<Step>, t: State, i: nat)
    requires Inv(s) && Leads(s, steps, t) && i in s.committed && !IsPending(s.table, i)
    ensures !IsPending(t.table, i)
    decreases |steps|
  {
    if steps != [] {
      StepKeeps(s, steps[0]);
      StaysGone(After(s, steps[0]), steps[1..], t, i);
    }
  }

  lemma {:induction false} ClosingRun(s: State, steps: seq<Step>, t: State, i: nat, base: nat)
    requires Inv(s) && Leads(s, steps, t) && Closing(s, i, base)
    requires IsPending(s.table, i) && IsPending(t.table, i)
    ensures Closing(t, i, base)
    decreases |steps|
  {
    if steps != [] {
      var next := After(s, steps[0]);
      StepKeeps(s, steps[0]);
      if !IsPending(next.table, i) {
        StaysGone(next, steps[1..], t, i);
      }
      ClosingStep(s, steps[0], i, base);
      ClosingRun(next, steps[1..], t, i, base);
    }
  }

  /** However many rows are committed meanwhile, and however low their ids, a row pending at some
      moment is published by the time i / 100 + 1 more drains, begun after it, have completed. */
  lemma NeverSkipped(start: State, first: seq<Step>, s: State, rest: seq<Step>, t: State, i: nat)
    requires Initial(start) && Leads(start, first, s) && Leads(s, rest, t)
    requires IsPending(s.table, i)
    requires t.drains - s.drains - (if s.progress.Draining? then 1 else 0) > i / 100
    ensures i in t.committed && !IsPending(t.table, i) && t.committed[i] in t.published
  {
    assert Inv(start);
    Reached(start, first, s);
    Reached(s, rest, t);
    RecordedStays(s, rest, t, i);
    if IsPending(t.table, i) {
      var base := s.drains + (if s.progress.Draining? then 1 else 0);
      ClosingRun(s, rest, t, i, base);
      BelowBound(GoneBelow(t, i), i);
    }
  }

  lemma {:induction false} RecordedStays(s: State, steps: seq<Step>, t: State, i: nat)
    requires Leads(s, steps, t) && i in s.committed
    ensures i in t.committed && t.committed[i] == s.committed[i]
    decreases |steps|
  {
    if steps != [] {
      RecordedStays(After(s, steps[0]), steps[1..], t, i);
    }
  }
}
