/** What subscribers are sent is what was committed, field by field. */
module OutboxNotices {
  import opened Prelude
  import opened Tables
  import opened Outbox

  predicate Tells(n: Notice, id: nat, row: OutboxRow) {
    n.id == id && n.user == row.user && n.kind == row.kind && n.messageId == row.messageId && n.message == row.message
  }

  lemma {:induction false} CommittedFromRow(s: State, steps: seq<Step>, t: State, id: nat) returns (k: nat)
    requires Leads(s, steps, t) && id in t.committed && id !in s.committed
    ensures k < |steps| && steps[k].Commit? && steps[k].id == id && Tells(t.committed[id], id, steps[k].row)
    decreases |steps|
  {
    var next := After(s, steps[0]);
    if id in next.committed {
      k := 0;
      RecordedStays(next, steps[1..], t, id);
    } else {
      k := CommittedFromRow(next, steps[1..], t, id);
      k := k + 1;
    }
  }

  /** In every run, a notice that went out was committed with exactly its id, user, kind and message. */
  lemma PublishedIsTheRow(start: State, steps: seq<Step>, s: State, n: Notice) returns (k: nat)
    requires Initial(start) && Leads(start, steps, s) && n in s.published
    ensures k < |steps| && steps[k].Commit? && Tells(n, steps[k].id, steps[k].row)
  {
    OutboxConservation(start, steps, s);
    k := CommittedFromRow(start, steps, s, n.id);
  }

  /** A commit's notice, once it has gone out, went out as committed. */
  lemma CommittedGoesOut(start: State, first: seq<Step>, s: State, id: nat, row: OutboxRow, rest: seq<Step>, t: State) returns (n: Notice)
    requires Initial(start) && Leads(start, first, s) && Enabled(s, Commit(id, row))
    requires Leads(After(s, Commit(id, row)), rest, t) && !IsPending(t.table, id)
    ensures n in t.published && Tells(n, id, row)
  {
    var u := After(s, Commit(id, row));
    Reached(start, first, s);
    CommitKeeps(s, id, row);
    Reached(u, rest, t);
    RecordedStays(u, rest, t, id);
    n := t.committed[id];
  }

  /** The publication of a row is repeated no more often than drains were aborted. */
  lemma {:induction false} InterruptedByAborts(s: State, steps: seq<Step>, t: State)
    requires Leads(s, steps, t)
    ensures |t.interrupted| <= |s.interrupted| + Aborts(steps)
    decreases |steps|
  {
    if steps != [] {
      InterruptedByAborts(After(s, steps[0]), steps[1..], t);
    }
  }

  function Aborts(steps: seq<Step>): nat {
    if steps == [] then 0 else (if steps[0].Abort? then 1 else 0) + Aborts(steps[1..])
  }

  /** So a row goes out at most once more than drains were aborted. */
  lemma RepeatsNeedAborts(start: State, steps: seq<Step>, s: State, n: Notice)
    requires Initial(start) && Leads(start, steps, s)
    ensures multiset(s.published)[n] <= 1 + Aborts(steps)
  {
    OutboxConservation(start, steps, s);
    InterruptedByAborts(start, steps, s);
    if n in s.published {
      assert multiset(s.published)[s.committed[n.id]] <= 1 + s.interrupted[n.id];
      CountAtMost(s.interrupted, n.id);
    }
  }

  lemma CountAtMost(m: multiset<nat>, i: nat)
    ensures m[i] <= |m|
  {
    assert m == (m - multiset{}[i := m[i]]) + multiset{}[i := m[i]];
  }
}
