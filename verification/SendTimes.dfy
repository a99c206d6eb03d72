/** How old a command can be when its request goes out. */
module SendTimes {
  import opened Prelude
  import opened Protocol
  import opened Tables
  import opened MessageOps
  import opened DbRuns
  import opened Coupling
  import opened Sends

  /** A send system with the times at which commands were created and marked dispatched. */
  datatype Timed = Timed(state: State, created: map<string, Instant>, marked: map<string, Instant>)

  /** The command a step brings into the table, and the command a step wins for dispatch. */
  ghost predicate Creates(s: State, step: Step, command: string)
    requires Enabled(s, step)
  {
    step.Start? && command == step.draws.command && command !in s.db.commands && command in After(s, step).db.commands
  }

  ghost predicate Wins(s: State, step: Step, command: string)
    requires Enabled(s, step)
  {
    && step.Mark? && s.handlers[step.h].phase == Created(command)
    && step.h in After(s, step).handlers && After(s, step).handlers[step.h].phase == Won(command)
  }

  ghost function TimedAfter(t: Timed, step: Step): Timed
    requires Enabled(t.state, step)
  {
    var s := t.state;
    Timed(After(s, step),
          if step.Start? && Creates(s, step, step.draws.command) then t.created[step.draws.command := s.now] else t.created,
          if step.Mark? && Wins(s, step, s.handlers[step.h].phase.command)
          then t.marked[s.handlers[step.h].phase.command := s.now] else t.marked)
  }

  ghost predicate TimedLeads(t: Timed, steps: seq<Step>, u: Timed)
    decreases |steps|
  {
    if steps == [] then t == u
    else Enabled(t.state, steps[0]) && TimedLeads(TimedAfter(t, steps[0]), steps[1..], u)
  }

  /** Every run of the handlers has its times. */
  lemma {:induction false} RunIsTimed(t: Timed, steps: seq<Step>, s: State) returns (u: Timed)
    requires Leads(t.state, steps, s)
    ensures TimedLeads(t, steps, u) && u.state == s
    decreases |steps|
  {
    u := t;
    if steps != [] {
      u := RunIsTimed(TimedAfter(t, steps[0]), steps[1..], s);
    }
  }

  // ---- the invariant -------------------------------------------------------------

  predicate InTime(t: Timed, c: string) {
    c in t.created && c in t.marked && t.created[c] <= t.marked[c] < t.created[c] + 300
  }

  /** A command expires 300 seconds after its creation; only commands of the ledger were created. */
  ghost predicate ExpiryHolds(t: Timed) {
    && (forall c :: c in t.state.db.commands ==>
          && c in t.created && t.state.db.commands[c].expiresAt == t.created[c] + 300
          && t.created[c] <= t.state.now)
    && (forall c :: c in t.created ==> c in t.state.ledger.Values)
  }

  /** What is won or written was marked in time. */
  ghost predicate MarksHold(t: Timed) {
    && (forall h :: h in t.state.handlers && t.state.handlers[h].phase.Owning() ==>
          InTime(t, t.state.handlers[h].phase.command))
    && (forall i :: 0 <= i < |t.state.requests| ==> InTime(t, t.state.requests[i].command))
  }

  ghost predicate TimesHold(t: Timed) { ExpiryHolds(t) && MarksHold(t) }

  // ---- every step ---------------------------------------------------------------------

  /** Only a preparation gives a command its expiry. */
  ghost predicate ExpiriesKept(db: Db, after: Db) {
    forall c :: c in after.commands ==> c in db.commands && after.commands[c].expiresAt == db.commands[c].expiresAt
  }

  lemma BackgroundExpiries(db: Db, op: DbOp)
    requires IsBackground(op)
    ensures ExpiriesKept(db, Exec(db, op))
  {
  }

  lemma OutcomeExpiries(db: Db, x: Handler, outbox: nat)
    requires x.phase.Replied?
    ensures Outcome(db, x, outbox).Finished? ==> ExpiriesKept(db, Outcome(db, x, outbox).db)
  {
    match x.phase.reply {
      case Delivered(provider, sentAt) => CompleteExpiries(db, x.user, x.phase.command, provider, sentAt, outbox);
      case Rejected(_) =>
    }
  }

  lemma CompleteExpiries(db: Db, user: string, command: string, provider: string, sentAt: Instant, outbox: nat)
    ensures var r := CompleteSend(db, user, command, provider, sentAt, outbox);
            r.Finished? ==> ExpiriesKept(db, r.db)
  {
  }

  lemma LedgerGrows<K, V>(m: map<K, V>, k: K, v: V)
    requires k !in m
    ensures m[k := v].Values == m.Values + {v}
  {
    var n := m[k := v];
    assert n[k] == v;
    forall w | w in m.Values
      ensures w in n.Values
    {
      var l :| l in m && m[l] == w;
      assert n[l] == w;
    }
  }

  lemma StartTimes(t: Timed, step: Step)
    requires Inv(t.state) && TimesHold(t) && step.Start? && Enabled(t.state, step)
    ensures TimesHold(TimedAfter(t, step))
  {
    var s := t.state;
    var r := PrepareSend(s.db, step.user, step.conversation, step.body, step.key, s.now, step.draws);
    if r.Prepared? {
      PrepareFacts(s, step.user, step.conversation, step.body, step.key, step.draws);
      FreshKey(s, r.account, step.key);
      LedgerGrows(s.ledger, (r.account, step.key), r.command);
      PreparedTimes(t, TimedAfter(t, step), step.h, r.command);
    } else {
      RefusedTimes(t, step);
    }
  }

  lemma RefusedTimes(t: Timed, step: Step)
    requires TimesHold(t) && step.Start? && Enabled(t.state, step)
    requires !PrepareSend(t.state.db, step.user, step.conversation, step.body, step.key, t.state.now, step.draws).Prepared?
    ensures TimesHold(TimedAfter(t, step))
  {
  }

  lemma PreparedTimes(t: Timed, u: Timed, h: nat, c: string)
    requires TimesHold(t) && h !in t.state.handlers && c !in t.created
    requires u.created == t.created[c := t.state.now] && u.marked == t.marked
    requires u.state.now == t.state.now && u.state.requests == t.state.requests
    requires u.state.ledger.Values == t.state.ledger.Values + {c}
    requires u.state.db.commands.Keys == t.state.db.commands.Keys + {c}
    requires u.state.db.commands[c].expiresAt == t.state.now + 300
    requires forall d :: d in t.state.db.commands ==> u.state.db.commands[d] == t.state.db.commands[d]
    requires h in u.state.handlers && u.state.handlers == t.state.handlers[h := u.state.handlers[h]]
    requires !u.state.handlers[h].phase.Owning()
    ensures TimesHold(u)
  {
  }

  lemma MarkTimes(t: Timed, h: nat)
    requires TimesHold(t) && Enabled(t.state, Mark(h))
    ensures TimesHold(TimedAfter(t, Mark(h)))
  {
    var s := t.state;
    var c := s.handlers[h].phase.command;
    if Dispatchable(s.db, c, s.now) {
      assert Wins(s, Mark(h), c);
    }
  }

  /** The tables change, the expiries do not. */
  lemma TablesTimes(t: Timed, u: Timed)
    requires TimesHold(t) && u.created == t.created && u.marked == t.marked
    requires u.state == t.state.(db := u.state.db, handlers := u.state.handlers, accounts := u.state.accounts)
    requires ExpiriesKept(t.state.db, u.state.db)
    requires forall h :: h in u.state.handlers ==> h in t.state.handlers && u.state.handlers[h] == t.state.handlers[h]
    ensures TimesHold(u)
  {
  }

  /** Only the handlers change, and none becomes an owner. */
  lemma HandlersTimes(t: Timed, u: Timed)
    requires TimesHold(t) && u.created == t.created && u.marked == t.marked
    requires u.state == t.state.(handlers := u.state.handlers)
    requires forall h :: h in u.state.handlers && u.state.handlers[h].phase.Owning() ==>
               h in t.state.handlers && t.state.handlers[h].phase.Owning()
               && u.state.handlers[h].phase.command == t.state.handlers[h].phase.command
    ensures TimesHold(u)
  {
  }

  lemma WriteTimes(t: Timed, h: nat)
    requires TimesHold(t) && Enabled(t.state, WriteRequest(h))
    ensures TimesHold(TimedAfter(t, WriteRequest(h)))
  {
  }

  lemma TickTimes(t: Timed, now: Instant)
    requires TimesHold(t) && now >= t.state.now
    ensures TimesHold(TimedAfter(t, Tick(now)))
  {
  }

  lemma RecordTimes(t: Timed, h: nat, outbox: nat)
    requires TimesHold(t) && Enabled(t.state, Record(h, outbox))
    ensures TimesHold(TimedAfter(t, Record(h, outbox)))
  {
    OutcomeExpiries(t.state.db, t.state.handlers[h], outbox);
    TablesTimes(t, TimedAfter(t, Record(h, outbox)));
  }

  lemma BackgroundTimes(t: Timed, op: DbOp)
    requires TimesHold(t) && Enabled(t.state, Background(op))
    ensures TimesHold(TimedAfter(t, Background(op)))
  {
    BackgroundExpiries(t.state.db, op);
    TablesTimes(t, TimedAfter(t, Background(op)));
  }

  lemma QuietTimes(t: Timed, step: Step)
    requires TimesHold(t) && Enabled(t.state, step)
    requires step.ReadExisting? || step.FindOffline? || step.Receive? || step.Vanish? || step.Restart?
    ensures TimesHold(TimedAfter(t, step))
  {
    HandlersTimes(t, TimedAfter(t, step));
  }

  lemma StepTimes(t: Timed, step: Step)
    requires Inv(t.state) && TimesHold(t) && Enabled(t.state, step)
    ensures TimesHold(TimedAfter(t, step))
  {
    match step {
      case Start(_, _, _, _, _, _) => StartTimes(t, step);
      case Mark(h) => MarkTimes(t, h);
      case WriteRequest(h) => WriteTimes(t, h);
      case Record(h, outbox) => RecordTimes(t, h, outbox);
      case Tick(now) => TickTimes(t, now);
      case Background(op) => BackgroundTimes(t, op);
      case _ => QuietTimes(t, step);
    }
  }

  lemma {:induction false} RunTimes(t: Timed, steps: seq<Step>, u: Timed)
    requires Inv(t.state) && TimesHold(t) && TimedLeads(t, steps, u)
    ensures Inv(u.state) && TimesHold(u)
    decreases |steps|
  {
    if steps != [] {
      StepKeeps(t.state, steps[0]);
      StepTimes(t, steps[0]);
      RunTimes(TimedAfter(t, steps[0]), steps[1..], u);
    }
  }

  // ---- the theorems -------------------------------------------------------------------

  /** In every run, however late the retry, a request belongs to a command that was marked dispatched
      less than 300 seconds after the send that created it. */
  lemma RequestsInTime(start: State, steps: seq<Step>, t: Timed, i: nat)
    requires Initial(start) && TimedLeads(Timed(start, map[], map[]), steps, t) && i < |t.state.requests|
    ensures var c := t.state.requests[i].command;
            c in t.created && c in t.marked && t.created[c] <= t.marked[c] < t.created[c] + 300
  {
    RunTimes(Timed(start, map[], map[]), steps, t);
  }

  lemma MarkEffect(s: State, h: nat)
    requires h in s.handlers && s.handlers[h].phase.Created?
    ensures var c, u, commands := s.handlers[h].phase.command, After(s, Mark(h)), s.db.commands;
            && (Wins(s, Mark(h), c) <==> c in commands && commands[c].status == Pending && s.now < commands[c].expiresAt)
            && (Wins(s, Mark(h), c) ==> u.db == s.db.(commands := commands[c := commands[c].(status := Dispatched)]))
            && (!Wins(s, Mark(h), c) ==> u == s.(handlers := s.handlers - {h}))
  {
  }

  /** In every reachable state a mark wins the dispatch if and only if the command is pending and younger
      than 300 seconds; a command that is too old is never sent and stays pending. */
  lemma MarkWinsIff(start: State, steps: seq<Step>, t: Timed, h: nat)
    requires Initial(start) && TimedLeads(Timed(start, map[], map[]), steps, t)
    requires h in t.state.handlers && t.state.handlers[h].phase.Created?
    ensures var c := t.state.handlers[h].phase.command;
            var u := After(t.state, Mark(h));
            var commands := t.state.db.commands;
            && (c in commands ==> c in t.created)
            && (Wins(t.state, Mark(h), c) <==>
                  c in commands && commands[c].status == Pending && t.state.now - t.created[c] < 300)
            && (Wins(t.state, Mark(h), c) ==>
                  u.db == t.state.db.(commands := commands[c := commands[c].(status := Dispatched)]))
            && (!Wins(t.state, Mark(h), c) ==> u == t.state.(handlers := t.state.handlers - {h}))
  {
    RunTimes(Timed(start, map[], map[]), steps, t);
    MarkEffect(t.state, h);
  }
}
