/** When the body a worker is sent is the body that was stored. */
module SendBodies {
  import opened Prelude
  import opened Protocol
  import opened Tables
  import opened MessageOps
  import opened DbRuns
  import opened Coupling
  import opened Sends

  /** The pairs of idempotency key and body that senders use. */
  type Pairs = iset<(string, string)>

  ghost predicate Uses(steps: seq<Step>, pairs: Pairs) {
    forall i :: 0 <= i < |steps| && steps[i].Start? ==> (steps[i].key, steps[i].body) in pairs
  }

  ghost predicate OneBodyPerKey(pairs: Pairs) {
    forall x, y :: x in pairs && y in pairs && x.0 == y.0 ==> x == y
  }

  /** Every request carries the body of its command's message, as long as there is one. */
  ghost predicate Faithful(s: State) {
    forall i :: 0 <= i < |s.requests| ==> CarriesStored(s, s.requests[i])
  }

  ghost predicate CarriesStored(s: State, r: Request) {
    r.command in s.db.commands && s.db.commands[r.command].message.Some?
    && s.db.commands[r.command].message.value in s.db.messages
    ==> s.db.messages[s.db.commands[r.command].message.value].body == r.body
  }

  ghost predicate AlwaysFaithful(pairs: Pairs) {
    forall start, steps, s :: Initial(start) && Leads(start, steps, s) && Uses(steps, pairs) ==> Faithful(s)
  }

  // ---- stored bodies stay what they are -------------------------------------------

  predicate StoresFrom(db: Db, c: string, pairs: Pairs)
    requires c in db.commands
  {
    db.commands[c].message.Some? && db.commands[c].message.value in db.messages
    ==> (db.commands[c].key, db.messages[db.commands[c].message.value].body) in pairs
  }

  ghost predicate LinkedBodies(db: Db, pairs: Pairs) {
    forall c :: c in db.commands ==> StoresFrom(db, c, pairs)
  }

  /** Linked rows keep their bodies, and commands their keys and at most their links. */
  ghost predicate BodiesKept(db: Db, after: Db) {
    && (forall id :: id in db.messages && id in after.messages ==> after.messages[id].body == db.messages[id].body)
    && (forall c :: c in after.commands ==>
          && c in db.commands && after.commands[c].key == db.commands[c].key
          && (after.commands[c].message == db.commands[c].message || after.commands[c].message.None?))
  }

  lemma KeptBodies(db: Db, after: Db, pairs: Pairs)
    requires ForeignKeys(db) && BodiesKept(db, after) && LinkedBodies(db, pairs)
    ensures LinkedBodies(after, pairs)
  {
    forall c | c in after.commands
      ensures StoresFrom(after, c, pairs)
    {
      assert StoresFrom(db, c, pairs);
    }
  }

  lemma PreparedBodies(db: Db, user: string, conversation: string, body: string, key: string, now: Instant, draws: Draws, pairs: Pairs)
    requires ForeignKeys(db) && LinkedBodies(db, pairs) && (key, body) in pairs
    ensures var r := PrepareSend(db, user, conversation, body, key, now, draws);
            r.Prepared? ==> LinkedBodies(r.db, pairs)
  {
    var r := PrepareSend(db, user, conversation, body, key, now, draws);
    if r.Prepared? {
      forall c | c in r.db.commands
        ensures StoresFrom(r.db, c, pairs)
      {
        if c != draws.command {
          assert StoresFrom(db, c, pairs);
        }
      }
    }
  }

  lemma DeletedBodies(db: Db, gone: set<MessageId>)
    ensures BodiesKept(db, DeleteMessages(db, gone))
  {
  }

  lemma SettleBodies(db: Db, user: string, command: string, id: MessageId, row: Message, status: CommandStatus, outbox: nat)
    requires command in db.commands && (id in db.messages ==> row.body == db.messages[id].body)
    ensures BodiesKept(db, Settle(db, user, command, id, row, status, outbox))
  {
  }

  lemma BodiesKeptTwice(db: Db, middle: Db, after: Db)
    requires BodiesKept(db, middle) && BodiesKept(middle, after)
    requires forall id :: id in after.messages && id in db.messages ==> id in middle.messages
    ensures BodiesKept(db, after)
  {
  }

  lemma CompletedBodies(db: Db, op: DbOp)
    requires op.OpComplete?
    ensures BodiesKept(db, Exec(db, op))
  {
    var r := CompleteSend(db, op.user, op.command, op.provider, op.sentAt, op.outbox);
    if r.Finished? {
      var id := db.commands[op.command].message.value;
      var row := db.messages[id];
      var gone := if op.provider == "" then {} else Echoes(db, row.conversation, op.provider, id);
      var middle := DeleteMessages(db, gone);
      DeletedBodies(db, gone);
      SettleBodies(middle, op.user, op.command, id, Confirmed(row, op.provider, op.sentAt), Completed, op.outbox);
      BodiesKeptTwice(db, middle, r.db);
    }
  }

  lemma FailedBodies(db: Db, op: DbOp)
    requires op.OpFail?
    ensures BodiesKept(db, Exec(db, op))
  {
  }

  lemma IngestedBodies(db: Db, op: DbOp)
    requires op.OpIngest?
    ensures BodiesKept(db, Exec(db, op))
  {
  }

  lemma OtherBodies(db: Db, op: DbOp)
    requires !op.OpPrepare? && !op.OpComplete? && !op.OpFail? && !op.OpIngest?
    ensures BodiesKept(db, Exec(db, op))
  {
  }

  lemma ExecBodies(db: Db, op: DbOp, pairs: Pairs)
    requires ForeignKeys(db) && LinkedBodies(db, pairs) && !op.OpPrepare?
    ensures LinkedBodies(Exec(db, op), pairs)
  {
    match op {
      case OpComplete(_, _, _, _, _) => CompletedBodies(db, op);
      case OpFail(_, _, _, _) => FailedBodies(db, op);
      case OpIngest(_, _, _, _) => IngestedBodies(db, op);
      case _ => OtherBodies(db, op);
    }
    KeptBodies(db, Exec(db, op), pairs);
  }

  // ---- one body per key is enough -----------------------------------------------------

  ghost predicate PairsHold(s: State, pairs: Pairs) {
    && (forall h :: h in s.handlers ==> (s.handlers[h].key, s.handlers[h].body) in pairs)
    && (forall i :: 0 <= i < |s.requests| ==> (s.requests[i].key, s.requests[i].body) in pairs)
    && LinkedBodies(s.db, pairs)
  }

  lemma OutcomeIsExec(db: Db, x: Handler, outbox: nat) returns (op: DbOp)
    requires x.phase.Replied?
    ensures !op.OpPrepare?
    ensures Outcome(db, x, outbox).Finished? ==> Exec(db, op) == Outcome(db, x, outbox).db
  {
    match x.phase.reply {
      case Delivered(provider, sentAt) => op := OpComplete(x.user, x.phase.command, provider, sentAt, outbox);
      case Rejected(code) => op := OpFail(x.user, x.phase.command, code, outbox);
    }
  }

  lemma StartPairs(s: State, step: Step, pairs: Pairs)
    requires ForeignKeys(s.db) && PairsHold(s, pairs) && step.Start? && Enabled(s, step) && (step.key, step.body) in pairs
    ensures PairsHold(After(s, step), pairs)
  {
    PreparedBodies(s.db, step.user, step.conversation, step.body, step.key, s.now, step.draws, pairs);
  }

  lemma RecordPairs(s: State, step: Step, pairs: Pairs)
    requires ForeignKeys(s.db) && PairsHold(s, pairs) && step.Record? && Enabled(s, step)
    ensures PairsHold(After(s, step), pairs)
  {
    var op := OutcomeIsExec(s.db, s.handlers[step.h], step.outbox);
    ExecBodies(s.db, op, pairs);
  }

  lemma OtherPairs(s: State, step: Step, pairs: Pairs)
    requires ForeignKeys(s.db) && PairsHold(s, pairs) && !step.Start? && !step.Record? && Enabled(s, step)
    ensures PairsHold(After(s, step), pairs)
  {
    match step {
      case Mark(h) => ExecBodies(s.db, OpMark(s.handlers[h].phase.command, s.now), pairs);
      case Background(op) => ExecBodies(s.db, op, pairs);
      case _ =>
    }
  }

  lemma {:induction false} RunPairs(s: State, steps: seq<Step>, t: State, pairs: Pairs)
    requires Inv(s) && PairsHold(s, pairs) && Leads(s, steps, t) && Uses(steps, pairs)
    ensures Inv(t) && PairsHold(t, pairs)
    decreases |steps|
  {
    if steps != [] {
      assert steps[0].Start? ==> (steps[0].key, steps[0].body) in pairs;
      if steps[0].Start? {
        StartPairs(s, steps[0], pairs);
      } else if steps[0].Record? {
        RecordPairs(s, steps[0], pairs);
      } else {
        OtherPairs(s, steps[0], pairs);
      }
      StepKeeps(s, steps[0]);
      assert Uses(steps[1..], pairs);
      RunPairs(After(s, steps[0]), steps[1..], t, pairs);
    }
  }

  lemma EnoughForFaith(start: State, steps: seq<Step>, s: State, pairs: Pairs)
    requires Initial(start) && Leads(start, steps, s) && Uses(steps, pairs) && OneBodyPerKey(pairs)
    ensures Faithful(s)
  {
    Reached(start, [], start);
    RunPairs(start, steps, s, pairs);
    forall i | 0 <= i < |s.requests|
      ensures CarriesStored(s, s.requests[i])
    {
      var r := s.requests[i];
      assert Known(s, r.account, r.key, r.command);
      if r.command in s.db.commands {
        CommandKnown(s, r.command, r.account, r.key);
        assert StoresFrom(s.db, r.command, pairs);
      }
    }
  }

  // ---- and needed -------------------------------------------------------------------------

  /** One account with one conversation. */
  const HOME: Db := Db(map["a" := Account("u", "signal")],
                       map["c" := Conversation("a", "p", "", "direct", 0, None)], map[], map[], map[])

  const START: State := State(HOME, 0, map[], [], map[], {"a"})

  function FirstStart(key: string, body: string): Step { Start(0, "u", "c", body, key, Draws("", 0, "first", 0)) }

  function SecondStart(key: string, body: string): Step { Start(1, "u", "c", body, key, Draws("", 1, "second", 1)) }

  lemma FirstPrepared(key: string, body: string)
    ensures Initial(START) && Enabled(START, FirstStart(key, body))
    ensures var s := After(START, FirstStart(key, body));
            && s.handlers == map[0 := Handler("u", "a", key, body, Created("first"))]
            && s.ledger == map[("a", key) := "first"] && s.requests == [] && s.now == 0
            && s.db.accounts == HOME.accounts && "c" in s.db.conversations && s.db.conversations["c"].account == "a"
            && s.db.messages == map[0 := PendingRow("c", body, 0)]
            && s.db.commands == map["first" := Command("a", Some(0), key, Pending, COMMAND_LIFETIME)]
  {
    assert CommandOf(HOME, "a", key).None?;
  }

  lemma SecondTaken(s: State, key: string, body: string)
    requires s.db.commands == map["first" := Command("a", Some(0), key, Pending, COMMAND_LIFETIME)]
    requires s.ledger == map[("a", key) := "first"] && 1 !in s.handlers
    requires s.db.accounts == HOME.accounts && "c" in s.db.conversations && s.db.conversations["c"].account == "a"
    ensures Enabled(s, SecondStart(key, body))
    ensures After(s, SecondStart(key, body)) == s.(handlers := s.handlers[1 := Handler("u", "a", key, body, KeyKnown)])
    ensures ExistingSend(s.db, "a", key) == Some("first")
  {
    assert IsCommand(s.db, "first", "a", key);
    assert CommandOf(s.db, "a", key) == Some("first");
  }

  /** The second sender, who found the key taken, goes on to dispatch. */
  lemma RetryRun(s: State) returns (steps: seq<Step>, t: State)
    requires 1 in s.handlers && s.handlers[1].phase.KeyKnown? && s.requests == []
    requires ExistingSend(s.db, s.handlers[1].account, s.handlers[1].key) == Some("first")
    requires Dispatchable(s.db, "first", s.now)
    ensures Leads(s, steps, t) && (forall i :: 0 <= i < |steps| ==> !steps[i].Start?)
    ensures t.requests == [Request(s.handlers[1].account, s.handlers[1].key, "first", s.handlers[1].body)]
    ensures t.db.messages == s.db.messages && "first" in t.db.commands
    ensures t.db.commands["first"].message == s.db.commands["first"].message
  {
    RetrySendsItsOwnBody(s, 1);
    var a := After(s, ReadExisting(1));
    var b := After(a, Mark(1));
    t := After(b, WriteRequest(1));
    FirstLeads(b, WriteRequest(1), [], t);
    FirstLeads(a, Mark(1), [WriteRequest(1)], t);
    steps := [ReadExisting(1)] + ([Mark(1)] + [WriteRequest(1)]);
    FirstLeads(s, ReadExisting(1), [Mark(1)] + [WriteRequest(1)], t);
  }

  /** Two bodies under one key: the second sender's is dispatched for the first one's message. */
  lemma TwoBodiesBetray(key: string, first: string, second: string) returns (steps: seq<Step>, s: State)
    requires first != second
    ensures Initial(START) && Leads(START, steps, s) && !Faithful(s)
    ensures forall i :: 0 <= i < |steps| && steps[i].Start? ==> steps[i].key == key && steps[i].body in {first, second}
  {
    var a, b := FirstStart(key, first), SecondStart(key, second);
    FirstPrepared(key, first);
    var s1 := After(START, a);
    SecondTaken(s1, key, second);
    var s2 := After(s1, b);
    var rest, t := RetryRun(s2);
    s := t;
    FirstLeads(s1, b, rest, s);
    FirstLeads(START, a, [b] + rest, s);
    steps := [a] + ([b] + rest);
    assert !CarriesStored(s, s.requests[0]);
  }

  lemma FirstLeads(s: State, step: Step, rest: seq<Step>, t: State)
    requires Enabled(s, step) && Leads(After(s, step), rest, t)
    ensures Leads(s, [step] + rest, t)
  {
    assert ([step] + rest)[1..] == rest;
  }

  /** The body sent is always the body stored, in every run of senders who use these pairs, if and only if the
      pairs have one body for each key. */
  lemma FaithfulIff(pairs: Pairs)
    ensures AlwaysFaithful(pairs) <==> OneBodyPerKey(pairs)
  {
    if OneBodyPerKey(pairs) {
      forall start, steps, s | Initial(start) && Leads(start, steps, s) && Uses(steps, pairs)
        ensures Faithful(s)
      {
        EnoughForFaith(start, steps, s, pairs);
      }
    } else {
      var x, y :| x in pairs && y in pairs && x.0 == y.0 && x != y;
      var steps, s := TwoBodiesBetray(x.0, x.1, y.1);
      assert Uses(steps, pairs);
      assert Initial(START) && Leads(START, steps, s) && Uses(steps, pairs) && !Faithful(s);
    }
  }
}
