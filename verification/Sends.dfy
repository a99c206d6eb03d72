/** Outbound sends: any number of concurrent sendMessage handlers, interleaved transaction by
    transaction with each other, with restarts and with everything else the database does. */
module Sends {
  import opened Prelude
  import opened Protocol
  import opened Tables
  import opened MessageOps
  import opened DbRuns
  import opened Coupling

  // ---- error codes -----------------------------------------------------------

  datatype RequestError = WorkerOffline | WorkerError(code: string) | ContextDone

  function WorkerErrorCode(e: RequestError): string {
    match e
    case WorkerOffline => "worker_offline"
    case WorkerError(code) => code
    case ContextDone => "worker_timeout"
  }

  /** The failure statuses: only a timeout, or a worker that says so, leaves the outcome unknown. A
      connection lost after the request was written is recorded as failed, although the design
      document asks for unknown. */
  lemma UnknownOnlyOnTimeout(e: RequestError)
    ensures FailedCommand(WorkerErrorCode(e)) == Unknown <==>
              e.ContextDone? || (e.WorkerError? && e.code in {"worker_timeout", "signal_send_unknown"})
    ensures FailedMessage(WorkerErrorCode(e)) == Counterpart(FailedCommand(WorkerErrorCode(e)))
  {
  }

  // ---- handlers --------------------------------------------------------------

  datatype Reply = Delivered(provider: string, sentAt: Instant) | Rejected(code: string)

  /** Where a handler stands between its transactions. */
  datatype Phase =
    | KeyKnown                // the key was taken; the existing send is still to be read
    | Created(command: string)   // about to mark the command dispatched
    | Won(command: string)       // marked; about to call the worker
    | Waiting(command: string)   // the request is written
    | Replied(command: string, reply: Reply) // about to record the outcome
  {
    predicate HasCommand() { !KeyKnown? }
    predicate Owning() { Won? || Waiting? || Replied? }
  }

  datatype Handler = Handler(user: string, account: string, key: string, body: string, phase: Phase)

  /** A `send` request written to a worker. */
  datatype Request = Request(account: string, key: string, command: string, body: string)

  datatype State = State(
    db: Db,
    now: Instant,
    handlers: map<nat, Handler>,
    requests: seq<Request>,
    // history: every command ever created, by account and key, and every account ever created
    ledger: map<(string, string), string>,
    accounts: set<string>)

  datatype Step =
    | Start(h: nat, user: string, conversation: string, body: string, key: string, draws: Draws)
    | ReadExisting(h: nat)
    | Mark(h: nat)
    | FindOffline(h: nat)
    | WriteRequest(h: nat)
    | Receive(h: nat, reply: Reply)
    | Record(h: nat, outbox: nat)
    | Vanish(h: nat)
    | Restart
    | Tick(now: Instant)
    | Background(op: DbOp)

  ghost predicate Enabled(s: State, step: Step) {
    match step
    case Start(h, _, _, _, _, draws) =>
      h !in s.handlers && draws.command !in s.ledger.Values
    case ReadExisting(h) => h in s.handlers && s.handlers[h].phase.KeyKnown?
    case Mark(h) => h in s.handlers && s.handlers[h].phase.Created?
    case FindOffline(h) => h in s.handlers && s.handlers[h].phase.Won?
    case WriteRequest(h) => h in s.handlers && s.handlers[h].phase.Won?
    case Receive(h, _) => h in s.handlers && s.handlers[h].phase.Waiting?
    case Record(h, _) => h in s.handlers && s.handlers[h].phase.Replied?
    case Vanish(h) => h in s.handlers
    case Restart => true
    case Tick(now) => now >= s.now
    case Background(op) => IsBackground(op) && (op.OpCreateAccount? ==> op.account !in s.accounts)
  }

  function At(s: State, h: nat, phase: Phase): State
    requires h in s.handlers
  {
    s.(handlers := s.handlers[h := s.handlers[h].(phase := phase)])
  }

  function Gone(s: State, h: nat): State { s.(handlers := s.handlers - {h}) }

  ghost function AfterPrepare(s: State, h: nat, user: string, body: string, key: string, r: PrepareResult): State {
    match r
    case ConversationNotFound => s
    case PrepareError => s
    case KeyTaken(account) => s.(handlers := s.handlers[h := Handler(user, account, key, body, KeyKnown)])
    case Prepared(db, account, command) =>
      s.(db := db, ledger := s.ledger[(account, key) := command],
         handlers := s.handlers[h := Handler(user, account, key, body, Created(command))])
  }

  /** A repeated send goes on to dispatch only while its command is still pending. */
  ghost function AfterRead(s: State, h: nat): State
    requires h in s.handlers
  {
    var existing := ExistingSend(s.db, s.handlers[h].account, s.handlers[h].key);
    if existing.Some? && s.db.commands[existing.value].status == Pending
    then At(s, h, Created(existing.value)) else Gone(s, h)
  }

  ghost function AfterMark(s: State, h: nat): State
    requires h in s.handlers && s.handlers[h].phase.Created?
  {
    var c := s.handlers[h].phase.command;
    if Dispatchable(s.db, c, s.now)
    then At(s.(db := MarkDispatched(s.db, c, s.now)), h, Won(c)) else Gone(s, h)
  }

  function AfterWrite(s: State, h: nat): State
    requires h in s.handlers && s.handlers[h].phase.Won?
  {
    var x := s.handlers[h];
    At(s.(requests := s.requests + [Request(x.account, x.key, x.phase.command, x.body)]), h, Waiting(x.phase.command))
  }

  ghost function Outcome(db: Db, x: Handler, outbox: nat): FinishResult
    requires x.phase.Replied?
  {
    match x.phase.reply
    case Delivered(provider, sentAt) => CompleteSend(db, x.user, x.phase.command, provider, sentAt, outbox)
    case Rejected(code) => FailSend(db, x.user, x.phase.command, code, outbox)
  }

  /** The final transaction, whose failure leaves the command dispatched. */
  ghost function AfterOutcome(s: State, h: nat, r: FinishResult): State {
    Gone(if r.Finished? then s.(db := r.db) else s, h)
  }

  ghost function After(s: State, step: Step): State
    requires Enabled(s, step)
  {
    match step
    case Start(h, user, conversation, body, key, draws) =>
      AfterPrepare(s, h, user, body, key, PrepareSend(s.db, user, conversation, body, key, s.now, draws))
    case ReadExisting(h) => AfterRead(s, h)
    case Mark(h) => AfterMark(s, h)
    case FindOffline(h) => At(s, h, Replied(s.handlers[h].phase.command, Rejected("worker_offline")))
    case WriteRequest(h) => AfterWrite(s, h)
    case Receive(h, reply) => At(s, h, Replied(s.handlers[h].phase.command, reply))
    case Record(h, outbox) => AfterOutcome(s, h, Outcome(s.db, s.handlers[h], outbox))
    case Vanish(h) => Gone(s, h)
    case Restart => s.(handlers := map[])
    case Tick(now) => s.(now := now)
    case Background(op) =>
      s.(db := Exec(s.db, op), accounts := if op.OpCreateAccount? then s.accounts + {op.account} else s.accounts)
  }

  ghost predicate Initial(s: State) {
    && Schema(s.db) && s.db.commands == map[] && s.handlers == map[] && s.requests == [] && s.ledger == map[]
    && s.accounts == s.db.accounts.Keys
  }

  /** The steps, taken one after another, lead from `s` to `t`. */
  ghost predicate Leads(s: State, steps: seq<Step>, t: State)
    decreases |steps|
  {
    if steps == [] then s == t
    else Enabled(s, steps[0]) && Leads(After(s, steps[0]), steps[1..], t)
  }

  // ---- the invariant -----------------------------------------------------------

  /** The ledger remembers which command each key of an account got, and loses none of a living account. */
  ghost predicate LedgerHolds(s: State) {
    && s.db.accounts.Keys <= s.accounts
    && (forall c :: c in s.db.commands ==>
          (s.db.commands[c].account, s.db.commands[c].key) in s.ledger
          && s.ledger[(s.db.commands[c].account, s.db.commands[c].key)] == c)
    && (forall k :: k in s.ledger ==> k.0 in s.accounts)
    && (forall k :: k in s.ledger && k.0 in s.db.accounts ==> s.ledger[k] in s.db.commands)
    && (forall k, l :: k in s.ledger && l in s.ledger && s.ledger[k] == s.ledger[l] ==> k == l)
  }

  predicate Known(s: State, account: string, key: string, command: string) {
    (account, key) in s.ledger && s.ledger[(account, key)] == command
  }

  ghost predicate HandlersHold(s: State) {
    forall h :: h in s.handlers ==>
      var x := s.handlers[h];
      && x.account in s.accounts
      && (x.account in s.db.accounts ==> s.db.accounts[x.account].user == x.user)
      && (x.phase.HasCommand() ==> Known(s, x.account, x.key, x.phase.command))
      && (x.phase.Owning() && x.phase.command in s.db.commands ==> s.db.commands[x.phase.command].status == Dispatched)
  }

  /** At most one handler owns a dispatched command. */
  ghost predicate OneOwner(s: State) {
    forall g, h :: g in s.handlers && h in s.handlers && g != h
      && s.handlers[g].phase.Owning() && s.handlers[h].phase.Owning()
      ==> s.handlers[g].phase.command != s.handlers[h].phase.command
  }

  ghost predicate RequestsHold(s: State) {
    && (forall i :: 0 <= i < |s.requests| ==>
          var r := s.requests[i];
          && Known(s, r.account, r.key, r.command)
          && (r.command in s.db.commands ==> s.db.commands[r.command].status != Pending))
    && (forall i, h :: 0 <= i < |s.requests| && h in s.handlers && s.handlers[h].phase.Won? ==>
          s.requests[i].command != s.handlers[h].phase.command)
    && (forall i, j :: 0 <= i < j < |s.requests| ==> s.requests[i].command != s.requests[j].command)
  }

  ghost predicate Inv(s: State) {
    Coupled(s.db) && LedgerHolds(s) && HandlersHold(s) && OneOwner(s) && RequestsHold(s)
  }

  // ---- preservation --------------------------------------------------------------

  lemma CommandKnown(s: State, c: string, account: string, key: string)
    requires LedgerHolds(s) && c in s.db.commands && Known(s, account, key, c)
    ensures s.db.commands[c].account == account && s.db.commands[c].key == key
  {
    assert s.ledger[(s.db.commands[c].account, s.db.commands[c].key)] == c;
  }

  /** What a successful or refused preparation tells the handler. */
  ghost predicate PreparedFrom(s: State, user: string, key: string, r: PrepareResult) {
    && (r.KeyTaken? ==> Owns(s.db, user, r.account))
    && (r.Prepared? ==>
          && Owns(s.db, user, r.account)
          && (forall c :: !IsCommand(s.db, c, r.account, key))
          && (forall k :: k in s.ledger ==> s.ledger[k] != r.command)
          && r.db.accounts == s.db.accounts
          && r.db.commands.Keys == s.db.commands.Keys + {r.command}
          && (forall c :: c in s.db.commands && c != r.command ==> r.db.commands[c] == s.db.commands[c])
          && r.db.commands[r.command].account == r.account && r.db.commands[r.command].key == key)
  }

  lemma PrepareFacts(s: State, user: string, conversation: string, body: string, key: string, draws: Draws)
    requires draws.command !in s.ledger.Values
    ensures PreparedFrom(s, user, key, PrepareSend(s.db, user, conversation, body, key, s.now, draws))
  {
    assert forall k :: k in s.ledger ==> s.ledger[k] in s.ledger.Values;
  }

  lemma FreshKey(s: State, account: string, key: string)
    requires LedgerHolds(s) && account in s.db.accounts
    requires forall c :: !IsCommand(s.db, c, account, key)
    ensures (account, key) !in s.ledger
  {
    if (account, key) in s.ledger {
      var c := s.ledger[(account, key)];
      CommandKnown(s, c, account, key);
      assert IsCommand(s.db, c, account, key);
    }
  }

  lemma StartKeeps(s: State, h: nat, user: string, body: string, key: string, r: PrepareResult)
    requires Inv(s) && h !in s.handlers && PreparedFrom(s, user, key, r)
    requires r.Prepared? ==> Coupled(r.db)
    ensures Inv(AfterPrepare(s, h, user, body, key, r))
  {
    var t := AfterPrepare(s, h, user, body, key, r);
    if r.Prepared? {
      FreshKey(s, r.account, key);
      var x := Handler(user, r.account, key, body, Created(r.command));
      StartLedger(s, t, x);
      StartHandlers(s, t, h, x);
      StartRequests(s, t, h, x);
    } else if r.KeyTaken? {
      KeyKnownKeeps(s, t, h);
    }
  }

  /** A handler that only learnt that its key is taken. */
  lemma KeyKnownKeeps(s: State, t: State, h: nat)
    requires Inv(s) && h !in s.handlers && h in t.handlers && t == s.(handlers := s.handlers[h := t.handlers[h]])
    requires t.handlers[h].phase.KeyKnown? && Owns(s.db, t.handlers[h].user, t.handlers[h].account)
    ensures Inv(t)
  {
  }

  /** A fresh command under a fresh key, taken by a new handler. */
  ghost predicate Started(s: State, t: State, x: Handler) {
    && x.phase.Created? && x.account in s.db.accounts && (x.account, x.key) !in s.ledger
    && (forall k :: k in s.ledger ==> s.ledger[k] != x.phase.command)
    && t.ledger == s.ledger[(x.account, x.key) := x.phase.command] && t.requests == s.requests
    && t.accounts == s.accounts && t.db.accounts == s.db.accounts
    && t.db.commands.Keys == s.db.commands.Keys + {x.phase.command}
    && (forall c :: c in s.db.commands && c != x.phase.command ==> t.db.commands[c] == s.db.commands[c])
    && t.db.commands[x.phase.command].account == x.account && t.db.commands[x.phase.command].key == x.key
  }

  lemma StartLedger(s: State, t: State, x: Handler)
    requires LedgerHolds(s) && Started(s, t, x)
    ensures LedgerHolds(t)
  {
  }

  lemma StartHandlers(s: State, t: State, h: nat, x: Handler)
    requires HandlersHold(s) && OneOwner(s) && s.db.accounts.Keys <= s.accounts
    requires Started(s, t, x) && h !in s.handlers && t.handlers == s.handlers[h := x]
    requires s.db.accounts[x.account].user == x.user
    ensures HandlersHold(t) && OneOwner(t)
  {
    forall g | g in s.handlers && s.handlers[g].phase.HasCommand()
      ensures s.handlers[g].phase.command != x.phase.command
    {
      assert Known(s, s.handlers[g].account, s.handlers[g].key, s.handlers[g].phase.command);
    }
  }

  lemma StartRequests(s: State, t: State, h: nat, x: Handler)
    requires RequestsHold(s) && Started(s, t, x) && h !in s.handlers && t.handlers == s.handlers[h := x]
    ensures RequestsHold(t)
  {
    forall i | 0 <= i < |t.requests|
      ensures t.requests[i].command != x.phase.command
    {
      assert Known(s, s.requests[i].account, s.requests[i].key, s.requests[i].command);
    }
  }

  predicate StaysPassive(s: State, x: Handler, y: Handler) {
    || y == x
    || (y == x.(phase := y.phase) && y.phase.Created? && Known(s, y.account, y.key, y.phase.command))
  }

  /** A handler that stays before ownership, or leaves, is harmless. */
  lemma PassiveKeeps(s: State, t: State)
    requires Inv(s)
    requires t == s.(handlers := t.handlers)
    requires forall h :: h in t.handlers ==> h in s.handlers && StaysPassive(s, s.handlers[h], t.handlers[h])
    ensures Inv(t)
  {
  }

  lemma ReadKeeps(s: State, h: nat)
    requires Inv(s) && Enabled(s, ReadExisting(h))
    ensures Inv(AfterRead(s, h))
  {
    PassiveKeeps(s, AfterRead(s, h));
  }

  lemma MarkKeeps(s: State, h: nat)
    requires Inv(s) && Enabled(s, Mark(h))
    ensures Inv(AfterMark(s, h))
  {
    var c := s.handlers[h].phase.command;
    var t := AfterMark(s, h);
    if Dispatchable(s.db, c, s.now) {
      MarkCoupled(s.db, c, s.now);
      MarkedOwner(s, t, h, c);
      MarkedRequests(s, t, h, c);
    } else {
      PassiveKeeps(s, t);
    }
  }

  ghost predicate Marked(s: State, t: State, h: nat, c: string) {
    && h in s.handlers && s.handlers[h].phase == Created(c)
    && c in s.db.commands && s.db.commands[c].status == Pending
    && t == At(s.(db := s.db.(commands := s.db.commands[c := s.db.commands[c].(status := Dispatched)])), h, Won(c))
  }

  /** Nobody owned the command while it was pending. */
  lemma MarkedOwner(s: State, t: State, h: nat, c: string)
    requires HandlersHold(s) && OneOwner(s) && Marked(s, t, h, c)
    ensures HandlersHold(t) && OneOwner(t)
  {
    assert forall g :: g in s.handlers && s.handlers[g].phase.Owning() ==> s.handlers[g].phase.command != c;
  }

  /** Nothing was sent for it either. */
  lemma MarkedRequests(s: State, t: State, h: nat, c: string)
    requires RequestsHold(s) && Marked(s, t, h, c)
    ensures RequestsHold(t)
  {
    assert forall i :: 0 <= i < |s.requests| ==> s.requests[i].command != c;
  }

  /** The owner moves on; only writing the request adds to the log. */
  lemma OwnerKeeps(s: State, h: nat, phase: Phase)
    requires Inv(s) && h in s.handlers && s.handlers[h].phase.Owning()
    requires phase.Waiting? || phase.Replied?
    requires phase.command == s.handlers[h].phase.command
    ensures Inv(At(s, h, phase))
  {
  }

  lemma WriteKeeps(s: State, h: nat)
    requires Inv(s) && Enabled(s, WriteRequest(h))
    ensures Inv(AfterWrite(s, h))
  {
    var t := AfterWrite(s, h);
    var c := s.handlers[h].phase.command;
    forall g | g in t.handlers && t.handlers[g].phase.Won?
      ensures t.handlers[g].phase.command != c
    {
    }
  }

  lemma RecordKeeps(s: State, h: nat, outbox: nat)
    requires Inv(s) && Enabled(s, Record(h, outbox))
    ensures Inv(AfterOutcome(s, h, Outcome(s.db, s.handlers[h], outbox)))
  {
    var x := s.handlers[h];
    var r := Outcome(s.db, x, outbox);
    var t := Gone(s, h);
    PassiveKeeps(s, t);
    if r.Finished? {
      OutcomeCoupled(s.db, x, outbox);
      FinishFrame(s.db, x, outbox);
      LastOwner(s, h);
      SettledKeeps(t, t.(db := r.db), x.phase.command);
    }
  }

  lemma LastOwner(s: State, h: nat)
    requires OneOwner(s) && h in s.handlers && s.handlers[h].phase.Owning()
    ensures forall g :: g in Gone(s, h).handlers && s.handlers[g].phase.Owning() ==>
              s.handlers[g].phase.command != s.handlers[h].phase.command
  {
  }

  lemma OutcomeCoupled(db: Db, x: Handler, outbox: nat)
    requires Coupled(db) && x.phase.Replied?
    requires x.phase.command in db.commands ==> IsOpen(db.commands[x.phase.command].status)
    ensures var r := Outcome(db, x, outbox); r.Finished? ==> Coupled(r.db)
  {
    match x.phase.reply {
      case Delivered(provider, sentAt) => CompleteCoupled(db, x.user, x.phase.command, provider, sentAt, outbox);
      case Rejected(code) => FailCoupled(db, x.user, x.phase.command, code, outbox);
    }
  }

  /** Recording changes one command's status, and no command's identity. */
  lemma FinishFrame(db: Db, x: Handler, outbox: nat)
    requires x.phase.Replied?
    ensures var r := Outcome(db, x, outbox); r.Finished? ==> OneStatusChanged(db, r.db, x.phase.command)
  {
    match x.phase.reply {
      case Delivered(provider, sentAt) => CompleteFrame(db, x.user, x.phase.command, provider, sentAt, outbox);
      case Rejected(code) => FailFrame(db, x.user, x.phase.command, code, outbox);
    }
  }

  lemma CompleteFrame(db: Db, user: string, command: string, provider: string, sentAt: Instant, outbox: nat)
    ensures var r := CompleteSend(db, user, command, provider, sentAt, outbox);
            r.Finished? ==> OneStatusChanged(db, r.db, command)
  {
  }

  lemma FailFrame(db: Db, user: string, command: string, code: string, outbox: nat)
    ensures var r := FailSend(db, user, command, code, outbox);
            r.Finished? ==> OneStatusChanged(db, r.db, command)
  {
  }

  ghost predicate OneStatusChanged(db: Db, after: Db, c: string) {
    && after.accounts == db.accounts && after.commands.Keys == db.commands.Keys
    && c in db.commands && !IsOpen(after.commands[c].status)
    && forall d :: d in db.commands ==>
         after.commands[d].account == db.commands[d].account && after.commands[d].key == db.commands[d].key
         && (d != c ==> after.commands[d].status == db.commands[d].status)
  }

  lemma SettledKeeps(s: State, t: State, c: string)
    requires LedgerHolds(s) && HandlersHold(s) && OneOwner(s) && RequestsHold(s)
    requires t == s.(db := t.db) && Coupled(t.db)
    requires OneStatusChanged(s.db, t.db, c)
    requires forall g :: g in s.handlers && s.handlers[g].phase.Owning() ==> s.handlers[g].phase.command != c
    ensures Inv(t)
  {
  }

  lemma BackgroundKeeps(s: State, op: DbOp)
    requires Inv(s) && Enabled(s, Background(op))
    ensures Inv(After(s, Background(op)))
  {
    BackgroundCoupled(s.db, op);
    BackgroundPreserves(s.db, op);
    BackgroundAccounts(s.db, op);
    BackgroundRest(s, After(s, Background(op)));
  }

  lemma BackgroundAccounts(db: Db, op: DbOp)
    requires IsBackground(op)
    ensures Exec(db, op).accounts.Keys <= db.accounts.Keys + (if op.OpCreateAccount? then {op.account} else {})
  {
  }

  lemma BackgroundRest(s: State, t: State)
    requires Inv(s) && Coupled(t.db) && CommandsPreserved(s.db, t.db)
    requires t == s.(db := t.db, accounts := t.accounts)
    requires s.accounts <= t.accounts && t.db.accounts.Keys <= t.accounts
    requires forall a :: a in t.db.accounts && a in s.accounts ==> a in s.db.accounts
    ensures LedgerHolds(t) && HandlersHold(t) && OneOwner(t) && RequestsHold(t)
  {
  }

  lemma StepKeeps(s: State, step: Step)
    requires Inv(s) && Enabled(s, step)
    ensures Inv(After(s, step))
  {
    match step {
      case Start(h, user, conversation, body, key, draws) =>
        PrepareFacts(s, user, conversation, body, key, draws);
        PrepareCoupled(s.db, user, conversation, body, key, s.now, draws);
        StartKeeps(s, h, user, body, key, PrepareSend(s.db, user, conversation, body, key, s.now, draws));
      case ReadExisting(h) => ReadKeeps(s, h);
      case Mark(h) => MarkKeeps(s, h);
      case FindOffline(h) => OwnerKeeps(s, h, Replied(s.handlers[h].phase.command, Rejected("worker_offline")));
      case WriteRequest(h) => WriteKeeps(s, h);
      case Receive(h, reply) => OwnerKeeps(s, h, Replied(s.handlers[h].phase.command, reply));
      case Record(h, outbox) => RecordKeeps(s, h, outbox);
      case Vanish(h) => PassiveKeeps(s, Gone(s, h));
      case Restart => PassiveKeeps(s, s.(handlers := map[]));
      case Tick(now) =>
      case Background(op) => BackgroundKeeps(s, op);
    }
  }

  lemma {:induction false} RunKeepsInvariant(s: State, steps: seq<Step>, t: State)
    requires Inv(s) && Leads(s, steps, t)
    ensures Inv(t)
    decreases |steps|
  {
    if steps != [] {
      StepKeeps(s, steps[0]);
      RunKeepsInvariant(After(s, steps[0]), steps[1..], t);
    }
  }

  lemma Reached(start: State, steps: seq<Step>, s: State)
    requires Initial(start) && Leads(start, steps, s)
    ensures Inv(s)
  {
    assert Inv(start);
    RunKeepsInvariant(start, steps, s);
  }

  // ---- the theorems ----------------------------------------------------------------

  /** At-most-once dispatch: in every run, however sends are repeated, raced, interrupted or
      restarted, no two requests reach a worker for one account and idempotency key. */
  lemma AtMostOnceDispatch(start: State, steps: seq<Step>, s: State, i: nat, j: nat)
    requires Initial(start) && Leads(start, steps, s)
    requires i < j < |s.requests|
    ensures (s.requests[i].account, s.requests[i].key) != (s.requests[j].account, s.requests[j].key)
  {
    Reached(start, steps, s);
    assert Known(s, s.requests[i].account, s.requests[i].key, s.requests[i].command);
    assert Known(s, s.requests[j].account, s.requests[j].key, s.requests[j].command);
  }

  function Rank(status: CommandStatus): nat {
    match status
    case Pending => 0
    case Dispatched => 1
    case _ => 2
  }

  /** From pending to dispatched to one final status, which never changes. */
  predicate Forward(before: CommandStatus, after: CommandStatus) {
    Rank(before) <= Rank(after) && (Rank(before) == 2 ==> after == before)
  }

  /** Statuses have only moved forward, the ledger has only grown, and no command has come back. */
  ghost predicate Later(s: State, t: State) {
    && (forall k :: k in s.ledger ==> k in t.ledger && t.ledger[k] == s.ledger[k])
    && (forall c :: c in s.db.commands && c in t.db.commands ==>
          Forward(s.db.commands[c].status, t.db.commands[c].status))
    && (forall k :: k in s.ledger && s.ledger[k] in t.db.commands ==> s.ledger[k] in s.db.commands)
  }

  lemma LaterTransitive(s: State, t: State, u: State)
    requires LedgerHolds(s) && Later(s, t) && Later(t, u)
    ensures Later(s, u)
  {
    forall c | c in s.db.commands && c in u.db.commands
      ensures Forward(s.db.commands[c].status, u.db.commands[c].status)
    {
      var k := (s.db.commands[c].account, s.db.commands[c].key);
      assert s.ledger[k] == c && t.ledger[k] == c;
    }
  }

  lemma StartLater(s: State, h: nat, user: string, body: string, key: string, r: PrepareResult)
    requires LedgerHolds(s) && PreparedFrom(s, user, key, r)
    ensures Later(s, AfterPrepare(s, h, user, body, key, r))
  {
    if r.Prepared? {
      FreshKey(s, r.account, key);
    }
  }

  /** Changes of statuses alone. */
  lemma StatusLater(s: State, t: State)
    requires t.ledger == s.ledger && forall c :: c in t.db.commands ==> c in s.db.commands
    requires forall c :: c in s.db.commands && c in t.db.commands ==>
               Forward(s.db.commands[c].status, t.db.commands[c].status)
    ensures Later(s, t)
  {
  }

  lemma RecordLater(s: State, h: nat, outbox: nat)
    requires Inv(s) && Enabled(s, Record(h, outbox))
    ensures Later(s, AfterOutcome(s, h, Outcome(s.db, s.handlers[h], outbox)))
  {
    FinishFrame(s.db, s.handlers[h], outbox);
    OutcomeLater(s, h, Outcome(s.db, s.handlers[h], outbox));
  }

  lemma OutcomeLater(s: State, h: nat, r: FinishResult)
    requires HandlersHold(s) && h in s.handlers && s.handlers[h].phase.Owning()
    requires r.Finished? ==> OneStatusChanged(s.db, r.db, s.handlers[h].phase.command)
    ensures Later(s, AfterOutcome(s, h, r))
  {
    StatusLater(s, AfterOutcome(s, h, r));
  }

  lemma MarkLater(s: State, h: nat)
    requires Enabled(s, Mark(h))
    ensures Later(s, AfterMark(s, h))
  {
    StatusLater(s, AfterMark(s, h));
  }

  lemma SameCommandsLater(s: State, t: State)
    requires t.ledger == s.ledger && t.db.commands == s.db.commands
    ensures Later(s, t)
  {
    StatusLater(s, t);
  }

  lemma StepLater(s: State, step: Step)
    requires Inv(s) && Enabled(s, step)
    ensures Later(s, After(s, step))
  {
    match step {
      case Start(h, user, conversation, body, key, draws) =>
        PrepareFacts(s, user, conversation, body, key, draws);
        StartLater(s, h, user, body, key, PrepareSend(s.db, user, conversation, body, key, s.now, draws));
      case Record(h, outbox) => RecordLater(s, h, outbox);
      case Background(op) =>
        BackgroundPreserves(s.db, op);
        StatusLater(s, After(s, step));
      case Mark(h) => MarkLater(s, h);
      case ReadExisting(h) => SameCommandsLater(s, AfterRead(s, h));
      case FindOffline(h) => SameCommandsLater(s, After(s, step));
      case WriteRequest(h) => SameCommandsLater(s, AfterWrite(s, h));
      case Receive(h, _) => SameCommandsLater(s, After(s, step));
      case Vanish(h) => SameCommandsLater(s, Gone(s, h));
      case Restart => SameCommandsLater(s, After(s, step));
      case Tick(_) => SameCommandsLater(s, After(s, step));
    }
  }

  lemma {:induction false} LaterOverRun(s: State, steps: seq<Step>, t: State)
    requires Inv(s) && Leads(s, steps, t)
    ensures Later(s, t)
    decreases |steps|
  {
    if steps != [] {
      var next := After(s, steps[0]);
      StepLater(s, steps[0]);
      StepKeeps(s, steps[0]);
      LaterOverRun(next, steps[1..], t);
      LaterTransitive(s, next, t);
    }
  }

  /** Over a whole run a command's status only moves forward, and a final status never changes. */
  lemma StatusMonotone(start: State, first: seq<Step>, s: State, rest: seq<Step>, t: State, c: string)
    requires Initial(start) && Leads(start, first, s) && Leads(s, rest, t)
    requires c in s.db.commands && c in t.db.commands
    ensures var before, after := s.db.commands[c].status, t.db.commands[c].status;
            Rank(before) <= Rank(after) && (Rank(before) == 2 ==> after == before)
  {
    Reached(start, first, s);
    LaterOverRun(s, rest, t);
  }

  /** Command and message agree in every reachable state. */
  lemma CommandMessageCoupling(start: State, steps: seq<Step>, s: State, c: string)
    requires Initial(start) && Leads(start, steps, s) && c in s.db.commands
    ensures var command := s.db.commands[c];
            && (IsOpen(command.status) ==> command.message.Some?)
            && (command.message.Some? ==>
                  command.message.value in s.db.messages
                  && s.db.messages[command.message.value].status == Counterpart(command.status))
  {
    Reached(start, steps, s);
    assert Matches(s.db, c);
  }

  /** The handler that won the dispatch always finds its command and pending message, unless the
      account has been deleted: recording the outcome can only fail on the outbox insert itself. */
  lemma WinnerFindsMessage(start: State, steps: seq<Step>, s: State, h: nat, outbox: nat)
    requires Initial(start) && Leads(start, steps, s)
    requires h in s.handlers && s.handlers[h].phase.Replied?
    requires s.handlers[h].account in s.db.accounts && outbox !in s.db.outbox
    ensures Outcome(s.db, s.handlers[h], outbox).Finished?
  {
    Reached(start, steps, s);
    var x := s.handlers[h];
    assert Known(s, x.account, x.key, x.phase.command);
    CommandKnown(s, x.phase.command, x.account, x.key);
    assert Matches(s.db, x.phase.command);
  }

  // ---- what a request carries ------------------------------------------------------

  /** Every send under a key is asked for with one body. */
  ghost predicate OneBody(steps: seq<Step>, bodies: string -> string) {
    forall i :: 0 <= i < |steps| && steps[i].Start? ==> steps[i].body == bodies(steps[i].key)
  }

  ghost predicate BodiesHold(s: State, bodies: string -> string) {
    && (forall h :: h in s.handlers ==> s.handlers[h].body == bodies(s.handlers[h].key))
    && (forall i :: 0 <= i < |s.requests| ==> s.requests[i].body == bodies(s.requests[i].key))
  }

  lemma {:induction false} BodiesOverRun(s: State, steps: seq<Step>, t: State, bodies: string -> string)
    requires BodiesHold(s, bodies) && Leads(s, steps, t) && OneBody(steps, bodies)
    ensures BodiesHold(t, bodies)
    decreases |steps|
  {
    if steps != [] {
      assert steps[0].Start? ==> steps[0].body == bodies(steps[0].key);
      BodiesOverRun(After(s, steps[0]), steps[1..], t, bodies);
    }
  }

  /** If retries repeat the body, the one request for a key carries it. */
  lemma RequestCarriesBody(start: State, steps: seq<Step>, s: State, bodies: string -> string, i: nat)
    requires Initial(start) && Leads(start, steps, s) && OneBody(steps, bodies) && i < |s.requests|
    ensures s.requests[i].body == bodies(s.requests[i].key)
  {
    BodiesOverRun(start, steps, s, bodies);
  }

  /** Otherwise the body sent need not be the body stored: a retry that finds the command pending sends
      its own, whatever the prepared message says. */
  lemma RetrySendsItsOwnBody(s: State, h: nat)
    requires h in s.handlers && s.handlers[h].phase.KeyKnown?
    requires var c := ExistingSend(s.db, s.handlers[h].account, s.handlers[h].key);
             c.Some? && Dispatchable(s.db, c.value, s.now)
    ensures Enabled(s, ReadExisting(h))
    ensures var read := After(s, ReadExisting(h));
            Enabled(read, Mark(h)) && Enabled(After(read, Mark(h)), WriteRequest(h))
    ensures var sent := After(After(After(s, ReadExisting(h)), Mark(h)), WriteRequest(h));
            sent.requests != [] && sent.requests[|s.requests|].body == s.handlers[h].body
            && sent.db.messages == s.db.messages
  {
  }
}
