/** Sends that are allowed do go out, and their outcomes are recorded. */
module SendProgress {
  import opened Prelude
  import opened Protocol
  import opened Tables
  import opened MessageOps
  import opened DbRuns
  import opened Coupling
  import opened Transactions
  import opened Sends
  import HubOutcomes

  ghost predicate Reachable(s: State) {
    exists start, steps :: Initial(start) && Leads(start, steps, s)
  }

  /** Mark, then write: the two steps that take a created handler to its request. */
  lemma Dispatches(s: State, h: nat)
    requires h in s.handlers && s.handlers[h].phase.Created?
    requires var c := s.handlers[h].phase.command;
             c in s.db.commands && s.db.commands[c].status == Pending && s.now < s.db.commands[c].expiresAt
    ensures Enabled(s, Mark(h)) && Enabled(After(s, Mark(h)), WriteRequest(h))
    ensures var x := s.handlers[h];
            After(After(s, Mark(h)), WriteRequest(h)).requests
            == s.requests + [Request(x.account, x.key, x.phase.command, x.body)]
  {
  }

  /** In every reachable state the first send of a key to an owned conversation can be prepared, marked and
      written: one request of the conversation's account, with its own command and body. */
  lemma FirstSendGoesOut(s: State, step: Step)
    requires Reachable(s) && step.Start? && Enabled(s, step)
    requires IsOwned(s.db, step.user, step.conversation)
    requires !KeyInUse(s.db, s.db.conversations[step.conversation].account, step.key)
    requires step.draws.message !in s.db.messages
    ensures var a := After(s, step);
            Enabled(a, Mark(step.h)) && Enabled(After(a, Mark(step.h)), WriteRequest(step.h))
    ensures var account := s.db.conversations[step.conversation].account;
            After(After(After(s, step), Mark(step.h)), WriteRequest(step.h)).requests
            == s.requests + [Request(account, step.key, step.draws.command, step.body)]
  {
    var start, steps :| Initial(start) && Leads(start, steps, s);
    Reached(start, steps, s);
    CommandIsNew(s, step.draws.command);
    PrepareMeans(s.db, step.user, step.conversation, step.body, step.key, s.now, step.draws);
    Dispatches(After(s, step), step.h);
  }

  lemma CommandIsNew(s: State, command: string)
    requires LedgerHolds(s) && command !in s.ledger.Values
    ensures command !in s.db.commands
  {
  }

  /** The step is a send to an owned conversation, and the command is pending, unexpired and of its key. */
  ghost predicate IsRetry(s: State, step: Step, command: string) {
    && step.Start? && IsOwned(s.db, step.user, step.conversation) && command in s.db.commands
    && s.db.commands[command].account == s.db.conversations[step.conversation].account
    && s.db.commands[command].key == step.key
    && s.db.commands[command].status == Pending && s.now < s.db.commands[command].expiresAt
  }

  lemma RetryReads(s: State, step: Step, command: string)
    requires Reachable(s) && Enabled(s, step) && IsRetry(s, step, command)
    ensures Enabled(After(s, step), ReadExisting(step.h))
    ensures var read := After(After(s, step), ReadExisting(step.h));
            && read.db == s.db && read.now == s.now && read.requests == s.requests
            && step.h in read.handlers
            && read.handlers[step.h] == Handler(step.user, s.db.conversations[step.conversation].account, step.key, step.body,
                                                Created(command))
  {
    var start, steps :| Initial(start) && Leads(start, steps, s);
    Reached(start, steps, s);
    assert Matches(s.db, command);
    var account := s.db.conversations[step.conversation].account;
    assert KeyInUse(s.db, account, step.key);
    PrepareMeans(s.db, step.user, step.conversation, step.body, step.key, s.now, step.draws);
    ExistingMeans(s.db, account, step.key);
  }

  /** A retry of a key whose command is pending and unexpired goes out too, for the command that is there. */
  lemma RetryGoesOut(s: State, step: Step, command: string)
    requires Reachable(s) && Enabled(s, step) && IsRetry(s, step, command)
    ensures var a := After(s, step);
            Enabled(a, ReadExisting(step.h)) && Enabled(After(a, ReadExisting(step.h)), Mark(step.h))
            && Enabled(After(After(a, ReadExisting(step.h)), Mark(step.h)), WriteRequest(step.h))
    ensures var account := s.db.conversations[step.conversation].account;
            After(After(After(After(s, step), ReadExisting(step.h)), Mark(step.h)), WriteRequest(step.h)).requests
            == s.requests + [Request(account, step.key, command, step.body)]
  {
    RetryReads(s, step, command);
    Dispatches(After(After(s, step), ReadExisting(step.h)), step.h);
  }

  /** In every reachable state the reply to a request can be recorded while the account exists: its command
      gets the status the reply calls for, and its row the one that goes with it. */
  lemma WinnerRecords(s: State, h: nat, outbox: nat)
    requires Reachable(s) && h in s.handlers && s.handlers[h].phase.Replied?
    requires s.handlers[h].account in s.db.accounts && outbox !in s.db.outbox
    ensures var c, db := s.handlers[h].phase.command, After(s, Record(h, outbox)).db;
            && c in db.commands && db.commands[c].status == HubOutcomes.Recorded(s.handlers[h].phase.reply)
            && db.commands[c].message.Some? && db.commands[c].message.value in db.messages
            && db.messages[db.commands[c].message.value].status == Counterpart(db.commands[c].status)
  {
    OutcomeIsFinished(s, h, outbox);
    RecordedState(s, h, outbox);
    OutcomeLinks(s.db, s.handlers[h], outbox);
  }

  lemma OutcomeIsFinished(s: State, h: nat, outbox: nat)
    requires Reachable(s) && h in s.handlers && s.handlers[h].phase.Replied?
    requires s.handlers[h].account in s.db.accounts && outbox !in s.db.outbox
    ensures Outcome(s.db, s.handlers[h], outbox).Finished?
  {
    var start, steps :| Initial(start) && Leads(start, steps, s);
    WinnerFindsMessage(start, steps, s, h, outbox);
  }

  lemma RecordedState(s: State, h: nat, outbox: nat)
    requires h in s.handlers && s.handlers[h].phase.Replied? && Outcome(s.db, s.handlers[h], outbox).Finished?
    ensures After(s, Record(h, outbox)).db == Outcome(s.db, s.handlers[h], outbox).db
  {
  }

  lemma OutcomeLinks(db: Db, x: Handler, outbox: nat)
    requires x.phase.Replied? && Outcome(db, x, outbox).Finished?
    ensures var after, c := Outcome(db, x, outbox).db, x.phase.command;
            && c in after.commands && after.commands[c].status == HubOutcomes.Recorded(x.phase.reply)
            && after.commands[c].message.Some? && after.commands[c].message.value in after.messages
            && after.messages[after.commands[c].message.value].status == Counterpart(HubOutcomes.Recorded(x.phase.reply))
  {
    match x.phase.reply {
      case Delivered(provider, sentAt) =>
        CompleteMeans(db, x.user, x.phase.command, provider, sentAt, outbox);
        CompleteCommands(db, x.user, x.phase.command, provider, sentAt, outbox);
      case Rejected(code) => FailMeans(db, x.user, x.phase.command, code, outbox);
    }
  }
}
