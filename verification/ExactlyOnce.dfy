/** However often a message is delivered, it has one row, one announcement and one unread mark. */
module ExactlyOnce {
  import opened Prelude
  import opened Protocol
  import opened Tables
  import opened MessageOps
  import opened DbRuns
  import opened Listing

  // ---- what one transaction adds and takes away -----------------------------

  /** New `message.new` outbox rows for the message with this key. */
  ghost function Announcements(before: Db, after: Db, c: string, p: string): set<nat> {
    set i | i in after.outbox && i !in before.outbox && after.outbox[i].kind == MessageNew
            && HasKey(after.outbox[i].message, c, p)
  }

  /** Rows with this key that are deleted. */
  ghost function Deletions(before: Db, after: Db, c: string, p: string): set<MessageId> {
    set id | id in before.messages && IsRow(before, id, c, p) && id !in after.messages
  }

  ghost predicate Linked(db: Db, id: MessageId) {
    exists c :: c in db.commands && db.commands[c].message == Some(id)
  }

  /** Rows with this key that came from the provider, not from a prepared send. */
  ghost function Arrivals(db: Db, c: string, p: string): set<MessageId> {
    set id | id in db.messages && IsRow(db, id, c, p) && !Linked(db, id)
  }

  /** A row that no command points to keeps its key and stays so until it is deleted. */
  ghost predicate ArrivalsStay(db: Db, after: Db) {
    forall id, c, p :: id in Arrivals(db, c, p) && id in after.messages ==> id in Arrivals(after, c, p)
  }

  lemma ArrivalsOnce(db: Db, c: string, p: string)
    requires UniqueProviders(db)
    ensures |Arrivals(db, c, p)| <= 1
  {
    var rows := Arrivals(db, c, p);
    if rows != {} {
      var id :| id in rows;
      assert forall o :: o in rows ==> o == id;
      assert rows == {id};
    }
  }

  /** The balance kept by every transaction: an announcement is paid for by a new arrival,
      and an arrival only goes by deletion. */
  ghost predicate Balanced(before: Db, after: Db, c: string, p: string) {
    |Announcements(before, after, c, p)| + |Arrivals(before, c, p)|
    <= |Deletions(before, after, c, p)| + |Arrivals(after, c, p)|
  }

  lemma QuietBalance(before: Db, after: Db, c: string, p: string)
    requires ArrivalsStay(before, after)
    requires Announcements(before, after, c, p) == {}
    ensures Balanced(before, after, c, p)
  {
    var gone, kept := Deletions(before, after, c, p), Arrivals(after, c, p);
    assert Arrivals(before, c, p) <= gone + kept;
    SmallerSet(Arrivals(before, c, p), gone + kept);
    assert |gone + kept| <= |gone| + |kept|;
  }

  ghost function UnreadOf(db: Db, c: string): nat {
    if c in db.conversations then db.conversations[c].unread else 0
  }

  /** What a successful ingest changed, table by table. */
  ghost predicate Ingested(db: Db, after: Db, c: string, id: MessageId, inserted: bool, m: WireMessage, live: bool, outbox: nat) {
    && Acceptable(m)
    && after.accounts == db.accounts && after.commands == db.commands
    && c in after.conversations
    && after.conversations.Keys == db.conversations.Keys + {c}
    && (forall d :: d in db.conversations && d != c ==> after.conversations[d] == db.conversations[d])
    && (if inserted then
          && id !in db.messages && (forall o :: !IsRow(db, o, c, m.providerMessageId))
          && after.messages == db.messages[id := WireRow(c, m)]
          && (live ==> outbox !in db.outbox && outbox in after.outbox)
          && after.outbox == (if live then db.outbox[outbox := after.outbox[outbox]] else db.outbox)
          && (live ==> after.outbox[outbox].kind == MessageNew && after.outbox[outbox].message == WireRow(c, m))
          && UnreadOf(after, c) == UnreadOf(db, c) + (if live && WireRow(c, m).direction == Incoming then 1 else 0)
        else
          && IsRow(db, id, c, m.providerMessageId)
          && after.messages == db.messages && after.outbox == db.outbox
          && UnreadOf(after, c) == UnreadOf(db, c))
  }

  lemma IngestEffect(db: Db, caller: Caller, m: WireMessage, live: bool, draws: Draws) returns (c: string)
    ensures var r := Ingest(db, caller, m, live, draws);
            r.IngestOk? ==>
              && Ingested(db, r.db, c, r.id, r.inserted, m, live, draws.outbox)
              && IsConversation(r.db, c, caller.account, m.conversationId)
  {
    var r := Ingest(db, caller, m, live, draws);
    c := "";
    if r.IngestOk? {
      var (d, conversations) := UpsertConversation(db, caller, m, draws);
      c := d;
    }
  }

  /** A new arrival pays for its announcement. */
  lemma InsertBalance(db: Db, after: Db, d: string, id: MessageId, m: WireMessage, live: bool, outbox: nat, c: string, p: string)
    requires Schema(db) && Ingested(db, after, d, id, true, m, live, outbox)
    ensures Balanced(db, after, c, p)
  {
    assert forall o :: Linked(after, o) <==> Linked(db, o);
    if Announcements(db, after, c, p) == {} {
      QuietBalance(db, after, c, p);
    } else {
      assert Announcements(db, after, c, p) == {outbox};
      assert Arrivals(db, c, p) == {};
      assert id in Arrivals(after, c, p);
      SmallerSet({id}, Arrivals(after, c, p));
    }
  }

  lemma DuplicateBalance(db: Db, after: Db, d: string, id: MessageId, m: WireMessage, live: bool, outbox: nat, c: string, p: string)
    requires Schema(db) && Ingested(db, after, d, id, false, m, live, outbox)
    ensures Balanced(db, after, c, p)
  {
    assert forall o :: Linked(after, o) <==> Linked(db, o);
    QuietBalance(db, after, c, p);
  }

  lemma IngestBalance(db: Db, caller: Caller, m: WireMessage, live: bool, draws: Draws, c: string, p: string)
    requires Schema(db)
    ensures Balanced(db, Exec(db, OpIngest(caller, m, live, draws)), c, p)
  {
    var r := Ingest(db, caller, m, live, draws);
    var d := IngestEffect(db, caller, m, live, draws);
    if r.IngestError? {
      QuietBalance(db, db, c, p);
    } else if r.inserted {
      InsertBalance(db, r.db, d, r.id, m, live, draws.outbox, c, p);
    } else {
      DuplicateBalance(db, r.db, d, r.id, m, live, draws.outbox, c, p);
    }
  }

  lemma PrepareStays(db: Db, op: DbOp)
    requires Schema(db) && op.OpPrepare?
    ensures ArrivalsStay(db, Exec(db, op)) && Exec(db, op).outbox == db.outbox
  {
    var after := Exec(db, op);
    assert forall id :: id in db.messages ==> id in after.messages && after.messages[id] == db.messages[id];
    assert forall id :: id in db.messages && Linked(after, id) ==> Linked(db, id);
  }

  lemma DeleteStays(db: Db, gone: set<MessageId>)
    ensures ArrivalsStay(db, DeleteMessages(db, gone))
  {
    var after := DeleteMessages(db, gone);
    assert forall id :: Linked(after, id) ==> Linked(db, id);
  }

  lemma SettleStays(db: Db, user: string, command: string, id: MessageId, row: Message, status: CommandStatus, outbox: nat)
    requires command in db.commands && Linked(db, id) && id in db.messages
    ensures ArrivalsStay(db, Settle(db, user, command, id, row, status, outbox))
  {
    var after := Settle(db, user, command, id, row, status, outbox);
    assert forall o :: Linked(after, o) ==> Linked(db, o);
  }

  lemma FinishBalance(db: Db, op: DbOp, c: string, p: string)
    requires Schema(db) && (op.OpComplete? || op.OpFail?)
    ensures Balanced(db, Exec(db, op), c, p)
  {
    var after := Exec(db, op);
    if after != db {
      var command := op.command;
      var id := db.commands[command].message.value;
      var row := db.messages[id];
      if op.OpComplete? {
        var gone := if op.provider == "" then {} else Echoes(db, row.conversation, op.provider, id);
        var middle := DeleteMessages(db, gone);
        DeleteStays(db, gone);
        assert middle.commands[command].message == Some(id);
        SettleStays(middle, op.user, command, id, Confirmed(row, op.provider, op.sentAt), Completed, op.outbox);
        assert middle.messages.Keys == after.messages.Keys;
      } else {
        SettleStays(db, op.user, command, id, row.(status := FailedMessage(op.code)), FailedCommand(op.code), op.outbox);
      }
    }
    QuietBalance(db, after, c, p);
  }

  lemma AccountStays(db: Db, account: string)
    ensures ArrivalsStay(db, DeleteAccountRows(db, account))
  {
    var after := DeleteAccountRows(db, account);
    assert forall id :: Linked(after, id) ==> Linked(db, id);
  }

  /** A transaction that leaves rows and links alone and announces nothing. */
  lemma SameRowsBalance(db: Db, after: Db, c: string, p: string)
    requires after.messages == db.messages
    requires after.commands.Keys == db.commands.Keys
    requires forall k :: k in db.commands ==> after.commands[k].message == db.commands[k].message
    requires forall i :: i in after.outbox ==> i in db.outbox
    ensures Balanced(db, after, c, p)
  {
    assert forall id :: Linked(after, id) ==> Linked(db, id);
    QuietBalance(db, after, c, p);
  }

  lemma StepBalance(db: Db, op: DbOp, c: string, p: string)
    requires Schema(db)
    ensures Balanced(db, Exec(db, op), c, p)
  {
    match op {
      case OpIngest(caller, m, live, draws) => IngestBalance(db, caller, m, live, draws, c, p);
      case OpPrepare(_, _, _, _, _, _) =>
        PrepareStays(db, op);
        QuietBalance(db, Exec(db, op), c, p);
      case OpComplete(_, _, _, _, _) => FinishBalance(db, op, c, p);
      case OpFail(_, _, _, _) => FinishBalance(db, op, c, p);
      case OpPrune(cutoff, keep) =>
        DeleteStays(db, Stale(db, cutoff, keep));
        QuietBalance(db, PruneMessages(db, cutoff, keep), c, p);
      case OpDeleteAccount(user, account) =>
        if Owns(db, user, account) {
          AccountStays(db, account);
          QuietBalance(db, DeleteAccountRows(db, account), c, p);
        } else {
          SameRowsBalance(db, db, c, p);
        }
      case _ => SideBalance(db, op, c, p);
    }
  }

  lemma SideBalance(db: Db, op: DbOp, c: string, p: string)
    requires op.OpMark? || op.OpSync? || op.OpPruneOutbox? || op.OpDelivered? || op.OpCreateAccount?
    ensures Balanced(db, Exec(db, op), c, p)
  {
    SameRowsBalance(db, Exec(db, op), c, p);
  }

  // ---- over whole runs -------------------------------------------------------

  ghost function TotalAnnouncements(db: Db, ops: seq<DbOp>, c: string, p: string): nat
    decreases |ops|
  {
    if ops == [] then 0
    else |Announcements(db, Exec(db, ops[0]), c, p)| + TotalAnnouncements(Exec(db, ops[0]), ops[1..], c, p)
  }

  ghost function TotalDeletions(db: Db, ops: seq<DbOp>, c: string, p: string): nat
    decreases |ops|
  {
    if ops == [] then 0
    else |Deletions(db, Exec(db, ops[0]), c, p)| + TotalDeletions(Exec(db, ops[0]), ops[1..], c, p)
  }

  lemma {:induction false} RunBalance(db: Db, ops: seq<DbOp>, c: string, p: string)
    requires Schema(db)
    ensures Schema(ExecAll(db, ops))
    ensures TotalAnnouncements(db, ops, c, p) + |Arrivals(db, c, p)|
         <= TotalDeletions(db, ops, c, p) + |Arrivals(ExecAll(db, ops), c, p)|
    decreases |ops|
  {
    if ops != [] {
      ExecSchema(db, ops[0]);
      StepBalance(db, ops[0], c, p);
      RunBalance(Exec(db, ops[0]), ops[1..], c, p);
    }
  }

  /** Exactly-once effect: over any run of transactions, a message is announced at most once more
      than its row was deleted, and never has two rows. */
  lemma AnnouncedAtMostOnce(db: Db, ops: seq<DbOp>, c: string, p: string)
    requires Schema(db)
    ensures TotalAnnouncements(db, ops, c, p) <= 1 + TotalDeletions(db, ops, c, p)
    ensures var after := ExecAll(db, ops);
            forall a, b :: IsRow(after, a, c, p) && IsRow(after, b, c, p) ==> a == b
  {
    RunBalance(db, ops, c, p);
    ArrivalsOnce(ExecAll(db, ops), c, p);
  }

  // ---- exactly how often a message is announced --------------------------------

  /** Rows with this key that appear. */
  ghost function NewRows(before: Db, after: Db, c: string, p: string): set<MessageId> {
    set id | id in after.messages && id !in before.messages && HasKey(after.messages[id], c, p)
  }

  /** First insertions of the message by live delivery; a cached one is none. */
  ghost function LiveInsertions(db: Db, op: DbOp, c: string, p: string): nat {
    if op.OpIngest? && op.live then |NewRows(db, Exec(db, op), c, p)| else 0
  }

  lemma IngestAnnounces(db: Db, after: Db, d: string, id: MessageId, inserted: bool, m: WireMessage, live: bool, outbox: nat, c: string, p: string)
    requires Ingested(db, after, d, id, inserted, m, live, outbox)
    ensures |Announcements(db, after, c, p)| == if live then |NewRows(db, after, c, p)| else 0
  {
    if inserted && HasKey(WireRow(d, m), c, p) {
      assert NewRows(db, after, c, p) == {id};
      assert Announcements(db, after, c, p) == if live then {outbox} else {};
    } else {
      assert NewRows(db, after, c, p) == {};
      assert Announcements(db, after, c, p) == {};
    }
  }

  lemma SendAnnouncesNothing(db: Db, op: DbOp, c: string, p: string)
    requires op.OpComplete? || op.OpFail? || op.OpPrepare?
    ensures Announcements(db, Exec(db, op), c, p) == {}
  {
  }

  lemma OtherAnnouncesNothing(db: Db, op: DbOp, c: string, p: string)
    requires !op.OpIngest? && !op.OpComplete? && !op.OpFail? && !op.OpPrepare?
    ensures Announcements(db, Exec(db, op), c, p) == {}
  {
    assert forall i :: i in Exec(db, op).outbox ==> i in db.outbox;
  }

  lemma StepAnnounces(db: Db, op: DbOp, c: string, p: string)
    ensures |Announcements(db, Exec(db, op), c, p)| == LiveInsertions(db, op, c, p)
  {
    match op {
      case OpIngest(caller, m, live, draws) =>
        var r := Ingest(db, caller, m, live, draws);
        var d := IngestEffect(db, caller, m, live, draws);
        if r.IngestOk? {
          IngestAnnounces(db, r.db, d, r.id, r.inserted, m, live, draws.outbox, c, p);
        } else {
          assert NewRows(db, db, c, p) == {};
          assert Announcements(db, db, c, p) == {};
        }
      case OpComplete(_, _, _, _, _) => SendAnnouncesNothing(db, op, c, p);
      case OpFail(_, _, _, _) => SendAnnouncesNothing(db, op, c, p);
      case OpPrepare(_, _, _, _, _, _) => SendAnnouncesNothing(db, op, c, p);
      case _ => OtherAnnouncesNothing(db, op, c, p);
    }
  }

  ghost function TotalLiveInsertions(db: Db, ops: seq<DbOp>, c: string, p: string): nat
    decreases |ops|
  {
    if ops == [] then 0 else LiveInsertions(db, ops[0], c, p) + TotalLiveInsertions(Exec(db, ops[0]), ops[1..], c, p)
  }

  /** Over any run, a message is announced exactly as often as live delivery was the one to insert it. */
  lemma {:induction false} AnnouncementsAreLiveInsertions(db: Db, ops: seq<DbOp>, c: string, p: string)
    ensures TotalAnnouncements(db, ops, c, p) == TotalLiveInsertions(db, ops, c, p)
    decreases |ops|
  {
    if ops != [] {
      StepAnnounces(db, ops[0], c, p);
      AnnouncementsAreLiveInsertions(Exec(db, ops[0]), ops[1..], c, p);
    }
  }

  // ---- replay ----------------------------------------------------------------

  /** Once a message has a row, another ingest of it changes nothing but the conversation's
      last activity, and that only forwards. */
  lemma ReplayIsIdle(db: Db, caller: Caller, m: WireMessage, live: bool, draws: Draws, c: string, id: MessageId)
    requires Schema(db) && Acceptable(m)
    requires IsConversation(db, c, caller.account, m.conversationId) && IsRow(db, id, c, m.providerMessageId)
    ensures Ingest(db, caller, m, live, draws)
         == IngestOk(db.(conversations := db.conversations[c := Touched(db.conversations[c], m.sentAt.value)]), id, false)
  {
    var found := ConversationOf(db, caller.account, m.conversationId);
    assert found == Some(c);
    assert RowOf(db, c, m.providerMessageId) == Some(id);
  }

  /** A successful ingest leaves a row for the message, in the conversation of its account. */
  lemma IngestLeavesRow(db: Db, caller: Caller, m: WireMessage, live: bool, draws: Draws)
    requires Schema(db)
    ensures var r := Ingest(db, caller, m, live, draws);
            r.IngestOk? ==>
              && Acceptable(m)
              && exists c :: IsConversation(r.db, c, caller.account, m.conversationId)
                             && IsRow(r.db, r.id, c, m.providerMessageId)
  {
    var c := IngestEffect(db, caller, m, live, draws);
  }

  /** Replaying an ingest immediately, in either form, only repeats the first one's result. */
  lemma DoubleIngest(db: Db, caller: Caller, m: WireMessage, first: bool, second: bool, draws: Draws, again: Draws)
    requires Schema(db) && Ingest(db, caller, m, first, draws).IngestOk?
    ensures var r := Ingest(db, caller, m, first, draws);
            Ingest(r.db, caller, m, second, again) == IngestOk(r.db, r.id, false)
  {
    var r := Ingest(db, caller, m, first, draws);
    var c := IngestEffect(db, caller, m, first, draws);
    IngestSchema(db, caller, m, first, draws);
    ReplayIsIdle(r.db, caller, m, second, again, c, r.id);
    ActivityReached(db, caller, m, first, draws, c);
    assert r.db.conversations[c := r.db.conversations[c]] == r.db.conversations;
  }

  lemma ActivityReached(db: Db, caller: Caller, m: WireMessage, live: bool, draws: Draws, c: string)
    requires Ingest(db, caller, m, live, draws).IngestOk?
    requires Schema(Ingest(db, caller, m, live, draws).db)
    requires IsConversation(Ingest(db, caller, m, live, draws).db, c, caller.account, m.conversationId)
    ensures var row := Ingest(db, caller, m, live, draws).db.conversations[c];
            m.sentAt.Some? && Touched(row, m.sentAt.value) == row
  {
    var (d, conversations) := UpsertConversation(db, caller, m, draws);
    assert IsConversation(Ingest(db, caller, m, live, draws).db, d, caller.account, m.conversationId);
    assert d == c;
  }

  // ---- unread counts ---------------------------------------------------------

  /** Incoming rows that appear in the conversation. */
  ghost function NewIncoming(before: Db, after: Db, c: string): set<MessageId> {
    set id | id in after.messages && id !in before.messages
             && after.messages[id].conversation == c && after.messages[id].direction == Incoming
  }

  /** Incoming first insertions by live delivery. */
  ghost function LiveArrivals(db: Db, op: DbOp, c: string): nat {
    if op.OpIngest? && op.live then |NewIncoming(db, Exec(db, op), c)| else 0
  }

  lemma UnreadIngest(db: Db, after: Db, d: string, id: MessageId, inserted: bool, m: WireMessage, live: bool, outbox: nat, c: string)
    requires Ingested(db, after, d, id, inserted, m, live, outbox)
    ensures UnreadOf(after, c) == UnreadOf(db, c) + (if live then |NewIncoming(db, after, c)| else 0)
  {
    if inserted && d == c && WireRow(d, m).direction == Incoming {
      assert NewIncoming(db, after, c) == {id};
    } else {
      assert NewIncoming(db, after, c) == {};
    }
  }

  lemma UnreadStep(db: Db, op: DbOp, c: string)
    requires c in db.conversations ==> c in Exec(db, op).conversations
    ensures UnreadOf(Exec(db, op), c) == UnreadOf(db, c) + LiveArrivals(db, op, c)
  {
    match op {
      case OpIngest(caller, m, live, draws) =>
        var r := Ingest(db, caller, m, live, draws);
        var d := IngestEffect(db, caller, m, live, draws);
        if r.IngestOk? {
          UnreadIngest(db, r.db, d, r.id, r.inserted, m, live, draws.outbox, c);
        } else {
          assert NewIncoming(db, db, c) == {};
        }
      case _ =>
    }
  }

  ghost function TotalLiveArrivals(db: Db, ops: seq<DbOp>, c: string): nat
    decreases |ops|
  {
    if ops == [] then 0 else LiveArrivals(db, ops[0], c) + TotalLiveArrivals(Exec(db, ops[0]), ops[1..], c)
  }

  /** The conversation is never deleted during the run. */
  ghost predicate Persists(db: Db, ops: seq<DbOp>, c: string)
    decreases |ops|
  {
    ops == [] || ((c in db.conversations ==> c in Exec(db, ops[0]).conversations) && Persists(Exec(db, ops[0]), ops[1..], c))
  }

  /** The unread count is the number of live incoming first insertions. */
  lemma {:induction false} UnreadCountsArrivals(db: Db, ops: seq<DbOp>, c: string)
    requires Persists(db, ops, c)
    ensures UnreadOf(ExecAll(db, ops), c) == UnreadOf(db, c) + TotalLiveArrivals(db, ops, c)
    decreases |ops|
  {
    if ops != [] {
      UnreadStep(db, ops[0], c);
      UnreadCountsArrivals(Exec(db, ops[0]), ops[1..], c);
    }
  }

  /** A live ingest of an incoming message that inserted it in the conversation. */
  ghost predicate IsLiveIncoming(db: Db, op: DbOp, c: string) {
    op.OpIngest? && op.live && op.message.direction == "incoming"
    && var r := Ingest(db, op.caller, op.message, true, op.draws);
       r.IngestOk? && r.inserted && r.id in r.db.messages && r.db.messages[r.id].conversation == c
  }

  lemma IncomingStep(db: Db, op: DbOp, c: string)
    requires c in db.conversations ==> c in Exec(db, op).conversations
    ensures UnreadOf(Exec(db, op), c) == UnreadOf(db, c) + (if IsLiveIncoming(db, op, c) then 1 else 0)
  {
    UnreadStep(db, op, c);
    if op.OpIngest? && op.live {
      var r := Ingest(db, op.caller, op.message, true, op.draws);
      var d := IngestEffect(db, op.caller, op.message, true, op.draws);
      if IsLiveIncoming(db, op, c) {
        assert NewIncoming(db, Exec(db, op), c) == {r.id};
      } else {
        assert NewIncoming(db, Exec(db, op), c) == {};
      }
    }
  }

  ghost function TotalLiveIncoming(db: Db, ops: seq<DbOp>, c: string): nat
    decreases |ops|
  {
    if ops == [] then 0
    else (if IsLiveIncoming(db, ops[0], c) then 1 else 0) + TotalLiveIncoming(Exec(db, ops[0]), ops[1..], c)
  }

  /** The unread count grows by exactly the live ingests of incoming messages that inserted. */
  lemma {:induction false} UnreadCountsIncoming(db: Db, ops: seq<DbOp>, c: string)
    requires Persists(db, ops, c)
    ensures UnreadOf(ExecAll(db, ops), c) == UnreadOf(db, c) + TotalLiveIncoming(db, ops, c)
    decreases |ops|
  {
    if ops != [] {
      IncomingStep(db, ops[0], c);
      UnreadCountsIncoming(Exec(db, ops[0]), ops[1..], c);
    }
  }
}
