/** A sent message comes back from the provider as an event. Whether that echo is ingested before
    or after the send is completed, and how often, makes no difference to the message table. */
module Echo {
  import opened Prelude
  import opened Protocol
  import opened Tables
  import opened MessageOps
  import opened DbRuns
  import opened ExactlyOnce

  /** An ingest of the message with provider id `p` in conversation `c`. */
  ghost predicate IsEcho(db: Db, op: DbOp, c: string, p: string) {
    && c in db.conversations
    && op.OpIngest?
    && Acceptable(op.message)
    && op.caller.account == db.conversations[c].account
    && op.message.conversationId == db.conversations[c].provider
    && op.message.providerMessageId == p
  }

  ghost predicate AllEchoes(db: Db, ops: seq<DbOp>, c: string, p: string) {
    c in db.conversations && forall i :: 0 <= i < |ops| ==> IsEcho(db, ops[i], c, p)
  }

  /** Being an echo depends only on the conversation's identity. */
  lemma EchoesCarry(d: Db, next: Db, ops: seq<DbOp>, c: string, p: string)
    requires AllEchoes(d, ops, c, p) && c in next.conversations
    requires next.conversations[c].account == d.conversations[c].account
    requires next.conversations[c].provider == d.conversations[c].provider
    ensures AllEchoes(next, ops, c, p)
    ensures ops != [] ==> AllEchoes(next, ops[1..], c, p) && IsEcho(next, ops[0], c, p)
  {
  }

  /** The command completes with provider id `p`; its row is `id`, in conversation `c`. */
  ghost predicate Completes(db: Db, user: string, command: string, p: string, outbox: nat, c: string, id: MessageId) {
    && p != ""
    && command in db.commands && Owns(db, user, db.commands[command].account)
    && db.commands[command].message == Some(id) && id in db.messages
    && db.messages[id].conversation == c
    && outbox !in db.outbox
  }

  /** `d` is `db` after some echoes: the same rows, except possibly one more with the echo's key. */
  ghost predicate EchoedFrom(db: Db, d: Db, c: string, p: string) { Schema(d) && EchoedRows(db, d, c, p) }

  ghost predicate EchoedRows(db: Db, d: Db, c: string, p: string) {
    && d.accounts == db.accounts && d.commands == db.commands
    && d.conversations.Keys == db.conversations.Keys
    && c in db.conversations
    && d.conversations[c].account == db.conversations[c].account
    && d.conversations[c].provider == db.conversations[c].provider
    && (forall k :: k in db.conversations && k != c ==> d.conversations[k] == db.conversations[k])
    && (forall id :: id in db.messages ==> id in d.messages && d.messages[id] == db.messages[id])
    && (forall id :: id in d.messages ==> id in db.messages || HasKey(d.messages[id], c, p))
  }

  lemma EchoStep(db: Db, d: Db, op: DbOp, c: string, p: string)
    requires EchoedFrom(db, d, c, p) && IsEcho(d, op, c, p)
    ensures EchoedFrom(db, Exec(d, op), c, p)
  {
    var r := Ingest(d, op.caller, op.message, op.live, op.draws);
    var k := IngestEffect(d, op.caller, op.message, op.live, op.draws);
    ExecSchema(d, op);
    if r.IngestOk? {
      EchoConversation(d, op, c, p, k);
      EchoIngested(db, d, r.db, c, p, r.id, r.inserted, op.message, op.live, op.draws.outbox);
    }
  }

  lemma EchoConversation(d: Db, op: DbOp, c: string, p: string, k: string)
    requires Schema(d) && IsEcho(d, op, c, p)
    requires Ingest(d, op.caller, op.message, op.live, op.draws).IngestOk?
    requires Schema(Exec(d, op))
    requires IsConversation(Exec(d, op), k, op.caller.account, op.message.conversationId)
    ensures k == c
    ensures Exec(d, op).conversations[c].account == d.conversations[c].account
    ensures Exec(d, op).conversations[c].provider == d.conversations[c].provider
    ensures Exec(d, op).conversations[c].lastMessageAt == Later(d.conversations[c].lastMessageAt, op.message.sentAt.value)
  {
    assert IsConversation(d, c, op.caller.account, op.message.conversationId);
    assert ConversationOf(d, op.caller.account, op.message.conversationId) == Some(c);
    assert IsConversation(Exec(d, op), c, op.caller.account, op.message.conversationId);
  }

  lemma EchoIngested(db: Db, d: Db, after: Db, c: string, p: string, id: MessageId, inserted: bool,
                     m: WireMessage, live: bool, outbox: nat)
    requires EchoedRows(db, d, c, p)
    requires Ingested(d, after, c, id, inserted, m, live, outbox) && m.providerMessageId == p
    requires after.conversations[c].account == d.conversations[c].account
    requires after.conversations[c].provider == d.conversations[c].provider
    ensures EchoedRows(db, after, c, p)
  {
    assert after.conversations.Keys == db.conversations.Keys;
  }

  lemma {:induction false} EchoSteps(db: Db, d: Db, ops: seq<DbOp>, c: string, p: string)
    requires EchoedFrom(db, d, c, p)
    requires AllEchoes(db, ops, c, p)
    ensures EchoedFrom(db, ExecAll(d, ops), c, p)
    decreases |ops|
  {
    if ops != [] {
      EchoesCarry(db, d, ops, c, p);
      EchoesCarry(db, db, ops, c, p);
      EchoStep(db, d, ops[0], c, p);
      EchoSteps(db, Exec(d, ops[0]), ops[1..], c, p);
    }
  }

  /** Completing after echoes gives the rows and commands of completing at once. */
  lemma CompleteAbsorbs(db: Db, d: Db, user: string, command: string, p: string, sentAt: Instant, outbox: nat, c: string, id: MessageId)
    requires Schema(db) && EchoedFrom(db, d, c, p)
    requires Completes(db, user, command, p, outbox, c, id) && outbox !in d.outbox
    ensures var op := OpComplete(user, command, p, sentAt, outbox);
            && Exec(d, op).messages == Exec(db, op).messages
            && Exec(d, op).commands == Exec(db, op).commands
            && Exec(d, op).conversations == d.conversations
            && IsRow(Exec(d, op), id, c, p) && Exec(d, op).messages[id].status == Sent
  {
    SameRemainder(db, d, c, p, id);
    CompleteIs(db, user, command, p, sentAt, outbox, c, id);
    CompleteIs(d, user, command, p, sentAt, outbox, c, id);
  }

  lemma CompleteIs(db: Db, user: string, command: string, p: string, sentAt: Instant, outbox: nat, c: string, id: MessageId)
    requires Completes(db, user, command, p, outbox, c, id)
    ensures command in DeleteMessages(db, Echoes(db, c, p, id)).commands
    ensures Exec(db, OpComplete(user, command, p, sentAt, outbox))
         == Settle(DeleteMessages(db, Echoes(db, c, p, id)), user, command, id,
                   Confirmed(db.messages[id], p, sentAt), Completed, outbox)
  {
  }

  /** What is left once the rows with the echo's key are gone does not depend on the echoes. */
  lemma SameRemainder(db: Db, d: Db, c: string, p: string, id: MessageId)
    requires ForeignKeys(db) && EchoedRows(db, d, c, p) && id in db.messages
    ensures var x, y := DeleteMessages(db, Echoes(db, c, p, id)), DeleteMessages(d, Echoes(d, c, p, id));
            x.messages == y.messages && x.commands == y.commands
  {
    var g, h := Echoes(db, c, p, id), Echoes(d, c, p, id);
    assert d.messages - h == db.messages - g;
    assert forall m :: m in db.messages ==> (m in g <==> m in h);
    SameUnlinks(db, d, g, h);
  }

  lemma SameUnlinks(db: Db, d: Db, g: set<MessageId>, h: set<MessageId>)
    requires ForeignKeys(db) && d.commands == db.commands
    requires forall m :: m in db.messages ==> (m in g <==> m in h)
    ensures DeleteMessages(d, h).commands == DeleteMessages(db, g).commands
  {
    forall k | k in db.commands
      ensures Unlink(db.commands[k], g) == Unlink(db.commands[k], h)
    {
    }
  }

  /** Once the prepared row carries the provider's id, an echo only advances the last activity. */
  lemma {:induction false} LateEchoes(d: Db, ops: seq<DbOp>, c: string, p: string, id: MessageId)
    requires Schema(d) && IsRow(d, id, c, p)
    requires AllEchoes(d, ops, c, p)
    ensures var after := ExecAll(d, ops);
            && Schema(after)
            && after.messages == d.messages && after.commands == d.commands && after.outbox == d.outbox
            && c in after.conversations
            && after.conversations[c].lastMessageAt == Latest(d.conversations[c].lastMessageAt, ops)
    decreases |ops|
  {
    if ops != [] {
      var op := ops[0];
      assert IsEcho(d, op, c, p);
      ExecSchema(d, op);
      ReplayIsIdle(d, op.caller, op.message, op.live, op.draws, c, id);
      var next := Exec(d, op);
      EchoesCarry(d, next, ops, c, p);
      LateEchoes(next, ops[1..], c, p, id);
    }
  }

  /** The running maximum of activity times. */
  ghost function Latest(at: Option<Instant>, ops: seq<DbOp>): Option<Instant>
    decreases |ops|
  {
    if ops == [] then at
    else Latest(if ops[0].OpIngest? && ops[0].message.sentAt.Some? then Later(at, ops[0].message.sentAt.value) else at, ops[1..])
  }

  /** The times of the messages ingested. */
  ghost function Times(ops: seq<DbOp>): set<Instant> {
    set op | op in ops && op.OpIngest? && op.message.sentAt.Some? :: op.message.sentAt.value
  }

  lemma TimesFirst(ops: seq<DbOp>)
    requires ops != []
    ensures Times(ops) == Times(ops[1..])
              + (if ops[0].OpIngest? && ops[0].message.sentAt.Some? then {ops[0].message.sentAt.value} else {})
  {
    assert forall op :: op in ops <==> op == ops[0] || op in ops[1..];
  }

  predicate IsMaximum(at: Option<Instant>, times: set<Instant>, r: Option<Instant>) {
    && (r.None? <==> at.None? && times == {})
    && (r.Some? ==> r == at || r.value in times)
    && (r.Some? && at.Some? ==> at.value <= r.value)
    && (r.Some? ==> forall t :: t in times ==> t <= r.value)
  }

  lemma {:induction false} LatestIsMaximum(at: Option<Instant>, ops: seq<DbOp>)
    ensures IsMaximum(at, Times(ops), Latest(at, ops))
    decreases |ops|
  {
    if ops != [] {
      TimesFirst(ops);
      if ops[0].OpIngest? && ops[0].message.sentAt.Some? {
        LatestIsMaximum(Later(at, ops[0].message.sentAt.value), ops[1..]);
      } else {
        LatestIsMaximum(at, ops[1..]);
      }
    }
  }

  /** Order and repetition do not matter: the activity is the maximum over the set of times. */
  lemma LatestUnordered(at: Option<Instant>, a: seq<DbOp>, b: seq<DbOp>)
    requires forall t :: t in Times(a) <==> t in Times(b)
    ensures Latest(at, a) == Latest(at, b)
    ensures IsMaximum(at, Times(a), Latest(at, a))
  {
    LatestIsMaximum(at, a);
    LatestIsMaximum(at, b);
  }

  /** Every ingest of the run succeeds (no random id collides). */
  ghost predicate AllIngested(d: Db, ops: seq<DbOp>)
    decreases |ops|
  {
    ops == [] ||
    (ops[0].OpIngest? && Ingest(d, ops[0].caller, ops[0].message, ops[0].live, ops[0].draws).IngestOk?
     && AllIngested(Exec(d, ops[0]), ops[1..]))
  }

  lemma {:induction false} EarlyActivity(d: Db, ops: seq<DbOp>, c: string, p: string)
    requires Schema(d) && AllIngested(d, ops)
    requires AllEchoes(d, ops, c, p)
    ensures c in ExecAll(d, ops).conversations
    ensures ExecAll(d, ops).conversations[c].lastMessageAt == Latest(d.conversations[c].lastMessageAt, ops)
    decreases |ops|
  {
    if ops != [] {
      var op := ops[0];
      assert IsEcho(d, op, c, p);
      ExecSchema(d, op);
      var k := IngestEffect(d, op.caller, op.message, op.live, op.draws);
      EchoConversation(d, op, c, p, k);
      var next := Exec(d, op);
      EchoesCarry(d, next, ops, c, p);
      EarlyActivity(next, ops[1..], c, p);
    }
  }

  lemma {:induction false} LatestConcat(at: Option<Instant>, a: seq<DbOp>, b: seq<DbOp>)
    ensures Latest(at, a + b) == Latest(Latest(at, a), b)
    decreases |a|
  {
    if a == [] {
      assert a + b == b;
    } else {
      assert (a + b)[1..] == a[1..] + b;
      LatestConcat(if a[0].OpIngest? && a[0].message.sentAt.Some? then Later(at, a[0].message.sentAt.value) else at, a[1..], b);
    }
  }

  /** Echo confluence: any echoes before and after the completion end in the message and command
      tables of the completion alone, with the prepared row as the only one for the provider's id;
      if every ingest succeeds, the conversation's last activity is the maximum over all of them. */
  lemma EchoConfluence(db: Db, before: seq<DbOp>, after: seq<DbOp>,
                       user: string, command: string, p: string, sentAt: Instant, outbox: nat, c: string, id: MessageId)
    requires Schema(db) && Completes(db, user, command, p, outbox, c, id)
    requires outbox !in ExecAll(db, before).outbox
    requires AllEchoes(db, before, c, p) && AllEchoes(db, after, c, p)
    ensures var op := OpComplete(user, command, p, sentAt, outbox);
            var final := ExecAll(db, before + [op] + after);
            && final.messages == Exec(db, op).messages && final.commands == Exec(db, op).commands
            && Schema(final) && OnlyRow(final, id, c, p) && final.messages[id].status == Sent
            && (AllIngested(db, before) ==>
                  c in final.conversations
                  && final.conversations[c].lastMessageAt == Latest(db.conversations[c].lastMessageAt, before + after))
  {
    var op := OpComplete(user, command, p, sentAt, outbox);
    ExecAllConcat(db, before + [op], after);
    ExecAllConcat(db, before, [op]);
    var d := ExecAll(db, before);
    EchoSteps(db, db, before, c, p);
    CompleteAbsorbs(db, d, user, command, p, sentAt, outbox, c, id);
    var e := Exec(d, op);
    assert ExecAll(d, [op]) == e by {
      assert [op][1..] == [];
    }
    ExecSchema(d, op);
    EchoesCarry(db, e, after, c, p);
    LateEchoes(e, after, c, p, id);
    if AllIngested(db, before) {
      EarlyActivity(db, before, c, p);
      LatestConcat(db.conversations[c].lastMessageAt, before, after);
    }
    OnlyOne(ExecAll(e, after), id, c, p);
  }

  ghost predicate OnlyRow(db: Db, id: MessageId, c: string, p: string) {
    IsRow(db, id, c, p) && forall o :: IsRow(db, o, c, p) ==> o == id
  }

  lemma OnlyOne(db: Db, id: MessageId, c: string, p: string)
    requires Schema(db) && IsRow(db, id, c, p)
    ensures OnlyRow(db, id, c, p)
  {
  }
}
