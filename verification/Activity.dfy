/** When a conversation's last activity can go backwards. */
module Activity {
  import opened Prelude
  import opened Protocol
  import opened Tables
  import opened MessageOps
  import opened DbRuns

  predicate Lowered(before: Option<Instant>, after: Option<Instant>) {
    before.Some? && (after.None? || after.value < before.value)
  }

  /** The send is the user's to make, its key is new, and its ids are free. */
  ghost predicate CanPrepare(db: Db, op: DbOp)
    requires op.OpPrepare?
  {
    && op.conversation in db.conversations
    && Owns(db, op.user, db.conversations[op.conversation].account)
    && (forall k :: !IsCommand(db, k, db.conversations[op.conversation].account, op.key))
    && op.draws.command !in db.commands && op.draws.message !in db.messages
  }

  /** A send prepared in the conversation before its last activity. */
  ghost predicate Overwrites(db: Db, op: DbOp, c: string) {
    && op.OpPrepare? && op.conversation == c && CanPrepare(db, op)
    && db.conversations[c].lastMessageAt.Some? && op.now < db.conversations[c].lastMessageAt.value
  }

  /** A transaction lowers the last activity of a conversation it does not delete if and only if it is a
      send prepared there at an earlier time; ingest only ever raises it. */
  lemma LoweredIff(db: Db, op: DbOp, c: string)
    requires c in db.conversations && c in Exec(db, op).conversations
    ensures Lowered(db.conversations[c].lastMessageAt, Exec(db, op).conversations[c].lastMessageAt) <==> Overwrites(db, op, c)
  {
    match op {
      case OpIngest(caller, m, live, draws) => IngestRaises(db, caller, m, live, draws, c);
      case OpPrepare(_, _, _, _, _, _) =>
      case OpComplete(_, _, _, _, _) => SettlingSpares(db, op, c);
      case OpFail(_, _, _, _) => SettlingSpares(db, op, c);
      case _ => OtherSpares(db, op, c);
    }
  }

  lemma IngestRaises(db: Db, caller: Caller, m: WireMessage, live: bool, draws: Draws, c: string)
    requires c in db.conversations && c in Exec(db, OpIngest(caller, m, live, draws)).conversations
    ensures !Lowered(db.conversations[c].lastMessageAt,
                     Exec(db, OpIngest(caller, m, live, draws)).conversations[c].lastMessageAt)
  {
  }

  lemma SettlingSpares(db: Db, op: DbOp, c: string)
    requires op.OpComplete? || op.OpFail?
    ensures Exec(db, op).conversations == db.conversations
  {
  }

  lemma OtherSpares(db: Db, op: DbOp, c: string)
    requires !op.OpIngest? && !op.OpPrepare? && !op.OpComplete? && !op.OpFail?
    requires c in db.conversations && c in Exec(db, op).conversations
    ensures Exec(db, op).conversations[c].lastMessageAt == db.conversations[c].lastMessageAt
  {
  }
}
