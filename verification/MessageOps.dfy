/** What each message-store transaction does to the database. A failed transaction changes nothing. */
module MessageOps {
  import opened Prelude
  import opened Protocol
  import opened Tables
  import opened Listing
  import Outbox

  /** Values drawn by a transaction: random ids and the outbox identity. */
  datatype Draws = Draws(conversation: string, message: MessageId, command: string, outbox: nat)

  // ---- ingest --------------------------------------------------------------

  /** The account as the caller knows it. */
  datatype Caller = Caller(account: string, user: string, platform: string)

  function DirectionOf(s: string): Option<Direction> {
    if s == "incoming" then Some(Incoming) else if s == "outgoing" then Some(Outgoing) else None
  }

  predicate IsGroup(platform: string, conversationId: string) {
    || "group:" <= conversationId
    || (platform == "telegram" && "-" <= conversationId)
  }

  function Capitalized(s: string): string {
    if s != "" && 'a' <= s[0] <= 'z' then [(s[0] as int - 32) as char] + s[1..] else s
  }

  function TitleFor(caller: Caller, m: WireMessage): string {
    if IsGroup(caller.platform, m.conversationId) then Capitalized(caller.platform) + " group" else m.authorName
  }

  function KindFor(caller: Caller, m: WireMessage): string {
    if IsGroup(caller.platform, m.conversationId) then "group" else "direct"
  }

  function Later(last: Option<Instant>, at: Instant): Option<Instant> {
    if last.None? || at > last.value then Some(at) else last
  }

  datatype IngestResult =
    | IngestError
    | IngestOk(db: Db, id: MessageId, inserted: bool)

  function Touched(c: Conversation, at: Instant): Conversation {
    c.(lastMessageAt := Later(c.lastMessageAt, at))
  }

  function WireRow(c: string, m: WireMessage): Message
    requires Acceptable(m)
  {
    Message(c, Some(m.providerMessageId), m.authorName, m.body, m.sentAt.value, DirectionOf(m.direction).value, Sent)
  }

  /** The conversation upsert: its row id and the new conversation table. */
  ghost function UpsertConversation(db: Db, caller: Caller, m: WireMessage, draws: Draws): (string, map<string, Conversation>)
    requires Acceptable(m)
  {
    var found := ConversationOf(db, caller.account, m.conversationId);
    if found.Some? then
      (found.value, db.conversations[found.value := Touched(db.conversations[found.value], m.sentAt.value)])
    else
      (draws.conversation, db.conversations[draws.conversation :=
        Conversation(caller.account, m.conversationId, TitleFor(caller, m), KindFor(caller, m), 0, m.sentAt)])
  }

  /** IngestMessage (`live`) and CacheMessage. */
  ghost function Ingest(db: Db, caller: Caller, m: WireMessage, live: bool, draws: Draws): IngestResult {
    if !Acceptable(m) then IngestError
    else if ConversationOf(db, caller.account, m.conversationId).None?
            && (caller.account !in db.accounts || draws.conversation in db.conversations) then IngestError
    else
      var (c, conversations) := UpsertConversation(db, caller, m, draws);
      var existing := RowOf(db, c, m.providerMessageId);
      if existing.Some? then IngestOk(db.(conversations := conversations), existing.value, false)
      else if draws.message in db.messages || (live && draws.outbox in db.outbox) then IngestError
      else
        var row := WireRow(c, m);
        var counted := if live && row.direction == Incoming
          then conversations[c := conversations[c].(unread := conversations[c].unread + 1)] else conversations;
        var outbox := if live
          then db.outbox[draws.outbox := OutboxRow(caller.user, MessageNew, draws.message, row, None)] else db.outbox;
        IngestOk(db.(conversations := counted, messages := db.messages[draws.message := row], outbox := outbox),
                 draws.message, true)
  }

  // ---- sends ---------------------------------------------------------------

  /** How long a command may wait to be dispatched. */
  const COMMAND_LIFETIME: int := 300

  datatype PrepareResult =
    | ConversationNotFound
    | PrepareError
    | KeyTaken(account: string)
    | Prepared(db: Db, account: string, command: string)

  predicate Owns(db: Db, user: string, account: string) {
    account in db.accounts && db.accounts[account].user == user
  }

  function PendingRow(conversation: string, body: string, now: Instant): Message {
    Message(conversation, None, "You", body, now, Outgoing, MessagePending)
  }

  ghost function PrepareSend(db: Db, user: string, conversation: string, body: string, key: string,
                             now: Instant, draws: Draws): PrepareResult {
    if conversation !in db.conversations || !Owns(db, user, db.conversations[conversation].account)
    then ConversationNotFound
    else
      var account := db.conversations[conversation].account;
      if CommandOf(db, account, key).Some? then KeyTaken(account)
      else if draws.command in db.commands || draws.message in db.messages then PrepareError
      else
        Prepared(
          db.(conversations := db.conversations[conversation := db.conversations[conversation].(lastMessageAt := Some(now))],
              messages := db.messages[draws.message := PendingRow(conversation, body, now)],
              commands := db.commands[draws.command :=
                Command(account, Some(draws.message), key, Pending, now + COMMAND_LIFETIME)]),
          account, draws.command)
  }

  /** What the second query of a repeated PrepareSend reads: the command, if its message is still there. */
  ghost function ExistingSend(db: Db, account: string, key: string): Option<string> {
    var c := CommandOf(db, account, key);
    if c.Some? && db.commands[c.value].message.Some? then c else None
  }

  predicate Dispatchable(db: Db, command: string, now: Instant) {
    && command in db.commands
    && db.commands[command].status == Pending
    && db.commands[command].expiresAt > now
  }

  function MarkDispatched(db: Db, command: string, now: Instant): Db {
    if Dispatchable(db, command, now)
    then db.(commands := db.commands[command := db.commands[command].(status := Dispatched)])
    else db
  }

  datatype FinishResult = FinishNotFound | FinishError | Finished(db: Db)

  /** Other rows of the conversation that already carry the provider's id. */
  function Echoes(db: Db, conversation: string, provider: string, id: MessageId): set<MessageId> {
    set m | m in db.messages && HasKey(db.messages[m], conversation, provider) && m != id
  }

  function Confirmed(row: Message, provider: string, sentAt: Instant): Message {
    row.(provider := if provider == "" then None else Some(provider), sentAt := sentAt, status := Sent)
  }

  /** Change the row and its command together and announce the row. */
  function Settle(db: Db, user: string, command: string, id: MessageId, row: Message,
                  status: CommandStatus, outbox: nat): Db
    requires command in db.commands
  {
    db.(messages := db.messages[id := row],
        commands := db.commands[command := db.commands[command].(status := status)],
        outbox := db.outbox[outbox := OutboxRow(user, MessageUpdated, id, row, None)])
  }

  ghost function CompleteSend(db: Db, user: string, command: string, provider: string, sentAt: Instant,
                              outbox: nat): FinishResult {
    if command !in db.commands || !Owns(db, user, db.commands[command].account)
       || db.commands[command].message.None? || db.commands[command].message.value !in db.messages
    then FinishNotFound
    else if outbox in db.outbox then FinishError
    else
      var id := db.commands[command].message.value;
      var row := db.messages[id];
      var gone := if provider == "" then {} else Echoes(db, row.conversation, provider, id);
      Finished(Settle(DeleteMessages(db, gone), user, command, id, Confirmed(row, provider, sentAt), Completed, outbox))
  }

  predicate IsUnknown(code: string) { code == "worker_timeout" || code == "signal_send_unknown" }

  function FailedCommand(code: string): CommandStatus { if IsUnknown(code) then Unknown else Failed }

  function FailedMessage(code: string): MessageStatus { if IsUnknown(code) then SendUnknown else SendFailed }

  function FailSend(db: Db, user: string, command: string, code: string, outbox: nat): FinishResult {
    if command !in db.commands || !Owns(db, user, db.commands[command].account) then FinishNotFound
    else if db.commands[command].message.None? || db.commands[command].message.value !in db.messages
            || outbox in db.outbox then FinishError
    else
      var id := db.commands[command].message.value;
      Finished(Settle(db, user, command, id, db.messages[id].(status := FailedMessage(code)),
                      FailedCommand(code), outbox))
  }

  // ---- retention -----------------------------------------------------------

  /** The sort key of both queries: ORDER BY sent_at DESC, id DESC. */
  datatype Key = Key(sentAt: Instant, id: MessageId)

  predicate Newer(a: Key, b: Key) { a.sentAt > b.sentAt || (a.sentAt == b.sentAt && a.id > b.id) }

  function KeyOf(db: Db, id: MessageId): Key
    requires id in db.messages
  {
    Key(db.messages[id].sentAt, id)
  }

  /** Rows of a conversation; settled ones are those whose send is not pending. */
  function RowKeys(db: Db, c: string): set<Key> {
    set m | m in db.messages && db.messages[m].conversation == c :: KeyOf(db, m)
  }

  function SettledKeys(db: Db, c: string): set<Key> {
    set m | m in db.messages && db.messages[m].conversation == c && db.messages[m].status != MessagePending
      :: KeyOf(db, m)
  }

  /** row_number() OVER (PARTITION BY conversation_id ORDER BY sent_at DESC, id DESC) among settled rows. */
  function Position(db: Db, id: MessageId): nat
    requires id in db.messages
  {
    |Preceding(SettledKeys(db, db.messages[id].conversation), Newer, KeyOf(db, id))| + 1
  }

  function Stale(db: Db, cutoff: Instant, keep: nat): set<MessageId> {
    set m | m in db.messages && db.messages[m].status != MessagePending
            && db.messages[m].sentAt < cutoff && Position(db, m) > keep
  }

  function PruneMessages(db: Db, cutoff: Instant, keep: nat): Db {
    DeleteMessages(db, Stale(db, cutoff, keep))
  }

  function PruneOutbox(db: Db, before: Instant): Db {
    db.(outbox := Outbox.Trimmed(db.outbox, before))
  }
}
