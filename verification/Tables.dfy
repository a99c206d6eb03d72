/** The message database: accounts, conversations, messages, commands and outbox, with the
    uniqueness and foreign-key constraints of the schema. */
module Tables {
  import opened Prelude

  type Instant = int

  /** Message ids; their order stands for the database's order of the id text. */
  type MessageId = nat

  datatype Direction = Incoming | Outgoing

  datatype MessageStatus = MessagePending | Sent | SendFailed | SendUnknown

  datatype Message = Message(
    conversation: string, provider: Option<string>, author: string, body: string,
    sentAt: Instant, direction: Direction, status: MessageStatus)

  datatype Conversation = Conversation(
    account: string, provider: string, title: string, kind: string,
    unread: nat, lastMessageAt: Option<Instant>)

  datatype CommandStatus = Pending | Dispatched | Completed | Failed | Unknown

  datatype Command = Command(
    account: string, message: Option<MessageId>, key: string, status: CommandStatus, expiresAt: Instant)

  datatype EventKind = MessageNew | MessageUpdated

  datatype OutboxRow = OutboxRow(
    user: string, kind: EventKind, messageId: MessageId, message: Message, deliveredAt: Option<Instant>)

  datatype Account = Account(user: string, platform: string)

  datatype Db = Db(
    accounts: map<string, Account>,
    conversations: map<string, Conversation>,
    messages: map<MessageId, Message>,
    commands: map<string, Command>,
    outbox: map<nat, OutboxRow>)

  const EMPTY: Db := Db(map[], map[], map[], map[], map[])

  // ---- constraints ---------------------------------------------------------

  predicate IsConversation(db: Db, c: string, account: string, provider: string) {
    c in db.conversations && db.conversations[c].account == account && db.conversations[c].provider == provider
  }

  predicate HasKey(m: Message, conversation: string, provider: string) {
    m.conversation == conversation && m.provider == Some(provider)
  }

  predicate IsRow(db: Db, id: MessageId, conversation: string, provider: string) {
    id in db.messages && HasKey(db.messages[id], conversation, provider)
  }

  predicate IsCommand(db: Db, c: string, account: string, key: string) {
    c in db.commands && db.commands[c].account == account && db.commands[c].key == key
  }

  /** UNIQUE (account_id, provider_id) on conversations. */
  ghost predicate UniqueConversations(db: Db) {
    forall c, d, account, provider ::
      IsConversation(db, c, account, provider) && IsConversation(db, d, account, provider) ==> c == d
  }

  /** The partial unique index on (conversation_id, provider_id). */
  ghost predicate UniqueProviders(db: Db) {
    forall a, b, c, p :: IsRow(db, a, c, p) && IsRow(db, b, c, p) ==> a == b
  }

  /** UNIQUE (account_id, idempotency_key) on commands. */
  ghost predicate UniqueKeys(db: Db) {
    forall a, b, account, key :: IsCommand(db, a, account, key) && IsCommand(db, b, account, key) ==> a == b
  }

  ghost predicate ForeignKeys(db: Db) {
    && (forall c :: c in db.conversations ==> db.conversations[c].account in db.accounts)
    && (forall m :: m in db.messages ==> db.messages[m].conversation in db.conversations)
    && (forall c :: c in db.commands ==> db.commands[c].account in db.accounts)
    && (forall c :: c in db.commands && db.commands[c].message.Some? ==> db.commands[c].message.value in db.messages)
  }

  ghost predicate Schema(db: Db) {
    UniqueConversations(db) && UniqueProviders(db) && UniqueKeys(db) && ForeignKeys(db)
  }

  // ---- lookups -------------------------------------------------------------

  ghost function ConversationOf(db: Db, account: string, provider: string): (r: Option<string>)
    ensures r.Some? ==> IsConversation(db, r.value, account, provider)
    ensures r.None? ==> forall c :: !IsConversation(db, c, account, provider)
  {
    if exists c :: IsConversation(db, c, account, provider)
    then var c :| IsConversation(db, c, account, provider); Some(c)
    else None
  }

  ghost function RowOf(db: Db, conversation: string, provider: string): (r: Option<MessageId>)
    ensures r.Some? ==> IsRow(db, r.value, conversation, provider)
    ensures r.None? ==> forall id :: !IsRow(db, id, conversation, provider)
  {
    if exists id :: IsRow(db, id, conversation, provider)
    then var id :| IsRow(db, id, conversation, provider); Some(id)
    else None
  }

  ghost function CommandOf(db: Db, account: string, key: string): (r: Option<string>)
    ensures r.Some? ==> IsCommand(db, r.value, account, key)
    ensures r.None? ==> forall c :: !IsCommand(db, c, account, key)
  {
    if exists c :: IsCommand(db, c, account, key)
    then var c :| IsCommand(db, c, account, key); Some(c)
    else None
  }

  // ---- deletions -----------------------------------------------------------

  function Unlink(c: Command, gone: set<MessageId>): Command {
    if c.message.Some? && c.message.value in gone then c.(message := None) else c
  }

  /** Deleting message rows: ON DELETE SET NULL on commands.message_id. */
  function DeleteMessages(db: Db, gone: set<MessageId>): Db {
    db.(messages := db.messages - gone,
        commands := map c | c in db.commands :: Unlink(db.commands[c], gone))
  }

  lemma DeleteMessagesSchema(db: Db, gone: set<MessageId>)
    requires Schema(db)
    ensures Schema(DeleteMessages(db, gone))
  {
    var after := DeleteMessages(db, gone);
    assert forall id, c, p :: IsRow(after, id, c, p) ==> IsRow(db, id, c, p);
    assert forall c, a, k :: IsCommand(after, c, a, k) ==> IsCommand(db, c, a, k);
    assert forall c, a, p :: IsConversation(after, c, a, p) ==> IsConversation(db, c, a, p);
  }

  /** Deleting an account: ON DELETE CASCADE through conversations, messages and commands. */
  function DeleteAccountRows(db: Db, account: string): Db {
    var conversations := map c | c in db.conversations && db.conversations[c].account != account :: db.conversations[c];
    var messages := map m | m in db.messages && db.messages[m].conversation in conversations :: db.messages[m];
    var commands := map c | c in db.commands && db.commands[c].account != account
                    :: Unlink(db.commands[c], db.messages.Keys - messages.Keys);
    Db(db.accounts - {account}, conversations, messages, commands, db.outbox)
  }

  lemma DeleteAccountRowsKeys(db: Db, account: string)
    requires UniqueConversations(db) && UniqueProviders(db) && UniqueKeys(db)
    ensures var after := DeleteAccountRows(db, account);
            UniqueConversations(after) && UniqueProviders(after) && UniqueKeys(after)
  {
    var after := DeleteAccountRows(db, account);
    assert forall id, c, p :: IsRow(after, id, c, p) ==> IsRow(db, id, c, p);
    assert forall c, a, k :: IsCommand(after, c, a, k) ==> IsCommand(db, c, a, k);
    assert forall c, a, p :: IsConversation(after, c, a, p) ==> IsConversation(db, c, a, p);
  }

  lemma DeleteAccountRowsLinks(db: Db, account: string)
    requires ForeignKeys(db)
    ensures ForeignKeys(DeleteAccountRows(db, account))
  {
  }

  lemma DeleteAccountRowsSchema(db: Db, account: string)
    requires Schema(db)
    ensures Schema(DeleteAccountRows(db, account))
  {
    DeleteAccountRowsKeys(db, account);
    DeleteAccountRowsLinks(db, account);
  }
}
