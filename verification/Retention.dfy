/** Pruning by window rank agrees with keeping a prefix of the newest messages, composes, and
    is invisible to the listing of a conversation. */
module Retention {
  import opened Prelude
  import opened Protocol
  import opened Tables
  import opened Listing
  import opened MessageOps
  import opened DbRuns

  lemma NewerIsStrict()
    ensures StrictOrder(Newer)
  {
  }

  /** Settled keys within the retention time. */
  ghost function Recent(db: Db, c: string, cutoff: Instant): set<Key> {
    set k | k in SettledKeys(db, c) && k.sentAt >= cutoff
  }

  /** How many settled messages of the conversation are kept at most. */
  ghost function Quota(db: Db, c: string, cutoff: Instant, keep: nat): nat {
    var recent := |Recent(db, c, cutoff)|;
    if keep >= recent then keep else recent
  }

  lemma KeyMember(db: Db, c: string, k: Key)
    ensures k in RowKeys(db, c) <==> k.id in db.messages && db.messages[k.id].conversation == c && KeyOf(db, k.id) == k
    ensures k in SettledKeys(db, c) <==> k in RowKeys(db, c) && db.messages[k.id].status != MessagePending
  {
    if k.id in db.messages && db.messages[k.id].conversation == c && KeyOf(db, k.id) == k {
      assert k in RowKeys(db, c);
    }
  }

  // ---- agreement with "the newest so many" ---------------------------------

  /** The rank test and the age test together keep exactly the first Quota ranks. */
  lemma KeptByRank(db: Db, id: MessageId, cutoff: Instant, keep: nat)
    requires id in db.messages && db.messages[id].status != MessagePending
    ensures id !in Stale(db, cutoff, keep) <==> Position(db, id) <= Quota(db, db.messages[id].conversation, cutoff, keep)
  {
    var c := db.messages[id].conversation;
    var k := KeyOf(db, id);
    var ahead := Preceding(SettledKeys(db, c), Newer, k);
    var recent := Recent(db, c, cutoff);
    if k.sentAt >= cutoff {
      assert ahead <= recent;
      assert k in recent;
      StrictlySmaller(ahead, recent, k);
    } else {
      assert recent <= ahead;
      SmallerSet(recent, ahead);
    }
  }

  lemma PrunedRows(db: Db, cutoff: Instant, keep: nat, id: MessageId)
    ensures var after := PruneMessages(db, cutoff, keep);
            && (id in after.messages <==> id in db.messages && id !in Stale(db, cutoff, keep))
            && (id in after.messages ==> after.messages[id] == db.messages[id])
  {
  }

  /** After pruning, a conversation's settled messages are the newest Quota ones it had, in order. */
  lemma PruneKeepsNewest(db: Db, c: string, cutoff: Instant, keep: nat)
    ensures StrictOrder(Newer)
    ensures Of(SettledKeys(PruneMessages(db, cutoff, keep), c), Newer)
         == First(Of(SettledKeys(db, c), Newer), Quota(db, c, cutoff, keep))
  {
    NewerIsStrict();
    var after := PruneMessages(db, cutoff, keep);
    var all := SettledKeys(db, c);
    var n := Quota(db, c, cutoff, keep);
    var low := set x | x in all && |Preceding(all, Newer, x)| < n;
    forall k
      ensures k in SettledKeys(after, c) <==> k in low
    {
      if k in all {
        KeptByRank(db, k.id, cutoff, keep);
        PrunedRows(db, cutoff, keep, k.id);
      }
      if k in SettledKeys(after, c) {
        PrunedRows(db, cutoff, keep, k.id);
      }
    }
    assert SettledKeys(after, c) == low;
    RankPrefix(all, Newer, n);
  }

  /** Pending sends are never pruned, and no row changes. */
  lemma PruneSparesPending(db: Db, cutoff: Instant, keep: nat, id: MessageId)
    requires id in db.messages && db.messages[id].status == MessagePending
    ensures var after := PruneMessages(db, cutoff, keep);
            id in after.messages && after.messages[id] == db.messages[id]
  {
  }

  // ---- composition ---------------------------------------------------------

  /** Whatever ranks before a kept message is kept, so kept ranks do not move. */
  lemma KeptRanksStable(db: Db, id: MessageId, cutoff: Instant, keep: nat)
    requires id in db.messages && db.messages[id].status != MessagePending && id !in Stale(db, cutoff, keep)
    ensures var after := PruneMessages(db, cutoff, keep);
            id in after.messages && Position(after, id) == Position(db, id)
  {
    var after := PruneMessages(db, cutoff, keep);
    var c := db.messages[id].conversation;
    var k := KeyOf(db, id);
    var ahead := Preceding(SettledKeys(db, c), Newer, k);
    forall x | x in ahead
      ensures x.id !in Stale(db, cutoff, keep)
    {
      var further := Preceding(SettledKeys(db, c), Newer, x);
      assert further <= ahead;
      StrictlySmaller(further, ahead, x);
    }
    forall x
      ensures x in Preceding(SettledKeys(after, c), Newer, k) <==> x in ahead
    {
      KeyMember(db, c, x);
      KeyMember(after, c, x);
      PrunedRows(db, cutoff, keep, x.id);
    }
    assert Preceding(SettledKeys(after, c), Newer, k) == ahead;
  }

  lemma DeleteTwice(db: Db, a: set<MessageId>, b: set<MessageId>)
    ensures DeleteMessages(DeleteMessages(db, a), b) == DeleteMessages(db, a + b)
  {
    var once, twice, both := DeleteMessages(db, a), DeleteMessages(DeleteMessages(db, a), b), DeleteMessages(db, a + b);
    assert twice.messages == both.messages;
    forall c | c in db.commands
      ensures Unlink(Unlink(db.commands[c], a), b) == Unlink(db.commands[c], a + b)
    {
    }
    assert twice.commands == both.commands;
  }

  /** Pruning at an earlier time first makes no difference. */
  lemma PruneComposes(db: Db, earlier: Instant, later: Instant, keep: nat)
    requires earlier <= later
    ensures PruneMessages(PruneMessages(db, earlier, keep), later, keep) == PruneMessages(db, later, keep)
  {
    var middle := PruneMessages(db, earlier, keep);
    forall id
      ensures id in Stale(db, earlier, keep) + Stale(middle, later, keep) <==> id in Stale(db, later, keep)
    {
      PrunedRows(db, earlier, keep, id);
      if id in db.messages && db.messages[id].status != MessagePending && id !in Stale(db, earlier, keep) {
        KeptRanksStable(db, id, earlier, keep);
      }
    }
    assert Stale(db, earlier, keep) + Stale(middle, later, keep) == Stale(db, later, keep);
    DeleteTwice(db, Stale(db, earlier, keep), Stale(middle, later, keep));
  }

  lemma PruneIdempotent(db: Db, cutoff: Instant, keep: nat)
    ensures PruneMessages(PruneMessages(db, cutoff, keep), cutoff, keep) == PruneMessages(db, cutoff, keep)
  {
    PruneComposes(db, cutoff, cutoff, keep);
  }

  // ---- listing -------------------------------------------------------------

  const PAGE: nat := 100

  /** ORDER BY sent_at DESC, id DESC. */
  ghost function Ranked(s: set<Key>): seq<Key> {
    NewerIsStrict();
    Of(s, Newer)
  }

  /** The keys ListMessages returns. */
  ghost function ListedKeys(db: Db, c: string): seq<Key> { First(Ranked(RowKeys(db, c)), PAGE) }

  lemma RankedEmpty()
    ensures Ranked({}) == []
  {
    NewerIsStrict();
    ListingIs({}, Newer, []);
  }

  /** The newest key comes first; taking it out leaves the ranking of the rest. */
  lemma RankedFirst(s: set<Key>) returns (k: Key)
    requires s != {}
    ensures k in s && Ranked(s) == [k] + Ranked(s - {k})
    ensures forall o :: o in s && o != k ==> Newer(k, o)
  {
    NewerIsStrict();
    k := FirstExists(s, Newer);
    var rest := Ranked(s - {k});
    forall i | 0 <= i < |rest|
      ensures Newer(k, rest[i])
    {
      assert rest[i] in rest;
    }
    ListingIs(s, Newer, [k] + rest);
  }

  function RowsAt(db: Db, keys: seq<Key>): seq<Option<Message>> {
    if keys == [] then []
    else [if keys[0].id in db.messages then Some(db.messages[keys[0].id]) else None] + RowsAt(db, keys[1..])
  }

  /** What ListMessages shows to the conversation's owner: ids and contents. */
  ghost function Listed(db: Db, c: string): (seq<Key>, seq<Option<Message>>) {
    (ListedKeys(db, c), RowsAt(db, ListedKeys(db, c)))
  }

  lemma {:induction false} RowsAtSame(db: Db, after: Db, keys: seq<Key>)
    requires forall k :: k in keys ==> k.id in db.messages && k.id in after.messages && after.messages[k.id] == db.messages[k.id]
    ensures RowsAt(db, keys) == RowsAt(after, keys)
  {
    if keys != [] {
      RowsAtSame(db, after, keys[1..]);
    }
  }

  /** A pruned row is never on the first page when at least a page is kept. */
  lemma StaleBehindPage(db: Db, c: string, cutoff: Instant, keep: nat, k: Key)
    requires k in RowKeys(db, c) && k.id in Stale(db, cutoff, keep)
    ensures |Preceding(RowKeys(db, c), Newer, k)| >= keep
  {
    SmallerSet(Preceding(SettledKeys(db, c), Newer, k), Preceding(RowKeys(db, c), Newer, k));
  }

  lemma PruneInvisible(db: Db, c: string, cutoff: Instant, keep: nat)
    requires keep >= PAGE
    ensures Listed(PruneMessages(db, cutoff, keep), c) == Listed(db, c)
  {
    NewerIsStrict();
    var after := PruneMessages(db, cutoff, keep);
    var rows := RowKeys(db, c);
    var gone := set k | k in rows && k.id in Stale(db, cutoff, keep);
    forall k
      ensures k in RowKeys(after, c) <==> k in rows - gone
    {
      KeyMember(db, c, k);
      KeyMember(after, c, k);
      PrunedRows(db, cutoff, keep, k.id);
    }
    assert RowKeys(after, c) == rows - gone;
    forall k | k in rows && k in gone
      ensures |Preceding(rows, Newer, k)| >= PAGE
    {
      StaleBehindPage(db, c, cutoff, keep, k);
    }
    RemoveBehind(rows, gone, Newer, PAGE);
    var keys := ListedKeys(db, c);
    forall k | k in keys
      ensures k.id in db.messages && k.id in after.messages && after.messages[k.id] == db.messages[k.id]
    {
      assert k in Of(RowKeys(after, c), Newer);
      assert k in RowKeys(after, c);
    }
    RowsAtSame(db, after, keys);
  }

  /** What ListMessages answers: nothing to anyone but the owner of the conversation. */
  ghost function Page(db: Db, user: string, c: string): Option<(seq<Key>, seq<Option<Message>>)> {
    if c !in db.conversations || !Owns(db, user, db.conversations[c].account) then None else Some(Listed(db, c))
  }

  // ---- what is listed, in the fields of the rows -----------------------------

  function RowsOf(db: Db, c: string): set<MessageId> { set m | m in db.messages && db.messages[m].conversation == c }

  lemma {:induction false} KeysOfRows(db: Db, ids: set<MessageId>, keys: set<Key>)
    requires forall o :: o in ids ==> o in db.messages
    requires keys == set o | o in ids :: KeyOf(db, o)
    ensures |keys| == |ids|
    decreases |ids|
  {
    if ids != {} {
      var o :| o in ids;
      var rest := set p | p in ids - {o} :: KeyOf(db, p);
      assert keys == rest + {KeyOf(db, o)};
      KeysOfRows(db, ids - {o}, rest);
    }
  }

  lemma {:induction false} RowsAtMeans(db: Db, keys: seq<Key>)
    requires forall k :: k in keys ==> k.id in db.messages
    ensures |RowsAt(db, keys)| == |keys|
    ensures forall i :: 0 <= i < |keys| ==> RowsAt(db, keys)[i] == Some(db.messages[keys[i].id])
  {
    if keys != [] {
      RowsAtMeans(db, keys[1..]);
    }
  }

  predicate ComesFirst(a: Message, x: MessageId, b: Message, y: MessageId) {
    a.sentAt > b.sentAt || (a.sentAt == b.sentAt && x > y)
  }

  lemma ListedKeysMean(db: Db, c: string)
    ensures var keys := ListedKeys(db, c);
            && |keys| == (if |RowsOf(db, c)| <= 100 then |RowsOf(db, c)| else 100)
            && (forall i :: 0 <= i < |keys| ==>
                  keys[i].id in db.messages && db.messages[keys[i].id].conversation == c
                  && keys[i].sentAt == db.messages[keys[i].id].sentAt)
            && (forall i, j :: 0 <= i < j < |keys| ==> Newer(keys[i], keys[j]))
            && (forall m :: m in RowsOf(db, c) && KeyOf(db, m) !in keys ==>
                  |keys| == 100 && forall k :: k in keys ==> Newer(k, KeyOf(db, m)))
  {
    NewerIsStrict();
    var all := Ranked(RowKeys(db, c));
    var keys := ListedKeys(db, c);
    ListingSize(RowKeys(db, c), Newer);
    KeysOfRows(db, RowsOf(db, c), RowKeys(db, c));
    forall i | 0 <= i < |keys|
      ensures keys[i].id in db.messages && db.messages[keys[i].id].conversation == c
              && keys[i].sentAt == db.messages[keys[i].id].sentAt
    {
      assert all[i] in all;
      KeyMember(db, c, all[i]);
    }
    forall m | m in RowsOf(db, c) && KeyOf(db, m) !in keys
      ensures |keys| == 100 && forall k :: k in keys ==> Newer(k, KeyOf(db, m))
    {
      assert KeyOf(db, m) in RowKeys(db, c);
      var n :| 0 <= n < |all| && all[n] == KeyOf(db, m);
      assert n >= |keys|;
      forall k | k in keys
        ensures Newer(k, KeyOf(db, m))
      {
        var i :| 0 <= i < |keys| && keys[i] == k;
        assert all[i] == k;
      }
    }
  }

  /** ListMessages answers if and only if the conversation is the user's; it then lists its newest rows, a hundred
      or all there are, by time and then id, newest first, with the contents stored. */
  lemma PageMeans(db: Db, user: string, c: string)
    ensures var page := Page(db, user, c);
            && (page.Some? <==>
                  c in db.conversations && db.conversations[c].account in db.accounts
                  && db.accounts[db.conversations[c].account].user == user)
            && (page.Some? ==>
                  var (keys, rows) := page.value;
                  && |keys| == |rows| == (if |RowsOf(db, c)| <= 100 then |RowsOf(db, c)| else 100)
                  && (forall i :: 0 <= i < |keys| ==>
                        && keys[i].id in db.messages && db.messages[keys[i].id].conversation == c
                        && rows[i] == Some(db.messages[keys[i].id]))
                  && (forall i, j :: 0 <= i < j < |keys| ==>
                        ComesFirst(db.messages[keys[i].id], keys[i].id, db.messages[keys[j].id], keys[j].id))
                  && (forall m, i :: 0 <= i < |keys| && m in RowsOf(db, c) && (forall k :: k in keys ==> k.id != m) ==>
                        ComesFirst(db.messages[keys[i].id], keys[i].id, db.messages[m], m)))
  {
    if Page(db, user, c).Some? {
      ListedKeysMean(db, c);
      var keys := ListedKeys(db, c);
      RowsAtMeans(db, keys);
      forall m, i | 0 <= i < |keys| && m in RowsOf(db, c) && (forall k :: k in keys ==> k.id != m)
        ensures ComesFirst(db.messages[keys[i].id], keys[i].id, db.messages[m], m)
      {
        assert KeyOf(db, m).id == m;
        assert Newer(keys[i], KeyOf(db, m));
      }
    }
  }

  // ---- the bound is sharp --------------------------------------------------

  function Mark(id: nat): string { seq(id + 1, i => 'x') }

  /** What a cached message number `id` leaves. */
  function Rung(id: nat): Message {
    Message("c", Some(Mark(id)), "", "", id, Incoming, Sent)
  }

  /** One account with one conversation, and in it the messages 0..n, sent at 0..n. */
  function Ladder(n: nat): Db {
    Db(map["a" := Account("u", "signal")],
       map["c" := Conversation("a", "p", "", "direct", 0, Some(n))],
       map id | 0 <= id <= n :: Rung(id),
       map[], map[])
  }

  function Climb(id: nat): DbOp {
    OpIngest(Caller("a", "u", "signal"), WireMessage(Mark(id), "p", "", "", Some(id), "incoming"), false,
             Draws("c", id, "", 0))
  }

  function Climbs(n: nat): seq<DbOp> {
    if n == 0 then [OpCreateAccount("a", Account("u", "signal")), Climb(0)] else Climbs(n - 1) + [Climb(n)]
  }

  lemma FirstRung()
    ensures ExecAll(EMPTY, Climbs(0)) == Ladder(0)
  {
    var create := OpCreateAccount("a", Account("u", "signal"));
    var db := Exec(EMPTY, create);
    assert db == EMPTY.(accounts := map["a" := Account("u", "signal")]);
    assert ConversationOf(db, "a", "p").None?;
    assert RowOf(db, "c", Mark(0)).None?;
    assert Exec(db, Climb(0)) == Ladder(0);
    assert [create, Climb(0)][1..] == [Climb(0)] && [Climb(0)][1..] == [];
    assert ExecAll(db, [Climb(0)]) == ExecAll(Exec(db, Climb(0)), []);
  }

  lemma NextRung(n: nat)
    requires n > 0
    ensures Exec(Ladder(n - 1), Climb(n)) == Ladder(n)
  {
    var db := Ladder(n - 1);
    assert IsConversation(db, "c", "a", "p");
    assert ConversationOf(db, "a", "p") == Some("c");
    forall id | id in db.messages
      ensures !HasKey(db.messages[id], "c", Mark(n))
    {
      assert |Mark(id)| != |Mark(n)|;
    }
    assert RowOf(db, "c", Mark(n)).None?;
  }

  lemma {:induction false} LadderClimbed(n: nat)
    ensures ExecAll(EMPTY, Climbs(n)) == Ladder(n)
  {
    if n == 0 {
      FirstRung();
    } else {
      LadderClimbed(n - 1);
      ExecAllConcat(EMPTY, Climbs(n - 1), [Climb(n)]);
      assert [Climb(n)][1..] == [];
      assert ExecAll(Ladder(n - 1), [Climb(n)]) == ExecAll(Exec(Ladder(n - 1), Climb(n)), []);
      NextRung(n);
    }
  }

  /** The ladder is what an empty database becomes when the account is made and its messages cached. */
  lemma LadderReached(n: nat)
    ensures ExecAll(EMPTY, Climbs(n)) == Ladder(n) && Schema(Ladder(n))
  {
    LadderClimbed(n);
    ExecAllSchema(EMPTY, Climbs(n));
  }

  lemma {:induction false} LadderAhead(n: nat, id: nat)
    requires id <= n
    ensures |Preceding(SettledKeys(Ladder(n), "c"), Newer, Key(id, id))| == n - id
    decreases n - id
  {
    var db := Ladder(n);
    var ahead := Preceding(SettledKeys(db, "c"), Newer, Key(id, id));
    forall k
      ensures k in SettledKeys(db, "c") <==> k.id <= n && k.sentAt == k.id
    {
      KeyMember(db, "c", k);
    }
    if id == n {
      assert ahead == {};
    } else {
      LadderAhead(n, id + 1);
      var next := Preceding(SettledKeys(db, "c"), Newer, Key(id + 1, id + 1));
      assert Key(id + 1, id + 1) in SettledKeys(db, "c") by {
        assert KeyOf(db, id + 1) == Key(id + 1, id + 1);
      }
      assert ahead == next + {Key(id + 1, id + 1)};
    }
  }

  /** Keeping fewer than a page can change what the owner is shown: the oldest of keep + 1 messages goes. */
  lemma SmallerKeepIsVisible(keep: nat)
    requires keep < PAGE
    ensures var db := Ladder(keep);
            Page(PruneMessages(db, keep + 1, keep), "u", "c") != Page(db, "u", "c")
  {
    NewerIsStrict();
    var db := Ladder(keep);
    var after := PruneMessages(db, keep + 1, keep);
    LadderAhead(keep, 0);
    assert 0 in Stale(db, keep + 1, keep);
    var oldest := Key(0, 0);
    assert KeyOf(db, 0) == oldest;
    assert oldest in RowKeys(db, "c");
    assert oldest !in RowKeys(after, "c");
    var listing := Of(RowKeys(db, "c"), Newer);
    assert RowKeys(db, "c") == SettledKeys(db, "c");
    assert oldest in listing;
    var i :| 0 <= i < |listing| && listing[i] == oldest;
    RankIsIndex(RowKeys(db, "c"), Newer, i);
    assert ListedKeys(db, "c")[i] == oldest;
    assert oldest in ListedKeys(db, "c");
    assert oldest !in Of(RowKeys(after, "c"), Newer);
    assert oldest !in ListedKeys(after, "c");
  }

  /** No prune changes any answer of ListMessages, on the databases the schema admits. */
  ghost predicate Invisible(keep: nat) {
    forall db, user, c, cutoff :: Schema(db) ==> Page(PruneMessages(db, cutoff, keep), user, c) == Page(db, user, c)
  }

  /** The same on the databases that transactions can make of an empty one. */
  ghost predicate InvisibleWhenReached(keep: nat) {
    forall ops, user, c, cutoff ::
      Page(PruneMessages(ExecAll(EMPTY, ops), cutoff, keep), user, c) == Page(ExecAll(EMPTY, ops), user, c)
  }

  /** Retention is invisible to every user if and only if at least a page is kept. */
  lemma PruneInvisibleIff(keep: nat)
    ensures Invisible(keep) <==> keep >= PAGE
    ensures InvisibleWhenReached(keep) <==> keep >= PAGE
  {
    if keep >= PAGE {
      forall db, user, c, cutoff
        ensures Page(PruneMessages(db, cutoff, keep), user, c) == Page(db, user, c)
      {
        PruneInvisible(db, c, cutoff, keep);
      }
    } else {
      SmallerKeepIsVisible(keep);
      LadderReached(keep);
      var db, ops := Ladder(keep), Climbs(keep);
      assert Schema(db) && Page(PruneMessages(db, keep + 1, keep), "u", "c") != Page(db, "u", "c");
      assert Page(PruneMessages(ExecAll(EMPTY, ops), keep + 1, keep), "u", "c") != Page(ExecAll(EMPTY, ops), "u", "c");
    }
  }
}
