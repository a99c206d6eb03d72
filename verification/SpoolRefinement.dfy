/** The spool directory refines the spool of the delivery protocol: every directory state a call or
    a crash can leave corresponds to the protocol's list of entries after the matching step. */
module SpoolRefinement {
  import opened Prelude
  import opened Protocol
  import opened SpoolNames
  import opened Listing
  import opened NameOrder
  import opened Directory
  import opened EventSpool
  import D = Delivery

  function Path(x: D.Entry): string { FileName(x.event.id) }

  predicate Before(a: Envelope, b: Envelope) { Less(FileName(a.id), FileName(b.id)) }

  ghost predicate InOrder(store: seq<D.Entry>) {
    forall i, j :: 0 <= i < j < |store| ==> Before(store[i].event, store[j].event)
  }

  ghost predicate Named(store: seq<D.Entry>, n: string) { exists x :: x in store && Path(x) == n }

  /** A kept entry survives every crash, a doomed one is no longer visible, and whatever a crash
      leaves under the name is the whole event. */
  ghost predicate Matches(fs: Fs, x: D.Entry) {
    && x.event.id != ""
    && (x.presence.Kept? ==> Survives(fs, Path(x)))
    && (x.presence.Doomed? <==> Path(x) !in View(fs))
    && (forall f :: Possible(fs, Path(x), f) ==> f.content == Whole(x.event))
  }

  ghost predicate Covers(fs: Fs, store: seq<D.Entry>) {
    forall n, f :: Possible(fs, n, f) && IsSpooled(n) ==> Named(store, n)
  }

  ghost predicate Rel(fs: Fs, store: seq<D.Entry>) {
    Sound(fs) && Numbered(fs) && InOrder(store) && Covers(fs, store) && forall x :: x in store ==> Matches(fs, x)
  }

  // ---- reading ------------------------------------------------------------------

  ghost predicate EventsInOrder(v: seq<Envelope>) {
    forall i, j :: 0 <= i < j < |v| ==> Before(v[i], v[j])
  }

  lemma {:induction false} VisibleInOrder(store: seq<D.Entry>)
    requires InOrder(store)
    ensures EventsInOrder(D.Visible(store))
  {
    if store != [] {
      VisibleInOrder(store[1..]);
      D.VisibleMember(store[1..]);
      var rest := D.Visible(store[1..]);
      forall j | 0 <= j < |rest|
        ensures Before(store[0].event, rest[j])
      {
        assert rest[j] in rest;
        var x :| x in store[1..] && x.event == rest[j];
        var k :| 0 <= k < |store[1..]| && store[1..][k] == x;
        assert store[k + 1] == x;
      }
      var v := D.Visible(store);
      forall i, j | 0 <= i < j < |v|
        ensures Before(v[i], v[j])
      {
        if !store[0].presence.Doomed? {
          assert v == [store[0].event] + rest;
          assert i > 0 ==> v[i] == rest[i - 1] && v[j] == rest[j - 1];
        }
      }
    }
  }

  /** What View shows of the entries. */
  lemma ViewEntries(fs: Fs, store: seq<D.Entry>)
    requires Rel(fs, store)
    ensures forall x :: x in store && !x.presence.Doomed? ==>
              Path(x) in View(fs) && View(fs)[Path(x)].content == Whole(x.event)
    ensures forall n :: n in View(fs) && IsSpooled(n) ==> exists x :: x in store && Path(x) == n && !x.presence.Doomed?
  {
    forall n | n in View(fs)
      ensures Possible(fs, n, View(fs)[n])
    {
      EntryOrigin(fs.disk, fs.log, n);
    }
    forall n | n in View(fs) && IsSpooled(n)
      ensures exists x :: x in store && Path(x) == n && !x.presence.Doomed?
    {
      var x :| x in store && Path(x) == n;
      assert Matches(fs, x);
    }
  }

  /** Pending returns the protocol's visible events. */
  lemma PendingRefines(fs: Fs, store: seq<D.Entry>)
    requires Rel(fs, store)
    ensures Readable(View(fs)) && Queue(View(fs)) == D.Visible(store)
  {
    SoundGivesView(fs);
    ViewEntries(fs, store);
    VisibleInOrder(store);
    D.VisibleMember(store);
    var v := D.Visible(store);
    var names := seq(|v|, i requires 0 <= i < |v| => FileName(v[i].id));
    forall n
      ensures n in names <==> n in SpooledNames(View(fs))
    {
      if n in names {
        var i :| 0 <= i < |v| && names[i] == n;
        assert v[i] in v;
        NameKinds(v[i].id);
      }
      if n in SpooledNames(View(fs)) {
        var x :| x in store && Path(x) == n && !x.presence.Doomed?;
        assert x.event in v;
        var i :| 0 <= i < |v| && v[i] == x.event;
        assert names[i] == n;
      }
    }
    assert Ascending(names) by {
      forall i, j | 0 <= i < j < |names|
        ensures Less(names[i], names[j])
      {
        assert Before(v[i], v[j]);
      }
    }
    SortedIs(SpooledNames(View(fs)), names);
    forall i | 0 <= i < |v|
      ensures Queue(View(fs))[i] == v[i]
    {
      assert v[i] in v;
      assert names[i] in names;
    }
  }

  // ---- rewriting the list ----------------------------------------------------------

  lemma {:induction false} RewriteInOrder(store: seq<D.Entry>, drop: set<string>, doom: set<string>, settle: bool)
    requires InOrder(store)
    ensures InOrder(D.Rewrite(store, drop, doom, settle))
  {
    if store != [] {
      RewriteInOrder(store[1..], drop, doom, settle);
      D.RewriteSpec(store[1..], drop, doom, settle);
      var rest := D.Rewrite(store[1..], drop, doom, settle);
      forall j | 0 <= j < |rest|
        ensures Before(store[0].event, rest[j].event)
      {
        assert rest[j] in rest;
        var x :| x in store[1..] && rest[j] == x.(presence := D.Fate(x, doom, settle));
        var k :| 0 <= k < |store[1..]| && store[1..][k] == x;
        assert store[k + 1] == x;
      }
    }
  }

  /** A directory without outstanding changes, and a list of kept entries. */
  lemma FlatRel(fs: Fs, store: seq<D.Entry>)
    requires fs.log == [] && Sound(fs) && Numbered(fs) && InOrder(store)
    requires forall x :: x in store ==>
               x.presence.Kept? && x.event.id != "" && Path(x) in fs.disk && fs.disk[Path(x)].content == Whole(x.event)
    requires forall n :: n in fs.disk && IsSpooled(n) ==> Named(store, n)
    ensures Rel(fs, store)
  {
    assert forall n, f :: Possible(fs, n, f) <==> n in fs.disk && fs.disk[n] == f;
    assert View(fs) == fs.disk;
  }

  /** Names identify entries. */
  lemma PathInjective(store: seq<D.Entry>, x: D.Entry, y: D.Entry)
    requires InOrder(store) && x in store && y in store && Path(x) == Path(y)
    ensures x == y
  {
    var i :| 0 <= i < |store| && store[i] == x;
    var j :| 0 <= j < |store| && store[j] == y;
    LessTotal(Path(x), Path(y));
  }

  /** Syncing the directory settles every entry. */
  lemma SyncRefines(fs: Fs, store: seq<D.Entry>)
    requires Rel(fs, store)
    ensures Rel(SyncDirectory(fs), D.Flush(store))
  {
    var next := SyncDirectory(fs);
    var drop := D.Removed(store);
    var flushed := D.Flush(store);
    SyncKeepsSound(fs);
    ViewEntries(fs, store);
    RewriteInOrder(store, drop, {}, true);
    D.RewriteSpec(store, drop, {}, true);
    forall y | y in flushed
      ensures y.presence.Kept? && y.event.id != "" && Path(y) in next.disk && next.disk[Path(y)].content == Whole(y.event)
    {
      var x :| x in store && x.event.id !in drop && y == x.(presence := D.Fate(x, {}, true));
      assert Matches(fs, x);
    }
    forall n | n in next.disk && IsSpooled(n)
      ensures Named(flushed, n)
    {
      var x :| x in store && Path(x) == n && !x.presence.Doomed?;
      NotRemoved(store, x);
      assert x.(presence := D.Fate(x, {}, true)) in flushed;
    }
    FlatRel(next, flushed);
  }

  lemma NotRemoved(store: seq<D.Entry>, x: D.Entry)
    requires InOrder(store) && x in store && !x.presence.Doomed?
    ensures x.event.id !in D.Removed(store)
  {
    if x.event.id in D.Removed(store) {
      var y :| y in store && y.presence.Doomed? && y.event.id == x.event.id;
      PathInjective(store, x, y);
    }
  }

  // ---- a crash ------------------------------------------------------------------------

  /** The entries still there. */
  ghost function Present(after: Fs, store: seq<D.Entry>): set<string> {
    set x | x in store && Path(x) in after.disk :: x.event.id
  }

  lemma CrashRefines(fs: Fs, store: seq<D.Entry>, after: Fs)
    requires Rel(fs, store) && CrashImage(fs, after)
    ensures Rel(after, D.Recover(store, Present(after, store)))
  {
    var keep := Present(after, store);
    var drop := D.Vanishing(store, keep) + (D.Removed(store) - keep);
    var left := D.Recover(store, keep);
    CrashSafety(fs, after);
    CrashNumbered(fs, after);
    RewriteInOrder(store, drop, {}, true);
    D.RewriteSpec(store, drop, {}, true);
    forall y | y in left
      ensures y.presence.Kept? && y.event.id != "" && Path(y) in after.disk && after.disk[Path(y)].content == Whole(y.event)
    {
      var x :| x in store && x.event.id !in drop && y == x.(presence := D.Fate(x, {}, true));
      assert Matches(fs, x);
      LeftIsPresent(fs, store, after, x);
      CrashContent(fs, after, x);
    }
    forall n | n in after.disk && IsSpooled(n)
      ensures Named(left, n)
    {
      CrashEntry(fs, after, n);
      var x :| x in store && Path(x) == n;
      assert x.event.id in keep;
      assert x.event.id !in drop;
      assert x.(presence := D.Fate(x, {}, true)) in left;
    }
    FlatRel(after, left);
  }

  lemma CrashNumbered(fs: Fs, after: Fs)
    requires Numbered(fs) && CrashImage(fs, after)
    ensures Numbered(after)
  {
    forall n, f | Possible(after, n, f) && IsSpooled(n)
      ensures SequenceOf(n).Some?
    {
      CrashEntry(fs, after, n);
    }
  }

  lemma CrashContent(fs: Fs, after: Fs, x: D.Entry)
    requires Sound(fs) && CrashImage(fs, after) && Matches(fs, x) && Path(x) in after.disk
    ensures after.disk[Path(x)].content == Whole(x.event)
  {
    NameKinds(x.event.id);
    CrashEntry(fs, after, Path(x));
    var g: File :| Possible(fs, Path(x), g) && (g.synced ==> after.disk[Path(x)] == g);
    assert SoundFile(Path(x), g);
  }

  /** An entry the crash does not take away is on the disk. */
  lemma LeftIsPresent(fs: Fs, store: seq<D.Entry>, after: Fs, x: D.Entry)
    requires Rel(fs, store) && CrashImage(fs, after) && x in store
    requires x.event.id !in D.Vanishing(store, Present(after, store)) + (D.Removed(store) - Present(after, store))
    ensures Path(x) in after.disk
  {
    assert Matches(fs, x);
    if x.presence.Kept? {
      SurvivesEveryCrash(fs, Path(x));
    } else {
      assert x.event.id in Present(after, store);
      var y :| y in store && Path(y) in after.disk && y.event.id == x.event.id;
    }
  }

  // ---- removal -------------------------------------------------------------------------

  /** Removing a visible event dooms its entry. */
  lemma RemoveRefines(fs: Fs, store: seq<D.Entry>, id: string)
    requires Rel(fs, store) && FileName(id) in View(fs)
    ensures Rel(Record(fs, Remove(FileName(id))), D.Rewrite(store, {}, {id}, false))
  {
    var op := Remove(FileName(id));
    var next := Record(fs, op);
    var marked := D.Rewrite(store, {}, {id}, false);
    RecordKeepsSound(fs, op);
    RewriteInOrder(store, {}, {id}, false);
    D.RewriteSpec(store, {}, {id}, false);
    forall y | y in marked
      ensures Matches(next, y)
    {
      var x :| x in store && y == x.(presence := D.Fate(x, {id}, false));
      RemovedMatches(fs, x, id);
    }
    forall n, f | Possible(next, n, f) && IsSpooled(n)
      ensures Named(marked, n)
    {
      assert Possible(fs, n, f);
      var x :| x in store && Path(x) == n;
      assert x.(presence := D.Fate(x, {id}, false)) in marked;
    }
  }

  lemma RemovedMatches(fs: Fs, x: D.Entry, id: string)
    requires Sound(fs) && Matches(fs, x)
    ensures Matches(Record(fs, Remove(FileName(id))), x.(presence := D.Fate(x, {id}, false)))
  {
    var op := Remove(FileName(id));
    RecordKeepsSound(fs, op);
    if Path(x) == FileName(id) {
      FileNameInjective(x.event.id, id);
    }
  }

  /** Dooming an entry and then syncing drops it. */
  lemma {:induction false} RewriteTwice(store: seq<D.Entry>, id: string, drop: set<string>)
    ensures D.Rewrite(D.Rewrite(store, {}, {id}, false), drop, {}, true) == D.Rewrite(store, drop, {}, true)
  {
    if store != [] {
      RewriteTwice(store[1..], id, drop);
      var rest := D.Rewrite(store[1..], {}, {id}, false);
      var head := store[0].(presence := D.Fate(store[0], {id}, false));
      assert D.Rewrite(store, {}, {id}, false) == [head] + rest;
      assert ([head] + rest)[1..] == rest;
    }
  }

  lemma DoomedSet(store: seq<D.Entry>, id: string)
    requires exists x :: x in store && x.event.id == id
    ensures D.Removed(D.Rewrite(store, {}, {id}, false)) == D.Removed(store) + {id}
  {
    var marked := D.Rewrite(store, {}, {id}, false);
    D.RewriteSpec(store, {}, {id}, false);
    forall o
      ensures o in D.Removed(marked) <==> o in D.Removed(store) || o == id
    {
      if o in D.Removed(marked) {
        var y :| y in marked && y.presence.Doomed? && y.event.id == o;
        var x :| x in store && y == x.(presence := D.Fate(x, {id}, false));
      }
      if o in D.Removed(store) {
        var x :| x in store && x.presence.Doomed? && x.event.id == o;
        assert x.(presence := D.Fate(x, {id}, false)) in marked;
      }
      if o == id {
        var x :| x in store && x.event.id == id;
        assert x.(presence := D.Fate(x, {id}, false)) in marked;
      }
    }
  }

  /** Ack, with and without its directory sync, is the protocol's acknowledgement step. */
  lemma AckRefines(fs: Fs, store: seq<D.Entry>, id: string)
    requires Rel(fs, store) && FileName(id) in View(fs)
    ensures var removed := Record(fs, Remove(FileName(id)));
            && Rel(removed, D.Rewrite(store, {}, {id}, false))
            && Rel(SyncDirectory(removed), D.Rewrite(store, D.Removed(store) + {id}, {}, true))
  {
    var removed := Record(fs, Remove(FileName(id)));
    RemoveRefines(fs, store, id);
    var marked := D.Rewrite(store, {}, {id}, false);
    SyncRefines(removed, marked);
    ViewEntries(fs, store);
    NameKinds(id);
    var x :| x in store && Path(x) == FileName(id) && !x.presence.Doomed?;
    FileNameInjective(x.event.id, id);
    DoomedSet(store, id);
    RewriteTwice(store, id, D.Removed(store) + {id});
  }

  // ---- append ---------------------------------------------------------------------------

  /** Where a new name goes. */
  function Place(store: seq<D.Entry>, path: string): (at: nat)
    ensures at <= |store|
  {
    if store == [] || Less(path, Path(store[0])) then 0 else 1 + Place(store[1..], path)
  }

  lemma {:induction false} PlaceFits(store: seq<D.Entry>, path: string)
    requires InOrder(store) && !Named(store, path)
    ensures forall i :: 0 <= i < Place(store, path) ==> Less(Path(store[i]), path)
    ensures forall i :: Place(store, path) <= i < |store| ==> Less(path, Path(store[i]))
    decreases |store|
  {
    if store != [] {
      assert store[0] in store;
      LessTotal(Path(store[0]), path);
      assert !Named(store[1..], path) by {
        assert forall x :: x in store[1..] ==> x in store;
      }
      if Less(path, Path(store[0])) {
        forall i | 0 < i < |store|
          ensures Less(path, Path(store[i]))
        {
          assert Before(store[0].event, store[i].event);
          LessTransitive(path, Path(store[0]), Path(store[i]));
        }
      } else {
        PlaceFits(store[1..], path);
        assert forall i :: 1 <= i < |store| ==> store[i] == store[1..][i - 1];
      }
    }
  }

  lemma InsertInOrder(store: seq<D.Entry>, y: D.Entry, at: nat)
    requires InOrder(store) && at <= |store|
    requires forall i :: 0 <= i < at ==> Less(Path(store[i]), Path(y))
    requires forall i :: at <= i < |store| ==> Less(Path(y), Path(store[i]))
    ensures InOrder(store[..at] + [y] + store[at..])
  {
  }

  /** Writing aside changes no entry. */
  lemma TemporaryRefines(fs: Fs, store: seq<D.Entry>, path: string)
    requires Rel(fs, store) && IsSpooled(path) && path !in View(fs)
    ensures Rel(WithTemporary(fs, path), store)
  {
    var temporary := path + TMP;
    TemporaryHarmless(fs, path);
    var op := Put(temporary, File(Torn, false));
    var next := WithTemporary(fs, path);
    NotSpooled(path);
    RecordKeepsSound(fs, op);
    forall x | x in store
      ensures Matches(next, x)
    {
      assert Matches(fs, x);
      NameKinds(x.event.id);
    }
  }

  ghost function Inserted(store: seq<D.Entry>, e: Envelope, at: nat): seq<D.Entry>
    requires at <= |store|
  {
    store[..at] + [D.Entry(e, D.Unsynced)] + store[at..]
  }

  lemma RenameMatches(fs: Fs, store: seq<D.Entry>, e: Envelope, x: D.Entry)
    requires Sound(fs) && e.id != "" && Storable(e.id) && Matches(fs, x) && x.event.id != e.id
    ensures Matches(WithCommitted(fs, FileName(e.id), e), x)
  {
    var path := FileName(e.id);
    var op := Rename(path + TMP, path, File(Whole(e), true));
    if Path(x) == path {
      FileNameInjective(x.event.id, e.id);
    }
    NameKinds(x.event.id);
    NameKinds(e.id);
    NotSpooled(path);
    assert !op.Touches(Path(x)) && op.Leaves(Path(x)).None?;
    RecordKeepsSound(fs, op);
  }

  lemma RenameSound(fs: Fs, e: Envelope)
    requires Sound(fs) && Numbered(fs) && e.id != "" && Storable(e.id) && SequenceOf(FileName(e.id)).Some?
    ensures Sound(WithCommitted(fs, FileName(e.id), e)) && Numbered(WithCommitted(fs, FileName(e.id), e))
  {
    var path := FileName(e.id);
    NameKinds(e.id);
    RecordKeepsSound(fs, Rename(path + TMP, path, File(Whole(e), true)));
  }

  lemma RenameNew(fs: Fs, store: seq<D.Entry>, e: Envelope)
    requires Covers(fs, store) && e.id != "" && Storable(e.id) && !Named(store, FileName(e.id))
    ensures Matches(WithCommitted(fs, FileName(e.id), e), D.Entry(e, D.Unsynced))
  {
    var path := FileName(e.id);
    var op := Rename(path + TMP, path, File(Whole(e), true));
    var next := WithCommitted(fs, path, e);
    NameKinds(e.id);
    forall f | Possible(next, path, f)
      ensures f.content == Whole(e)
    {
      RecordPossible(fs, op, path, f);
    }
  }

  /** The rename puts the event into the list, unsynced, behind every visible entry. */
  lemma RenameRefines(fs: Fs, store: seq<D.Entry>, e: Envelope, at: nat)
    requires Rel(fs, store) && e.id != "" && Storable(e.id) && e.id !in D.StoreIds(store) && SequenceOf(FileName(e.id)).Some?
    requires at <= |store| && InOrder(Inserted(store, e, at))
    ensures Rel(WithCommitted(fs, FileName(e.id), e), Inserted(store, e, at))
  {
    var next := WithCommitted(fs, FileName(e.id), e);
    var all := Inserted(store, e, at);
    assert store == store[..at] + store[at..];
    assert forall x :: x in all <==> x in store || x == D.Entry(e, D.Unsynced);
    RenameSound(fs, e);
    FreshPath(store, e);
    RenameNew(fs, store, e);
    forall x | x in store
      ensures Matches(next, x)
    {
      assert x.event.id in D.StoreIds(store);
      RenameMatches(fs, store, e, x);
    }
    RenameCovers(fs, store, all, e);
  }

  lemma RenameCovers(fs: Fs, store: seq<D.Entry>, all: seq<D.Entry>, e: Envelope)
    requires Covers(fs, store)
    requires forall x :: x in all <==> x in store || x == D.Entry(e, D.Unsynced)
    ensures Covers(WithCommitted(fs, FileName(e.id), e), all)
  {
    var path := FileName(e.id);
    var op := Rename(path + TMP, path, File(Whole(Written(e)), true));
    var next := WithCommitted(fs, path, e);
    forall n, f | Possible(next, n, f) && IsSpooled(n)
      ensures Named(all, n)
    {
      RecordPossible(fs, op, n, f);
      if n == path {
        var y := D.Entry(e, D.Unsynced);
        assert y in all && Path(y) == n;
      } else {
        var x :| x in store && Path(x) == n;
        assert x in all;
      }
    }
  }

  lemma FreshPath(store: seq<D.Entry>, e: Envelope)
    requires e.id !in D.StoreIds(store)
    ensures !Named(store, FileName(e.id))
  {
    if Named(store, FileName(e.id)) {
      var x :| x in store && Path(x) == FileName(e.id);
      FileNameInjective(x.event.id, e.id);
    }
  }

  /** Syncing right after the rename gives the settled list with the event last. */
  lemma FlushInserted(store: seq<D.Entry>, e: Envelope, at: nat)
    requires at <= |store| && (forall i :: at <= i < |store| ==> store[i].presence.Doomed?)
    requires e.id !in D.StoreIds(store)
    ensures D.Flush(Inserted(store, e, at)) == D.Flush(store) + [D.Entry(e, D.Kept)]
  {
    var drop := D.Removed(store);
    InsertedRemoved(store, e, at);
    RewriteConcat(store[..at] + [D.Entry(e, D.Unsynced)], store[at..], drop);
    RewriteConcat(store[..at], [D.Entry(e, D.Unsynced)], drop);
    RewriteConcat(store[..at], store[at..], drop);
    assert store == store[..at] + store[at..];
    RewriteAllDropped(store[at..], drop);
    RewriteNew(e, drop);
  }

  lemma RewriteNew(e: Envelope, drop: set<string>)
    requires e.id !in drop
    ensures D.Rewrite([D.Entry(e, D.Unsynced)], drop, {}, true) == [D.Entry(e, D.Kept)]
  {
  }

  lemma InsertedRemoved(store: seq<D.Entry>, e: Envelope, at: nat)
    requires at <= |store| && (forall i :: at <= i < |store| ==> store[i].presence.Doomed?)
    requires e.id !in D.StoreIds(store)
    ensures D.Removed(Inserted(store, e, at)) == D.Removed(store) && e.id !in D.Removed(store)
    ensures forall x :: x in store[at..] ==> x.event.id in D.Removed(store)
  {
    assert store == store[..at] + store[at..];
    assert forall x :: x in Inserted(store, e, at) <==> x in store || x == D.Entry(e, D.Unsynced);
    forall x | x in store[at..]
      ensures x in store && x.presence.Doomed?
    {
      var i :| 0 <= i < |store[at..]| && store[at..][i] == x;
      assert store[at + i] == x;
    }
  }

  lemma RewriteFirst(x: D.Entry, rest: seq<D.Entry>, drop: set<string>)
    ensures D.Rewrite([x] + rest, drop, {}, true) == D.Rewrite([x], drop, {}, true) + D.Rewrite(rest, drop, {}, true)
  {
    assert ([x] + rest)[1..] == rest && [x][1..] == [];
    assert D.Rewrite([], drop, {}, true) == [];
  }

  lemma {:induction false} RewriteConcat(a: seq<D.Entry>, b: seq<D.Entry>, drop: set<string>)
    ensures D.Rewrite(a + b, drop, {}, true) == D.Rewrite(a, drop, {}, true) + D.Rewrite(b, drop, {}, true)
  {
    if a == [] {
      assert a + b == b;
    } else {
      var x, rest := a[0], a[1..];
      assert a == [x] + rest && a + b == [x] + (rest + b);
      RewriteFirst(x, rest, drop);
      RewriteFirst(x, rest + b, drop);
      RewriteConcat(rest, b, drop);
    }
  }

  lemma {:induction false} RewriteAllDropped(store: seq<D.Entry>, drop: set<string>)
    requires forall x :: x in store ==> x.event.id in drop
    ensures D.Rewrite(store, drop, {}, true) == []
  {
    if store != [] {
      RewriteAllDropped(store[1..], drop);
    }
  }

  /** Append under a new generated name: up to the rename nothing happened; after it the protocol's
      interrupted append; after the directory sync its completed append. */
  lemma AppendRefines(fs: Fs, store: seq<D.Entry>, e: Envelope)
    requires Rel(fs, store) && e.id != "" && Storable(e.id) && e.id !in D.StoreIds(store)
    requires FileName(e.id) !in View(fs) && SequenceOf(FileName(e.id)).Some?
    requires forall n :: n in View(fs) && SequenceOf(n).Some? ==> Less(n, FileName(e.id))
    ensures forall i :: Place(store, FileName(e.id)) <= i < |store| ==> store[i].presence.Doomed?
    ensures var created := WithTemporary(fs, FileName(e.id));
            var renamed := WithCommitted(created, FileName(e.id), e);
            && Rel(created, store)
            && Rel(renamed, Inserted(store, e, Place(store, FileName(e.id))))
            && Rel(SyncDirectory(renamed), D.Flush(store) + [D.Entry(e, D.Kept)])
  {
    var path := FileName(e.id);
    NameKinds(e.id);
    FreshPath(store, e);
    var at := Place(store, path);
    PlaceFits(store, path);
    forall i | at <= i < |store|
      ensures store[i].presence.Doomed?
    {
      BehindIsDoomed(fs, store, path, store[i]);
    }
    TemporaryRefines(fs, store, path);
    var created := WithTemporary(fs, path);
    InsertInOrder(store, D.Entry(e, D.Unsynced), at);
    RenameRefines(created, store, e, at);
    SyncRefines(WithCommitted(created, path, e), Inserted(store, e, at));
    FlushInserted(store, e, at);
  }

  lemma BehindIsDoomed(fs: Fs, store: seq<D.Entry>, path: string, x: D.Entry)
    requires Rel(fs, store) && x in store && Less(path, Path(x))
    requires forall n :: n in View(fs) && SequenceOf(n).Some? ==> Less(n, path)
    ensures x.presence.Doomed?
  {
    assert Matches(fs, x);
    NameKinds(x.event.id);
    if Path(x) in View(fs) {
      EntryOrigin(fs.disk, fs.log, Path(x));
      assert Possible(fs, Path(x), View(fs)[Path(x)]);
      LessTotal(path, Path(x));
    }
  }

  // ---- the beginning ----------------------------------------------------------------------

  /** The empty directory is the empty list. */
  lemma EmptyRelated()
    ensures Rel(Fs(map[], []), [])
  {
  }
}
