/** The worker's durable event spool: one file per event, written aside, synced and renamed into place. */
module EventSpool {
  import opened Prelude
  import opened Protocol
  import opened SpoolNames
  import opened Listing
  import opened NameOrder
  import opened Directory
  import Utf8

  // ---- what a healthy spool directory looks like --------------------------

  /** A committed file is complete, durable, and holds the event it is named after. */
  predicate SoundFile(name: string, file: File) {
    IsSpooled(name) ==> file.synced && ReadableFile(name, file)
  }

  ghost predicate Sound(fs: Fs) {
    forall n, f :: Possible(fs, n, f) ==> SoundFile(n, f)
  }

  /** No crash can lose the event (SurvivesEveryCrash). */
  ghost predicate Safe(fs: Fs, id: string) {
    Survives(fs, FileName(id))
  }

  ghost function SpooledNames(dir: Entries): set<string> {
    set n | n in dir && IsSpooled(n)
  }

  ghost predicate SoundView(dir: Entries) {
    forall n :: n in dir ==> SoundFile(n, dir[n])
  }

  /** Every committed file decodes to the event it is named after. */
  ghost predicate Readable(dir: Entries) {
    forall n :: n in dir && IsSpooled(n) ==> ReadableFile(n, dir[n])
  }

  predicate ReadableFile(name: string, file: File) {
    && file.content.Whole?
    && file.content.event.id != ""
    && FileName(file.content.event.id) == name
  }

  ghost function EventsNamed(dir: Entries, names: seq<string>): (r: seq<Envelope>)
    requires Readable(dir)
    requires forall n :: n in names ==> n in dir && IsSpooled(n)
    ensures |r| == |names|
    ensures forall i :: 0 <= i < |r| ==> r[i] == dir[names[i]].content.event
  {
    if names == [] then [] else [dir[names[0]].content.event] + EventsNamed(dir, names[1..])
  }

  /** The spool as a queue: its events in file-name order. */
  ghost function Queue(dir: Entries): seq<Envelope>
    requires Readable(dir)
  {
    EventsNamed(dir, Sorted(SpooledNames(dir)))
  }

  /** Every file that is or may come to be committed carries a readable sequence number. */
  ghost predicate Numbered(fs: Fs) {
    forall n, f :: Possible(fs, n, f) && IsSpooled(n) ==> SequenceOf(n).Some?
  }

  lemma SoundGivesView(fs: Fs)
    requires Sound(fs)
    ensures SoundView(View(fs)) && Readable(View(fs))
  {
    forall n | n in View(fs)
      ensures SoundFile(n, View(fs)[n])
    {
      EntryOrigin(fs.disk, fs.log, n);
      assert Possible(fs, n, View(fs)[n]);
    }
  }

  lemma RecordKeepsSound(fs: Fs, op: DirOp)
    requires Sound(fs)
    requires forall n, f :: op.Leaves(n) == Some(f) ==> SoundFile(n, f)
    ensures Sound(Record(fs, op))
    ensures forall n, f :: Possible(Record(fs, op), n, f) ==> Possible(fs, n, f) || op.Leaves(n) == Some(f)
    ensures forall n :: Survives(fs, n) && (op.Touches(n) ==> op.Leaves(n).Some?) ==> Survives(Record(fs, op), n)
  {
    var next := Record(fs, op);
    forall n, f | Possible(next, n, f)
      ensures Possible(fs, n, f) || op.Leaves(n) == Some(f)
    {
      if !(n in fs.disk && fs.disk[n] == f) {
        var o :| o in next.log && o.Leaves(n) == Some(f);
        assert o in fs.log || o == op;
      }
    }
  }

  lemma SyncKeepsSound(fs: Fs)
    requires Sound(fs)
    ensures Sound(SyncDirectory(fs))
    ensures forall n, f :: Possible(SyncDirectory(fs), n, f) ==> Possible(fs, n, f)
    ensures forall n :: n in View(fs) ==> Survives(SyncDirectory(fs), n)
    ensures forall n :: Survives(fs, n) ==> Survives(SyncDirectory(fs), n)
  {
    SoundGivesView(fs);
    var next := SyncDirectory(fs);
    forall n, f | Possible(next, n, f)
      ensures Possible(fs, n, f)
    {
      assert n in View(fs) && f == View(fs)[n];
      EntryOrigin(fs.disk, fs.log, n);
    }
    forall n | Survives(fs, n)
      ensures n in View(fs)
    {
      SurvivesEveryCrash(fs, n);
    }
  }

  // ---- crash safety -------------------------------------------------------

  /** After a crash in any sound state: nothing is torn, so reading back cannot fail; every settled
      event is there, unchanged; whatever else is there or missing was part of an outstanding
      append or removal. */
  lemma CrashSafety(fs: Fs, after: Fs)
    requires Sound(fs) && CrashImage(fs, after)
    ensures Sound(after) && Readable(View(after))
    ensures forall id :: Safe(fs, id) ==> Safe(after, id)
    ensures forall n :: IsSpooled(n) && (n in View(after)) != (n in View(fs)) ==> !Settled(fs, n)
    ensures forall n :: IsSpooled(n) && n in View(after) && n in View(fs) && Settled(fs, n)
              ==> View(after)[n] == View(fs)[n]
  {
    forall n, f | Possible(after, n, f)
      ensures SoundFile(n, f)
    {
      CrashEntry(fs, after, n);
      var g: File :| Possible(fs, n, g) && (g.synced ==> after.disk[n] == g);
      assert SoundFile(n, g);
    }
    SoundGivesView(after);
    SoundGivesView(fs);
    forall n
      ensures Settled(fs, n) ==> (n in after.disk <==> n in fs.disk) && (n in fs.disk <==> n in View(fs))
      ensures Settled(fs, n) && n in fs.disk && IsSpooled(n) ==>
                after.disk[n] == fs.disk[n] && View(fs)[n] == fs.disk[n]
    {
      CrashEntry(fs, after, n);
    }
    forall id | Safe(fs, id)
      ensures FileName(id) in after.disk
    {
      SurvivesEveryCrash(fs, FileName(id));
    }
  }

  /** A crash anywhere inside a call: the directory can be read back, and every event confirmed
      before the call is among the events read. */
  lemma CrashInsideCall(before: Fs, confirmed: set<string>, point: Fs, after: Fs)
    requires forall id :: id in confirmed ==> Safe(before, id)
    requires Harmless(before, point) && CrashImage(point, after)
    ensures Readable(View(after)) && confirmed <= Ids(Queue(View(after)))
    ensures Numbered(point) ==> Numbered(after)
  {
    CrashSafety(point, after);
    forall id | id in confirmed
      ensures id in Ids(Queue(View(after)))
    {
      NameKinds(id);
      QueueHolds(View(after), id);
    }
    if Numbered(point) {
      forall n, f | Possible(after, n, f) && IsSpooled(n)
        ensures SequenceOf(n).Some?
      {
        CrashEntry(point, after, n);
      }
    }
  }

  lemma QueueHolds(dir: Entries, id: string)
    requires Readable(dir) && FileName(id) in dir
    ensures id in Ids(Queue(dir))
  {
    NameKinds(id);
    var names := Sorted(SpooledNames(dir));
    assert FileName(id) in SpooledNames(dir);
    assert FileName(id) in names;
    var i :| 0 <= i < |names| && names[i] == FileName(id);
    FileNameInjective(Queue(dir)[i].id, id);
    assert Queue(dir)[i] in Queue(dir);
  }

  /** Events no outstanding change concerns come back from a crash in the order they had. */
  lemma CrashKeepsOrder(fs: Fs, after: Fs, ids: set<string>)
    requires Sound(fs) && CrashImage(fs, after)
    requires forall id :: id in ids ==> Settled(fs, FileName(id))
    ensures Readable(View(fs)) && Readable(View(after))
    ensures Only(Queue(View(after)), ids) == Only(Queue(View(fs)), ids)
  {
    CrashSafety(fs, after);
    SoundGivesView(fs);
    var a, b := View(fs), View(after);
    var wanted := set id | id in ids :: FileName(id);
    RestrictQueue(a, ids, wanted);
    RestrictQueue(b, ids, wanted);
    SettledSame(fs, after, wanted);
    var names := Sorted(SpooledNames(a) * wanted);
    assert forall n :: n in names ==> n in SpooledNames(a) * wanted;
    EventsNamedSame(a, b, names);
  }

  lemma SettledSame(fs: Fs, after: Fs, names: set<string>)
    requires Sound(fs) && CrashImage(fs, after)
    requires forall n :: n in names ==> Settled(fs, n)
    ensures SpooledNames(View(fs)) * names == SpooledNames(View(after)) * names
    ensures forall n :: n in SpooledNames(View(fs)) * names ==> View(after)[n] == View(fs)[n]
  {
    CrashSafety(fs, after);
    forall n | n in names && IsSpooled(n)
      ensures n in View(after) <==> n in View(fs)
      ensures n in View(fs) ==> View(after)[n] == View(fs)[n]
    {
      assert Settled(fs, n);
    }
  }

  lemma RestrictQueue(dir: Entries, ids: set<string>, wanted: set<string>)
    requires Readable(dir) && wanted == set id | id in ids :: FileName(id)
    ensures forall n :: n in Sorted(SpooledNames(dir) * wanted) ==> n in dir && IsSpooled(n)
    ensures Only(Queue(dir), ids) == EventsNamed(dir, Sorted(SpooledNames(dir) * wanted))
  {
    SortedAmong(SpooledNames(dir), wanted);
    EventsAmong(dir, Sorted(SpooledNames(dir)), ids, wanted);
  }

  lemma {:induction false} EventsAmong(dir: Entries, names: seq<string>, ids: set<string>, wanted: set<string>)
    requires Readable(dir) && wanted == set id | id in ids :: FileName(id)
    requires forall n :: n in names ==> n in dir && IsSpooled(n)
    ensures forall n :: n in Among(names, wanted) ==> n in names
    ensures Only(EventsNamed(dir, names), ids) == EventsNamed(dir, Among(names, wanted))
  {
    if names != [] {
      EventsAmong(dir, names[1..], ids, wanted);
      var e := dir[names[0]].content.event;
      if names[0] in wanted {
        var id :| id in ids && FileName(id) == names[0];
        FileNameInjective(id, e.id);
      }
      assert e.id in ids <==> names[0] in wanted;
      assert EventsNamed(dir, names)[1..] == EventsNamed(dir, names[1..]);
    }
  }

  // ---- the queue ----------------------------------------------------------

  lemma EventsNamedConcat(dir: Entries, a: seq<string>, b: seq<string>)
    requires Readable(dir)
    requires forall n :: n in a + b ==> n in dir && IsSpooled(n)
    ensures (forall n :: n in a ==> n in a + b) && (forall n :: n in b ==> n in a + b)
    ensures EventsNamed(dir, a + b) == EventsNamed(dir, a) + EventsNamed(dir, b)
  {
    assert forall n :: n in a ==> n in a + b;
    assert forall n :: n in b ==> n in a + b;
    var whole, left, right := EventsNamed(dir, a + b), EventsNamed(dir, a), EventsNamed(dir, b);
    forall i | 0 <= i < |whole|
      ensures whole[i] == (left + right)[i]
    {
      if i < |a| {
        assert whole[i] == dir[a[i]].content.event;
      } else {
        assert whole[i] == dir[b[i - |a|]].content.event;
      }
    }
  }

  lemma EventsNamedSame(dir: Entries, other: Entries, names: seq<string>)
    requires Readable(dir) && Readable(other)
    requires forall n :: n in names ==> n in dir && n in other && IsSpooled(n) && dir[n] == other[n]
    ensures EventsNamed(dir, names) == EventsNamed(other, names)
  {
  }

  /** Entries that are not committed files do not matter. */
  lemma QueueSame(dir: Entries, other: Entries)
    requires Readable(dir) && Readable(other)
    requires SpooledNames(dir) == SpooledNames(other)
    requires forall n :: n in dir && n in other && IsSpooled(n) ==> dir[n] == other[n]
    ensures Queue(dir) == Queue(other)
  {
    var names := Sorted(SpooledNames(dir));
    assert forall n :: n in names ==> n in SpooledNames(dir) && n in SpooledNames(other);
    EventsNamedSame(dir, other, names);
  }

  /** A committed file under a name above all the others is the new last element. */
  lemma {:induction false} QueueAppend(dir: Entries, next: Entries, path: string)
    requires Readable(dir) && Readable(next)
    requires path in next && IsSpooled(path)
    requires SpooledNames(next) == SpooledNames(dir) + {path}
    requires forall n :: n in SpooledNames(dir) ==> Less(n, path)
    requires forall n :: n in dir && n in next && IsSpooled(n) ==> dir[n] == next[n]
    ensures Queue(next) == Queue(dir) + [next[path].content.event]
  {
    var names := Sorted(SpooledNames(dir));
    SortedAppend(SpooledNames(dir), path);
    assert forall n :: n in names ==> n in SpooledNames(dir) && n in SpooledNames(next);
    EventsNamedConcat(next, names, [path]);
    EventsNamedSame(dir, next, names);
  }

  lemma IdsOfSplit(x: seq<Envelope>, e: Envelope, y: seq<Envelope>)
    ensures forall f :: f in x + [e] + y <==> f in x || f == e || f in y
    ensures Ids(x + [e] + y) == Ids(x) + {e.id} + Ids(y)
  {
    var all := x + [e] + y;
    assert forall f :: f in all <==> f in x || f == e || f in y;
    forall id
      ensures id in Ids(all) <==> id in Ids(x) || id == e.id || id in Ids(y)
    {
      if id in Ids(all) {
        var f :| f in all && f.id == id;
      }
      if id in Ids(x) {
        var f :| f in x && f.id == id;
        assert f in all;
      }
      if id in Ids(y) {
        var f :| f in y && f.id == id;
        assert f in all;
      }
    }
  }

  /** Dropping one id from a sequence in which it occurs once. */
  lemma DropOne(x: seq<Envelope>, e: Envelope, y: seq<Envelope>)
    requires e.id !in Ids(x) && e.id !in Ids(y)
    ensures Only(x + [e] + y, Ids(x + [e] + y) - {e.id}) == x + y
  {
    IdsOfSplit(x, e, y);
    DropInside(x, e, y, Ids(x + [e] + y) - {e.id});
  }

  lemma {:induction false} DropInside(x: seq<Envelope>, e: Envelope, y: seq<Envelope>, rest: set<string>)
    requires Ids(x) <= rest && Ids(y) <= rest && e.id !in rest
    ensures Only(x + [e] + y, rest) == x + y
  {
    if x == [] {
      assert x + [e] + y == [e] + y && x + y == y;
      OnlyFirst(e, y, rest);
      OnlyAll(y, rest);
    } else {
      var head, tail := x[0], x[1..];
      assert head.id in Ids(x) && Ids(tail) <= Ids(x);
      DropInside(tail, e, y, rest);
      assert x + [e] + y == [head] + (tail + [e] + y) && x + y == [head] + (tail + y);
      OnlyFirst(head, tail + [e] + y, rest);
    }
  }

  lemma EventsNamedSplit(dir: Entries, before: seq<string>, path: string, after: seq<string>)
    requires Readable(dir)
    requires forall n :: n in before || n == path || n in after ==> n in dir && IsSpooled(n)
    requires path !in before && path !in after
    ensures EventsNamed(dir, before + [path] + after)
         == EventsNamed(dir, before) + [dir[path].content.event] + EventsNamed(dir, after)
    ensures var id := dir[path].content.event.id;
            id !in Ids(EventsNamed(dir, before)) && id !in Ids(EventsNamed(dir, after))
  {
    EventsNamedConcat(dir, before + [path], after);
    EventsNamedConcat(dir, before, [path]);
    assert forall i :: 0 <= i < |before| ==> FileName(EventsNamed(dir, before)[i].id) == before[i];
    assert forall i :: 0 <= i < |after| ==> FileName(EventsNamed(dir, after)[i].id) == after[i];
  }

  /** Removing one committed file takes exactly its event out of the queue. */
  lemma QueueRemove(dir: Entries, id: string)
    requires Readable(dir) && FileName(id) in dir
    ensures Readable(dir - {FileName(id)})
    ensures Queue(dir - {FileName(id)}) == Only(Queue(dir), Ids(Queue(dir)) - {id})
  {
    NameKinds(id);
    var path := FileName(id);
    var next := dir - {path};
    var e := dir[path].content.event;
    FileNameInjective(e.id, id);
    var before, after := SortedRemove(SpooledNames(dir), path);
    assert SpooledNames(next) == SpooledNames(dir) - {path};
    assert forall n :: n in before + after <==> n in SpooledNames(next);
    assert forall n :: n in before ==> n in before + after;
    assert forall n :: n in after ==> n in before + after;
    EventsNamedSplit(dir, before, path, after);
    EventsNamedConcat(next, before, after);
    EventsNamedSame(dir, next, before);
    EventsNamedSame(dir, next, after);
    DropOne(EventsNamed(dir, before), e, EventsNamed(dir, after));
    assert Queue(dir) == EventsNamed(dir, before) + [e] + EventsNamed(dir, after);
  }

  // ---- the spool ----------------------------------------------------------

  /** Which operating-system steps of one call fail. */
  datatype Faults = Faults(
    cancelled: bool, readDir: bool, encode: bool, stat: bool, create: bool, write: bool,
    syncFile: bool, close: bool, rename: bool, remove: bool, syncDir: bool)

  /** One call of Append: its random suffix and its faults. */
  datatype Attempt = Attempt(suffix: string, faults: Faults)

  datatype Outcome = Done | Failed

  /** filepath.Base(id) == id: a single path element, or the root itself. */
  predicate IsBase(id: string) { id == "/" || (id != "" && '/' !in id) }

  /** The id comes back from its file: it is one, and its bytes survive the JSON encoding. */
  predicate Storable(id: string) { id != "/" && Utf8.Recoded(id) == id }

  /** The event as its file decodes it. */
  function Written(event: Envelope): Envelope { event.(id := Utf8.Recoded(event.id)) }

  /** The directory entry filepath.Join(dir, id + ".json") denotes. */
  function EntryName(id: string): string { if id == "/" then JSON else FileName(id) }

  /** The spool is sound, and every event safe before is safe still. */
  ghost predicate Harmless(before: Fs, after: Fs) {
    && Sound(after)
    && forall id :: Safe(before, id) ==> Safe(after, id)
  }

  /** The same for a removal, of the other events. */
  ghost predicate HarmlessExcept(before: Fs, after: Fs, id: string) {
    && Sound(after)
    && forall o :: o != id && Safe(before, o) ==> Safe(after, o)
  }

  /** The event with this id has left the queue; the others are there in the same order. */
  ghost predicate TakenOut(before: Fs, after: Fs, id: string) {
    && Readable(View(before)) && Readable(View(after))
    && Queue(View(after)) == Only(Queue(View(before)), Ids(Queue(View(before))) - {id})
  }

  /** The committed files are the same. */
  ghost predicate Unchanged(before: Fs, after: Fs) {
    forall n :: IsSpooled(n) ==>
      && (n in View(after) <==> n in View(before))
      && (n in View(before) ==> View(after)[n] == View(before)[n])
  }

  /** The committed files are the same, and `event` is there too. */
  ghost predicate Added(before: Fs, after: Fs, event: Envelope) {
    var path := FileName(event.id);
    && path in View(after) && View(after)[path] == File(Whole(event), true)
    && forall n :: IsSpooled(n) && n != path ==>
         && (n in View(after) <==> n in View(before))
         && (n in View(before) ==> View(after)[n] == View(before)[n])
  }

  /** What makes a reported success of Append mean that the event survives a crash. */
  ghost predicate SuccessIsDurable(fs: Fs, id: string) {
    id == "" || FileName(id) !in View(fs) || Survives(fs, FileName(id))
  }

  /** The directory once the temporary exists, with contents not yet durable. */
  function WithTemporary(fs: Fs, path: string): Fs {
    Record(fs, Put(path + TMP, File(Torn, false)))
  }

  /** The directory once the synced temporary has been renamed into place. */
  function WithCommitted(fs: Fs, path: string, event: Envelope): Fs {
    Record(fs, Rename(path + TMP, path, File(Whole(Written(event)), true)))
  }

  /** The directory states a commit goes through. */
  function CommitPath(start: Fs, path: string, event: Envelope): seq<Fs> {
    var created := WithTemporary(start, path);
    var renamed := WithCommitted(created, path, event);
    [created, renamed, SyncDirectory(renamed)]
  }

  /** The directory states a removal goes through. */
  function RemovePath(start: Fs, id: string): seq<Fs> {
    var removed := Record(start, Remove(FileName(id)));
    [removed, SyncDirectory(removed)]
  }

  /** A call has gone some way along a path of states and stands at the last of them. */
  predicate Along(start: Fs, path: seq<Fs>, points: seq<Fs>, now: Fs) {
    points <= path && now == if points == [] then start else points[|points| - 1]
  }

  /** No step of a commit fails. */
  predicate CommitWorks(f: Faults) {
    !f.create && !f.write && !f.syncFile && !f.close && !f.rename && !f.syncDir
  }

  /** No step of an append of an event without an id fails. */
  predicate AppendWorks(f: Faults) { !f.cancelled && !f.readDir && !f.encode && !f.stat && CommitWorks(f) }

  /** The attempt works, and is made. */
  predicate WorksAt(attempts: seq<Attempt>, i: int) {
    && 0 <= i < |attempts| && AppendWorks(attempts[i].faults)
    && forall j :: 0 <= j < i ==> !attempts[j].faults.cancelled
  }

  /** Some attempt works before one is cancelled. */
  predicate OneWorks(attempts: seq<Attempt>) {
    attempts != []
    && (AppendWorks(attempts[0].faults) || (!attempts[0].faults.cancelled && OneWorks(attempts[1..])))
  }

  lemma {:induction false} OneWorksIff(attempts: seq<Attempt>)
    ensures OneWorks(attempts) <==> exists i :: WorksAt(attempts, i)
  {
    if attempts != [] {
      var rest := attempts[1..];
      OneWorksIff(rest);
      if i :| WorksAt(attempts, i) {
        assert i > 0 ==> !attempts[0].faults.cancelled && WorksAt(rest, i - 1);
      }
      if AppendWorks(attempts[0].faults) {
        assert WorksAt(attempts, 0);
      } else if i :| !attempts[0].faults.cancelled && WorksAt(rest, i) {
        assert WorksAt(attempts, i + 1);
      }
    }
  }

  /** The largest number that fits 64 bits is in use. */
  ghost predicate Exhausted(dir: Entries) { exists n :: n in dir && SequenceOf(n) == Some(0xFFFF_FFFF_FFFF_FFFF) }

  /** The id carries the number after the largest in the directory. */
  ghost predicate IsNextId(dir: Entries, id: string, suffix: string) {
    exists k: nat :: id == EventId(k, suffix) && IsNext(dir, k)
  }

  /** An id whose file is new, can be stored and comes after every numbered one. */
  ghost predicate IsFresh(dir: Entries, id: string) {
    && id != "" && '/' !in id && Storable(id)
    && FileName(id) !in dir && FileName(id) + TMP !in dir && SequenceOf(FileName(id)).Some?
    && forall n :: n in dir && SequenceOf(n).Some? ==> Less(n, FileName(id))
  }

  ghost predicate IsNext(dir: Entries, k: nat) {
    && 1 <= k <= MAX_UINT64
    && (forall n :: n in dir && SequenceOf(n).Some? ==> SequenceOf(n).value < k)
    && (k == 1 || exists n :: n in dir && SequenceOf(n) == Some(k - 1))
  }

  class Spool {
    var fs: Fs

    /** Events whose append reported success and whose removal has not been asked for. */
    ghost var confirmed: set<string>

    constructor ()
      ensures Valid() && confirmed == {} && fs == Fs(map[], [])
    {
      fs := Fs(map[], []);
      confirmed := {};
    }

    ghost predicate Valid()
      reads this
    {
      && Sound(fs)
      && (forall id :: id in confirmed ==> Safe(fs, id))
    }

    method ReadDir() returns (names: seq<string>)
      ensures forall n :: n in names <==> n in View(fs)
    {
      names := [];
      var rest := View(fs).Keys;
      while rest != {}
        invariant rest <= View(fs).Keys
        invariant forall n :: n in names <==> n in View(fs) && n !in rest
        decreases |rest|
      {
        var n :| n in rest;
        rest := rest - {n};
        names := names + [n];
      }
    }

    /** The second half of Append: write aside, sync, rename, sync the directory. */
    method Commit(event: Envelope, path: string, faults: Faults) returns (outcome: Outcome, ghost points: seq<Fs>)
      requires Valid() && event.id != "" && path == EntryName(event.id) && path !in View(fs)
      modifies this
      ensures Along(old(fs), CommitPath(old(fs), path, event), points, fs)
      ensures |points| == if faults.create then 0
                            else if faults.write || faults.syncFile || faults.close || faults.rename then 1
                            else if faults.syncDir then 2 else 3
      ensures outcome == Done <==> |points| == 3
      ensures confirmed == old(confirmed) + (if outcome == Done then {event.id} else {})
      ensures outcome == Done && Storable(event.id) ==> Safe(fs, event.id)
      ensures Storable(event.id) ==>
                && Valid()
                && (forall p :: p in points ==> Harmless(old(fs), p))
                && ((Unchanged(old(fs), fs) && outcome == Failed) || Added(old(fs), fs, event))
                && (Numbered(old(fs)) && SequenceOf(path).Some? ==> Numbered(fs))
    {
      outcome, points := CommitSteps(event, path, faults);
      if Storable(event.id) {
        CommitAlong(old(fs), event, points, fs);
      }
    }

    method CommitSteps(event: Envelope, path: string, faults: Faults) returns (outcome: Outcome, ghost points: seq<Fs>)
      modifies this
      ensures Along(old(fs), CommitPath(old(fs), path, event), points, fs)
      ensures |points| == if faults.create then 0
                            else if faults.write || faults.syncFile || faults.close || faults.rename then 1
                            else if faults.syncDir then 2 else 3
      ensures outcome == Done <==> |points| == 3
      ensures confirmed == old(confirmed) + (if outcome == Done then {event.id} else {})
    {
      points := [];
      outcome := Failed;
      if faults.create {
        return;
      }
      fs := WithTemporary(fs, path);
      points := [fs];
      if faults.write || faults.syncFile || faults.close || faults.rename {
        return;
      }
      // The contents were written and synced before the rename.
      fs := WithCommitted(fs, path, event);
      points := points + [fs];
      if faults.syncDir {
        return;
      }
      fs := SyncDirectory(fs);
      points := points + [fs];
      confirmed := confirmed + {event.id};
      outcome := Done;
    }

    /** Put an event in the spool. `stored` is the envelope as written; `points` are the directory
        states the call passes through, at each of which the machine may stop. Some ids pass the
        base-name test although their files cannot be read back: see CommitReadableIff. */
    method Append(event: Envelope, suffix: string, faults: Faults)
      returns (outcome: Outcome, stored: Envelope, ghost points: seq<Fs>)
      requires Valid()
      requires |suffix| == 24 && IsHex(suffix)
      modifies this
      ensures fs == old(fs) || fs in points
      ensures stored == event.(id := stored.id) && (event.id != "" ==> stored.id == event.id)
      ensures outcome == Failed ==> confirmed == old(confirmed)
      // Exactly when it succeeds, and under which id.
      ensures outcome == Done <==>
                if event.id == "" then AppendWorks(faults) && !Exhausted(View(old(fs)))
                else
                  && (event.id == "/" || '/' !in event.id)
                  && !faults.cancelled && !faults.encode && !faults.stat
                  && (EntryName(event.id) in View(old(fs)) || CommitWorks(faults))
      ensures event.id == "" && outcome == Done ==> IsNextId(View(old(fs)), stored.id, suffix)
      ensures event.id == "" ==> View(old(fs)).Keys <= View(fs).Keys
      ensures Storable(event.id) ==> Valid() && forall p :: p in points ==> Harmless(old(fs), p)
      // An entry found under the given id is left as it is.
      ensures event.id != "" && EntryName(event.id) in View(old(fs)) ==> fs == old(fs)
      // A success is durable, except when the given id was found under an entry that is still unsynced.
      ensures outcome == Done && Storable(event.id) ==>
                && (Safe(fs, stored.id) <==> SuccessIsDurable(old(fs), event.id))
                && confirmed == old(confirmed) + (if SuccessIsDurable(old(fs), event.id) then {stored.id} else {})
      // A newly committed file leaves the spool readable exactly if its id can be stored.
      ensures outcome == Done && EntryName(stored.id) !in View(old(fs)) ==>
                (Readable(View(fs)) <==> Storable(stored.id))
      // In a spool of generated names the event joins the queue last, or nothing happens.
      ensures Storable(event.id) ==> Readable(View(old(fs))) && Readable(View(fs))
      ensures event.id == "" && Numbered(old(fs)) ==>
                && Numbered(fs)
                && (Queue(View(fs)) == Queue(View(old(fs))) + [stored]
                    || (outcome == Failed && Queue(View(fs)) == Queue(View(old(fs)))))
    {
      points := [];
      outcome, stored := Failed, event;
      SoundGivesView(fs);
      if faults.cancelled {
        return;
      }
      if event.id == "" {
        var id := NextId(suffix, faults);
        if id.None? {
          return;
        }
        stored := event.(id := id.value);
      }
      outcome, points := AppendNamed(stored, faults);
      if Storable(stored.id) {
        SoundGivesView(fs);
      }
      if event.id == "" && Numbered(old(fs)) {
        if Added(old(fs), fs, stored) {
          AddedLast(old(fs), fs, stored);
        } else {
          UnchangedQueue(old(fs), fs);
        }
      }
    }

    /** The id of an event that comes without one. */
    method NextId(suffix: string, faults: Faults) returns (id: Option<string>)
      requires IsHex(suffix)
      ensures id.None? <==> faults.readDir || Exhausted(View(fs))
      ensures id.Some? ==> IsNextId(View(fs), id.value, suffix) && IsFresh(View(fs), id.value)
    {
      if faults.readDir {
        return None;
      }
      var names := ReadDir();
      var next := NextSequence(names);
      if next.None? {
        return None;
      }
      FreshName(View(fs), names, next.value, suffix);
      GeneratedIdIsStorable(next.value, suffix);
      assert IsNext(View(fs), next.value);
      id := Some(EventId(next.value, suffix));
    }

    /** The rest of Append, once the event has an id. */
    method AppendNamed(event: Envelope, faults: Faults) returns (outcome: Outcome, ghost points: seq<Fs>)
      requires Valid() && event.id != ""
      modifies this
      ensures fs == old(fs) || fs in points
      ensures outcome == Failed ==> confirmed == old(confirmed)
      ensures EntryName(event.id) in View(old(fs)) ==> fs == old(fs)
      ensures outcome == Done <==>
                && (event.id == "/" || '/' !in event.id) && !faults.encode && !faults.stat
                && (EntryName(event.id) in View(old(fs)) || CommitWorks(faults))
      ensures EntryName(event.id) + TMP !in View(old(fs)) ==> View(old(fs)).Keys <= View(fs).Keys
      ensures Storable(event.id) ==>
                && Valid()
                && (forall p :: p in points ==> Harmless(old(fs), p))
                && (EntryName(event.id) in View(old(fs)) || (Unchanged(old(fs), fs) && outcome == Failed)
                    || Added(old(fs), fs, event))
                && (Numbered(old(fs)) && SequenceOf(EntryName(event.id)).Some? ==> Numbered(fs))
      ensures outcome == Done && Storable(event.id) ==>
                && (Safe(fs, event.id) <==> SuccessIsDurable(old(fs), event.id))
                && confirmed == old(confirmed) + (if SuccessIsDurable(old(fs), event.id) then {event.id} else {})
      ensures outcome == Done && EntryName(event.id) !in View(old(fs)) ==>
                (Readable(View(fs)) <==> Storable(event.id))
    {
      points := [];
      outcome := Failed;
      if !IsBase(event.id) || faults.encode || faults.stat {
        return;
      }
      var path := EntryName(event.id);
      SoundGivesView(fs);
      if path in View(fs) {
        outcome := Done;
        if Survives(fs, path) {
          confirmed := confirmed + {event.id};
        }
        return;
      }
      CommitReadableIff(fs, event);
      outcome, points := Commit(event, path, faults);
      CommitKeepsNames(old(fs), path, event, points, fs);
    }

    /** Spool one event, trying again after every failure but a cancellation. The event is passed by
        value, so an attempt that failed after its rename leaves a copy behind under its own id. */
    method Collect(event: Envelope, attempts: seq<Attempt>) returns (stored: bool, ghost copies: seq<Envelope>)
      requires Valid() && Numbered(fs) && event.id == ""
      requires forall a :: a in attempts ==> |a.suffix| == 24 && IsHex(a.suffix)
      modifies this
      ensures Valid() && Numbered(fs) && Readable(View(old(fs))) && Readable(View(fs))
      ensures Queue(View(fs)) == old(Queue(View(fs))) + copies
      ensures forall c :: c in copies ==> c == event.(id := c.id)
      ensures if stored then copies != [] && confirmed == old(confirmed) + {copies[|copies| - 1].id}
              else confirmed == old(confirmed)
      // It goes on until an attempt works or is cancelled.
      ensures stored ==> OneWorks(attempts)
      ensures !stored ==> Exhausted(View(fs)) || !OneWorks(attempts)
    {
      copies, stored := [], false;
      SoundGivesView(fs);
      assert Queue(View(fs)) + [] == Queue(View(fs));
      for i := 0 to |attempts|
        invariant Valid() && Numbered(fs) && Readable(View(fs)) && confirmed == old(confirmed)
        invariant Queue(View(fs)) == old(Queue(View(fs))) + copies
        invariant forall c :: c in copies ==> c == event.(id := c.id)
        invariant Exhausted(View(fs)) || OneWorks(attempts) == OneWorks(attempts[i..])
      {
        assert attempts[i] in attempts;
        var outcome, copy := Try(event, attempts[i]);
        if copy.Some? {
          copies := copies + [copy.value];
        }
        if outcome == Done {
          return true, copies;
        }
        if attempts[i].faults.cancelled {
          return false, copies;
        }
      }
    }

    /** One attempt, which leaves a copy or nothing. */
    method Try(event: Envelope, attempt: Attempt) returns (outcome: Outcome, ghost copy: Option<Envelope>)
      requires Valid() && Numbered(fs) && Readable(View(fs)) && event.id == ""
      requires |attempt.suffix| == 24 && IsHex(attempt.suffix)
      modifies this
      ensures Valid() && Numbered(fs) && Readable(View(fs))
      ensures Queue(View(fs)) == old(Queue(View(fs))) + (if copy.Some? then [copy.value] else [])
      ensures copy.Some? ==> copy.value == event.(id := copy.value.id)
      ensures outcome == Done <==> AppendWorks(attempt.faults) && !Exhausted(View(old(fs)))
      ensures if outcome == Done then copy.Some? && confirmed == old(confirmed) + {copy.value.id}
              else confirmed == old(confirmed)
      ensures Exhausted(View(old(fs))) ==> Exhausted(View(fs))
    {
      ghost var before := Queue(View(fs));
      var result, stored, _ := Append(event, attempt.suffix, attempt.faults);
      outcome := result;
      copy := if Queue(View(fs)) == before + [stored] then Some(stored) else None;
    }

    /** The spooled events in file-name order; nothing if a committed file cannot be read back. */
    method Pending(faults: Faults) returns (events: Option<seq<Envelope>>)
      ensures events.Some? <==> !faults.cancelled && !faults.readDir && Readable(View(fs))
      ensures events.Some? ==> events.value == Queue(View(fs))
    {
      if faults.cancelled || faults.readDir {
        return None;
      }
      var entries := ReadDir();
      var names := [];
      for i := 0 to |entries|
        invariant forall n :: n in names <==> n in entries[..i] && IsSpooled(n)
      {
        assert entries[..i + 1] == entries[..i] + [entries[i]];
        if IsSpooled(entries[i]) {
          names := names + [entries[i]];
        }
      }
      assert entries[..|entries|] == entries;
      names := SortStrings(names);
      var result := [];
      for i := 0 to |names|
        invariant |result| == i
        invariant forall j :: 0 <= j < i ==>
                    names[j] in View(fs) && ReadableFile(names[j], View(fs)[names[j]])
                    && result[j] == View(fs)[names[j]].content.event
      {
        assert names[i] in names;
        var file := View(fs)[names[i]];
        if !file.content.Whole? || file.content.event.id == "" || FileName(file.content.event.id) != names[i] {
          return None;
        }
        result := result + [file.content.event];
      }
      SortedIs(SpooledNames(View(fs)), names);
      forall n | n in View(fs) && IsSpooled(n)
        ensures ReadableFile(n, View(fs)[n])
      {
        assert n in names;
      }
      assert result == EventsNamed(View(fs), names);
      events := Some(result);
    }

    /** Remove an acknowledged event. Asking for an absent one succeeds without touching the disk. */
    method Ack(id: string, faults: Faults) returns (outcome: Outcome, ghost points: seq<Fs>)
      requires Valid()
      modifies this
      ensures Valid()
      ensures Along(old(fs), RemovePath(old(fs), id), points, fs)
      ensures confirmed == if points == [] then old(confirmed) else old(confirmed) - {id}
      // Exactly when it removes the file, and when it succeeds.
      ensures points != [] <==>
                && id != "" && (id == "/" || '/' !in id) && !faults.cancelled && !faults.remove
                && EntryName(id) in View(old(fs))
      ensures outcome == Done <==>
                && id != "" && (id == "/" || '/' !in id) && !faults.cancelled
                && (EntryName(id) !in View(old(fs)) || (!faults.remove && !faults.syncDir))
      // Exactly when a success means that no crash brings the event back.
      ensures outcome == Done ==>
                (Absent(fs, EntryName(id)) <==> EntryName(id) in View(old(fs)) || Absent(old(fs), EntryName(id)))
      ensures points != [] ==> (Absent(fs, EntryName(id)) <==> outcome == Done)
      ensures forall p :: p in points ==> HarmlessExcept(old(fs), p, id)
      ensures outcome == Done ==> id != "" && EntryName(id) !in View(fs)
      ensures fs == old(fs) || TakenOut(old(fs), fs, id)
      ensures Numbered(old(fs)) ==> Numbered(fs)
    {
      points := [];
      outcome := Failed;
      SoundGivesView(fs);
      if faults.cancelled || id == "" || !IsBase(id) {
        return;
      }
      var path := EntryName(id);
      RootIsAbsent(View(fs));
      if path !in View(fs) {
        outcome := Done;
        return;
      }
      if faults.remove {
        return;
      }
      outcome, points := Unlink(id, faults);
    }

    /** The second half of Ack: remove the file, sync the directory. */
    method Unlink(id: string, faults: Faults) returns (outcome: Outcome, ghost points: seq<Fs>)
      requires Valid() && FileName(id) in View(fs)
      modifies this
      ensures Valid() && confirmed == old(confirmed) - {id}
      ensures Along(old(fs), RemovePath(old(fs), id), points, fs) && points != []
      ensures |points| == if faults.syncDir then 1 else 2
      ensures outcome == Done <==> |points| == 2
      ensures Absent(fs, FileName(id)) <==> outcome == Done
      ensures forall p :: p in points ==> HarmlessExcept(old(fs), p, id)
      ensures FileName(id) !in View(fs)
      ensures TakenOut(old(fs), fs, id)
      ensures Numbered(old(fs)) ==> Numbered(fs)
    {
      outcome := Failed;
      RemoveStages(fs, id);
      RemovalIsDurable(fs, FileName(id));
      fs := Record(fs, Remove(FileName(id)));
      points := [fs];
      confirmed := confirmed - {id};
      if faults.syncDir {
        return;
      }
      fs := SyncDirectory(fs);
      points := points + [fs];
      outcome := Done;
    }
  }

  /** A removal can be undone by a crash until the directory is synced. */
  lemma RemovalIsDurable(start: Fs, n: string)
    requires n in View(start)
    ensures !Absent(Record(start, Remove(n)), n) && Absent(SyncDirectory(Record(start, Remove(n))), n)
  {
    EntryOrigin(start.disk, start.log, n);
    var f := View(start)[n];
    assert Possible(start, n, f);
    assert Possible(Record(start, Remove(n)), n, f) by {
      if !(n in start.disk && start.disk[n] == f) {
        var op :| op in start.log && op.Leaves(n) == Some(f);
        assert op in Record(start, Remove(n)).log;
      }
    }
  }

  /** No readable spool holds the entry the id "/" denotes. */
  lemma RootIsAbsent(dir: Entries)
    requires Readable(dir)
    ensures EntryName("/") !in dir
  {
  }

  lemma RemoveStages(start: Fs, id: string)
    requires Sound(start) && FileName(id) in View(start)
    ensures var removed := Record(start, Remove(FileName(id)));
            var synced := SyncDirectory(removed);
            && HarmlessExcept(start, removed, id) && HarmlessExcept(start, synced, id)
            && TakenOut(start, removed, id) && TakenOut(start, synced, id)
            && (Numbered(start) ==> Numbered(removed) && Numbered(synced))
            && FileName(id) !in View(removed)
  {
    var op := Remove(FileName(id));
    var removed := Record(start, op);
    RecordKeepsSound(start, op);
    SyncKeepsSound(removed);
    SoundGivesView(start);
    SoundGivesView(removed);
    QueueRemove(View(start), id);
    forall o | o != id && Safe(start, o)
      ensures Safe(removed, o)
    {
      if FileName(o) == FileName(id) {
        FileNameInjective(o, id);
      }
    }
  }

  lemma GeneratedIdIsStorable(sequence: nat, suffix: string)
    requires IsHex(suffix)
    ensures IsBase(EventId(sequence, suffix)) && Storable(EventId(sequence, suffix))
  {
    var digits := Format(sequence);
    assert '/' !in digits && '/' !in suffix;
    assert forall c :: c in EventId(sequence, suffix) ==> c in PREFIX || c in digits || c == '_' || c in suffix;
    Utf8.AsciiSurvives(EventId(sequence, suffix));
  }

  /** A name above the maximum is new, and sorts after every numbered name. */
  lemma FreshName(dir: Entries, names: seq<string>, sequence: nat, suffix: string)
    requires forall n :: n in names <==> n in dir
    requires 1 <= sequence <= MAX_UINT64 && OneAboveMaximum(names, SequenceOf, sequence)
    ensures var path := FileName(EventId(sequence, suffix));
            && path !in dir && path + TMP !in dir
            && SequenceOf(path).Some?
            && forall n :: n in dir && SequenceOf(n).Some? ==> Less(n, path)
  {
    EventNameShape(sequence, suffix);
    SequenceRoundTrip(sequence, "_" + suffix + JSON);
    var path := FileName(EventId(sequence, suffix));
    assert path !in names;
    SequenceRoundTrip(sequence, "_" + suffix + JSON + TMP);
    assert path + TMP !in names;
    forall n | n in dir && SequenceOf(n).Some?
      ensures Less(n, path)
    {
      assert n in names;
      SmallerSequenceSortsFirst(n, sequence, suffix);
    }
  }

  /** Writing the temporary changes no committed file. */
  lemma TemporaryHarmless(fs: Fs, path: string)
    requires Sound(fs) && IsSpooled(path) && path !in View(fs)
    ensures var next := WithTemporary(fs, path);
            Harmless(fs, next) && Unchanged(fs, next) && path !in View(next)
            && (Numbered(fs) ==> Numbered(next))
  {
    var temporary := path + TMP;
    NotSpooled(path);
    var op := Put(temporary, File(Torn, false));
    RecordKeepsSound(fs, op);
    var next := Record(fs, op);
    forall id | Safe(fs, id)
      ensures Safe(next, id)
    {
      NameKinds(id);
    }
  }

  /** The rename keeps the spool sound and disturbs no other event. */
  lemma RenameCommits(created: Fs, event: Envelope)
    requires Sound(created) && event.id != "" && Storable(event.id) && FileName(event.id) !in View(created)
    ensures var next := WithCommitted(created, FileName(event.id), event);
            Harmless(created, next) && Added(created, next, event)
            && (Numbered(created) && SequenceOf(FileName(event.id)).Some? ==> Numbered(next))
  {
    var path := FileName(event.id);
    NameKinds(event.id);
    assert path + TMP == TemporaryName(event.id);
    var op := Rename(path + TMP, path, File(Whole(event), true));
    RecordKeepsSound(created, op);
    forall id | Safe(created, id)
      ensures Safe(Record(created, op), id)
    {
      RenameSpares(created, path, op, id);
    }
    RenameAdds(created, Record(created, op), event);
  }

  lemma RenameSpares(created: Fs, path: string, op: DirOp, id: string)
    requires op.Rename? && op.to == path && op.from == path + TMP && path !in View(created)
    requires Safe(created, id)
    ensures Safe(Record(created, op), id)
  {
    NameKinds(id);
    SurvivesEveryCrash(created, FileName(id));
    assert path + TMP != FileName(id) by {
      assert (path + TMP)[|path + TMP| - 1] == 'p';
      assert FileName(id)[|FileName(id)| - 1] == 'n';
    }
    assert !op.Touches(FileName(id));
  }

  lemma RenameAdds(created: Fs, next: Fs, event: Envelope)
    requires View(next) == Apply(View(created),
               Rename(FileName(event.id) + TMP, FileName(event.id), File(Whole(event), true)))
    ensures Added(created, next, event)
  {
    var path := FileName(event.id);
    forall n | IsSpooled(n)
      ensures n != path + TMP
    {
      assert (path + TMP)[|path + TMP| - 1] == 'p';
      assert n[|n| - 1] == n[|n| - |JSON|..][|JSON| - 1];
    }
  }

  /** The three states a commit passes through. */
  lemma CommitStages(start: Fs, event: Envelope)
    requires Sound(start) && event.id != "" && Storable(event.id) && FileName(event.id) !in View(start)
    ensures var created := WithTemporary(start, FileName(event.id));
            var renamed := WithCommitted(created, FileName(event.id), event);
            var synced := SyncDirectory(renamed);
            && Harmless(start, created) && Unchanged(start, created)
            && Harmless(start, renamed) && Added(start, renamed, event)
            && Harmless(start, synced) && Added(start, synced, event)
            && Safe(synced, event.id)
            && (Numbered(start) ==> Numbered(created))
            && (Numbered(start) && SequenceOf(FileName(event.id)).Some? ==> Numbered(renamed) && Numbered(synced))
  {
    NameKinds(event.id);
    var created := WithTemporary(start, FileName(event.id));
    TemporaryHarmless(start, FileName(event.id));
    var renamed := WithCommitted(created, FileName(event.id), event);
    RenameCommits(created, event);
    SyncKeepsSound(renamed);
  }

  /** What a commit has done wherever it stops. */
  lemma CommitAlong(start: Fs, event: Envelope, points: seq<Fs>, now: Fs)
    requires Sound(start) && event.id != "" && Storable(event.id) && FileName(event.id) !in View(start)
    requires Along(start, CommitPath(start, FileName(event.id), event), points, now)
    ensures Harmless(start, now) && forall p :: p in points ==> Harmless(start, p)
    ensures if |points| < 2 then Unchanged(start, now) else Added(start, now, event)
    ensures |points| == 3 ==> Safe(now, event.id)
    ensures Numbered(start) && SequenceOf(FileName(event.id)).Some? ==> Numbered(now)
  {
    CommitStages(start, event);
    var path := CommitPath(start, FileName(event.id), event);
    forall p | p in points
      ensures Harmless(start, p)
    {
      var i :| 0 <= i < |points| && points[i] == p;
      assert p == path[i];
    }
    assert points != [] ==> now == path[|points| - 1];
  }

  lemma CommitKeepsNames(start: Fs, path: string, event: Envelope, points: seq<Fs>, now: Fs)
    requires Along(start, CommitPath(start, path, event), points, now)
    ensures path + TMP !in View(start) ==> View(start).Keys <= View(now).Keys
  {
    var created := WithTemporary(start, path);
    assert View(created) == View(start)[path + TMP := File(Torn, false)];
    var states := CommitPath(start, path, event);
    assert points != [] ==> now == states[|points| - 1];
  }

  lemma UnchangedQueue(before: Fs, after: Fs)
    requires Readable(View(before)) && Readable(View(after)) && Unchanged(before, after)
    ensures Queue(View(after)) == Queue(View(before))
  {
    assert SpooledNames(View(after)) == SpooledNames(View(before));
    QueueSame(View(after), View(before));
  }

  /** A new committed file under a fresh generated name is the last of the queue. */
  lemma AddedLast(before: Fs, after: Fs, event: Envelope)
    requires Readable(View(before)) && Readable(View(after))
    requires Added(before, after, event)
    requires Numbered(before) && FileName(event.id) !in View(before)
    requires forall n :: n in View(before) && SequenceOf(n).Some? ==> Less(n, FileName(event.id))
    ensures Queue(View(after)) == Queue(View(before)) + [event]
  {
    var path := FileName(event.id);
    NameKinds(event.id);
    assert SpooledNames(View(after)) == SpooledNames(View(before)) + {path};
    forall n | n in SpooledNames(View(before))
      ensures Less(n, path)
    {
      EntryOrigin(before.disk, before.log, n);
      assert Possible(before, n, View(before)[n]);
    }
    QueueAppend(View(before), View(after), path);
  }

  // ---- where the source falls short ---------------------------------------

  /** A newly committed file leaves the spool readable if and only if its id is not "/" and is valid
      UTF-8, although the base-name test lets other ids pass: "/" lands under ".json", and invalid bytes
      are replaced in the file but not in its name. */
  lemma CommitReadableIff(fs: Fs, event: Envelope)
    requires Readable(View(fs)) && event.id != "" && EntryName(event.id) !in View(fs)
    ensures Storable(event.id) <==> event.id != "/" && Utf8.Valid(event.id)
    ensures var path := EntryName(event.id);
            && Readable(View(WithTemporary(fs, path)))
            && (Readable(View(WithCommitted(WithTemporary(fs, path), path, event))) <==> Storable(event.id))
  {
    var path := EntryName(event.id);
    Utf8.RecodedIff(event.id);
    assert IsSpooled(path);
    NotSpooled(path);
    var committed := View(WithCommitted(WithTemporary(fs, path), path, event));
    var written := Written(event);
    assert committed[path] == File(Whole(written), true);
    if Storable(event.id) {
      assert written == event;
    } else if event.id != "/" && FileName(written.id) == path {
      FileNameInjective(written.id, event.id);
    }
    assert ReadableFile(path, committed[path]) <==> Storable(event.id);
    assert forall n :: IsSpooled(n) && n != path ==>
        (n in committed <==> n in View(fs)) && (n in committed ==> committed[n] == View(fs)[n]);
  }

  lemma NotSpooled(path: string)
    requires IsSpooled(path)
    ensures !IsSpooled(path + TMP)
  {
    var temporary := path + TMP;
    assert temporary[|temporary| - |JSON|..][|JSON| - 1] == 'p';
    assert JSON[|JSON| - 1] == 'n';
  }

  /** An append of a given id whose directory sync failed can be repeated with reported success
      and still be lost: the second call finds the file and does not sync. */
  lemma RepeatedAppendCanBeLost(fs: Fs, event: Envelope)
    requires Sound(fs) && event.id != "" && Storable(event.id) && FileName(event.id) !in View(fs)
    requires FileName(event.id) !in fs.disk
    ensures var interrupted := WithCommitted(WithTemporary(fs, FileName(event.id)), FileName(event.id), event);
            && FileName(event.id) in View(interrupted)
            && !SuccessIsDurable(interrupted, event.id)
            && exists after :: CrashImage(interrupted, after) && FileName(event.id) !in after.disk
  {
    CommitStages(fs, event);
    var interrupted := WithCommitted(WithTemporary(fs, FileName(event.id)), FileName(event.id), event);
    assert interrupted.disk == fs.disk;
    LosingCrash(interrupted, FileName(event.id));
  }
}
