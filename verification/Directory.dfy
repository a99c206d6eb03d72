/** A directory that can lose power: entry changes are durable only after the directory is synced,
    file contents only after the file is synced. */
module Directory {
  import opened Prelude
  import opened Protocol

  datatype Content = Whole(event: Envelope) | Torn

  datatype File = File(content: Content, synced: bool)

  /** One change of entries. A rename happens entirely or not at all. */
  datatype DirOp =
    | Put(name: string, file: File)
    | Rename(from: string, to: string, file: File)
    | Remove(name: string)
  {
    predicate Touches(n: string) {
      match this
      case Put(name, _) => n == name
      case Rename(from, to, _) => n == from || n == to
      case Remove(name) => n == name
    }

    /** The file this operation leaves under `n`, if any. */
    function Leaves(n: string): Option<File> {
      match this
      case Put(name, file) => if n == name then Some(file) else None
      case Rename(from, to, file) => if n == to then Some(file) else None
      case Remove(name) => None
    }
  }

  type Entries = map<string, File>

  /** `disk` is what the last directory sync left; `log` is everything since. */
  datatype Fs = Fs(disk: Entries, log: seq<DirOp>)

  function Apply(dir: Entries, op: DirOp): Entries {
    match op
    case Put(name, file) => dir[name := file]
    case Rename(from, to, file) => (dir - {from})[to := file]
    case Remove(name) => dir - {name}
  }

  function ApplyAll(dir: Entries, ops: seq<DirOp>): Entries {
    if ops == [] then dir
    else Apply(ApplyAll(dir, ops[..|ops| - 1]), ops[|ops| - 1])
  }

  /** What the running process sees. */
  function View(fs: Fs): Entries { ApplyAll(fs.disk, fs.log) }

  function Record(fs: Fs, op: DirOp): (r: Fs)
    ensures View(r) == Apply(View(fs), op)
  {
    assert (fs.log + [op])[..|fs.log|] == fs.log;
    Fs(fs.disk, fs.log + [op])
  }

  function SyncDirectory(fs: Fs): (r: Fs)
    ensures View(r) == View(fs) && r.log == []
  {
    Fs(View(fs), [])
  }

  /** No entry change of `name` is outstanding. */
  ghost predicate Settled(fs: Fs, name: string) {
    forall op :: op in fs.log ==> !op.Touches(name)
  }

  /** The operations selected by `keep`. */
  function Select(ops: seq<DirOp>, keep: seq<bool>): (r: seq<DirOp>)
    requires |keep| == |ops|
    ensures forall op :: op in r ==> op in ops
  {
    if ops == [] then []
    else
      var n := |ops| - 1;
      Select(ops[..n], keep[..n]) + (if keep[n] then [ops[n]] else [])
  }

  /** Any subset of the outstanding entry changes reaches the disk, and unsynced contents may be torn. */
  ghost predicate CrashImage(fs: Fs, after: Fs) {
    && after.log == []
    && exists keep: seq<bool> ::
         && |keep| == |fs.log|
         && Damaged(ApplyAll(fs.disk, Select(fs.log, keep)), after.disk)
  }

  ghost predicate Damaged(before: Entries, after: Entries) {
    && before.Keys == after.Keys
    && forall n :: n in before ==> before[n].synced ==> after[n] == before[n]
  }

  /** An entry left by a sequence of operations comes from the start or from one of them. */
  lemma {:induction false} EntryOrigin(dir: Entries, ops: seq<DirOp>, n: string)
    ensures var result := ApplyAll(dir, ops);
            n in result ==>
              (n in dir && result[n] == dir[n]) || exists op :: op in ops && op.Leaves(n) == Some(result[n])
    ensures (forall op :: op in ops ==> !op.Touches(n)) ==>
              (n in ApplyAll(dir, ops) <==> n in dir)
              && (n in dir ==> ApplyAll(dir, ops)[n] == dir[n])
  {
    if ops != [] {
      var last := ops[|ops| - 1];
      EntryOrigin(dir, ops[..|ops| - 1], n);
      assert last in ops;
      assert n in ApplyAll(dir, ops) && last.Touches(n) ==> last.Leaves(n) == Some(ApplyAll(dir, ops)[n]);
    }
  }

  /** What a crash can do to one name: a settled one is as it was on disk; anything else
      present is either the disk's file or one an outstanding operation put there. */
  lemma CrashEntry(fs: Fs, after: Fs, n: string)
    requires CrashImage(fs, after)
    ensures Settled(fs, n) ==>
              && (n in after.disk <==> n in fs.disk) && (n in fs.disk <==> n in View(fs))
              && (n in fs.disk ==> View(fs)[n] == fs.disk[n] && (fs.disk[n].synced ==> after.disk[n] == fs.disk[n]))
    ensures n in after.disk ==>
              exists f: File :: Possible(fs, n, f) && (f.synced ==> after.disk[n] == f)
  {
    var keep: seq<bool> :| |keep| == |fs.log| && Damaged(ApplyAll(fs.disk, Select(fs.log, keep)), after.disk);
    var chosen := Select(fs.log, keep);
    EntryOrigin(fs.disk, chosen, n);
    EntryOrigin(fs.disk, fs.log, n);
    if n in after.disk {
      var f := ApplyAll(fs.disk, chosen)[n];
      assert Possible(fs, n, f);
    }
  }

  ghost predicate Possible(fs: Fs, n: string, f: File) {
    (n in fs.disk && fs.disk[n] == f) || exists op :: op in fs.log && op.Leaves(n) == Some(f)
  }

  /** Recording an operation adds only what that operation leaves. */
  lemma RecordPossible(fs: Fs, op: DirOp, n: string, f: File)
    requires Possible(Record(fs, op), n, f)
    ensures Possible(fs, n, f) || op.Leaves(n) == Some(f)
  {
    if !(n in fs.disk && fs.disk[n] == f) {
      var o :| o in Record(fs, op).log && o.Leaves(n) == Some(f);
      assert o in fs.log || o == op;
    }
  }

  // ---- exactly which names survive every crash ------------------------------

  /** On disk, and no outstanding operation takes it away. */
  ghost predicate Survives(fs: Fs, n: string) {
    n in fs.disk && forall op :: op in fs.log && op.Touches(n) ==> op.Leaves(n).Some?
  }

  lemma {:induction false} KeptByAll(dir: Entries, ops: seq<DirOp>, n: string)
    requires n in dir && forall op :: op in ops && op.Touches(n) ==> op.Leaves(n).Some?
    ensures n in ApplyAll(dir, ops)
  {
    if ops != [] {
      KeptByAll(dir, ops[..|ops| - 1], n);
      assert ops[|ops| - 1] in ops;
    }
  }

  lemma {:induction false} SelectNothing(ops: seq<DirOp>)
    ensures Select(ops, seq(|ops|, i => false)) == []
  {
    if ops != [] {
      var n := |ops| - 1;
      SelectNothing(ops[..n]);
      assert seq(|ops|, i => false)[..n] == seq(n, i => false);
    }
  }

  lemma {:induction false} SelectOne(ops: seq<DirOp>, k: nat)
    requires k < |ops|
    ensures Select(ops, seq(|ops|, i => i == k)) == [ops[k]]
  {
    var n := |ops| - 1;
    var keep := seq(|ops|, i => i == k);
    if k == n {
      assert keep[..n] == seq(n, i => false);
      SelectNothing(ops[..n]);
    } else {
      assert keep[..n] == seq(n, i => i == k);
      SelectOne(ops[..n], k);
    }
  }

  /** `Survives` is exact: it holds if and only if no crash can lose the name. */
  lemma SurvivesEveryCrash(fs: Fs, n: string)
    ensures Survives(fs, n) <==> forall after :: CrashImage(fs, after) ==> n in after.disk
    ensures Survives(fs, n) ==> n in View(fs)
  {
    if Survives(fs, n) {
      KeptByAll(fs.disk, fs.log, n);
      forall after | CrashImage(fs, after)
        ensures n in after.disk
      {
        var keep: seq<bool> :| |keep| == |fs.log| && Damaged(ApplyAll(fs.disk, Select(fs.log, keep)), after.disk);
        KeptByAll(fs.disk, Select(fs.log, keep), n);
      }
    } else {
      LosingCrash(fs, n);
    }
  }

  lemma LosingCrash(fs: Fs, n: string)
    requires !Survives(fs, n)
    ensures exists after :: CrashImage(fs, after) && n !in after.disk
  {
    if n !in fs.disk {
      SelectNothing(fs.log);
      var keep := seq(|fs.log|, i => false);
      var after := Fs(fs.disk, []);
      assert Damaged(ApplyAll(fs.disk, Select(fs.log, keep)), after.disk);
      assert CrashImage(fs, after);
    } else {
      var op :| op in fs.log && op.Touches(n) && op.Leaves(n).None?;
      var k :| 0 <= k < |fs.log| && fs.log[k] == op;
      SelectOne(fs.log, k);
      var keep := seq(|fs.log|, i => i == k);
      assert ApplyAll(fs.disk, [op]) == Apply(fs.disk, op);
      var after := Fs(Apply(fs.disk, op), []);
      assert Damaged(ApplyAll(fs.disk, Select(fs.log, keep)), after.disk);
      assert CrashImage(fs, after);
    }
  }

  // ---- exactly which names no crash can bring back ----------------------------

  /** Neither the disk nor an outstanding operation has a file under the name. */
  ghost predicate Absent(fs: Fs, n: string) {
    forall f :: !Possible(fs, n, f)
  }

  /** `Absent` is exact: it holds if and only if the name is missing after every crash. */
  lemma AbsentAfterEveryCrash(fs: Fs, n: string)
    ensures Absent(fs, n) <==> forall after :: CrashImage(fs, after) ==> n !in after.disk
    ensures n in View(fs) ==> !Absent(fs, n)
  {
    if Absent(fs, n) {
      forall after | CrashImage(fs, after)
        ensures n !in after.disk
      {
        CrashEntry(fs, after, n);
      }
    } else {
      RevivingCrash(fs, n);
    }
    EntryOrigin(fs.disk, fs.log, n);
    if n in View(fs) {
      assert Possible(fs, n, View(fs)[n]);
    }
  }

  lemma RevivingCrash(fs: Fs, n: string)
    requires !Absent(fs, n)
    ensures exists after :: CrashImage(fs, after) && n in after.disk
  {
    if n in fs.disk {
      SelectNothing(fs.log);
      var keep := seq(|fs.log|, i => false);
      var after := Fs(fs.disk, []);
      assert Damaged(ApplyAll(fs.disk, Select(fs.log, keep)), after.disk);
      assert CrashImage(fs, after);
    } else {
      var f :| Possible(fs, n, f);
      var op :| op in fs.log && op.Leaves(n) == Some(f);
      var k :| 0 <= k < |fs.log| && fs.log[k] == op;
      SelectOne(fs.log, k);
      var keep := seq(|fs.log|, i => i == k);
      assert ApplyAll(fs.disk, [op]) == Apply(fs.disk, op);
      var after := Fs(Apply(fs.disk, op), []);
      assert Damaged(ApplyAll(fs.disk, Select(fs.log, keep)), after.disk);
      assert CrashImage(fs, after);
    }
  }

  // ---- exactly which contents survive -------------------------------------------

  /** No crash can spoil the contents of a file whose entry is settled if and only if the file was synced. */
  lemma ContentSurvivesIff(fs: Fs, n: string)
    requires n in View(fs) && Settled(fs, n) && View(fs)[n].content.Whole?
    ensures View(fs)[n].synced <==> forall after :: CrashImage(fs, after) ==> n in after.disk && after.disk[n] == View(fs)[n]
  {
    EntryOrigin(fs.disk, fs.log, n);
    if View(fs)[n].synced {
      forall after | CrashImage(fs, after)
        ensures n in after.disk && after.disk[n] == View(fs)[n]
      {
        CrashEntry(fs, after, n);
      }
    } else {
      SelectNothing(fs.log);
      var keep := seq(|fs.log|, i => false);
      var after := Fs(fs.disk[n := File(Torn, false)], []);
      assert Damaged(ApplyAll(fs.disk, Select(fs.log, keep)), after.disk);
      assert CrashImage(fs, after);
    }
  }
}
