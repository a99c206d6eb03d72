/** Whole runs of the worker's real directory next to the delivery protocol, from an empty directory on. */
module SpoolRuns {
  import opened Prelude
  import opened Protocol
  import opened SpoolNames
  import opened Directory
  import opened EventSpool
  import opened SpoolRefinement
  import D = Delivery

  datatype State = State(fs: Fs, wire: D.State)

  const INITIAL: State := State(Fs(map[], []), D.INITIAL)

  /** How far a call of Append gets. */
  datatype Stage = Aside | Renamed | Synced

  datatype Step =
    | Append(event: Envelope, stage: Stage)
    | Acknowledge(synced: bool) // the next acknowledgement, with or without its directory sync
    | Crash(after: Fs)
    | Other(step: D.Step)       // anything that leaves the spool alone

  /** What Append makes sure of for a generated name. */
  ghost predicate NewName(fs: Fs, e: Envelope) {
    && e.id != "" && Storable(e.id)
    && FileName(e.id) !in View(fs) && SequenceOf(FileName(e.id)).Some?
    && forall n :: n in View(fs) && SequenceOf(n).Some? ==> Less(n, FileName(e.id))
  }

  lemma GeneratedNameIsNew(fs: Fs, names: seq<string>, sequence: nat, suffix: string, event: Envelope)
    requires forall n :: n in names <==> n in View(fs)
    requires 1 <= sequence <= MAX_UINT64 && OneAboveMaximum(names, SequenceOf, sequence)
    requires IsHex(suffix)
    ensures NewName(fs, event.(id := EventId(sequence, suffix)))
  {
    FreshName(View(fs), names, sequence, suffix);
    GeneratedIdIsStorable(sequence, suffix);
  }

  predicate SparesSpool(step: D.Step) {
    step.Connect? || step.StartBatch? || step.SendNext? || step.WorkerClose? || step.HubTake? || step.HubAck? || step.HubClose?
  }

  /** Only the ids of all events ever appended are taken to differ; the rest is where the parties stand. */
  ghost predicate Enabled(s: State, step: Step) {
    match step
    case Append(e, _) => NewName(s.fs, e) && e.id !in Ids(s.wire.hist)
    case Acknowledge(synced) => D.Enabled(s.wire, D.ReceiveAck(synced))
    case Crash(after) => CrashImage(s.fs, after)
    case Other(inner) => SparesSpool(inner) && D.Enabled(s.wire, inner)
  }

  /** What the step does to the directory. */
  function Directed(s: State, step: Step): Fs
    requires step.Acknowledge? ==> s.wire.down != []
  {
    match step
    case Append(e, stage) =>
      CommitPath(s.fs, FileName(e.id), e)[Index(stage)]
    case Acknowledge(synced) =>
      Acked(s.fs, s.wire.down[0], synced)
    case Crash(after) => after
    case Other(_) => s.fs
  }

  /** The protocol's step it is, if any. */
  ghost function WireStep(s: State, step: Step): Option<D.Step> {
    match step
    case Append(e, stage) =>
      (match stage
       case Aside => None
       case Renamed => Some(D.AppendInterrupted(e, Place(s.wire.store, FileName(e.id))))
       case Synced => Some(D.AppendDone(e)))
    case Acknowledge(synced) => Some(D.ReceiveAck(synced))
    case Crash(after) => Some(D.WorkerCrash(Present(after, s.wire.store)))
    case Other(inner) => Some(inner)
  }

  ghost predicate Linked(s: State) { Rel(s.fs, s.wire.store) && D.Inv(s.wire) }

  /** The protocol can take its step. */
  lemma Follows(s: State, step: Step)
    requires Linked(s) && Enabled(s, step)
    ensures WireStep(s, step).Some? ==> D.Enabled(s.wire, WireStep(s, step).value)
  {
    if step.Append? && step.stage == Renamed {
      FreshInStore(s, step.event);
      AppendRefines(s.fs, s.wire.store, step.event);
    }
  }

  lemma FreshInStore(s: State, e: Envelope)
    requires D.Shape(s.wire) && e.id !in Ids(s.wire.hist)
    ensures e.id !in D.StoreIds(s.wire.store)
  {
  }

  /** The protocol's step is taken if it can be; by Follows, in a linked state it always can. */
  ghost function After(s: State, step: Step): State
    requires Enabled(s, step)
  {
    var d := WireStep(s, step);
    State(Directed(s, step), if d.Some? && D.Enabled(s.wire, d.value) then D.After(s.wire, d.value) else s.wire)
  }

  ghost predicate Leads(s: State, steps: seq<Step>, t: State)
    decreases |steps|
  {
    if steps == [] then s == t else Enabled(s, steps[0]) && Leads(After(s, steps[0]), steps[1..], t)
  }

  // ---- the directory keeps up with the protocol ----------------------------------------

  function Index(stage: Stage): nat { match stage case Aside => 0 case Renamed => 1 case Synced => 2 }

  ghost function AppendedStore(store: seq<D.Entry>, e: Envelope, stage: Stage): seq<D.Entry> {
    match stage
    case Aside => store
    case Renamed => Inserted(store, e, Place(store, FileName(e.id)))
    case Synced => D.Flush(store) + [D.Entry(e, D.Kept)]
  }

  lemma AppendedRelated(fs: Fs, store: seq<D.Entry>, e: Envelope, stage: Stage)
    requires Rel(fs, store) && NewName(fs, e) && e.id !in D.StoreIds(store)
    ensures Rel(CommitPath(fs, FileName(e.id), e)[Index(stage)], AppendedStore(store, e, stage))
  {
    AppendRefines(fs, store, e);
  }

  lemma AppendStore(s: State, e: Envelope, stage: Stage)
    requires Enabled(s, Append(e, stage))
    requires var d := WireStep(s, Append(e, stage)); d.Some? ==> D.Enabled(s.wire, d.value)
    ensures After(s, Append(e, stage)).wire.store == AppendedStore(s.wire.store, e, stage)
  {
  }

  lemma AppendKeeps(s: State, e: Envelope, stage: Stage)
    requires Linked(s) && Enabled(s, Append(e, stage))
    ensures Rel(Directed(s, Append(e, stage)), AppendedStore(s.wire.store, e, stage))
  {
    FreshInStore(s, e);
    AppendedRelated(s.fs, s.wire.store, e, stage);
  }

  /** The acknowledged file is there exactly if the protocol sees the event. */
  lemma VisibleIffThere(fs: Fs, store: seq<D.Entry>, id: string)
    requires Rel(fs, store)
    ensures FileName(id) in View(fs) <==> id in Ids(D.Visible(store))
  {
    PendingRefines(fs, store);
    ViewEntries(fs, store);
    D.VisibleMember(store);
    NameKinds(id);
    if FileName(id) in View(fs) {
      var x :| x in store && Path(x) == FileName(id) && !x.presence.Doomed?;
      FileNameInjective(x.event.id, id);
      assert x.event in D.Visible(store);
    }
    if id in Ids(D.Visible(store)) {
      var e :| e in D.Visible(store) && e.id == id;
      var x :| x in store && x.event == e && !x.presence.Doomed?;
    }
  }

  function Acked(fs: Fs, id: string, synced: bool): Fs {
    if FileName(id) !in View(fs) then fs else RemovePath(fs, id)[if synced then 1 else 0]
  }

  ghost function AckedStore(store: seq<D.Entry>, id: string, synced: bool): seq<D.Entry> {
    if id !in Ids(D.Visible(store)) then store
    else if synced then D.Rewrite(store, D.Removed(store) + {id}, {}, true)
    else D.Rewrite(store, {}, {id}, false)
  }

  lemma AckedRelated(fs: Fs, store: seq<D.Entry>, id: string, synced: bool)
    requires Rel(fs, store)
    ensures Rel(Acked(fs, id, synced), AckedStore(store, id, synced))
  {
    VisibleIffThere(fs, store, id);
    if FileName(id) in View(fs) {
      AckRefines(fs, store, id);
    }
  }

  lemma AcknowledgeStore(s: D.State, synced: bool)
    requires D.Enabled(s, D.ReceiveAck(synced))
    ensures D.After(s, D.ReceiveAck(synced)).store == AckedStore(s.store, s.down[0], synced)
  {
  }

  lemma OtherKeepsStore(s: D.State, step: D.Step)
    requires SparesSpool(step) && D.Enabled(s, step)
    ensures D.After(s, step).store == s.store
  {
  }

  lemma {:induction false} StepKeeps(s: State, step: Step)
    requires Linked(s) && Enabled(s, step)
    ensures Linked(After(s, step))
  {
    Follows(s, step);
    var d := WireStep(s, step);
    if d.Some? {
      D.StepKeeps(s.wire, d.value);
    }
    match step {
      case Append(e, stage) =>
        AppendKeeps(s, e, stage);
        AppendStore(s, e, stage);
      case Acknowledge(synced) =>
        AckedRelated(s.fs, s.wire.store, s.wire.down[0], synced);
        AcknowledgeStore(s.wire, synced);
      case Crash(after) => CrashRefines(s.fs, s.wire.store, after);
      case Other(inner) => OtherKeepsStore(s.wire, inner);
    }
  }

  /** Every run over the real directory is a run of the protocol. */
  lemma {:induction false} RunsProject(s: State, steps: seq<Step>, t: State) returns (wire: seq<D.Step>)
    requires Linked(s) && Leads(s, steps, t)
    ensures D.Leads(s.wire, wire, t.wire) && Linked(t)
    decreases |steps|
  {
    wire := [];
    if steps != [] {
      Follows(s, steps[0]);
      StepKeeps(s, steps[0]);
      wire := RunsProject(After(s, steps[0]), steps[1..], t);
      var d := WireStep(s, steps[0]);
      if d.Some? {
        assert ([d.value] + wire)[1..] == wire;
        wire := [d.value] + wire;
      }
    }
  }

  /** The empty directory and the initial protocol state are linked. */
  lemma InitiallyLinked()
    ensures Linked(INITIAL)
  {
    EmptyRelated();
    D.InitialHolds();
  }

  /** A confirmed event the hub has not handled: its file survives every crash and is found afterwards. */
  lemma ConfirmedSurvives(s: State, e: Envelope)
    requires Linked(s) && e in s.wire.hist && e.id in s.wire.confirmed
    requires !(e in s.wire.log && (e.payload.MessagePayload? ==> e.payload.message in s.wire.ingested))
    ensures Safe(s.fs, e.id)
    ensures forall after :: CrashImage(s.fs, after) ==> Readable(View(after)) && e.id in Ids(Queue(View(after)))
  {
    D.DurableOrHandled(s.wire, e);
    var x :| x in s.wire.store && x.event == e && x.presence == D.Kept;
    assert Matches(s.fs, x);
    forall after | CrashImage(s.fs, after)
      ensures Readable(View(after)) && e.id in Ids(Queue(View(after)))
    {
      CrashSafety(s.fs, after);
      SurvivesEveryCrash(s.fs, FileName(e.id));
      QueueHolds(View(after), e.id);
    }
  }

  /** No loss on the real directory: in every run from an empty one, with appends and acknowledgements
      stopped anywhere and every crash the file system allows, Pending returns exactly the events the
      protocol sees; and an event whose append was confirmed has been handled, and a message committed, or
      its file survives whatever crash comes next and Pending finds it afterwards. */
  lemma DirectoryLosesNothing(steps: seq<Step>, s: State, e: Envelope)
    requires Leads(INITIAL, steps, s)
    requires e in s.wire.hist && e.id in s.wire.confirmed
    ensures Readable(View(s.fs)) && Queue(View(s.fs)) == D.Visible(s.wire.store)
    ensures (e in s.wire.log && (e.payload.MessagePayload? ==> e.payload.message in s.wire.ingested))
         || (Safe(s.fs, e.id)
             && forall after :: CrashImage(s.fs, after) ==> Readable(View(after)) && e.id in Ids(Queue(View(after))))
  {
    InitiallyLinked();
    var wire := RunsProject(INITIAL, steps, s);
    PendingRefines(s.fs, s.wire.store);
    D.NoLoss(wire, s.wire, e);
    if !(e in s.wire.log && (e.payload.MessagePayload? ==> e.payload.message in s.wire.ingested)) {
      ConfirmedSurvives(s, e);
    }
  }
}
