/** Why a request to a worker ends as it does, and what the message store then records of the send. */
module HubOutcomes {
  import opened Prelude
  import Correlation
  import opened Tables
  import opened MessageOps
  import opened DbRuns
  import opened Coupling
  import Sends

  type CallId = Correlation.CallId
  type Outcome = Correlation.Outcome
  type HubState = Correlation.State
  type HubStep = Correlation.Step

  // ---- how a call ends -------------------------------------------------------------

  /** The outcome a call has chosen, if it has. */
  function Ending(s: HubState, id: CallId): Option<Outcome> {
    if id in s.calls && (s.calls[id].phase.Leaving? || s.calls[id].phase.Returned?)
    then Some(s.calls[id].phase.outcome) else None
  }

  /** At some point of the run the call looked for a connection of its account and found none. */
  ghost predicate LooksInVain(s: HubState, steps: seq<HubStep>, id: CallId)
    decreases |steps|
  {
    && steps != [] && Correlation.Enabled(s, steps[0])
    && ((steps[0].Lookup? && steps[0].id == id && steps[0].account !in s.workers)
        || LooksInVain(Correlation.After(s, steps[0]), steps[1..], id))
  }

  /** A call that has chosen its outcome keeps it, and takes none of the ways out again. */
  lemma {:induction false} EndingStays(s: HubState, steps: seq<HubStep>, t: HubState, id: CallId)
    requires Correlation.Leads(s, steps, t) && Ending(s, id).Some?
    ensures Ending(t, id) == Ending(s, id) && t.calls[id].conn == s.calls[id].conn
    ensures Correlation.Timeout(id) !in steps && Correlation.WriteFails(id) !in steps
    ensures Correlation.SeeClosed(id) !in steps && Correlation.Receive(id) !in steps && !LooksInVain(s, steps, id)
    decreases |steps|
  {
    if steps != [] {
      EndingStays(Correlation.After(s, steps[0]), steps[1..], t, id);
      assert steps == [steps[0]] + steps[1..];
    }
  }

  /** In every run a call ends with TimedOut exactly if its own context ended while it waited, with a response
      exactly if it took one, and with Offline exactly if it found no connection, its write failed, or it saw its
      connection closed. */
  lemma {:induction false} WhyEnded(s: HubState, steps: seq<HubStep>, t: HubState, id: CallId)
    requires Correlation.Leads(s, steps, t) && Ending(s, id).None?
    ensures Ending(t, id) == Some(Correlation.TimedOut) <==> Correlation.Timeout(id) in steps
    ensures Ending(t, id) == Some(Correlation.Offline) <==>
              Correlation.WriteFails(id) in steps || Correlation.SeeClosed(id) in steps || LooksInVain(s, steps, id)
    ensures Ending(t, id).Some? && Ending(t, id).value.Got? <==> Correlation.Receive(id) in steps
    decreases |steps|
  {
    if steps != [] {
      var next := Correlation.After(s, steps[0]);
      assert steps == [steps[0]] + steps[1..];
      if Ending(next, id).None? {
        WhyEnded(next, steps[1..], t, id);
      } else {
        EndingStays(next, steps[1..], t, id);
      }
    }
  }

  /** A call that saw its connection closed waited on one whose serving had ended. */
  lemma {:induction false} ClosedBefore(s: HubState, steps: seq<HubStep>, t: HubState, id: CallId)
    requires Correlation.Inv(s) && Correlation.Leads(s, steps, t) && Correlation.SeeClosed(id) in steps
    ensures id in t.calls && t.calls[id].conn in t.conns && t.conns[t.calls[id].conn].phase.Finished?
    decreases |steps|
  {
    Correlation.StepKeeps(s, steps[0]);
    var next := Correlation.After(s, steps[0]);
    assert steps == [steps[0]] + steps[1..];
    if steps[0] == Correlation.SeeClosed(id) {
      EndingStays(next, steps[1..], t, id);
      FinishedStays(next, steps[1..], t, s.calls[id].conn);
    } else {
      ClosedBefore(next, steps[1..], t, id);
    }
  }

  lemma {:induction false} FinishedStays(s: HubState, steps: seq<HubStep>, t: HubState, conn: Correlation.ConnId)
    requires Correlation.Leads(s, steps, t) && conn in s.conns && s.conns[conn].phase.Finished?
    ensures conn in t.conns && t.conns[conn].phase.Finished?
    decreases |steps|
  {
    if steps != [] {
      FinishedStays(Correlation.After(s, steps[0]), steps[1..], t, conn);
    }
  }

  // ---- whom a call reaches ------------------------------------------------------------

  predicate Serves(s: HubState, conn: Correlation.ConnId, account: string) {
    conn in s.conns && s.conns[conn].account == account && s.conns[conn].phase.Serving?
  }

  /** In every reachable state a new connection is taken into service exactly if none serves its account, and a
      call finds a connection exactly if one serves the account it asks for, and then that one. */
  lemma ServedIff(steps: seq<HubStep>, s: HubState, conn: Correlation.ConnId, id: CallId, account: string)
    requires Correlation.Leads(Correlation.INITIAL, steps, s)
    ensures conn !in s.conns ==>
              (Serves(Correlation.After(s, Correlation.Register(conn, account)), conn, account) <==>
               forall other :: !Serves(s, other, account))
    ensures id !in s.calls ==>
              var t := Correlation.After(s, Correlation.Lookup(id, account));
              && id in t.calls
              && (t.calls[id].phase.Attached? <==> exists other :: Serves(s, other, account))
              && (t.calls[id].phase.Attached? ==> Serves(s, t.calls[id].conn, account))
              && (!t.calls[id].phase.Attached? ==> Ending(t, id) == Some(Correlation.Offline))
  {
    Correlation.RunKeeps(Correlation.INITIAL, steps, s);
    assert forall c :: Serves(s, c, account) <==> Correlation.IsServing(s, c, account);
  }

  /** A connection and a call keep whom they were made for. */
  lemma {:induction false} PartnersStay(s: HubState, steps: seq<HubStep>, t: HubState)
    requires Correlation.Leads(s, steps, t)
    ensures forall c :: c in s.conns ==> c in t.conns && t.conns[c].account == s.conns[c].account
    ensures forall id :: id in s.calls ==> id in t.calls && t.calls[id].conn == s.calls[id].conn
    decreases |steps|
  {
    if steps != [] {
      PartnersStay(Correlation.After(s, steps[0]), steps[1..], t);
    }
  }

  /** In every run a call that asked for an account is on a connection of that account ever after, unless it
      found none. */
  lemma ReachesItsAccount(first: seq<HubStep>, s: HubState, id: CallId, account: string, rest: seq<HubStep>, t: HubState)
    requires Correlation.Leads(Correlation.INITIAL, first, s) && id !in s.calls
    requires Correlation.Leads(Correlation.After(s, Correlation.Lookup(id, account)), rest, t)
    ensures id in t.calls
    ensures (exists other :: Serves(s, other, account)) ==>
              t.calls[id].conn in t.conns && t.conns[t.calls[id].conn].account == account
  {
    ServedIff(first, s, 0, id, account);
    PartnersStay(Correlation.After(s, Correlation.Lookup(id, account)), rest, t);
  }

  // ---- what the handler makes of it ---------------------------------------------------

  /** The payload of a response to `send`: malformed, or the worker's id and time, the time perhaps zero. */
  datatype Payload = Malformed | SendResult(provider: string, sentAt: Option<Instant>)

  datatype Response = Response(error: Option<string>, status: string, payload: Payload)

  /** The error Hub.Request returns, if any. */
  function HubError(o: Outcome, responses: CallId -> Response): Option<Sends.RequestError> {
    match o
    case Offline => Some(Sends.WorkerOffline)
    case TimedOut => Some(Sends.ContextDone)
    case Got(k) =>
      if responses(k).error.Some? then Some(Sends.WorkerError(responses(k).error.value))
      else if responses(k).status != "ok" then Some(Sends.WorkerError("invalid_worker_response"))
      else None
  }

  /** What the handler records. */
  function ReplyTo(o: Outcome, responses: CallId -> Response): Sends.Reply {
    var error := HubError(o, responses);
    if error.Some? then Sends.Rejected(Sends.WorkerErrorCode(error.value))
    else
      var payload := responses(o.k).payload;
      if payload.Malformed? || payload.provider == "" || payload.sentAt.None? then Sends.Rejected("invalid_worker_response")
      else Sends.Delivered(payload.provider, payload.sentAt.value)
  }

  /** The command status a reply leads to. */
  function Recorded(r: Sends.Reply): CommandStatus {
    match r
    case Delivered(_, _) => Completed
    case Rejected(code) => FailedCommand(code)
  }

  predicate SaysUnknown(r: Response) { r.error == Some("worker_timeout") || r.error == Some("signal_send_unknown") }

  predicate SaysSent(r: Response) {
    r.error == None && r.status == "ok" && r.payload.SendResult? && r.payload.provider != "" && r.payload.sentAt != None
  }

  /** `k` is the first response read for the call on its connection since it was registered. */
  predicate FirstFor(s: HubState, id: CallId, k: nat)
    requires id in s.calls
  {
    var c := s.calls[id];
    && c.since <= k < |s.log| && s.log[k] == Correlation.Read(c.conn, id)
    && forall j :: c.since <= j < k ==> s.log[j] != Correlation.Read(c.conn, id)
  }

  /** In every run of the hub: a send whose request has returned is recorded unknown exactly if its own context
      ended, or it took a response in which the worker says so itself; completed exactly if the response it
      took says what was sent and when; and failed otherwise, so also when the connection closed under it. */
  lemma RecordedIff(steps: seq<HubStep>, s: HubState, id: CallId, responses: CallId -> Response)
    requires Correlation.Leads(Correlation.INITIAL, steps, s)
    requires id in s.calls && s.calls[id].phase.Returned?
    ensures var o := s.calls[id].phase.outcome;
            var status := Recorded(ReplyTo(o, responses));
            && (o.Got? <==> Correlation.Receive(id) in steps) && (o.Got? ==> FirstFor(s, id, o.k))
            && (status == Unknown <==> Correlation.Timeout(id) in steps || (o.Got? && SaysUnknown(responses(o.k))))
            && (status == Completed <==> o.Got? && SaysSent(responses(o.k)))
            && (status == Completed ==> var p := responses(o.k).payload; ReplyTo(o, responses) == Sends.Delivered(p.provider, p.sentAt.value))
            && (status == Failed <==>
                  || Correlation.WriteFails(id) in steps || Correlation.SeeClosed(id) in steps
                  || LooksInVain(Correlation.INITIAL, steps, id)
                  || (o.Got? && !SaysSent(responses(o.k)) && !SaysUnknown(responses(o.k))))
    ensures Correlation.SeeClosed(id) in steps ==>
              s.calls[id].conn in s.conns && s.conns[s.calls[id].conn].phase.Finished?
  {
    WhyEnded(Correlation.INITIAL, steps, s, id);
    if s.calls[id].phase.outcome.Got? {
      Correlation.OwnFirstResponse(steps, s, id);
    }
    if Correlation.SeeClosed(id) in steps {
      ClosedBefore(Correlation.INITIAL, steps, s, id);
    }
  }

  // ---- what the tables say ------------------------------------------------------------

  /** The reply a step gives to the request for a command. */
  ghost function Heard(s: Sends.State, step: Sends.Step): set<(string, Sends.Reply)>
    requires Sends.Enabled(s, step)
  {
    match step
    case FindOffline(h) => {(s.handlers[h].phase.command, Sends.Rejected("worker_offline"))}
    case Receive(h, reply) => {(s.handlers[h].phase.command, reply)}
    case _ => {}
  }

  /** The replies given in a run. */
  ghost function HeardOver(s: Sends.State, steps: seq<Sends.Step>): set<(string, Sends.Reply)>
    decreases |steps|
  {
    if steps == [] || !Sends.Enabled(s, steps[0]) then {}
    else Heard(s, steps[0]) + HeardOver(Sends.After(s, steps[0]), steps[1..])
  }

  /** The status is open, or a reply explains it. */
  ghost predicate Explained(c: string, status: CommandStatus, heard: set<(string, Sends.Reply)>) {
    match status
    case Completed => exists p, at :: (c, Sends.Delivered(p, at)) in heard
    case Failed => exists code :: (c, Sends.Rejected(code)) in heard && code != "worker_timeout" && code != "signal_send_unknown"
    case Unknown => exists code :: (c, Sends.Rejected(code)) in heard && (code == "worker_timeout" || code == "signal_send_unknown")
    case _ => true
  }

  ghost predicate HeardHolds(s: Sends.State, heard: set<(string, Sends.Reply)>) {
    && (forall c :: c in s.db.commands ==> Explained(c, s.db.commands[c].status, heard))
    && (forall h :: h in s.handlers && s.handlers[h].phase.Replied? ==>
          (s.handlers[h].phase.command, s.handlers[h].phase.reply) in heard)
  }

  /** Commands are as before, or open, but for one that a reply settled. */
  ghost predicate Settles(before: map<string, Command>, after: map<string, Command>, heard: set<(string, Sends.Reply)>) {
    forall c :: c in after ==>
      || (c in before && after[c].status == before[c].status) || after[c].status == Pending || after[c].status == Dispatched
      || (exists reply :: (c, reply) in heard && after[c].status == Recorded(reply))
  }

  lemma SettlesExplained(before: map<string, Command>, after: map<string, Command>, heard: set<(string, Sends.Reply)>)
    requires Settles(before, after, heard)
    requires forall c :: c in before ==> Explained(c, before[c].status, heard)
    ensures forall c :: c in after ==> Explained(c, after[c].status, heard)
  {
    forall c | c in after
      ensures Explained(c, after[c].status, heard)
    {
      if reply :| (c, reply) in heard && after[c].status == Recorded(reply) {
        match reply {
          case Delivered(p, at) =>
          case Rejected(code) =>
        }
      }
    }
  }

  lemma OutcomeRecords(db: Db, x: Sends.Handler, outbox: nat)
    requires x.phase.Replied?
    ensures var r := Sends.Outcome(db, x, outbox);
            r.Finished? ==>
              && x.phase.command in r.db.commands && r.db.commands[x.phase.command].status == Recorded(x.phase.reply)
              && (forall c :: c in r.db.commands && c != x.phase.command ==>
                    c in db.commands && r.db.commands[c].status == db.commands[c].status)
  {
    match x.phase.reply {
      case Delivered(provider, sentAt) => CompleteRecords(db, x.user, x.phase.command, provider, sentAt, outbox);
      case Rejected(code) =>
    }
  }

  lemma CompleteRecords(db: Db, user: string, command: string, provider: string, sentAt: Instant, outbox: nat)
    ensures var r := CompleteSend(db, user, command, provider, sentAt, outbox);
            r.Finished? ==>
              && command in r.db.commands && r.db.commands[command].status == Completed
              && (forall c :: c in r.db.commands && c != command ==>
                    c in db.commands && r.db.commands[c].status == db.commands[c].status)
  {
  }

  lemma BackgroundStatuses(db: Db, op: DbOp)
    requires IsBackground(op)
    ensures forall c :: c in Exec(db, op).commands ==>
              c in db.commands && Exec(db, op).commands[c].status == db.commands[c].status
  {
  }

  lemma StepSettles(s: Sends.State, step: Sends.Step, heard: set<(string, Sends.Reply)>)
    requires Sends.Enabled(s, step) && HeardHolds(s, heard)
    ensures Settles(s.db.commands, Sends.After(s, step).db.commands, heard + Heard(s, step))
  {
    match step {
      case Record(h, outbox) => OutcomeRecords(s.db, s.handlers[h], outbox);
      case Background(op) => BackgroundStatuses(s.db, op);
      case _ =>
    }
  }

  lemma StepHeard(s: Sends.State, step: Sends.Step, heard: set<(string, Sends.Reply)>)
    requires Sends.Enabled(s, step) && HeardHolds(s, heard)
    ensures HeardHolds(Sends.After(s, step), heard + Heard(s, step))
  {
    StepSettles(s, step, heard);
    SettlesExplained(s.db.commands, Sends.After(s, step).db.commands, heard + Heard(s, step));
  }

  lemma {:induction false} RunHeard(s: Sends.State, steps: seq<Sends.Step>, t: Sends.State, heard: set<(string, Sends.Reply)>)
    requires Sends.Leads(s, steps, t) && HeardHolds(s, heard)
    ensures HeardHolds(t, heard + HeardOver(s, steps))
    decreases |steps|
  {
    if steps == [] {
      assert heard + HeardOver(s, steps) == heard;
    } else {
      var next := Sends.After(s, steps[0]);
      StepHeard(s, steps[0], heard);
      RunHeard(next, steps[1..], t, heard + Heard(s, steps[0]));
      assert heard + HeardOver(s, steps) == heard + Heard(s, steps[0]) + HeardOver(next, steps[1..]);
    }
  }

  /** In every run of the handlers, a command is recorded completed, failed or unknown only after a reply to its
      own request that says so; a send that found no worker counts as failed. */
  lemma SettledByReply(start: Sends.State, steps: seq<Sends.Step>, s: Sends.State, c: string)
    requires Sends.Initial(start) && Sends.Leads(start, steps, s) && c in s.db.commands
    ensures var heard := HeardOver(start, steps);
            match s.db.commands[c].status
            case Completed => exists p, at :: (c, Sends.Delivered(p, at)) in heard
            case Failed =>
              exists code :: (c, Sends.Rejected(code)) in heard && code != "worker_timeout" && code != "signal_send_unknown"
            case Unknown =>
              exists code :: (c, Sends.Rejected(code)) in heard && (code == "worker_timeout" || code == "signal_send_unknown")
            case _ => true
  {
    RunHeard(start, steps, s, {});
    assert {} + HeardOver(start, steps) == HeardOver(start, steps);
    assert Explained(c, s.db.commands[c].status, HeardOver(start, steps));
  }
}
