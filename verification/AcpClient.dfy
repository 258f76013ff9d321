/**
  The ACP transport: JSON-RPC calls over a child's stdio, with request/response correlation,
  a FIFO write queue under backpressure, and restarts that reuse request ids.
 */
module AcpClient {
  import opened Wrappers

  /** A call's promise: open, or settled once by a response, a timeout, or the loss of the transport. */
  datatype Status = Pending | Answered(child: nat, id: nat, ok: bool) | TimedOut | Dropped

  datatype Call = Call(child: nat, id: nat, status: Status)

  /** An entry of the pending map; `ticket` names the promise it settles. */
  datatype Entry = Entry(ticket: nat, timed: bool)

  /** An armed timer's closure: the id it deletes and the promise it rejects. */
  datatype Timer = Timer(id: nat, ticket: nat)

  /** What `stdin.write` does with a line. */
  datatype WriteOutcome = Accepted | Full | Threw

  /** A parsed inbound record; `id` is None when absent or null, and its number is None when not a call number. */
  datatype Record =
    | NotJson
    | NotObject
    | Fields(id: Option<Option<nat>>, rpcMethod: Option<string>, errorIsObject: bool)

  datatype Kind = PeerRequest | Response | Notification | ProtocolError

  /**
    The client's fields, and the history they are judged by: every call ever issued, every
    line ever queued (with the child it was queued for), and every line that reached a stdin.
    Lines are numbered in queueing order; `base` is the first one since the last transport reset.
   */
  datatype Client = Client(
    child: Option<nat>, spawned: nat, stopping: bool, nextId: nat,
    pending: map<nat, Entry>, timers: set<Timer>, attached: set<nat>, drainOn: Option<nat>, queue: seq<nat>,
    calls: seq<Call>, lines: seq<Option<nat>>, base: nat, written: seq<nat>, dropped: set<nat>, lateWrite: bool,
    wire: seq<(nat, nat)>)

  datatype Event =
    | Start(outs: seq<WriteOutcome>)
    | Request(timed: bool, outs: seq<WriteOutcome>)
    | Notify(outs: seq<WriteOutcome>)
    | Respond(outs: seq<WriteOutcome>)
    | Inbound(from: nat, record: Record)
    | TimerFires(timer: Timer)
    | Drain(from: nat, outs: seq<WriteOutcome>)
    | ChildError(from: nat)
    | Close(from: nat)
    | Stop
    | Terminated

  function New(): (s: Client)
  {
    Client(None, 0, false, 1, map[], {}, {}, None, [], [], [], 0, [], {}, false, [])
  }

  // ---- The handlers, as functions of the state ----

  /** A promise settles once; later settlements are ignored. */
  function Settled(call: Call, status: Status): (r: Call)
  {
    if call.status.Pending? then call.(status := status) else call
  }

  predicate Holds(pending: map<nat, Entry>, ticket: nat)
  {
    exists id :: id in pending && pending[id].ticket == ticket
  }

  function DropCalls(calls: seq<Call>, pending: map<nat, Entry>): (r: seq<Call>)
  {
    seq(|calls|, t requires 0 <= t < |calls| => if Holds(pending, t) then Settled(calls[t], Dropped) else calls[t])
  }

  function TimersOf(pending: map<nat, Entry>): (r: set<Timer>)
  {
    set id | id in pending && pending[id].timed :: Timer(id, pending[id].ticket)
  }

  function RejectPending(s: Client): (r: Client)
  {
    s.(calls := DropCalls(s.calls, s.pending), timers := s.timers - TimersOf(s.pending), pending := map[])
  }

  function ResetTransport(s: Client): (r: Client)
  {
    RejectPending(s).(queue := [], nextId := 1, drainOn := None, base := |s.lines|, written := [],
                      dropped := {}, lateWrite := false)
  }

  function Ids(queue: seq<nat>): (r: set<nat>)
  {
    set l | l in queue
  }

  /** The head of the queue reaches the child's stdin. */
  function WriteHead(s: Client): (r: Client)
    requires s.child.Some? && s.queue != []
  {
    s.(queue := s.queue[1..], written := s.written + [s.queue[0]], wire := s.wire + [(s.child.value, s.queue[0])],
       lateWrite := s.lateWrite || s.dropped != {})
  }

  /** Write until the queue is empty, stdin is full, or a write throws and takes the queue with it. */
  function Flush(s: Client, outs: seq<WriteOutcome>): (r: Client)
    decreases |s.queue|
  {
    if s.drainOn.Some? || s.child.None? || s.queue == [] then s
    else
      match (if outs == [] then Accepted else outs[0])
      case Accepted => Flush(WriteHead(s), if outs == [] then [] else outs[1..])
      case Full => WriteHead(s).(drainOn := s.child)
      case Threw => RejectPending(s.(dropped := s.dropped + Ids(s.queue), queue := []))
  }

  function Enqueue(s: Client, outs: seq<WriteOutcome>): (r: Client)
  {
    Flush(s.(lines := s.lines + [s.child], queue := s.queue + [|s.lines|]), outs)
  }

  function Issue(s: Client, timed: bool): (r: Client)
    requires s.child.Some?
  {
    var ticket := |s.calls|;
    s.(nextId := s.nextId + 1, calls := s.calls + [Call(s.child.value, s.nextId, Pending)],
       pending := s.pending[s.nextId := Entry(ticket, timed)],
       timers := if timed then s.timers + {Timer(s.nextId, ticket)} else s.timers)
  }

  function SendRequest(s: Client, timed: bool, outs: seq<WriteOutcome>): (r: Client)
  {
    if s.child.None? then s else Enqueue(Issue(s, timed), outs)
  }

  function Spawn(s: Client): (r: Client)
  {
    s.(child := Some(s.spawned), spawned := s.spawned + 1, attached := s.attached + {s.spawned})
  }

  /** A frame with an id and a method is a request from the peer, not an answer; an empty method is no method. */
  function Classify(record: Record): (k: Kind)
    ensures k.Response? <==>
            record.Fields? && record.id.Some? && (record.rpcMethod == None || record.rpcMethod == Some(""))
  {
    if !record.Fields? then ProtocolError
    else
      var named := record.rpcMethod.Some? && record.rpcMethod.value != "";
      if record.id.Some? && named then PeerRequest
      else if record.id.Some? then Response
      else if named then Notification
      else ProtocolError
  }

  function Settle(s: Client, from: nat, id: nat, ok: bool): (r: Client)
    requires id in s.pending && s.pending[id].ticket < |s.calls|
  {
    var entry := s.pending[id];
    s.(pending := s.pending - {id}, timers := s.timers - (if entry.timed then {Timer(id, entry.ticket)} else {}),
       calls := s.calls[entry.ticket := Settled(s.calls[entry.ticket], Answered(from, id, ok))])
  }

  /** A response settles the pending call with its number; anything else is passed on or reported. */
  function HandleRecord(s: Client, from: nat, record: Record): (r: Client)
  {
    if Classify(record).Response? && record.id.value.Some? && record.id.value.value in s.pending
       && s.pending[record.id.value.value].ticket < |s.calls|
    then Settle(s, from, record.id.value.value, !record.errorIsObject) else s
  }

  function Expire(s: Client, timer: Timer): (r: Client)
    requires timer.ticket < |s.calls|
  {
    s.(timers := s.timers - {timer}, pending := s.pending - {timer.id},
       calls := s.calls[timer.ticket := Settled(s.calls[timer.ticket], TimedOut)])
  }

  /** The child's close event: forget it, reset, detach its listeners, and reject whatever is left. */
  function Closed(s: Client, from: nat): (r: Client)
  {
    var left :=
      if s.child == Some(from) then ResetTransport(s.(child := None)).(attached := s.attached - {from}) else s;
    RejectPending(left)
  }

  function Stopped(s: Client): (r: Client)
  {
    if s.stopping then s
    else if s.child.None? then ResetTransport(s)
    else ResetTransport(s.(child := None)).(attached := s.attached - {s.child.value}, stopping := true)
  }

  /** One event. A listener that is not attached, or a timer that was cleared, does nothing. */
  function Next(s: Client, e: Event): (r: Client)
  {
    match e
    case Start(outs) => if s.child.Some? || s.stopping then s else SendRequest(Spawn(s), true, outs)
    case Request(timed, outs) => SendRequest(s, timed, outs)
    case Notify(outs) => if s.child.None? then s else Enqueue(s, outs)
    case Respond(outs) => Enqueue(s, outs)
    case Inbound(from, record) => if from in s.attached then HandleRecord(s, from, record) else s
    case TimerFires(timer) => if timer in s.timers && timer.ticket < |s.calls| then Expire(s, timer) else s
    case Drain(from, outs) => if s.drainOn == Some(from) then Flush(s.(drainOn := None), outs) else s
    case ChildError(from) => if from in s.attached then RejectPending(s) else s
    case Close(from) => if from in s.attached then Closed(s, from) else s
    case Stop => Stopped(s)
    case Terminated => s.(stopping := false)
  }

  function Run(s: Client, events: seq<Event>): (r: Client)
    decreases |events|
  {
    if events == [] then s else Run(Next(s, events[0]), events[1..])
  }

  // ---- Correlation: the pending map, the timers and the promises agree ----

  ghost predicate Correlated(s: Client)
  {
    && (forall id :: id in s.pending ==>
          && s.child.Some? && 1 <= id < s.nextId && s.pending[id].ticket < |s.calls|
          && s.calls[s.pending[id].ticket] == Call(s.child.value, id, Pending))
    && (forall t :: 0 <= t < |s.calls| && s.calls[t].status.Pending? ==> Holds(s.pending, t))
    && s.timers == TimersOf(s.pending)
  }

  ghost predicate Numbered(s: Client)
  {
    && s.nextId >= 1
    && (forall t :: 0 <= t < |s.calls| ==> s.calls[t].child < s.spawned)
    && (forall t :: 0 <= t < |s.calls| && s.child == Some(s.calls[t].child) ==> s.calls[t].id < s.nextId)
    && (forall t, u :: 0 <= t < u < |s.calls| ==>
        s.calls[t].child != s.calls[u].child || s.calls[t].id != s.calls[u].id)
  }

  /** An answered call was answered by the child it was sent to, under its own number. */
  ghost predicate AnsweredByOwnChild(s: Client)
  {
    forall t :: 0 <= t < |s.calls| && s.calls[t].status.Answered? ==>
      s.calls[t].status.child == s.calls[t].child && s.calls[t].status.id == s.calls[t].id
  }

  ghost predicate Wired(s: Client)
  {
    && s.attached == (if s.child.Some? then {s.child.value} else {})
    && (s.child.Some? ==> s.child.value < s.spawned)
    && (s.drainOn.Some? ==> s.drainOn == s.child)
    && (s.stopping ==> s.child.None?)
  }

  ghost predicate CallInv(s: Client)
  {
    Correlated(s) && Numbered(s) && AnsweredByOwnChild(s) && Wired(s)
  }

  /** Rejecting everything leaves no call open and no timer armed. */
  lemma RejectSettlesAll(s: Client)
    requires Correlated(s)
    ensures var r := RejectPending(s);
            && r.timers == {} && r.pending == map[]
            && (forall t :: 0 <= t < |r.calls| ==> !r.calls[t].status.Pending?)
            && (forall t :: 0 <= t < |r.calls| ==>
                r.calls[t] == s.calls[t] || r.calls[t] == s.calls[t].(status := Dropped))
  {
  }

  /** The call table after everything open was dropped; the child may be gone and the numbering restarted. */
  lemma DroppedKeeps(s: Client, r: Client)
    requires CallInv(s)
    requires r.calls == RejectPending(s).calls && r.pending == map[] && r.timers == {} && r.spawned == s.spawned
    requires r.child == None || (r.child == s.child && r.nextId >= s.nextId)
    requires r.nextId >= 1 && Wired(r)
    ensures CallInv(r)
  {
    RejectSettlesAll(s);
    assert forall t :: 0 <= t < |r.calls| ==> r.calls[t].child == s.calls[t].child && r.calls[t].id == s.calls[t].id;
  }

  /** Flushing never touches a call except by dropping all of them when a write throws. */
  lemma {:induction false} FlushKeeps(s: Client, outs: seq<WriteOutcome>)
    requires CallInv(s)
    ensures CallInv(Flush(s, outs))
    decreases |s.queue|
  {
    if s.drainOn.None? && s.child.Some? && s.queue != [] {
      match (if outs == [] then Accepted else outs[0])
      case Accepted => FlushKeeps(WriteHead(s), if outs == [] then [] else outs[1..]);
      case Full =>
      case Threw =>
        RejectSettlesAll(s);
        DroppedKeeps(s, Flush(s, outs));
    }
  }

  lemma IssueKeeps(s: Client, timed: bool)
    requires CallInv(s) && s.child.Some?
    ensures CallInv(Issue(s, timed))
  {
    var r := Issue(s, timed);
    assert s.nextId !in s.pending;
    forall t | 0 <= t < |r.calls| && r.calls[t].status.Pending?
      ensures Holds(r.pending, t)
    {
      if t < |s.calls| {
        var id :| id in s.pending && s.pending[id].ticket == t;
        assert r.pending[id].ticket == t;
      } else {
        assert r.pending[s.nextId].ticket == t;
      }
    }
    TimersAfterIssue(s.pending, s.nextId, Entry(|s.calls|, timed));
  }

  lemma TimersAfterIssue(pending: map<nat, Entry>, id: nat, entry: Entry)
    requires id !in pending
    ensures TimersOf(pending[id := entry]) ==
            TimersOf(pending) + (if entry.timed then {Timer(id, entry.ticket)} else {})
  {
    var more := pending[id := entry];
    forall timer | timer in TimersOf(pending) + (if entry.timed then {Timer(id, entry.ticket)} else {})
      ensures timer in TimersOf(more)
    {
      assert timer.id in more && more[timer.id].timed && timer == Timer(timer.id, more[timer.id].ticket);
    }
  }

  /** Taking one entry out of the pending map takes out exactly its timer. */
  lemma TimersAfterRemoval(pending: map<nat, Entry>, id: nat)
    requires id in pending
    ensures TimersOf(pending - {id}) ==
            TimersOf(pending) - (if pending[id].timed then {Timer(id, pending[id].ticket)} else {})
    ensures TimersOf(pending - {id}) == TimersOf(pending) - {Timer(id, pending[id].ticket)}
  {
    var less := pending - {id};
    forall timer | timer in TimersOf(pending) && timer.id != id
      ensures timer in TimersOf(less)
    {
      assert timer.id in less && less[timer.id] == pending[timer.id];
    }
  }

  /** Settling the call of one pending entry, by an answer or by its timer. */
  lemma RemovalKeeps(s: Client, id: nat, status: Status, r: Client)
    requires CallInv(s) && id in s.pending && !status.Pending?
    requires status.Answered? ==> s.child == Some(status.child) && status.id == id
    requires r == s.(pending := s.pending - {id}, timers := s.timers - {Timer(id, s.pending[id].ticket)},
                     calls := s.calls[s.pending[id].ticket := s.calls[s.pending[id].ticket].(status := status)])
    ensures CallInv(r)
  {
    var ticket := s.pending[id].ticket;
    TimersAfterRemoval(s.pending, id);
    forall other | other in r.pending
      ensures r.calls[r.pending[other].ticket] == Call(s.child.value, other, Pending)
    {
      assert s.calls[s.pending[other].ticket].id == other && s.calls[ticket].id == id;
    }
    forall t | 0 <= t < |r.calls| && r.calls[t].status.Pending?
      ensures Holds(r.pending, t)
    {
      var other :| other in s.pending && s.pending[other].ticket == t;
      assert other != id && r.pending[other].ticket == t;
    }
  }

  lemma SettleKeeps(s: Client, from: nat, record: Record)
    requires CallInv(s) && from in s.attached
    ensures CallInv(HandleRecord(s, from, record))
  {
    var r := HandleRecord(s, from, record);
    if r != s {
      var id := record.id.value.value;
      TimersAfterRemoval(s.pending, id);
      RemovalKeeps(s, id, Answered(from, id, !record.errorIsObject), r);
    }
  }

  lemma ExpireKeeps(s: Client, timer: Timer)
    requires CallInv(s) && timer in s.timers
    ensures timer.ticket < |s.calls| && CallInv(Expire(s, timer))
  {
    assert timer.id in s.pending && s.pending[timer.id].ticket == timer.ticket;
    RemovalKeeps(s, timer.id, TimedOut, Expire(s, timer));
  }

  lemma StopKeeps(s: Client)
    requires CallInv(s)
    ensures CallInv(Stopped(s)) && (!s.stopping ==> Stopped(s).pending == map[])
  {
    if !s.stopping {
      RejectSettlesAll(s);
      DroppedKeeps(s, Stopped(s));
    }
  }

  lemma CloseKeeps(s: Client, from: nat)
    requires CallInv(s) && from in s.attached
    ensures CallInv(Closed(s, from)) && Closed(s, from).pending == map[]
  {
    RejectSettlesAll(s);
    var reset := ResetTransport(s.(child := None)).(attached := s.attached - {from});
    DroppedKeeps(s, reset);
    RejectSettlesAll(reset);
    assert DropCalls(reset.calls, map[]) == reset.calls;
  }

  lemma StartKeeps(s: Client, outs: seq<WriteOutcome>)
    requires CallInv(s)
    ensures CallInv(Next(s, Start(outs)))
  {
    if s.child.None? && !s.stopping {
      SpawnKeeps(s);
      RequestKeeps(Spawn(s), true, outs);
    }
  }

  lemma LineKeeps(s: Client, outs: seq<WriteOutcome>)
    requires CallInv(s)
    ensures CallInv(Next(s, Notify(outs))) && CallInv(Next(s, Respond(outs)))
  {
    EnqueueKeeps(s, outs);
  }

  lemma InboundKeeps(s: Client, from: nat, record: Record)
    requires CallInv(s)
    ensures CallInv(Next(s, Inbound(from, record)))
  {
    if from in s.attached {
      SettleKeeps(s, from, record);
    }
  }

  lemma TimerKeeps(s: Client, timer: Timer)
    requires CallInv(s)
    ensures CallInv(Next(s, TimerFires(timer)))
  {
    if timer in s.timers {
      ExpireKeeps(s, timer);
    }
  }

  lemma ChildKeeps(s: Client, from: nat, outs: seq<WriteOutcome>)
    requires CallInv(s)
    ensures CallInv(Next(s, Drain(from, outs))) && CallInv(Next(s, ChildError(from))) && CallInv(Next(s, Close(from)))
  {
    FlushKeeps(s.(drainOn := None), outs);
    RejectKeeps(s);
    if from in s.attached {
      CloseKeeps(s, from);
    }
  }

  /** Every event keeps calls, timers and numbering in agreement. */
  lemma NextKeepsCalls(s: Client, e: Event)
    requires CallInv(s)
    ensures CallInv(Next(s, e))
  {
    match e
    case Start(outs) => StartKeeps(s, outs);
    case Request(timed, outs) => RequestKeeps(s, timed, outs);
    case Notify(outs) => LineKeeps(s, outs);
    case Respond(outs) => LineKeeps(s, outs);
    case Inbound(from, record) => InboundKeeps(s, from, record);
    case TimerFires(timer) => TimerKeeps(s, timer);
    case Drain(from, outs) => ChildKeeps(s, from, outs);
    case ChildError(from) => ChildKeeps(s, from, []);
    case Close(from) => ChildKeeps(s, from, []);
    case Stop => StopKeeps(s);
    case Terminated =>
  }

  lemma RejectKeeps(s: Client)
    requires CallInv(s)
    ensures CallInv(RejectPending(s))
  {
    RejectSettlesAll(s);
    DroppedKeeps(s, RejectPending(s));
  }

  lemma SpawnKeeps(s: Client)
    requires CallInv(s) && s.child.None? && !s.stopping
    ensures CallInv(Spawn(s))
  {
  }

  lemma EnqueueKeeps(s: Client, outs: seq<WriteOutcome>)
    requires CallInv(s)
    ensures CallInv(Enqueue(s, outs))
  {
    FlushKeeps(s.(lines := s.lines + [s.child], queue := s.queue + [|s.lines|]), outs);
  }

  lemma RequestKeeps(s: Client, timed: bool, outs: seq<WriteOutcome>)
    requires CallInv(s)
    ensures CallInv(SendRequest(s, timed, outs))
  {
    if s.child.Some? {
      IssueKeeps(s, timed);
      EnqueueKeeps(Issue(s, timed), outs);
    }
  }

  lemma {:induction false} RunKeepsCalls(s: Client, events: seq<Event>)
    requires CallInv(s)
    ensures CallInv(Run(s, events))
    decreases |events|
  {
    if events != [] {
      NextKeepsCalls(s, events[0]);
      RunKeepsCalls(Next(s, events[0]), events[1..]);
    }
  }

  /**
    Correlation safety across restarts: in every run, although ids start over at 1 after each
    reset, a call that was answered was answered by the child it was issued to, under its own
    id; no two calls to one child share an id; and the open calls are exactly the pending map.
   */
  lemma CorrelationSafety(events: seq<Event>)
    ensures var s := Run(New(), events);
            && (forall t :: 0 <= t < |s.calls| && s.calls[t].status.Answered? ==>
                  s.calls[t].status.child == s.calls[t].child && s.calls[t].status.id == s.calls[t].id)
            && (forall t, u :: 0 <= t < u < |s.calls| ==>
                s.calls[t].child != s.calls[u].child || s.calls[t].id != s.calls[u].id)
            && (forall t :: 0 <= t < |s.calls| ==> (s.calls[t].status.Pending? <==> Holds(s.pending, t)))
            && (s.child.None? ==> forall t :: 0 <= t < |s.calls| ==> !s.calls[t].status.Pending?)
  {
    RunKeepsCalls(New(), events);
  }

  /** Nothing is open after a stop or the live child's close. */
  lemma NothingPendingAfterEnd(events: seq<Event>, last: Event)
    requires last.Stop? || (last.Close? && Run(New(), events).child == Some(last.from))
    ensures var s := Next(Run(New(), events), last);
            s.pending == map[] && s.timers == {} && forall t :: 0 <= t < |s.calls| ==> !s.calls[t].status.Pending?
  {
    RunKeepsCalls(New(), events);
    EndLeavesNoChild(Run(New(), events), last);
    NextKeepsCalls(Run(New(), events), last);
    NoChildNothingOpen(Next(Run(New(), events), last));
  }

  lemma EndLeavesNoChild(s: Client, last: Event)
    requires CallInv(s) && (last.Stop? || (last.Close? && s.child == Some(last.from)))
    ensures Next(s, last).child.None?
  {
  }

  lemma NoChildNothingOpen(s: Client)
    requires CallInv(s) && s.child.None?
    ensures s.pending == map[] && s.timers == {} && forall t :: 0 <= t < |s.calls| ==> !s.calls[t].status.Pending?
  {
  }

  // ---- What each event brings about ----

  /** No other call is touched. */
  predicate OthersKeep(s: Client, r: Client, ticket: nat)
  {
    |r.calls| == |s.calls| && forall t :: 0 <= t < |s.calls| && t != ticket ==> r.calls[t] == s.calls[t]
  }

  lemma PendingEntry(s: Client, ticket: nat, id: nat)
    requires CallInv(s) && ticket < |s.calls| && s.child.Some? && s.calls[ticket] == Call(s.child.value, id, Pending)
    ensures id in s.pending && s.pending[id].ticket == ticket
  {
    var held :| held in s.pending && s.pending[held].ticket == ticket;
  }

  /**
    In every run, a response of the live child settles the open call with its number: resolved, or rejected when it
    carries an error object; its entry and timer go and nothing else changes.
   */
  lemma ResponseSettles(events: seq<Event>, ticket: nat, id: nat, name: Option<string>, errorIsObject: bool)
    requires var s := Run(New(), events);
             s.child.Some? && ticket < |s.calls| && s.calls[ticket] == Call(s.child.value, id, Pending)
    requires name == None || name == Some("")
    ensures var s := Run(New(), events);
            var r := Next(s, Inbound(s.child.value, Fields(Some(Some(id)), name, errorIsObject)));
            && r.calls[ticket] == Call(s.child.value, id, Answered(s.child.value, id, !errorIsObject))
            && OthersKeep(s, r, ticket) && r.pending == s.pending - {id}
            && (forall timer :: timer in r.timers ==> timer.id != id)
            && (forall timer :: timer in s.timers && timer.id != id ==> timer in r.timers)
  {
    RunKeepsCalls(New(), events);
    StateResponseSettles(Run(New(), events), ticket, id, name, errorIsObject);
  }

  lemma StateResponseSettles(s: Client, ticket: nat, id: nat, name: Option<string>, errorIsObject: bool)
    requires CallInv(s) && s.child.Some? && ticket < |s.calls| && s.calls[ticket] == Call(s.child.value, id, Pending)
    requires name == None || name == Some("")
    ensures var r := Next(s, Inbound(s.child.value, Fields(Some(Some(id)), name, errorIsObject)));
            && r.calls[ticket] == Call(s.child.value, id, Answered(s.child.value, id, !errorIsObject))
            && OthersKeep(s, r, ticket) && r.pending == s.pending - {id}
            && (forall timer :: timer in r.timers ==> timer.id != id)
            && (forall timer :: timer in s.timers && timer.id != id ==> timer in r.timers)
  {
    PendingEntry(s, ticket, id);
    assert s.child.value in s.attached;
    assert forall timer :: timer in s.timers && timer.id == id ==> timer == Timer(id, ticket) && s.pending[id].timed;
  }

  /** Any other record leaves every call alone: requests, notifications, malformed records, numbers nobody waits for. */
  lemma OtherRecordsSettleNothing(s: Client, from: nat, record: Record)
    requires !record.Fields? || record.id.None? || record.id.value.None? || record.id.value.value !in s.pending
             || (record.rpcMethod.Some? && record.rpcMethod.value != "")
    ensures Next(s, Inbound(from, record)) == s
  {
  }

  /** In every run, the timer of an open call rejects it as timed out and nothing else changes. */
  lemma TimeoutRejects(events: seq<Event>, timer: Timer)
    requires timer in Run(New(), events).timers
    ensures var s := Run(New(), events);
            var r := Next(s, TimerFires(timer));
            && timer.ticket < |s.calls| && s.calls[timer.ticket].status == Pending
            && r.calls[timer.ticket] == s.calls[timer.ticket].(status := TimedOut)
            && OthersKeep(s, r, timer.ticket) && r.pending == s.pending - {timer.id} && timer !in r.timers
  {
    RunKeepsCalls(New(), events);
    var s := Run(New(), events);
    assert timer.id in s.pending && s.pending[timer.id] == Entry(timer.ticket, true);
  }

  /** An error of the child rejects every open call at once. */
  lemma ErrorRejectsAll(events: seq<Event>, from: nat)
    requires from in Run(New(), events).attached
    ensures var s := Run(New(), events);
            var r := Next(s, ChildError(from));
            && r.pending == map[] && r.timers == {} && |r.calls| == |s.calls|
            && forall t :: 0 <= t < |s.calls| ==>
                 r.calls[t] == if s.calls[t].status == Pending then s.calls[t].(status := Dropped) else s.calls[t]
  {
    RunKeepsCalls(New(), events);
    var s := Run(New(), events);
    RejectSettlesAll(s);
  }

  /** In every run, stop and the live child's close forget the child and reject exactly the open calls. */
  lemma EndRejectsAll(events: seq<Event>, last: Event)
    requires last.Stop? || (last.Close? && Run(New(), events).child == Some(last.from))
    ensures var s := Run(New(), events);
            var r := Next(s, last);
            && r.child.None? && |r.calls| == |s.calls|
            && forall t :: 0 <= t < |s.calls| ==>
                 r.calls[t] == if s.calls[t].status == Pending then s.calls[t].(status := Dropped) else s.calls[t]
  {
    RunKeepsCalls(New(), events);
    var s := Run(New(), events);
    RejectSettlesAll(s);
    NoChildNothingOpenIfNone(s);
  }

  lemma NoChildNothingOpenIfNone(s: Client)
    requires CallInv(s)
    ensures s.child.None? ==> forall t :: 0 <= t < |s.calls| ==> !s.calls[t].status.Pending?
  {
  }

  lemma AcceptedFlush(s: Client)
    requires s.child.Some? && s.drainOn.None?
    ensures var r := Flush(s, []);
            && r.queue == [] && r.drainOn.None? && r.child == s.child && r.calls == s.calls
            && r.pending == s.pending && r.timers == s.timers && r.nextId == s.nextId
            && r.spawned == s.spawned && r.attached == s.attached
    decreases |s.queue|
  {
    if s.queue != [] {
      AcceptedFlush(WriteHead(s));
    }
  }

  /**
    A call to a live child whose stdin accepts is open under the next number, timed as asked, and its line is on the
    wire.
   */
  lemma RequestGoesOut(s: Client, timed: bool)
    requires s.child.Some? && s.drainOn.None?
    ensures var r := Next(s, Request(timed, []));
            && r.calls == s.calls + [Call(s.child.value, s.nextId, Pending)] && r.nextId == s.nextId + 1
            && r.pending == s.pending[s.nextId := Entry(|s.calls|, timed)]
            && r.timers == (if timed then s.timers + {Timer(s.nextId, |s.calls|)} else s.timers)
            && r.child == s.child && r.spawned == s.spawned && r.attached == s.attached
            && r.queue == [] && r.lines == s.lines + [s.child]
            && |r.wire| > |s.wire| && r.wire[|r.wire| - 1] == (s.child.value, |s.lines|)
  {
    var issued := Issue(s, timed);
    var queued := issued.(lines := issued.lines + [issued.child], queue := issued.queue + [|issued.lines|]);
    AcceptedFlush(queued);
    FlushAll(queued);
  }

  /** So is a notification, without a call. */
  lemma NotifyGoesOut(s: Client)
    requires s.child.Some? && s.drainOn.None?
    ensures var r := Next(s, Notify([]));
            && r.calls == s.calls && r.pending == s.pending && r.queue == [] && r.lines == s.lines + [s.child]
            && |r.wire| > |s.wire| && r.wire[|r.wire| - 1] == (s.child.value, |s.lines|)
  {
    var queued := s.(lines := s.lines + [s.child], queue := s.queue + [|s.lines|]);
    AcceptedFlush(queued);
    FlushAll(queued);
  }

  /** And an answer to the child. */
  lemma RespondGoesOut(s: Client)
    requires s.child.Some? && s.drainOn.None?
    ensures Next(s, Respond([])) == Next(s, Notify([]))
  {
  }

  /** A start without a child brings one up with an open, timed `initialize` call. */
  lemma StartBringsUpChild(s: Client)
    requires s.child.None? && !s.stopping && s.drainOn.None?
    ensures var r := Next(s, Start([]));
            && r.child == Some(s.spawned) && r.spawned == s.spawned + 1 && s.spawned in r.attached
            && r.calls == s.calls + [Call(s.spawned, s.nextId, Pending)]
            && Timer(s.nextId, |s.calls|) in r.timers && r.queue == []
  {
    RequestGoesOut(Spawn(s), true);
  }

  /** When stdin drains, everything that waited goes out in order. */
  lemma DrainResumes(s: Client, from: nat)
    requires s.drainOn == Some(from) && s.child.Some?
    ensures var r := Next(s, Drain(from, []));
            && r.drainOn.None? && r.queue == []
            && r.wire == s.wire + seq(|s.queue|, i requires 0 <= i < |s.queue| => (s.child.value, s.queue[i]))
  {
    AcceptedFlush(s.(drainOn := None));
    FlushAll(s.(drainOn := None));
  }

  // ---- The wire: every queued line is written, waiting or dropped, and order is queueing order ----

  predicate Ascending(ns: seq<nat>)
  {
    forall i, j :: 0 <= i < j < |ns| ==> ns[i] < ns[j]
  }

  /** The first line not yet taken off the queue. */
  function Taken(s: Client): (r: int)
  {
    |s.lines| - |s.queue|
  }

  ghost predicate QueueInv(s: Client)
  {
    && s.base <= Taken(s)
    && (forall i :: 0 <= i < |s.queue| ==> s.queue[i] == Taken(s) + i)
    && (forall i :: 0 <= i < |s.queue| ==> s.lines[s.queue[i]].None? || s.lines[s.queue[i]] == s.child)
  }

  ghost predicate SinceReset(s: Client)
  {
    && Ascending(s.written)
    && (forall i :: 0 <= i < |s.written| ==> s.base <= s.written[i] < Taken(s) && s.written[i] !in s.dropped)
    && (forall l :: l in s.dropped ==> s.base <= l < Taken(s))
    && (forall l :: s.base <= l < Taken(s) ==> l in s.written || l in s.dropped)
    && (s.lateWrite <==> exists i, l :: 0 <= i < |s.written| && l in s.dropped && l < s.written[i])
  }

  ghost predicate WireInv(s: Client)
  {
    && (forall i, j :: 0 <= i < j < |s.wire| ==> s.wire[i].1 < s.wire[j].1)
    && (forall i :: 0 <= i < |s.wire| ==> s.wire[i].1 < Taken(s))
    && (forall i :: 0 <= i < |s.wire| ==> s.lines[s.wire[i].1].None? || s.lines[s.wire[i].1] == Some(s.wire[i].0))
  }

  ghost predicate LineInv(s: Client)
  {
    QueueInv(s) && SinceReset(s) && WireInv(s)
  }

  /** With a live child and no drain pending, nothing waits. */
  ghost predicate Quiet(s: Client)
  {
    s.child.Some? && s.drainOn.None? ==> s.queue == []
  }

  ghost predicate SameLines(s: Client, r: Client)
  {
    && r.queue == s.queue && r.lines == s.lines && r.base == s.base && r.written == s.written && r.dropped == s.dropped
    && r.lateWrite == s.lateWrite && r.wire == s.wire && r.child == s.child
  }

  lemma LinesFrame(s: Client, r: Client)
    requires LineInv(s) && SameLines(s, r)
    ensures LineInv(r)
  {
  }

  lemma WriteKeepsSinceReset(s: Client)
    requires LineInv(s) && s.child.Some? && s.queue != []
    ensures SinceReset(WriteHead(s))
  {
    var r := WriteHead(s);
    assert s.queue[0] == Taken(s) && Taken(r) == Taken(s) + 1;
    assert forall i :: 0 <= i < |s.written| ==> r.written[i] == s.written[i];
    forall l | s.base <= l < Taken(r)
      ensures l in r.written || l in r.dropped
    {
      assert l == Taken(s) ==> r.written[|s.written|] == l;
      assert l in s.written ==> l in r.written;
    }
    if s.dropped != {} {
      var l :| l in s.dropped;
      assert l < r.written[|s.written|];
    }
    if s.lateWrite {
      var i, l :| 0 <= i < |s.written| && l in s.dropped && l < s.written[i];
      assert l in r.dropped && l < r.written[i];
    }
  }

  lemma WriteKeepsLines(s: Client)
    requires LineInv(s) && s.child.Some? && s.queue != []
    ensures LineInv(WriteHead(s))
  {
    WriteKeepsSinceReset(s);
    assert s.queue[0] == Taken(s);
    assert WireInv(WriteHead(s));
    assert QueueInv(WriteHead(s));
  }

  lemma ThrowKeepsLines(s: Client)
    requires LineInv(s)
    ensures LineInv(s.(dropped := s.dropped + Ids(s.queue), queue := []))
  {
    var r := s.(dropped := s.dropped + Ids(s.queue), queue := []);
    forall l | s.base <= l < Taken(r)
      ensures l in r.written || l in r.dropped
    {
      if l >= Taken(s) {
        assert s.queue[l - Taken(s)] == l;
      }
    }
    if s.lateWrite {
      var i, l :| 0 <= i < |s.written| && l in s.dropped && l < s.written[i];
      assert l in r.dropped;
    }
  }

  lemma {:induction false} FlushKeepsLines(s: Client, outs: seq<WriteOutcome>)
    requires LineInv(s)
    ensures LineInv(Flush(s, outs)) && Quiet(Flush(s, outs))
    decreases |s.queue|
  {
    if s.drainOn.None? && s.child.Some? && s.queue != [] {
      WriteKeepsLines(s);
      match (if outs == [] then Accepted else outs[0])
      case Accepted => FlushKeepsLines(WriteHead(s), if outs == [] then [] else outs[1..]);
      case Full => LinesFrame(WriteHead(s), Flush(s, outs));
      case Threw =>
        ThrowKeepsLines(s);
        LinesFrame(s.(dropped := s.dropped + Ids(s.queue), queue := []), Flush(s, outs));
    }
  }

  lemma EnqueueKeepsLines(s: Client, outs: seq<WriteOutcome>)
    requires LineInv(s)
    ensures LineInv(Enqueue(s, outs)) && Quiet(Enqueue(s, outs))
  {
    var r := s.(lines := s.lines + [s.child], queue := s.queue + [|s.lines|]);
    assert QueueInv(r);
    assert WireInv(r);
    FlushKeepsLines(r, outs);
  }

  lemma ResetKeepsLines(s: Client, r: Client)
    requires LineInv(s) && r.lines == s.lines && r.wire == s.wire
    requires r.queue == [] && r.base == |s.lines| && r.written == [] && r.dropped == {} && !r.lateWrite && r.child.None?
    ensures LineInv(r) && Quiet(r)
  {
  }

  lemma StartKeepsLines(s: Client, outs: seq<WriteOutcome>)
    requires LineInv(s) && Quiet(s)
    ensures LineInv(Next(s, Start(outs))) && Quiet(Next(s, Start(outs)))
  {
    if s.child.None? && !s.stopping {
      SpawnKeepsLines(s);
      IssuedLines(Spawn(s), true, outs);
    }
  }

  lemma SpawnKeepsLines(s: Client)
    requires LineInv(s) && s.child.None?
    ensures LineInv(Spawn(s))
  {
    var r := Spawn(s);
    assert QueueInv(r);
    assert SinceReset(r);
    assert WireInv(r);
  }

  lemma IssuedLines(s: Client, timed: bool, outs: seq<WriteOutcome>)
    requires LineInv(s) && s.child.Some?
    ensures LineInv(SendRequest(s, timed, outs)) && Quiet(SendRequest(s, timed, outs))
  {
    LinesFrame(s, Issue(s, timed));
    EnqueueKeepsLines(Issue(s, timed), outs);
  }

  lemma SendKeepsLines(s: Client, timed: bool, outs: seq<WriteOutcome>)
    requires LineInv(s) && Quiet(s)
    ensures LineInv(Next(s, Request(timed, outs))) && Quiet(Next(s, Request(timed, outs)))
    ensures LineInv(Next(s, Notify(outs))) && Quiet(Next(s, Notify(outs)))
    ensures LineInv(Next(s, Respond(outs))) && Quiet(Next(s, Respond(outs)))
  {
    EnqueueKeepsLines(s, outs);
    if s.child.Some? {
      IssuedLines(s, timed, outs);
    }
  }

  /** Answers, timers and child errors leave the lines alone. */
  lemma CallsOnly(s: Client, e: Event)
    requires e.Inbound? || e.TimerFires? || e.ChildError? || e.Terminated?
    ensures SameLines(s, Next(s, e)) && Next(s, e).drainOn == s.drainOn
  {
  }

  lemma DrainKeepsLines(s: Client, from: nat, outs: seq<WriteOutcome>)
    requires LineInv(s) && Quiet(s)
    ensures LineInv(Next(s, Drain(from, outs))) && Quiet(Next(s, Drain(from, outs)))
  {
    LinesFrame(s, s.(drainOn := None));
    FlushKeepsLines(s.(drainOn := None), outs);
  }

  lemma EndKeepsLines(s: Client, e: Event)
    requires LineInv(s) && Quiet(s) && Wired(s) && (e.Close? || e.Stop?)
    ensures LineInv(Next(s, e)) && Quiet(Next(s, e))
  {
    if (e.Close? && e.from in s.attached) || (e.Stop? && !s.stopping) {
      ResetKeepsLines(s, Next(s, e));
    }
  }

  lemma NextKeepsLines(s: Client, e: Event)
    requires LineInv(s) && Quiet(s) && Wired(s)
    ensures LineInv(Next(s, e)) && Quiet(Next(s, e))
  {
    match e
    case Start(outs) => StartKeepsLines(s, outs);
    case Request(timed, outs) => SendKeepsLines(s, timed, outs);
    case Notify(outs) => SendKeepsLines(s, false, outs);
    case Respond(outs) => SendKeepsLines(s, false, outs);
    case Inbound(from, record) =>
      CallsOnly(s, e);
      LinesFrame(s, Next(s, e));
    case TimerFires(timer) =>
      CallsOnly(s, e);
      LinesFrame(s, Next(s, e));
    case Drain(from, outs) => DrainKeepsLines(s, from, outs);
    case ChildError(from) =>
      CallsOnly(s, e);
      LinesFrame(s, Next(s, e));
    case Close(from) => EndKeepsLines(s, e);
    case Stop => EndKeepsLines(s, e);
    case Terminated =>
      CallsOnly(s, e);
      LinesFrame(s, Next(s, e));
  }

  lemma {:induction false} RunKeepsLines(s: Client, events: seq<Event>)
    requires LineInv(s) && Quiet(s) && CallInv(s)
    ensures LineInv(Run(s, events)) && Quiet(Run(s, events)) && CallInv(Run(s, events))
    decreases |events|
  {
    if events != [] {
      NextKeepsLines(s, events[0]);
      NextKeepsCalls(s, events[0]);
      RunKeepsLines(Next(s, events[0]), events[1..]);
    }
  }

  /**
    Wire order: in every run, lines reach stdins in queueing order and at most once, each on
    the wire of the child it was queued for (or, queued while there was no child, of the next
    one); every line since the last reset is written, waiting or dropped; and with a live
    child and no drain pending nothing waits.
   */
  lemma WireOrder(events: seq<Event>)
    ensures var s := Run(New(), events);
            && (forall i, j :: 0 <= i < j < |s.wire| ==> s.wire[i].1 < s.wire[j].1)
            && (forall i :: 0 <= i < |s.wire| ==>
                  && s.wire[i].1 < |s.lines|
                  && (s.lines[s.wire[i].1].None? || s.lines[s.wire[i].1] == Some(s.wire[i].0)))
            && (forall l :: s.base <= l < |s.lines| ==> l in s.written || l in s.dropped || l in s.queue)
            && Quiet(s)
  {
    RunKeepsLines(New(), events);
    var s := Run(New(), events);
    forall l | Taken(s) <= l < |s.lines|
      ensures l in s.queue
    {
      assert s.queue[l - Taken(s)] == l;
    }
  }

  /** What was written since the last reset is what was queued first. */
  predicate WrittenIsPrefix(s: Client)
  {
    forall i :: 0 <= i < |s.written| ==> s.written[i] == s.base + i
  }

  lemma {:induction false} WrittenUpTo(s: Client, i: nat)
    requires SinceReset(s) && !s.lateWrite && i < |s.written|
    ensures s.written[i] == s.base + i
  {
    if i > 0 {
      WrittenUpTo(s, i - 1);
    }
    if s.written[i] > s.base + i {
      var l := s.base + i;
      assert l !in s.dropped;
      var j :| 0 <= j < |s.written| && s.written[j] == l;
      assert false;
    }
  }

  lemma PrefixIff(s: Client)
    requires SinceReset(s)
    ensures WrittenIsPrefix(s) <==> !s.lateWrite
  {
    if !s.lateWrite {
      forall i | 0 <= i < |s.written|
        ensures s.written[i] == s.base + i
      {
        WrittenUpTo(s, i);
      }
    } else {
      var i, l :| 0 <= i < |s.written| && l in s.dropped && l < s.written[i];
      var k := l - s.base;
      assert k < |s.written| ==> s.written[k] != l;
      assert s.written[i] != s.base + i || k < i;
    }
  }

  /**
    In every run, the prefix property holds exactly while no line was accepted after a thrown write discarded the
    queue.
   */
  lemma PrefixExactlyWithoutLateWrite(events: seq<Event>)
    ensures var s := Run(New(), events);
            && (WrittenIsPrefix(s) <==> !s.lateWrite)
            && (s.dropped == {} ==> !s.lateWrite)
  {
    RunKeepsLines(New(), events);
    PrefixIff(Run(New(), events));
  }

  lemma {:induction false} FlushLate(s: Client, outs: seq<WriteOutcome>)
    ensures s.wire <= Flush(s, outs).wire
    ensures Flush(s, outs).lateWrite == (s.lateWrite || (Flush(s, outs).wire != s.wire && s.dropped != {}))
    decreases |s.queue|
  {
    if s.drainOn.None? && s.child.Some? && s.queue != [] && (outs == [] || outs[0].Accepted?) {
      FlushLate(WriteHead(s), if outs == [] then [] else outs[1..]);
    }
  }

  lemma WritingLate(s: Client, e: Event)
    requires Next(s, e).wire != s.wire
    ensures Next(s, e).lateWrite == (s.lateWrite || s.dropped != {})
  {
    match e {
      case Start(outs) =>
        var issued := Issue(Spawn(s), true);
        FlushLate(issued.(lines := issued.lines + [issued.child], queue := issued.queue + [|issued.lines|]), outs);
      case Request(timed, outs) =>
        var issued := Issue(s, timed);
        FlushLate(issued.(lines := issued.lines + [issued.child], queue := issued.queue + [|issued.lines|]), outs);
      case Notify(outs) => FlushLate(s.(lines := s.lines + [s.child], queue := s.queue + [|s.lines|]), outs);
      case Respond(outs) => FlushLate(s.(lines := s.lines + [s.child], queue := s.queue + [|s.lines|]), outs);
      case Drain(_, outs) => FlushLate(s.(drainOn := None), outs);
      case _ =>
    }
  }

  /**
    From a state of any run that still has the prefix property, an event that writes breaks it exactly if lines were
    discarded before.
   */
  lemma WriteBreaksPrefixIff(events: seq<Event>, e: Event, s: Client)
    requires s == Run(New(), events) && WrittenIsPrefix(s) && Next(s, e).wire != s.wire
    ensures WrittenIsPrefix(Next(s, e)) <==> s.dropped == {}
  {
    ReachableLines(events, s);
    StateBreaksPrefixIff(s, e);
  }

  lemma ReachableLines(events: seq<Event>, s: Client)
    requires s == Run(New(), events)
    ensures LineInv(s) && Quiet(s) && Wired(s)
  {
    RunKeepsLines(New(), events);
  }

  lemma StateBreaksPrefixIff(s: Client, e: Event)
    requires LineInv(s) && Quiet(s) && Wired(s) && WrittenIsPrefix(s) && Next(s, e).wire != s.wire
    ensures WrittenIsPrefix(Next(s, e)) <==> s.dropped == {}
  {
    NextKeepsLines(s, e);
    PrefixIff(s);
    PrefixIff(Next(s, e));
    WritingLate(s, e);
  }

  /** From any live and quiet state, a thrown write followed by an accepted one leaves a gap on the wire. */
  lemma ThrownWriteLeavesGap(s: Client)
    requires LineInv(s) && Quiet(s) && Wired(s) && s.child.Some? && s.drainOn.None?
    ensures !WrittenIsPrefix(Next(Next(s, Notify([Threw])), Notify([])))
  {
    var lost := Next(s, Notify([Threw]));
    assert |s.lines| in lost.dropped;
    NextKeepsLines(s, Notify([Threw]));
    NextKeepsLines(lost, Notify([]));
    var queued := lost.(lines := lost.lines + [lost.child], queue := lost.queue + [|lost.lines|]);
    assert lost.queue == [] && queued.queue[1..] == [];
    assert WriteHead(queued).queue == [];
    assert Flush(WriteHead(queued), []) == WriteHead(queued);
    assert Next(lost, Notify([])) == WriteHead(queued);
    PrefixIff(Next(lost, Notify([])));
  }

  /** With a stdin that accepts everything, the whole queue goes out in order. */
  lemma {:induction false} FlushAll(s: Client)
    requires s.child.Some? && s.drainOn.None?
    ensures Flush(s, []).wire == s.wire + seq(|s.queue|, i requires 0 <= i < |s.queue| => (s.child.value, s.queue[i]))
    ensures Flush(s, []).lines == s.lines
    decreases |s.queue|
  {
    if s.queue != [] {
      FlushAll(WriteHead(s));
    }
  }

  /** An answer queued while there is no child goes out to the next child, ahead of its initialize request. */
  lemma AnswerWithoutChildReachesNextChild(s: Client)
    requires LineInv(s) && s.child.None? && !s.stopping && s.drainOn.None?
    ensures var r := Next(Next(s, Respond([])), Start([]));
            && |r.lines| == |s.lines| + 2 && r.lines[|s.lines|] == None && r.lines[|s.lines| + 1] == Some(s.spawned)
            && |r.wire| >= 2 && r.wire[|r.wire| - 2..] == [(s.spawned, |s.lines|), (s.spawned, |s.lines| + 1)]
  {
    var answered := Next(s, Respond([]));
    var queued := Issue(Spawn(answered), true);
    var sent := queued.(lines := queued.lines + [queued.child], queue := queued.queue + [|queued.lines|]);
    FlushAll(sent);
    assert Next(answered, Start([])) == Flush(sent, []);
    assert sent.queue[|s.queue|] == |s.lines|;
    var out := seq(|sent.queue|, i requires 0 <= i < |sent.queue| => (sent.child.value, sent.queue[i]));
    assert out[|s.queue|] == (s.spawned, |s.lines|) && out[|s.queue| + 1] == (s.spawned, |s.lines| + 1);
  }

  /** Nothing is written while stdin is full. */
  lemma NoWriteWhileDraining(s: Client, e: Event)
    requires Wired(s) && s.drainOn.Some? && e != Drain(s.drainOn.value, if e.Drain? then e.outs else [])
    ensures Next(s, e).wire == s.wire
  {
  }

  // ---- A stdin that is full or fails ----

  /** A full stdin takes one line and makes the rest wait. */
  lemma FullStdinWaits(s: Client)
    requires s.child.Some? && s.drainOn.None? && s.queue == []
    ensures var r := Next(Next(s, Notify([Full])), Notify([]));
            && r.drainOn == s.child && r.queue == [|s.lines| + 1] && r.wire == s.wire + [(s.child.value, |s.lines|)]
  {
    var queued := s.(lines := s.lines + [s.child], queue := [|s.lines|]);
    assert s.queue + [|s.lines|] == [|s.lines|] && queued.queue[1..] == [];
    assert Next(s, Notify([Full])) == WriteHead(queued).(drainOn := s.child);
  }

  /** A thrown write discards the queue and rejects every open call, the one just made included. */
  lemma ThrownWriteRejects(events: seq<Event>, timed: bool)
    requires var s := Run(New(), events); s.child.Some? && s.drainOn.None?
    ensures var s := Run(New(), events);
            var r := Next(s, Request(timed, [Threw]));
            && r.queue == [] && r.pending == map[] && r.timers == {} && r.wire == s.wire
            && |r.calls| == |s.calls| + 1 && r.calls[|s.calls|] == Call(s.child.value, s.nextId, Dropped)
            && forall t :: 0 <= t < |s.calls| ==>
                 r.calls[t] == if s.calls[t].status == Pending then s.calls[t].(status := Dropped) else s.calls[t]
  {
    RunKeepsCalls(New(), events);
    StateThrownWriteRejects(Run(New(), events), timed);
  }

  lemma StateThrownWriteRejects(s: Client, timed: bool)
    requires CallInv(s) && s.child.Some? && s.drainOn.None?
    ensures var r := Next(s, Request(timed, [Threw]));
            && r.queue == [] && r.pending == map[] && r.timers == {} && r.wire == s.wire
            && |r.calls| == |s.calls| + 1 && r.calls[|s.calls|] == Call(s.child.value, s.nextId, Dropped)
            && forall t :: 0 <= t < |s.calls| ==>
                 r.calls[t] == if s.calls[t].status == Pending then s.calls[t].(status := Dropped) else s.calls[t]
  {
    IssueKeeps(s, timed);
    var issued := Issue(s, timed);
    EveryOpenCallDrops(issued);
    ThrowDropsAll(s, timed);
    assert forall t :: 0 <= t < |s.calls| ==> issued.calls[t] == s.calls[t];
  }

  lemma ThrowDropsAll(s: Client, timed: bool)
    requires s.child.Some? && s.drainOn.None?
    ensures var issued := Issue(s, timed);
            var r := Next(s, Request(timed, [Threw]));
            && r.queue == [] && r.pending == map[] && r.wire == s.wire
            && r.calls == RejectPending(issued).calls && r.timers == RejectPending(issued).timers
  {
  }

  lemma EveryOpenCallDrops(s: Client)
    requires Correlated(s)
    ensures var r := RejectPending(s);
            && |r.calls| == |s.calls| && r.timers == {}
            && forall t :: 0 <= t < |s.calls| ==>
                 r.calls[t] == if s.calls[t].status == Pending then s.calls[t].(status := Dropped) else s.calls[t]
  {
    RejectSettlesAll(s);
  }
}
