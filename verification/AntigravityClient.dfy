/**
  The Antigravity stream transport: accepted writes wait in a queue, go to the child's stdin
  under backpressure, and settle exactly once when stdin calls back, fails, or the child closes.
 */
module AntigravityClient {

  /** A write's promise. */
  datatype Promise = Open | Fulfilled | Rejected

  /**
    What `stdin.write` does: take the line, take it and ask to wait, throw, or raise a stream error before returning.
   */
  datatype WriteOutcome = Accepted | Full | Threw | FailedInside

  /**
    The client's fields and its history. Accepted writes are numbered in call order;
    `sent` lists those handed to stdin and `closes` counts emitted close events.
   */
  datatype Client = Client(
    started: bool, child: bool, attached: bool, closed: bool, stopping: bool, draining: bool, drainArmed: bool,
    queue: seq<nat>, inFlight: set<nat>, promises: seq<Promise>, sent: seq<nat>, closes: nat, gaveUp: bool)

  datatype Event =
    | Start(spawns: bool)
    | Write(outs: seq<WriteOutcome>)
    | WriteCallback(id: nat, failed: bool)
    | Drain(outs: seq<WriteOutcome>)
    | StdinError
    | ChildClose
    | Stop
    | TeardownEnds      // the stop ladder ran out, or noticed the close

  function New(): (s: Client)
  {
    Client(false, false, false, false, false, false, false, [], {}, [], [], 0, false)
  }

  function Settled(p: Promise, to: Promise): (r: Promise)
  {
    if p.Open? then to else p
  }

  function Settle(s: Client, id: nat, to: Promise): (r: Client)
  {
    if id < |s.promises| then s.(promises := s.promises[id := Settled(s.promises[id], to)]) else s
  }

  function RejectThese(promises: seq<Promise>, ids: set<nat>): (r: seq<Promise>)
  {
    seq(|promises|, i requires 0 <= i < |promises| => if i in ids then Settled(promises[i], Rejected) else promises[i])
  }

  function Ids(queue: seq<nat>): (r: set<nat>)
  {
    set id | id in queue
  }

  function RejectPendingWrites(s: Client): (r: Client)
  {
    s.(promises := RejectThese(s.promises, Ids(s.queue) + s.inFlight), queue := [], inFlight := {})
  }

  function OnStdinError(s: Client): (r: Client)
  {
    if s.closed then s
    else RejectPendingWrites(s).(draining := false, closed := true, closes := s.closes + 1)
  }

  function OnChildClose(s: Client): (r: Client)
  {
    if s.closed then s else RejectPendingWrites(s.(closed := true)).(closes := s.closes + 1)
  }

  /** The head of the queue is handed to stdin. */
  function SendHead(s: Client): (r: Client)
    requires s.queue != []
  {
    s.(queue := s.queue[1..], inFlight := s.inFlight + {s.queue[0]}, sent := s.sent + [s.queue[0]])
  }

  function Flush(s: Client, outs: seq<WriteOutcome>): (r: Client)
    decreases |s.queue|
  {
    if s.draining || s.closed || !s.child || s.queue == [] then s
    else
      match (if outs == [] then Accepted else outs[0])
      case Accepted => Flush(SendHead(s), if outs == [] then [] else outs[1..])
      case Full => SendHead(s).(draining := true, drainArmed := true)
      case FailedInside => OnStdinError(SendHead(s))
      case Threw => OnStdinError(Settle(s.(queue := s.queue[1..]), s.queue[0], Rejected))
  }

  function WriteAccepted(s: Client, outs: seq<WriteOutcome>): (r: Client)
  {
    if s.closed || !s.child then s
    else Flush(s.(queue := s.queue + [|s.promises|], promises := s.promises + [Open]), outs)
  }

  function OnCallback(s: Client, id: nat, failed: bool): (r: Client)
  {
    var s := s.(inFlight := s.inFlight - {id});
    if failed then OnStdinError(Settle(s, id, Rejected)) else Settle(s, id, Fulfilled)
  }

  function Detach(s: Client): (r: Client)
  {
    s.(child := false, closed := true, attached := s.attached && !s.child)
  }

  function Next(s: Client, e: Event): (r: Client)
  {
    match e
    case Start(spawns) =>
      if s.started then s
      else if spawns then s.(started := true, child := true, attached := true)
      else s.(started := true, closed := true)
    case Write(outs) => WriteAccepted(s, outs)
    case WriteCallback(id, failed) => if id in s.sent then OnCallback(s, id, failed) else s
    case Drain(outs) => if s.drainArmed then Flush(s.(draining := false, drainArmed := false), outs) else s
    case StdinError => OnStdinError(s)
    case ChildClose => if s.attached then OnChildClose(s) else s
    case Stop => if s.stopping then s else if !s.child || s.closed then Detach(s) else s.(stopping := true)
    case TeardownEnds => if s.stopping then Detach(s).(gaveUp := s.gaveUp || !s.closed) else s
  }

  function Run(s: Client, events: seq<Event>): (r: Client)
    decreases |events|
  {
    if events == [] then s else Run(Next(s, events[0]), events[1..])
  }

  // ---- Every accepted write is exactly one of queued, in flight or settled ----

  /** The first write not yet taken off the queue. */
  function Taken(s: Client): (r: int)
  {
    |s.promises| - |s.queue|
  }

  ghost predicate Conserved(s: Client)
  {
    && |s.queue| <= |s.promises|
    && (forall i :: 0 <= i < |s.queue| ==> s.queue[i] == Taken(s) + i)
    && (forall id :: id in s.inFlight ==> id < Taken(s))
    && (forall id :: 0 <= id < |s.promises| ==> (s.promises[id].Open? <==> (id in s.inFlight || id >= Taken(s))))
  }

  /** Lines reach stdin in call order, once each. */
  ghost predicate InOrder(s: Client)
  {
    && |s.sent| <= Taken(s)
    && (forall i :: 0 <= i < |s.sent| ==> s.sent[i] == i)
    && (!s.closed ==> |s.sent| == Taken(s))
    && (forall id :: id in s.inFlight ==> id < |s.sent|)
  }

  ghost predicate Closing(s: Client)
  {
    && (s.closed && !s.gaveUp ==> s.queue == [] && s.inFlight == {})
    && s.closes <= 1 && (s.closes == 1 ==> s.closed)
    && (s.gaveUp ==> s.closed)
    && (s.child ==> s.started) && (!s.started ==> !s.stopping && s.promises == [] && s.queue == [])
    && (!s.child && !s.closed ==> !s.started)
    && (s.draining && !s.closed ==> s.drainArmed)
  }

  ghost predicate Inv(s: Client)
  {
    Conserved(s) && InOrder(s) && Closing(s)
  }

  lemma RejectKeeps(s: Client)
    requires Conserved(s) && InOrder(s)
    ensures var r := RejectPendingWrites(s);
            Conserved(r) && (forall id :: 0 <= id < |r.promises| ==> !r.promises[id].Open?) && Taken(r) >= Taken(s)
  {
    forall id | 0 <= id < |s.promises| && s.promises[id].Open?
      ensures id in Ids(s.queue) + s.inFlight
    {
      assert id >= Taken(s) ==> s.queue[id - Taken(s)] == id;
    }
  }

  lemma StdinErrorKeeps(s: Client)
    requires Conserved(s) && |s.sent| <= Taken(s) && (forall i :: 0 <= i < |s.sent| ==> s.sent[i] == i)
    requires !s.closed && s.started && s.closes == 0 && !s.gaveUp
    ensures Inv(OnStdinError(s)) && OnStdinError(s).closed && OnStdinError(s).queue == []
    ensures forall id :: 0 <= id < |s.promises| ==> !OnStdinError(s).promises[id].Open?
  {
    forall id | 0 <= id < |s.promises| && s.promises[id].Open?
      ensures id in Ids(s.queue) + s.inFlight
    {
      assert id >= Taken(s) ==> s.queue[id - Taken(s)] == id;
    }
  }

  lemma SendKeeps(s: Client)
    requires Inv(s) && !s.closed && s.child && s.queue != []
    ensures Inv(SendHead(s))
  {
    assert s.queue[0] == Taken(s);
  }

  lemma ThrowKeeps(s: Client)
    requires Inv(s) && !s.closed && s.child && s.queue != []
    ensures var r := Settle(s.(queue := s.queue[1..]), s.queue[0], Rejected);
            Conserved(r) && |r.sent| <= Taken(r)
  {
    assert s.queue[0] == Taken(s);
  }

  lemma {:induction false} FlushKeeps(s: Client, outs: seq<WriteOutcome>)
    requires Inv(s)
    ensures Inv(Flush(s, outs))
    decreases |s.queue|
  {
    if !s.draining && !s.closed && s.child && s.queue != [] {
      SendKeeps(s);
      match (if outs == [] then Accepted else outs[0])
      case Accepted => FlushKeeps(SendHead(s), if outs == [] then [] else outs[1..]);
      case Full =>
      case FailedInside => StdinErrorKeeps(SendHead(s));
      case Threw =>
        ThrowKeeps(s);
        StdinErrorKeeps(Settle(s.(queue := s.queue[1..]), s.queue[0], Rejected));
    }
  }

  lemma WriteKeeps(s: Client, outs: seq<WriteOutcome>)
    requires Inv(s)
    ensures Inv(Next(s, Write(outs)))
  {
    if !s.closed && s.child {
      var r := s.(queue := s.queue + [|s.promises|], promises := s.promises + [Open]);
      assert Inv(r);
      FlushKeeps(r, outs);
    }
  }

  /** A callback takes its write out of flight and settles it, if nothing else has. */
  lemma FreeKeeps(s: Client, id: nat, to: Promise)
    requires Conserved(s) && id < Taken(s) && !to.Open?
    ensures Conserved(Settle(s.(inFlight := s.inFlight - {id}), id, to))
  {
  }

  lemma CallbackKeeps(s: Client, id: nat, failed: bool)
    requires Inv(s)
    ensures Inv(Next(s, WriteCallback(id, failed)))
  {
    if id in s.sent {
      assert id < Taken(s);
      FreeKeeps(s, id, if failed then Rejected else Fulfilled);
      if failed && !s.closed {
        StdinErrorKeeps(Settle(s.(inFlight := s.inFlight - {id}), id, Rejected));
      }
    }
  }

  lemma EndKeeps(s: Client, e: Event)
    requires Inv(s) && (e.StdinError? || e.ChildClose? || e.Stop? || e.TeardownEnds?)
    requires s.started
    ensures Inv(Next(s, e))
  {
    if !s.closed {
      StdinErrorKeeps(s);
      if e.ChildClose? && s.attached {
        RejectKeeps(s.(closed := true));
      }
    }
  }

  /** A stdin error needs a stdin: before `start` there is nothing to fail. */
  predicate Possible(s: Client, e: Event)
  {
    s.started || !e.StdinError?
  }

  lemma NextKeeps(s: Client, e: Event)
    requires Inv(s) && Possible(s, e)
    ensures Inv(Next(s, e))
  {
    match e
    case Start(spawns) =>
    case Write(outs) => WriteKeeps(s, outs);
    case WriteCallback(id, failed) => CallbackKeeps(s, id, failed);
    case Drain(outs) => FlushKeeps(s.(draining := false, drainArmed := false), outs);
    case StdinError => EndKeeps(s, e);
    case ChildClose =>
      if s.started {
        EndKeeps(s, e);
      }
    case Stop =>
      if s.started {
        EndKeeps(s, e);
      }
    case TeardownEnds =>
      if s.started {
        EndKeeps(s, e);
      }
  }

  predicate PossibleRun(s: Client, events: seq<Event>)
    decreases |events|
  {
    events != [] ==> Possible(s, events[0]) && PossibleRun(Next(s, events[0]), events[1..])
  }

  lemma {:induction false} RunKeeps(s: Client, events: seq<Event>)
    requires Inv(s) && PossibleRun(s, events)
    ensures Inv(Run(s, events))
    decreases |events|
  {
    if events != [] {
      NextKeeps(s, events[0]);
      RunKeeps(Next(s, events[0]), events[1..]);
    }
  }

  /**
    Write conservation, in every run: an accepted write is queued, in flight or settled, never
    two of these; lines reach stdin in call order and once each; the close event is emitted at
    most once; and once closed, unless teardown gave up, no write is left open.
   */
  lemma WriteConservation(events: seq<Event>)
    requires PossibleRun(New(), events)
    ensures var s := Run(New(), events);
            && (forall id :: 0 <= id < |s.promises| ==>
                  && !(id in s.queue && id in s.inFlight)
                  && (s.promises[id].Open? <==> (id in s.queue || id in s.inFlight)))
            && (forall i :: 0 <= i < |s.sent| ==> s.sent[i] == i)
            && s.closes <= 1
            && (s.closed && !s.gaveUp ==> forall id :: 0 <= id < |s.promises| ==> !s.promises[id].Open?)
  {
    RunKeeps(New(), events);
    var s := Run(New(), events);
    forall id | 0 <= id < |s.promises|
      ensures id in s.queue <==> id >= Taken(s)
    {
      QueuedIds(s, id);
    }
  }

  lemma QueuedIds(s: Client, id: nat)
    requires Conserved(s) && id < |s.promises|
    ensures id in s.queue <==> id >= Taken(s)
  {
    if id >= Taken(s) {
      assert s.queue[id - Taken(s)] == id;
    }
  }

  lemma FlushWaits(s: Client, outs: seq<WriteOutcome>)
    requires s.draining || s.closed
    ensures Flush(s, outs) == s
  {
  }

  /** Nothing is handed to stdin while it has asked to wait. */
  lemma NoSendWhileDraining(s: Client, e: Event)
    requires s.draining && !e.Drain?
    ensures Next(s, e).sent == s.sent
  {
    match e
    case Write(outs) => WriteWaits(s, outs);
    case WriteCallback(id, failed) => CallbackSendsNothing(s, id, failed);
    case Start(_) =>
    case StdinError =>
    case ChildClose =>
    case Stop =>
    case TeardownEnds =>
  }

  lemma WriteWaits(s: Client, outs: seq<WriteOutcome>)
    requires s.draining
    ensures Next(s, Write(outs)).sent == s.sent
  {
    FlushWaits(s.(queue := s.queue + [|s.promises|], promises := s.promises + [Open]), outs);
  }

  lemma CallbackSendsNothing(s: Client, id: nat, failed: bool)
    ensures OnCallback(s, id, failed).sent == s.sent
  {
    var freed := s.(inFlight := s.inFlight - {id});
    assert Settle(freed, id, Rejected).sent == s.sent && Settle(freed, id, Fulfilled).sent == s.sent;
  }

  /** Teardown that gives up strands whatever still waits: no later event settles a queued write. */
  lemma {:induction false} GivingUpStrandsTheQueue(s: Client, events: seq<Event>)
    requires Inv(s) && s.gaveUp && PossibleRun(s, events)
    ensures var r := Run(s, events);
            r.queue == s.queue && forall id :: id in s.queue ==> id < |r.promises| && r.promises[id].Open?
    decreases |events|
  {
    if events != [] {
      NextKeeps(s, events[0]);
      GivenUpStays(s, events[0]);
      GivingUpStrandsTheQueue(Next(s, events[0]), events[1..]);
    }
  }

  lemma GivenUpStays(s: Client, e: Event)
    requires s.closed && s.gaveUp
    ensures Next(s, e).gaveUp && Next(s, e).queue == s.queue
  {
    match e
    case Write(outs) =>
    case WriteCallback(id, failed) =>
    case Drain(outs) => FlushWaits(s.(draining := false, drainArmed := false), outs);
    case Start(_) =>
    case StdinError =>
    case ChildClose =>
    case Stop =>
    case TeardownEnds =>
  }

  /** No continuation settles the write. */
  ghost predicate NeverSettles(s: Client, id: nat)
  {
    forall events :: PossibleRun(s, events) ==> id < |Run(s, events).promises| && Run(s, events).promises[id].Open?
  }

  /**
    When teardown ends, a write accepted earlier never settles exactly if the child has not closed and the write is
    still queued: a write in flight still has its own callback, and a close has settled everything.
   */
  lemma TeardownStrandsIff(events: seq<Event>, id: nat)
    requires PossibleRun(New(), events)
    requires Run(New(), events).stopping && !Run(New(), events).gaveUp
    ensures var s := Run(New(), events);
            NeverSettles(Next(s, TeardownEnds), id) <==> !s.closed && id in s.queue
  {
    RunKeeps(New(), events);
    var s := Run(New(), events);
    NextKeeps(s, TeardownEnds);
    var r := Next(s, TeardownEnds);
    if !s.closed && id in s.queue {
      forall more | PossibleRun(r, more)
        ensures id < |Run(r, more).promises| && Run(r, more).promises[id].Open?
      {
        GivingUpStrandsTheQueue(r, more);
      }
    } else {
      OthersSettle(s, r, id);
    }
  }

  lemma OthersSettle(s: Client, r: Client, id: nat)
    requires Inv(s) && s.stopping && !s.gaveUp && r == Next(s, TeardownEnds) && (s.closed || id !in s.queue)
    ensures !NeverSettles(r, id)
  {
    if id < |s.promises| && s.promises[id].Open? {
      QueuedIds(s, id);
      assert id in s.inFlight && s.sent[id] == id;
      CallbackFulfils(r, id);
    } else {
      assert PossibleRun(r, []) && Run(r, []) == r;
    }
  }

  lemma CallbackFulfils(r: Client, id: nat)
    requires id in r.sent && id < |r.promises| && r.promises[id].Open?
    ensures !NeverSettles(r, id)
  {
    var events := [WriteCallback(id, false)];
    var after := Next(r, events[0]);
    assert PossibleRun(after, events[1..]) && Run(after, events[1..]) == after;
    assert PossibleRun(r, events) && Run(r, events) == after && after.promises[id].Fulfilled?;
  }

  /**
    A run that gets there: stdin is full, a second write waits behind the first, and the child outlives the kill wait.
   */
  lemma TeardownCanStrand(events: seq<Event>)
    requires events == [Start(true), Write([Full]), Write([]), Stop]
    ensures PossibleRun(New(), events)
    ensures var s := Run(New(), events);
            s.stopping && !s.gaveUp && !s.closed && s.queue == [1] && NeverSettles(Next(s, TeardownEnds), 1)
  {
    var s1 := Next(New(), Start(true));
    var s2 := Next(s1, Write([Full]));
    var s3 := Next(s2, Write([]));
    assert s2.queue == [] && s2.draining && |s2.promises| == 1;
    assert s3.queue == [1];
    var s4 := Next(s3, Stop);
    assert events[1..] == [Write([Full]), Write([]), Stop] && events[1..][1..] == [Write([]), Stop];
    assert events[1..][1..][1..] == [Stop] && events[1..][1..][1..][1..] == [];
    assert Run(s4, []) == s4 && PossibleRun(s4, []);
    assert Run(s3, [Stop]) == s4 && PossibleRun(s3, [Stop]);
    assert Run(s2, events[1..][1..]) == s4 && PossibleRun(s2, events[1..][1..]);
    assert Run(s1, events[1..]) == s4 && PossibleRun(s1, events[1..]);
    assert Run(New(), events) == s4 && PossibleRun(New(), events);
    TeardownStrandsIff(events, 1);
  }

  // ---- What each event brings about ----

  predicate OthersKeep(s: Client, r: Client, id: nat)
  {
    |r.promises| == |s.promises| && forall i :: 0 <= i < |s.promises| && i != id ==> r.promises[i] == s.promises[i]
  }

  /** In every run, stdin's success callback fulfils its write, if nothing settled it before, and touches no other. */
  lemma CallbackSettles(events: seq<Event>, id: nat)
    requires PossibleRun(New(), events) && id in Run(New(), events).inFlight
    ensures var s := Run(New(), events);
            var r := Next(s, WriteCallback(id, false));
            && id < |s.promises| && s.promises[id] == Open && r.promises[id] == Fulfilled && OthersKeep(s, r, id)
            && r.inFlight == s.inFlight - {id} && r.queue == s.queue && r.closed == s.closed && r.closes == s.closes
  {
    RunKeeps(New(), events);
    var s := Run(New(), events);
    assert s.sent[id] == id;
  }

  /** A failure callback, a stdin error or the child's close rejects every open write and emits close, once. */
  lemma FailureRejectsAll(events: seq<Event>, e: Event)
    requires PossibleRun(New(), events) && Run(New(), events).started && !Run(New(), events).closed
    requires e.StdinError? || (e.ChildClose? && Run(New(), events).attached)
    ensures var s := Run(New(), events);
            var r := Next(s, e);
            && r.closed && r.closes == s.closes + 1 && r.queue == [] && r.inFlight == {} && |r.promises| == |s.promises|
            && forall i :: 0 <= i < |s.promises| ==>
                 r.promises[i] == if s.promises[i] == Open then Rejected else s.promises[i]
  {
    RunKeeps(New(), events);
    var s := Run(New(), events);
    forall i | 0 <= i < |s.promises| && s.promises[i].Open?
      ensures i in Ids(s.queue) + s.inFlight
    {
      QueuedIds(s, i);
    }
  }

  lemma {:induction false} AcceptedFlush(s: Client)
    requires !s.draining && !s.closed && s.child
    ensures var r := Flush(s, []);
            && r.queue == [] && r.sent == s.sent + s.queue && r.inFlight == s.inFlight + Ids(s.queue)
            && r.promises == s.promises && !r.draining && !r.closed && r.closes == s.closes
    decreases |s.queue|
  {
    if s.queue != [] {
      AcceptedFlush(SendHead(s));
      assert s.queue == [s.queue[0]] + s.queue[1..];
      assert Ids(s.queue) == {s.queue[0]} + Ids(s.queue[1..]);
      assert (s.sent + [s.queue[0]]) + s.queue[1..] == s.sent + s.queue;
    } else {
      assert Ids(s.queue) == {} && s.sent + s.queue == s.sent;
    }
  }

  /** A write to a live, accepting stdin is in flight at once, behind everything that waited. */
  lemma WriteGoesOut(s: Client)
    requires !s.draining && !s.closed && s.child
    ensures var r := Next(s, Write([]));
            && r.promises == s.promises + [Open] && r.queue == [] && |s.promises| in r.inFlight
            && r.sent == s.sent + s.queue + [|s.promises|]
  {
    var queued := s.(queue := s.queue + [|s.promises|], promises := s.promises + [Open]);
    AcceptedFlush(queued);
    assert |s.promises| in queued.queue;
    assert s.sent + (s.queue + [|s.promises|]) == (s.sent + s.queue) + [|s.promises|];
  }

  /** A write without a live child is refused and accepted by nobody. */
  lemma WriteWithoutChildRefused(s: Client, outs: seq<WriteOutcome>)
    requires s.closed || !s.child
    ensures Next(s, Write(outs)) == s
  {
  }

  /** When stdin drains, everything that waited is handed over in order. */
  lemma DrainResumes(s: Client)
    requires s.drainArmed && !s.closed && s.child
    ensures var r := Next(s, Drain([])); r.queue == [] && r.sent == s.sent + s.queue && !r.draining
  {
    AcceptedFlush(s.(draining := false, drainArmed := false));
  }

  /** A first start brings the child up, or closes the client when it cannot be spawned. */
  lemma StartBringsUpChild(s: Client, spawns: bool)
    requires !s.started
    ensures var r := Next(s, Start(spawns));
            && r.started
            && (if spawns then r.child && r.attached && r.closed == s.closed else r.closed && r.child == s.child)
  {
  }

  /** A full stdin takes one write and makes the rest wait. */
  lemma FullStdinWaits(s: Client)
    requires !s.draining && !s.closed && s.child && s.queue == []
    ensures var r := Next(Next(s, Write([Full])), Write([]));
            && r.draining && r.drainArmed && r.queue == [|s.promises| + 1] && r.sent == s.sent + [|s.promises|]
  {
    var queued := s.(queue := [|s.promises|], promises := s.promises + [Open]);
    assert s.queue + [|s.promises|] == [|s.promises|] && queued.queue[1..] == [];
    var full := SendHead(queued).(draining := true, drainArmed := true);
    assert Next(s, Write([Full])) == full;
    FlushWaits(full.(queue := full.queue + [|full.promises|], promises := full.promises + [Open]), []);
  }

  /** A thrown write rejects itself and everything outstanding, and closes the client. */
  lemma ThrownWriteRejects(events: seq<Event>)
    requires PossibleRun(New(), events)
    requires var s := Run(New(), events); !s.draining && !s.closed && s.child && s.queue == []
    ensures var s := Run(New(), events);
            var r := Next(s, Write([Threw]));
            && r.closed && r.closes == s.closes + 1 && |r.promises| == |s.promises| + 1 && r.sent == s.sent
            && forall i :: 0 <= i < |r.promises| ==> !r.promises[i].Open?
  {
    RunKeeps(New(), events);
    var s := Run(New(), events);
    var queued := s.(queue := s.queue + [|s.promises|], promises := s.promises + [Open]);
    WriteKeeps(s, [Threw]);
    ThrowKeepsOpen(queued);
  }

  lemma ThrowKeepsOpen(s: Client)
    requires Conserved(s) && InOrder(s) && s.started && !s.closed && s.child && !s.gaveUp && s.closes == 0
             && s.queue != []
    ensures var r := OnStdinError(Settle(s.(queue := s.queue[1..]), s.queue[0], Rejected));
            && r.closed && r.closes == 1 && |r.promises| == |s.promises|
            && forall i :: 0 <= i < |r.promises| ==> !r.promises[i].Open?
  {
    assert s.queue[0] == Taken(s);
    var settled := Settle(s.(queue := s.queue[1..]), s.queue[0], Rejected);
    StdinErrorKeeps(settled);
  }

  /** Stopping begins a teardown when a child is up, and detaches at once otherwise; the end of a teardown detaches. */
  lemma StopOutcome(s: Client)
    requires !s.stopping
    ensures var r := Next(s, Stop);
            if s.child && !s.closed then r == s.(stopping := true)
            else r.closed && !r.child && r.queue == s.queue && r.promises == s.promises && r.closes == s.closes
    ensures var r := Next(s.(stopping := true), TeardownEnds);
            r.closed && !r.child && r.queue == s.queue && r.promises == s.promises && r.closes == s.closes
            && (r.gaveUp <==> s.gaveUp || !s.closed)
  {
  }
}
