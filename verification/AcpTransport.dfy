/**
  The ACP client as an object: fields changed in place by calls and event handlers, each
  proved to do what the state machine's step does.
 */
module AcpTransport {
  import opened Wrappers
  import opened AcpClient

  lemma DropOneMore(calls: seq<Call>, done: map<nat, Entry>, id: nat, entry: Entry)
    requires id !in done && entry.ticket < |calls|
    ensures DropCalls(calls, done[id := entry]) ==
            DropCalls(calls, done)[entry.ticket := Settled(DropCalls(calls, done)[entry.ticket], Dropped)]
  {
    var more := done[id := entry];
    assert more[id].ticket == entry.ticket;
    forall t | 0 <= t < |calls| && t != entry.ticket
      ensures Holds(more, t) <==> Holds(done, t)
    {
      if Holds(done, t) {
        var other :| other in done && done[other].ticket == t;
        assert more[other].ticket == t;
      }
    }
  }

  ghost predicate Ticketed(s: Client)
  {
    forall id :: id in s.pending ==> s.pending[id].ticket < |s.calls|
  }

  class Transport {
    var child: Option<nat>
    var spawned: nat
    var stopping: bool
    var nextId: nat
    var pending: map<nat, Entry>
    var timers: set<Timer>
    var attached: set<nat>
    var drainOn: Option<nat>
    var writes: seq<nat>
    var calls: seq<Call>
    ghost var lines: seq<Option<nat>>
    ghost var base: nat
    ghost var written: seq<nat>
    ghost var dropped: set<nat>
    ghost var lateWrite: bool
    ghost var wire: seq<(nat, nat)>
    var lineCount: nat

    ghost function Abs(): (s: Client)
      reads this
    {
      Client(child, spawned, stopping, nextId, pending, timers, attached, drainOn, writes, calls, lines, base,
        written, dropped, lateWrite, wire)
    }

    ghost predicate Valid()
      reads this
    {
      lineCount == |lines| && CallInv(Abs())
    }

    constructor ()
      ensures Valid() && Abs() == New()
    {
      child, spawned, stopping, nextId := None, 0, false, 1;
      pending, timers, attached, drainOn, writes := map[], {}, {}, None, [];
      calls, lines, base, written, dropped, lateWrite, wire := [], [], 0, [], {}, false, [];
      lineCount := 0;
    }

    /** Reject every pending promise and clear its timer, then forget them all. */
    method RejectPending()
      requires Ticketed(Abs())
      modifies this`pending, this`timers, this`calls
      ensures Abs() == AcpClient.RejectPending(old(Abs()))
    {
      ghost var before := Abs();
      var todo, done := pending.Keys, map[];
      assert DropCalls(calls, done) == calls;
      while todo != {}
        invariant todo <= pending.Keys && done == map id | id in pending && id !in todo :: pending[id]
        invariant pending == before.pending
        invariant calls == DropCalls(before.calls, done)
        invariant timers == before.timers - TimersOf(done)
        decreases todo
      {
        var id :| id in todo;
        var entry := pending[id];
        DropOneMore(before.calls, done, id, entry);
        TimersAfterIssue(done, id, entry);
        if entry.timed {
          timers := timers - {Timer(id, entry.ticket)};
        }
        calls := calls[entry.ticket := Settled(calls[entry.ticket], Dropped)];
        todo, done := todo - {id}, done[id := entry];
      }
      assert done == pending;
      pending := map[];
    }

    method Flush(outs: seq<WriteOutcome>)
      requires Valid()
      modifies this
      ensures Valid() && Abs() == AcpClient.Flush(old(Abs()), outs)
    {
      FlushKeeps(Abs(), outs);
      if drainOn.None? && child.Some? {
        WriteQueue(outs);
      }
    }

    /** Write the queue head by head; a full stdin or a thrown write ends the loop. */
    method WriteQueue(outs: seq<WriteOutcome>)
      requires lineCount == |lines| && Ticketed(Abs()) && drainOn.None? && child.Some?
      modifies this
      ensures lineCount == |lines| && Abs() == AcpClient.Flush(old(Abs()), outs)
    {
      ghost var before := Abs();
      var rest := outs;
      while writes != []
        invariant child.Some? && drainOn.None? && lineCount == |lines| && Ticketed(Abs())
        invariant AcpClient.Flush(before, outs) == AcpClient.Flush(Abs(), rest)
        decreases |writes|
      {
        ghost var s := Abs();
        var outcome := if rest == [] then Accepted else rest[0];
        rest := if rest == [] then [] else rest[1..];
        if outcome.Threw? {
          DropQueue();
          return;
        }
        WriteOne();
        if outcome.Full? {
          drainOn := child;
          return;
        }
      }
    }

    method WriteOne()
      requires child.Some? && writes != []
      modifies this`writes, this`written, this`wire, this`lateWrite
      ensures Abs() == WriteHead(old(Abs()))
    {
      lateWrite := lateWrite || dropped != {};
      written, wire := written + [writes[0]], wire + [(child.value, writes[0])];
      writes := writes[1..];
    }

    method DropQueue()
      requires Ticketed(Abs())
      modifies this`writes, this`dropped, this`pending, this`timers, this`calls
      ensures Abs() == AcpClient.RejectPending(old(Abs()).(dropped := old(dropped) + Ids(old(writes)), queue := []))
    {
      dropped := dropped + Ids(writes);
      writes := [];
      RejectPending();
    }

    method Enqueue(outs: seq<WriteOutcome>)
      requires Valid()
      modifies this
      ensures Valid() && Abs() == AcpClient.Enqueue(old(Abs()), outs)
    {
      writes, lines, lineCount := writes + [lineCount], lines + [child], lineCount + 1;
      Flush(outs);
    }

    /** `start`: refused while a child lives or is being stopped; otherwise spawn and send `initialize`. */
    method Start(outs: seq<WriteOutcome>) returns (ok: bool)
      requires Valid()
      modifies this
      ensures Valid() && Abs() == Next(old(Abs()), Event.Start(outs)) && ok == (old(child).None? && !old(stopping))
    {
      ok := child.None? && !stopping;
      if ok {
        SpawnChild();
        var _ := Request(true, outs);
      }
    }

    method SpawnChild()
      requires Valid() && child.None? && !stopping
      modifies this`child, this`attached, this`spawned
      ensures Valid() && Abs() == Spawn(old(Abs()))
    {
      SpawnKeeps(Abs());
      child, attached, spawned := Some(spawned), attached + {spawned}, spawned + 1;
    }

    /** Returns the ticket of the new promise, or None when there is no child and the call is rejected at once. */
    method Request(timed: bool, outs: seq<WriteOutcome>) returns (ticket: Option<nat>)
      requires Valid()
      modifies this
      ensures Valid() && Abs() == Next(old(Abs()), Event.Request(timed, outs))
      ensures ticket == if old(child).None? then None else Some(|old(calls)|)
    {
      if child.None? {
        return None;
      }
      ticket := Some(|calls|);
      AddCall(timed);
      Enqueue(outs);
    }

    method AddCall(timed: bool)
      requires Valid() && child.Some?
      modifies this
      ensures Valid() && Abs() == Issue(old(Abs()), timed)
    {
      IssueKeeps(Abs(), timed);
      var id, ticket := nextId, |calls|;
      nextId := nextId + 1;
      if timed {
        timers := timers + {Timer(id, ticket)};
      }
      pending := pending[id := Entry(ticket, timed)];
      calls := calls + [Call(child.value, id, Pending)];
      assert Abs() == Issue(old(Abs()), timed);
    }

    method Notify(outs: seq<WriteOutcome>)
      requires Valid()
      modifies this
      ensures Valid() && Abs() == Next(old(Abs()), Event.Notify(outs))
    {
      if child.Some? {
        Enqueue(outs);
      }
    }

    method Respond(outs: seq<WriteOutcome>)
      requires Valid()
      modifies this
      ensures Valid() && Abs() == Next(old(Abs()), Event.Respond(outs))
    {
      Enqueue(outs);
    }

    /** One framed line from an attached child. */
    method HandleLine(from: nat, record: Record) returns (kind: Kind)
      requires Valid() && from in attached
      modifies this`pending, this`timers, this`calls
      ensures Valid() && Abs() == Next(old(Abs()), Inbound(from, record)) && kind == Classify(record)
    {
      InboundKeeps(Abs(), from, record);
      kind := Classify(record);
      if kind.Response? && record.id.value.Some? && record.id.value.value in pending {
        Settle(from, record.id.value.value, !record.errorIsObject);
      }
    }

    method Settle(from: nat, id: nat, ok: bool)
      requires id in pending && pending[id].ticket < |calls|
      modifies this`pending, this`timers, this`calls
      ensures Abs() == AcpClient.Settle(old(Abs()), from, id, ok)
    {
      var entry := pending[id];
      pending := pending - {id};
      if entry.timed {
        timers := timers - {Timer(id, entry.ticket)};
      }
      calls := calls[entry.ticket := Settled(calls[entry.ticket], Answered(from, id, ok))];
    }

    method OnTimeout(timer: Timer)
      requires Valid() && timer in timers
      modifies this`pending, this`timers, this`calls
      ensures Valid() && Abs() == Next(old(Abs()), TimerFires(timer))
    {
      ExpireKeeps(Abs(), timer);
      timers := timers - {timer};
      pending := pending - {timer.id};
      calls := calls[timer.ticket := Settled(calls[timer.ticket], TimedOut)];
    }

    method OnDrain(from: nat, outs: seq<WriteOutcome>)
      requires Valid() && drainOn == Some(from)
      modifies this
      ensures Valid() && Abs() == Next(old(Abs()), Drain(from, outs))
    {
      drainOn := None;
      Flush(outs);
    }

    /** Reject, empty the queue, restart the numbering and drop the drain listener. */
    method ResetTransport()
      requires lineCount == |lines| && Ticketed(Abs())
      modifies this
      ensures lineCount == |lines| && Abs() == AcpClient.ResetTransport(old(Abs()))
    {
      RejectPending();
      writes, nextId, drainOn := [], 1, None;
      base, written, dropped, lateWrite := lineCount, [], {}, false;
    }

    method OnChildError(from: nat)
      requires Valid() && from in attached
      modifies this
      ensures Valid() && Abs() == Next(old(Abs()), ChildError(from))
    {
      RejectKeeps(Abs());
      RejectPending();
    }

    method OnClose(from: nat)
      requires Valid() && from in attached
      modifies this
      ensures Valid() && Abs() == Next(old(Abs()), Close(from)) && pending == map[]
    {
      CloseKeeps(Abs(), from);
      if child == Some(from) {
        child := None;
        ResetTransport();
        attached := attached - {from};
      }
      RejectPending();
    }

    /** `stop`: idempotent while a stop is under way; with a child, forget it first and terminate it afterwards. */
    method Stop()
      requires Valid()
      modifies this
      ensures Valid() && Abs() == Next(old(Abs()), Event.Stop)
    {
      StopKeeps(Abs());
      if stopping {
        return;
      }
      if child.None? {
        ResetTransport();
      } else {
        ForgetChild();
      }
    }

    /** Drop the live child, reset, and detach its listeners; its termination is under way. */
    method ForgetChild()
      requires lineCount == |lines| && Ticketed(Abs()) && child.Some?
      modifies this
      ensures lineCount == |lines|
      ensures Abs() == AcpClient.ResetTransport(old(Abs()).(child := None)).(
                attached := old(attached) - {old(child).value}, stopping := true)
    {
      var stopped := child.value;
      child := None;
      ResetTransport();
      attached, stopping := attached - {stopped}, true;
    }

    method OnTerminated()
      requires Valid()
      modifies this`stopping
      ensures Valid() && Abs() == Next(old(Abs()), Terminated)
    {
      stopping := false;
    }
  }
}
