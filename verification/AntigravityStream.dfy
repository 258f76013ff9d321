/** The Antigravity client as an object, each handler proved to make the state machine's step. */
module AntigravityStream {
  import opened AntigravityClient

  lemma RejectOneMore(promises: seq<Promise>, ids: set<nat>, id: nat)
    requires id < |promises|
    ensures RejectThese(promises, ids + {id}) ==
            RejectThese(promises, ids)[id := AntigravityClient.Settled(RejectThese(promises, ids)[id], Rejected)]
  {
  }

  class Stream {
    var started: bool
    var child: bool
    var attached: bool
    var closed: bool
    var stopping: bool
    var draining: bool
    var drainArmed: bool
    var writeQueue: seq<nat>
    var writesInFlight: set<nat>
    var promises: seq<Promise>
    ghost var sent: seq<nat>
    ghost var closes: nat
    ghost var gaveUp: bool

    ghost function Abs(): (s: Client)
      reads this
    {
      Client(started, child, attached, closed, stopping, draining, drainArmed, writeQueue, writesInFlight, promises,
        sent, closes, gaveUp)
    }

    ghost predicate Valid()
      reads this
    {
      Inv(Abs())
    }

    /** Every queued or flying write has a promise. */
    ghost predicate Promised()
      reads this
    {
      && (forall i :: 0 <= i < |writeQueue| ==> writeQueue[i] < |promises|)
      && (forall id :: id in writesInFlight ==> id < |promises|)
    }

    constructor ()
      ensures Valid() && Abs() == New()
    {
      started, child, attached, closed, stopping, draining, drainArmed :=
        false, false, false, false, false, false, false;
      writeQueue, writesInFlight, promises, sent, closes, gaveUp := [], {}, [], [], 0, false;
    }

    method Start(spawns: bool) returns (ok: bool)
      requires Valid()
      modifies this
      ensures Valid() && Abs() == Next(old(Abs()), Event.Start(spawns)) && ok == !old(started)
    {
      NextKeeps(Abs(), Event.Start(spawns));
      ok := !started;
      if ok {
        started := true;
        if spawns {
          child, attached := true, true;
        } else {
          closed := true;
        }
      }
    }

    /** Reject what is queued, then what is in flight. */
    method RejectPendingWrites()
      requires Promised()
      modifies this`promises, this`writeQueue, this`writesInFlight
      ensures Abs() == AntigravityClient.RejectPendingWrites(old(Abs()))
    {
      ghost var before := Abs();
      var k := 0;
      assert RejectThese(promises, {}) == promises && Ids(writeQueue[..0]) == {};
      while k < |writeQueue|
        invariant 0 <= k <= |writeQueue| && writeQueue == before.queue && writesInFlight == before.inFlight
        invariant promises == RejectThese(before.promises, Ids(writeQueue[..k]))
      {
        RejectOneMore(before.promises, Ids(writeQueue[..k]), writeQueue[k]);
        assert Ids(writeQueue[..k + 1]) == Ids(writeQueue[..k]) + {writeQueue[k]};
        promises := promises[writeQueue[k] := AntigravityClient.Settled(promises[writeQueue[k]], Rejected)];
        k := k + 1;
      }
      assert writeQueue[..k] == writeQueue;
      writeQueue := [];
      var todo := writesInFlight;
      while todo != {}
        invariant todo <= before.inFlight && writesInFlight == before.inFlight && writeQueue == []
        invariant promises == RejectThese(before.promises, Ids(before.queue) + (before.inFlight - todo))
        decreases todo
      {
        var id :| id in todo;
        RejectOneMore(before.promises, Ids(before.queue) + (before.inFlight - todo), id);
        assert Ids(before.queue) + (before.inFlight - (todo - {id})) ==
               Ids(before.queue) + (before.inFlight - todo) + {id};
        promises := promises[id := AntigravityClient.Settled(promises[id], Rejected)];
        todo := todo - {id};
      }
      assert Ids(before.queue) + (before.inFlight - todo) == Ids(before.queue) + before.inFlight;
      writesInFlight := {};
    }

    method OnStdinError()
      requires Promised()
      modifies this
      ensures Abs() == AntigravityClient.OnStdinError(old(Abs()))
    {
      if closed {
        return;
      }
      RejectPendingWrites();
      draining, closed := false, true;
      closes := closes + 1;
    }

    method OnChildClose()
      requires Valid() && attached
      modifies this
      ensures Valid() && Abs() == Next(old(Abs()), ChildClose)
    {
      NextKeeps(Abs(), ChildClose);
      if closed {
        return;
      }
      closed := true;
      RejectPendingWrites();
      closes := closes + 1;
    }

    /** Hand the queue to stdin until it is empty, full, failing or closed. */
    method Flush(outs: seq<WriteOutcome>)
      requires Promised()
      modifies this
      ensures Abs() == AntigravityClient.Flush(old(Abs()), outs)
    {
      if draining || closed || !child {
        return;
      }
      ghost var before := Abs();
      var rest := outs;
      while writeQueue != []
        invariant Promised() && !draining && !closed && child
        invariant AntigravityClient.Flush(before, outs) == AntigravityClient.Flush(Abs(), rest)
        decreases |writeQueue|
      {
        var outcome := if rest == [] then Accepted else rest[0];
        rest := if rest == [] then [] else rest[1..];
        if outcome.Threw? {
          HeadThrows();
          return;
        }
        SendOne();
        if outcome.FailedInside? {
          OnStdinError();
          return;
        }
        if outcome.Full? {
          draining, drainArmed := true, true;
          return;
        }
      }
    }

    method SendOne()
      requires Promised() && writeQueue != []
      modifies this`writeQueue, this`writesInFlight, this`sent
      ensures Promised() && Abs() == SendHead(old(Abs()))
    {
      var head := writeQueue[0];
      writeQueue, writesInFlight := writeQueue[1..], writesInFlight + {head};
      sent := sent + [head];
    }

    /** A thrown write rejects its own promise and fails the stream. */
    method HeadThrows()
      requires Promised() && writeQueue != []
      modifies this
      ensures var popped := old(Abs()).(queue := old(writeQueue)[1..]);
              Abs() == AntigravityClient.OnStdinError(Settle(popped, old(writeQueue)[0], Rejected))
    {
      var head := writeQueue[0];
      writeQueue := writeQueue[1..];
      promises := promises[head := AntigravityClient.Settled(promises[head], Rejected)];
      OnStdinError();
    }

    /** Returns the number of the accepted write, or false when stdin is unavailable and the promise rejects at once. */
    method WriteAccepted(outs: seq<WriteOutcome>) returns (accepted: bool, id: nat)
      requires Valid()
      modifies this
      ensures Valid() && Abs() == Next(old(Abs()), Write(outs))
      ensures accepted == (!old(closed) && old(child)) && id == |old(promises)|
    {
      WriteKeeps(Abs(), outs);
      accepted, id := !closed && child, |promises|;
      if accepted {
        writeQueue := writeQueue + [id];
        promises := promises + [Open];
        Flush(outs);
      }
    }

    method OnWriteCallback(id: nat, failed: bool)
      requires Valid() && id in sent
      modifies this
      ensures Valid() && Abs() == Next(old(Abs()), WriteCallback(id, failed))
    {
      CallbackKeeps(Abs(), id, failed);
      writesInFlight := writesInFlight - {id};
      promises := promises[id := AntigravityClient.Settled(promises[id], if failed then Rejected else Fulfilled)];
      if failed {
        OnStdinError();
      }
    }

    method OnDrain(outs: seq<WriteOutcome>)
      requires Valid() && drainArmed
      modifies this
      ensures Valid() && Abs() == Next(old(Abs()), Drain(outs))
    {
      NextKeeps(Abs(), Drain(outs));
      draining, drainArmed := false, false;
      Flush(outs);
    }

    method Detach()
      modifies this`child, this`closed, this`attached
      ensures Abs() == AntigravityClient.Detach(old(Abs()))
    {
      var had := child;
      child, closed := false, true;
      if had {
        attached := false;
      }
    }

    method Stop()
      requires Valid()
      modifies this
      ensures Valid() && Abs() == Next(old(Abs()), Event.Stop)
    {
      NextKeeps(Abs(), Event.Stop);
      if stopping {
        return;
      }
      if !child || closed {
        Detach();
      } else {
        stopping := true;
      }
    }

    method OnTeardownEnds()
      requires Valid() && stopping
      modifies this
      ensures Valid() && Abs() == Next(old(Abs()), TeardownEnds)
    {
      NextKeeps(Abs(), TeardownEnds);
      gaveUp := gaveUp || !closed;
      Detach();
    }
  }
}
