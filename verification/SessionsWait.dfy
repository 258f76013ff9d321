/**
  `sessions.wait`: watch raw PTY output until a predicate holds, a byte budget runs out, a
  timer fires or the stream ends. Only a short suffix of the output is kept between frames.
 */
module SessionsWait {
  import opened Streams
  import opened Wrappers

  datatype Predicate = OutputText(value: string) | IdleMs(ms: nat)

  /** What the process can observe, in arrival order. */
  datatype Event = Frame(bytes: seq<byte>) | TimeoutFires | IdleFires | SocketCloses | SocketErrors

  datatype Outcome = Matched | Idle | MaxBytesExceeded | TimedOut | StreamClosed | StreamError

  function Min(a: int, b: int): (r: int)
  {
    if a <= b then a else b
  }

  /** The window kept between frames: at most one character less than the text searched for. */
  function RetainSuffix(window: string, value: string): (r: string)
    ensures |r| <= |window| && r == window[|window| - |r|..]
    ensures |r| == Min(|window|, if value == "" then 0 else |value| - 1)
  {
    var keep := if |value| >= 1 then |value| - 1 else 0;
    if keep == 0 then ""
    else if |window| <= keep then window
    else window[|window| - keep..]
  }

  // ---- Reference: judge the whole output received so far, with no window and no cutting ----

  function Received(events: seq<Event>): (r: seq<byte>)
  {
    if events == [] then []
    else (if events[0].Frame? then events[0].bytes else []) + Received(events[1..])
  }

  function Budgeted(bytes: seq<byte>, maxBytes: nat): (r: seq<byte>)
  {
    bytes[..Min(|bytes|, maxBytes)]
  }

  ghost predicate Found<S(!new)>(step: Decoder<S>, init: S, bytes: seq<byte>, maxBytes: nat, value: string)
  {
    Contains(Decode(step, init, Budgeted(bytes, maxBytes)).1, value)
  }

  /** A verdict on a complete output, with no notion of frames. */
  ghost function Judge<S(!new)>(step: Decoder<S>, init: S, goal: Predicate, maxBytes: nat,
                                output: seq<byte>): (r: Option<Outcome>)
  {
    if goal.OutputText? && Found(step, init, output, maxBytes, goal.value) then Some(Matched)
    else if |output| > maxBytes then Some(MaxBytesExceeded)
    else None
  }

  /** What the last of `events` decides when nothing earlier has: a verdict on everything received. */
  ghost function LastVerdict<S(!new)>(step: Decoder<S>, init: S, goal: Predicate, maxBytes: nat,
                                      events: seq<Event>): (r: Option<Outcome>)
    requires events != []
  {
    var all := Received(events);
    match events[|events| - 1]
    case Frame(_) => Judge(step, init, goal, maxBytes, all)
    case IdleFires => if goal.IdleMs? then Some(Idle) else None
    case TimeoutFires => Some(TimedOut)
    case SocketCloses => Some(StreamClosed)
    case SocketErrors => Some(StreamError)
  }

  /** The first verdict over all prefixes of the run. */
  ghost function FirstVerdict<S(!new)>(step: Decoder<S>, init: S, goal: Predicate, maxBytes: nat,
                                       events: seq<Event>): (r: Option<Outcome>)
  {
    if events == [] then None
    else
      var earlier := FirstVerdict(step, init, goal, maxBytes, events[..|events| - 1]);
      if earlier.Some? then earlier else LastVerdict(step, init, goal, maxBytes, events)
  }

  function Envelopes(verdict: Option<Outcome>): (r: seq<Outcome>)
  {
    if verdict.Some? then [verdict.value] else []
  }

  /** Bytes counted: everything received until the run settles, up to the budget. */
  ghost function ObservedBytes<S(!new)>(step: Decoder<S>, init: S, goal: Predicate, maxBytes: nat,
                                        events: seq<Event>): (r: nat)
  {
    if events == [] then 0
    else
      var before := events[..|events| - 1];
      if FirstVerdict(step, init, goal, maxBytes, before).Some?
      then ObservedBytes(step, init, goal, maxBytes, before)
      else Min(|Received(events)|, maxBytes)
  }

  // ---- The bounded window loses no match ----

  /** An occurrence in `text + more` that does not lie inside `text` starts inside the retained suffix. */
  lemma WindowFindsTheSame(text: string, more: string, value: string)
    requires !Contains(text, value)
    ensures Contains(RetainSuffix(text, value) + more, value) <==> Contains(text + more, value)
  {
    var window := RetainSuffix(text, value);
    var whole, skip := text + more, |text| - |window|;
    assert window + more == whole[skip..];
    if Contains(whole[skip..], value) {
      var i :| 0 <= i <= |whole[skip..]| - |value| && OccursAt(whole[skip..], value, i);
      OccursBehind(whole, value, skip, i);
      assert OccursAt(whole, value, skip + i);
    }
    if Contains(whole, value) {
      var i :| 0 <= i <= |whole| - |value| && OccursAt(whole, value, i);
      OccursInFront(text, more, value, i);
      assert i >= skip;
      OccursBehind(whole, value, skip, i - skip);
      assert OccursAt(whole[skip..], value, i - skip);
    }
  }

  lemma OccursBehind(whole: string, value: string, skip: nat, i: nat)
    requires skip + i + |value| <= |whole|
    ensures OccursAt(whole[skip..], value, i) <==> OccursAt(whole, value, skip + i)
  {
    assert whole[skip..][i..i + |value|] == whole[skip + i..skip + i + |value|];
  }

  /** An occurrence in the longer text that lies inside the shorter one occurs there. */
  lemma OccursInFront(text: string, more: string, value: string, i: nat)
    requires i + |value| <= |text + more| && OccursAt(text + more, value, i) && !Contains(text, value)
    ensures i + |value| > |text|
  {
    if i + |value| <= |text| {
      assert text[i..i + |value|] == (text + more)[i..i + |value|];
      assert OccursAt(text, value, i);
    }
  }

  lemma WindowVerdict(text: string, more: string, value: string)
    requires Contains(text, value) ==> value == ""
    ensures Contains(RetainSuffix(text, value) + more, value) <==> Contains(text + more, value)
  {
    if value == "" {
      assert OccursAt(RetainSuffix(text, value) + more, value, 0) && OccursAt(text + more, value, 0);
    } else {
      WindowFindsTheSame(text, more, value);
    }
  }

  lemma RetainAgain(text: string, more: string, value: string)
    ensures RetainSuffix(RetainSuffix(text, value) + more, value) == RetainSuffix(text + more, value)
  {
    var window := RetainSuffix(text, value);
    assert window + more == (text + more)[|text| - |window|..];
  }

  lemma {:induction false} ReceivedSnoc(events: seq<Event>, e: Event)
    ensures Received(events + [e]) == Received(events) + (if e.Frame? then e.bytes else [])
  {
    var added := if e.Frame? then e.bytes else [];
    if events == [] {
      assert events + [e] == [e] && [e][1..] == [];
      assert added + [] == added && [] + added == added;
    } else {
      var first := if events[0].Frame? then events[0].bytes else [];
      ReceivedSnoc(events[1..], e);
      assert (events + [e])[1..] == events[1..] + [e] && (events + [e])[0] == events[0];
      assert first + (Received(events[1..]) + added) == (first + Received(events[1..])) + added;
    }
  }

  /** What the loop keeps between frames: the decoder state and the retained window of the text received. */
  ghost predicate Tracks<S(!new)>(step: Decoder<S>, init: S, goal: Predicate, received: seq<byte>, decoder: S,
                                  window: string)
  {
    goal.OutputText? ==>
      var whole := Decode(step, init, received);
      && decoder == whole.0
      && window == RetainSuffix(whole.1, goal.value)
      && (Contains(whole.1, goal.value) ==> goal.value == "")
  }

  /** One frame: count and keep what fits the budget, search window plus new text, then shrink the window. */
  method ObserveFrame<S(!new)>(step: Decoder<S>, ghost init: S, goal: Predicate, maxBytes: nat,
                               ghost received: seq<byte>, frame: seq<byte>,
                               decoder: S, window: string, bytesObserved: nat)
    returns (decoder': S, window': string, bytesObserved': nat, truncated: bool, verdict: Option<Outcome>)
    requires Tracks(step, init, goal, received, decoder, window)
    requires bytesObserved == |received| <= maxBytes
    ensures verdict == Judge(step, init, goal, maxBytes, received + frame)
    ensures bytesObserved' == Min(|received + frame|, maxBytes)
    ensures truncated == (|received + frame| > maxBytes)
    ensures verdict.None? ==> Tracks(step, init, goal, received + frame, decoder', window')
  {
    var remaining := maxBytes - bytesObserved;
    truncated := |frame| > remaining;
    var observedFrame := if truncated then frame[..remaining] else frame;
    bytesObserved' := bytesObserved + |observedFrame|;
    decoder', window', verdict := decoder, window, None;
    assert Budgeted(received + frame, maxBytes) == received + observedFrame;
    if goal.OutputText? {
      var decoded := Decode(step, decoder, observedFrame);
      ghost var text := Decode(step, init, received).1;
      DecodeAppend(step, init, received, observedFrame);
      WindowVerdict(text, decoded.1, goal.value);
      RetainAgain(text, decoded.1, goal.value);
      decoder', window' := decoded.0, window + decoded.1;
      if Contains(window', goal.value) {
        verdict := Some(Matched);
        return;
      }
      window' := RetainSuffix(window', goal.value);
    }
    if truncated {
      verdict := Some(MaxBytesExceeded);
    }
  }

  /** One event, while nothing has been reported yet. */
  method HandleEvent<S(!new)>(step: Decoder<S>, ghost init: S, goal: Predicate, maxBytes: nat, ghost seen: seq<Event>,
                              e: Event, decoder: S, window: string, bytesObserved: nat)
    returns (decoder': S, window': string, bytesObserved': nat, truncated: bool, verdict: Option<Outcome>)
    requires Tracks(step, init, goal, Received(seen), decoder, window)
    requires bytesObserved == |Received(seen)| <= maxBytes
    ensures verdict == LastVerdict(step, init, goal, maxBytes, seen + [e])
    ensures bytesObserved' == Min(|Received(seen + [e])|, maxBytes)
    ensures truncated ==> bytesObserved' == maxBytes && verdict.Some?
    ensures verdict.None? ==>
              && bytesObserved' == |Received(seen + [e])|
              && Tracks(step, init, goal, Received(seen + [e]), decoder', window')
  {
    ReceivedSnoc(seen, e);
    decoder', window', bytesObserved', truncated, verdict := decoder, window, bytesObserved, false, None;
    if e.Frame? {
      decoder', window', bytesObserved', truncated, verdict :=
        ObserveFrame(step, init, goal, maxBytes, Received(seen), e.bytes, decoder, window, bytesObserved);
    } else {
      assert Received(seen) + [] == Received(seen);
      match e {
        case IdleFires => verdict := if goal.IdleMs? then Some(Idle) else None;
        case TimeoutFires => verdict := Some(TimedOut);
        case SocketCloses => verdict := Some(StreamClosed);
        case SocketErrors => verdict := Some(StreamError);
      }
    }
  }

  lemma VerdictSnoc<S(!new)>(step: Decoder<S>, init: S, goal: Predicate, maxBytes: nat, events: seq<Event>, e: Event)
    ensures var earlier := FirstVerdict(step, init, goal, maxBytes, events);
            && FirstVerdict(step, init, goal, maxBytes, events + [e]) ==
               (if earlier.Some? then earlier else LastVerdict(step, init, goal, maxBytes, events + [e]))
            && ObservedBytes(step, init, goal, maxBytes, events + [e]) ==
               (if earlier.Some? then ObservedBytes(step, init, goal, maxBytes, events)
                else Min(|Received(events + [e])|, maxBytes))
  {
    assert (events + [e])[..|events|] == events;
  }

  /** The loop's variables: what has been printed and counted, and what is kept for the next frame. */
  datatype Watch<S> = Watch(reported: seq<Outcome>, bytesObserved: nat, truncated: bool, decoder: S, window: string)

  /** After `seen`, the loop has reported, counted and kept what the reference says. */
  ghost predicate Follows<S(!new)>(step: Decoder<S>, init: S, goal: Predicate, maxBytes: nat, seen: seq<Event>,
                                   w: Watch<S>)
  {
    && w.reported == Envelopes(FirstVerdict(step, init, goal, maxBytes, seen))
    && w.bytesObserved == ObservedBytes(step, init, goal, maxBytes, seen) <= maxBytes
    && (w.truncated ==> w.bytesObserved == maxBytes && w.reported != [])
    && (w.reported == [] ==>
        |Received(seen)| == w.bytesObserved && Tracks(step, init, goal, Received(seen), w.decoder, w.window))
  }

  lemma FollowsNothing<S(!new)>(step: Decoder<S>, init: S, goal: Predicate, maxBytes: nat)
    ensures Follows(step, init, goal, maxBytes, [], Watch([], 0, false, init, ""))
  {
    assert Decode(step, init, []) == (init, "");
  }

  /** Nothing is handled once an envelope is out. */
  method Advance<S(!new)>(step: Decoder<S>, ghost init: S, goal: Predicate, maxBytes: nat, ghost seen: seq<Event>,
                          e: Event, w: Watch<S>)
    returns (w': Watch<S>)
    requires Follows(step, init, goal, maxBytes, seen, w)
    ensures Follows(step, init, goal, maxBytes, seen + [e], w')
  {
    VerdictSnoc(step, init, goal, maxBytes, seen, e);
    w' := w;
    if w.reported == [] {
      var decoder, window, bytesObserved, truncated, verdict :=
        HandleEvent(step, init, goal, maxBytes, seen, e, w.decoder, w.window, w.bytesObserved);
      w' := Watch(Envelopes(verdict), bytesObserved, truncated, decoder, window);
    }
  }

  /**
    The event loop. `reported` lists every envelope printed.
    Every cut of the same output into frames goes through the same reference verdict.
   */
  method Wait<S(!new)>(step: Decoder<S>, init: S, goal: Predicate, maxBytes: nat, events: seq<Event>)
    returns (reported: seq<Outcome>, bytesObserved: nat, truncated: bool)
    ensures match FirstVerdict(step, init, goal, maxBytes, events)
            case None => reported == []
            case Some(outcome) => reported == [outcome]
    ensures bytesObserved == ObservedBytes(step, init, goal, maxBytes, events) <= maxBytes
    ensures truncated ==> bytesObserved == maxBytes && reported != []
  {
    var w := Watch([], 0, false, init, "");
    var k := 0;
    ghost var seen: seq<Event> := [];
    FollowsNothing(step, init, goal, maxBytes);
    while k < |events|
      invariant 0 <= k <= |events| && seen == events[..k]
      invariant Follows(step, init, goal, maxBytes, seen, w)
    {
      w := Advance(step, init, goal, maxBytes, seen, events[k], w);
      seen := seen + [events[k]];
      k := k + 1;
    }
    assert seen == events;
    reported, bytesObserved, truncated := w.reported, w.bytesObserved, w.truncated;
  }

  // ---- Verdicts depend on the bytes, not on how they were cut into frames ----

  function Frames(cut: seq<seq<byte>>): (r: seq<Event>)
    ensures |r| == |cut| && forall i :: 0 <= i < |cut| ==> r[i] == Frame(cut[i])
  {
    seq(|cut|, i requires 0 <= i < |cut| => Frame(cut[i]))
  }

  /** Once a prefix of the output has a verdict, more output cannot change it. */
  lemma VerdictIsStable<S(!new)>(step: Decoder<S>, init: S, goal: Predicate, maxBytes: nat, output: seq<byte>,
                                 more: seq<byte>)
    requires Judge(step, init, goal, maxBytes, output).Some?
    ensures Judge(step, init, goal, maxBytes, output + more) == Judge(step, init, goal, maxBytes, output)
  {
    var b0, b1 := Budgeted(output, maxBytes), Budgeted(output + more, maxBytes);
    assert b1 == b0 + b1[|b0|..];
    DecodeAppend(step, init, b0, b1[|b0|..]);
    if goal.OutputText? && Found(step, init, output, maxBytes, goal.value) {
      ContainsInExtension(Decode(step, init, b0).1, Decode(step, Decode(step, init, b0).0, b1[|b0|..]).1, goal.value);
    } else {
      assert b1 == b0;
    }
  }

  lemma {:induction false} ReceivedFrames(cut: seq<seq<byte>>)
    ensures Received(Frames(cut)) == Concat(cut)
  {
    if cut != [] {
      ReceivedFrames(cut[1..]);
      assert Frames(cut)[1..] == Frames(cut[1..]);
    }
  }

  /** However the output is cut into (at least one) frames, the run settles as `Judge` says of the whole output. */
  lemma {:induction false} CutIndependence<S(!new)>(step: Decoder<S>, init: S, goal: Predicate, maxBytes: nat,
                                                    cut: seq<seq<byte>>)
    requires cut != []
    ensures FirstVerdict(step, init, goal, maxBytes, Frames(cut)) == Judge(step, init, goal, maxBytes, Concat(cut))
  {
    var before, last := cut[..|cut| - 1], cut[|cut| - 1];
    ReceivedFrames(cut);
    assert cut == before + [last];
    ConcatSnoc(before, last);
    assert Frames(cut) == Frames(before) + [Frame(last)];
    VerdictSnoc(step, init, goal, maxBytes, Frames(before), Frame(last));
    if before != [] {
      CutIndependence(step, init, goal, maxBytes, before);
      if Judge(step, init, goal, maxBytes, Concat(before)).Some? {
        VerdictIsStable(step, init, goal, maxBytes, Concat(before), last);
      }
    }
  }

  /**
    That is: a match exactly if the first `maxBytes` bytes decode to text with the value in it, else too much output
    or nothing.
   */
  lemma OutputDecides<S(!new)>(step: Decoder<S>, init: S, goal: Predicate, maxBytes: nat, cut: seq<seq<byte>>)
    requires cut != []
    ensures var output := Concat(cut);
            var seen := output[..if |output| < maxBytes then |output| else maxBytes];
            var found := goal.OutputText? && Contains(Decode(step, init, seen).1, goal.value);
            FirstVerdict(step, init, goal, maxBytes, Frames(cut)) ==
            if found then Some(Matched) else if |output| > maxBytes then Some(MaxBytesExceeded) else None
  {
    CutIndependence(step, init, goal, maxBytes, cut);
  }

  // ---- Timers and the socket ----

  /** What settles a run that no frame has settled. */
  lemma OtherOutcomes<S(!new)>(step: Decoder<S>, init: S, goal: Predicate, maxBytes: nat, events: seq<Event>, e: Event)
    requires FirstVerdict(step, init, goal, maxBytes, events) == None && !e.Frame?
    ensures var verdict := FirstVerdict(step, init, goal, maxBytes, events + [e]);
            match e
            case TimeoutFires => verdict == Some(TimedOut)
            case SocketCloses => verdict == Some(StreamClosed)
            case SocketErrors => verdict == Some(StreamError)
            case IdleFires => verdict == if goal.IdleMs? then Some(Idle) else None
  {
    VerdictSnoc(step, init, goal, maxBytes, events, e);
  }

  /** Whatever comes after a verdict changes nothing. */
  lemma {:induction false} FirstVerdictStands<S(!new)>(step: Decoder<S>, init: S, goal: Predicate, maxBytes: nat,
                                                       events: seq<Event>, n: nat)
    requires n <= |events| && FirstVerdict(step, init, goal, maxBytes, events[..n]).Some?
    ensures FirstVerdict(step, init, goal, maxBytes, events) == FirstVerdict(step, init, goal, maxBytes, events[..n])
    ensures ObservedBytes(step, init, goal, maxBytes, events) == ObservedBytes(step, init, goal, maxBytes, events[..n])
    decreases |events|
  {
    if n == |events| {
      assert events[..n] == events;
    } else {
      var front := events[..|events| - 1];
      assert front[..n] == events[..n];
      FirstVerdictStands(step, init, goal, maxBytes, front, n);
    }
  }

  /** Until something settles the run, every byte received is counted; the frame that does counts up to the budget. */
  lemma {:induction false} BytesCounted<S(!new)>(step: Decoder<S>, init: S, goal: Predicate, maxBytes: nat,
                                                 events: seq<Event>, e: Event)
    requires FirstVerdict(step, init, goal, maxBytes, events) == None
    ensures ObservedBytes(step, init, goal, maxBytes, events) == |Received(events)| <= maxBytes
    ensures var all := |Received(events)| + (if e.Frame? then |e.bytes| else 0);
            ObservedBytes(step, init, goal, maxBytes, events + [e]) == if all <= maxBytes then all else maxBytes
    decreases |events|
  {
    if events != [] {
      var front, last := events[..|events| - 1], events[|events| - 1];
      assert events == front + [last];
      VerdictSnoc(step, init, goal, maxBytes, front, last);
      BytesCounted(step, init, goal, maxBytes, front, last);
      ReceivedSnoc(front, last);
    }
    VerdictSnoc(step, init, goal, maxBytes, events, e);
    ReceivedSnoc(events, e);
  }
}
