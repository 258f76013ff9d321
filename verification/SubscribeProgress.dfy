/** When a subscription goes on, when it may end, and that it gets everything across breaks. */
module SubscribeProgress {
  import opened Streams
  import opened Wrappers
  import opened Ndjson
  import opened ChannelSubscribe

  // ---- When a run may end ----

  /** A line that closes the stream for now. */
  predicate RetryableClose(config: Config, line: string)
  {
    line != "" && config.parse(line).Value? && config.parse(line).frame.kind.Closed?
      && config.parse(line).frame.retryable
  }

  /** With attempts left, the callback asks to resume exactly if it was handed a retryable close. */
  lemma {:induction false} ResumeAskedIff(config: Config, attempts: nat, c: Session, lines: seq<string>)
    requires !c.shouldResume && attempts < MAX_RECONNECT_ATTEMPTS
    ensures var r := Feed(LineHandler(config, attempts), c, lines);
            r.0.shouldResume <==> exists i :: 0 <= i < r.1 && RetryableClose(config, Trim(lines[i]))
    decreases |lines|
  {
    if lines != [] {
      var first := OnLine(config, attempts, c, Trim(lines[0]));
      var r := Feed(LineHandler(config, attempts), c, lines);
      if first.1.Continue? {
        var rest := Feed(LineHandler(config, attempts), first.0, lines[1..]);
        ResumeAskedIff(config, attempts, first.0, lines[1..]);
        if j :| 0 <= j < rest.1 && RetryableClose(config, Trim(lines[1..][j])) {
          assert RetryableClose(config, Trim(lines[j + 1]));
        }
        if i :| 0 <= i < r.1 && RetryableClose(config, Trim(lines[i])) {
          assert RetryableClose(config, Trim(lines[1..][i - 1]));
        }
      } else {
        assert RetryableClose(config, Trim(lines[0])) <==> first.0.shouldResume;
      }
    }
  }

  /** What the callback made of a connection's lines: how many it was handed, and whether reading ended in an error. */
  function Handed<S>(d: Decoding<S>, config: Config, attempts: nat, s: Session,
                     connection: Connection): (r: (nat, bool))
    requires connection.Stream?
  {
    var lines := Offered(d.step, d.flush, d.init, connection.chunks, connection.ending);
    var fed := Feed(LineHandler(config, attempts), s.(shouldResume := false), lines);
    (fed.1, fed.2.Throw? || (fed.2.Continue? && connection.ending.ReadError?))
  }

  predicate HandedClose<S>(d: Decoding<S>, config: Config, attempts: nat, s: Session, connection: Connection)
    requires connection.Stream?
  {
    var lines := Offered(d.step, d.flush, d.init, connection.chunks, connection.ending);
    exists i :: 0 <= i < Handed(d, config, attempts, s, connection).0 && RetryableClose(config, Trim(lines[i]))
  }

  lemma BreakResumes<S(!new)>(d: Decoding<S>, config: Config, attempts: nat, s: Session, connection: Connection)
    requires connection.Stream? && attempts < MAX_RECONNECT_ATTEMPTS
    requires Handed(d, config, attempts, s, connection).1 || HandedClose(d, config, attempts, s, connection)
    ensures var read := Read(d, config, attempts, s, connection); !read.0.aborted && !read.0.normalClose ==> read.1
  {
    var lines := Offered(d.step, d.flush, d.init, connection.chunks, connection.ending);
    ResumeAskedIff(config, attempts, s.(shouldResume := false), lines);
  }

  /**
    A connection that breaks or hands on a retryable close, with attempts left, unaborted, not closed for good and
    within the budget, is followed by another one from the last durable number once the notice is out.
   */
  lemma BreakIsFollowed<S(!new)>(w: World, d: Decoding<S>, attempts: nat, cursor: Option<int>, s: Session)
    requires Fits(w, d)
    requires !s.aborted && !s.normalClose && !EnoughEvents(w.config, s) && attempts < MAX_RECONNECT_ATTEMPTS
    requires w.hub(attempts, cursor).Stream?
    requires Handed(d, w.config, attempts, s, w.hub(attempts, cursor)).1
             || HandedClose(d, w.config, attempts, s, w.hub(attempts, cursor))
    ensures var read := Read(d, w.config, attempts, s, w.hub(attempts, cursor)).0;
            var fit := !read.aborted && !read.normalClose && !EnoughEvents(w.config, read);
            fit && w.config.stdout(read.writes).Accepted? ==>
              var notice := Resumed(read.lastDurableSeq, attempts + 1);
              RunFrom(w, attempts, cursor, s) ==
              RunFrom(w, attempts + 1, Some(read.lastDurableSeq),
                      read.(writes := read.writes + 1, log := read.log + [notice],
                            aborted := w.abortedAsleep(attempts + 1)))
  {
    assert Looking(attempts, s, w.hub(attempts, cursor));
    BreakResumes(d, w.config, attempts, s, w.hub(attempts, cursor));
    NextRound(w, attempts, cursor, s);
  }

  /** So is a refusal that may be retried, from the same place. */
  lemma RefusalIsFollowed(w: World, attempts: nat, cursor: Option<int>, s: Session)
    requires !s.aborted && !s.normalClose && !EnoughEvents(w.config, s) && attempts < MAX_RECONNECT_ATTEMPTS
    requires w.hub(attempts, cursor) == Refused(true, false)
    ensures RunFrom(w, attempts, cursor, s) ==
            RunFrom(w, attempts + 1, cursor, s.(aborted := w.abortedAsleep(attempts + 1)))
  {
  }

  /** Why a run stopped at a connection, given the session it was read with. */
  ghost predicate EndsHere<S>(w: World, d: Decoding<S>, attempts: nat, cursor: Option<int>, s: Session)
  {
    match w.hub(attempts, cursor)
    case Refused(retryable, _) => !retryable || attempts == MAX_RECONNECT_ATTEMPTS
    case Stream(_, ending, _) =>
      var connection := w.hub(attempts, cursor);
      var read := Read(d, w.config, attempts, s, connection).0;
      || attempts == MAX_RECONNECT_ATTEMPTS
      || !w.config.stdout(read.writes).Accepted?
      || (&& ending == Eof && !Handed(d, w.config, attempts, s, connection).1
          && !HandedClose(d, w.config, attempts, s, connection))
  }

  lemma QuietEnd<S(!new)>(w: World, d: Decoding<S>, attempts: nat, cursor: Option<int>, s: Session)
    requires Fits(w, d) && attempts <= MAX_RECONNECT_ATTEMPTS
    ensures var round := Round(w, attempts, cursor, s);
            !round.1 && !round.0.aborted && !round.0.normalClose ==> EndsHere(w, d, attempts, cursor, s)
  {
    var connection := w.hub(attempts, cursor);
    if connection.Stream? && attempts < MAX_RECONNECT_ATTEMPTS {
      assert Looking(attempts, s, connection);
      var lines := Offered(d.step, d.flush, d.init, connection.chunks, connection.ending);
      ResumeAskedIff(w.config, attempts, s.(shouldResume := false), lines);
      StopHasReason(w.config, attempts, s.(shouldResume := false), lines);
    }
  }

  /** A callback that stops the reading asks to resume, or the run is aborted. */
  lemma {:induction false} StopHasReason(config: Config, attempts: nat, c: Session, lines: seq<string>)
    ensures var fed := Feed(LineHandler(config, attempts), c, lines);
            fed.2.Stop? ==> fed.0.shouldResume || fed.0.aborted
    decreases |lines|
  {
    if lines != [] {
      var first := OnLine(config, attempts, c, Trim(lines[0]));
      if first.1.Continue? {
        StopHasReason(config, attempts, first.0, lines[1..]);
      }
    }
  }

  /**
    A run ends only because it was aborted or closed for good (the event budget closes it too), was refused without
    retry, used up its attempts, could not announce the resumption, or its last connection came to a clean end without
    a retryable close. Attempt last, from cursor from with session before, is the one the run reached.
   */
  lemma {:induction false} RunEndsOnlyIf<S(!new)>(w: World, d: Decoding<S>, attempts: nat, cursor: Option<int>,
                                                  s: Session)
      returns (last: nat, from: Option<int>, before: Session)
    requires Fits(w, d) && attempts <= MAX_RECONNECT_ATTEMPTS && !s.aborted && !s.normalClose
    ensures attempts <= last <= MAX_RECONNECT_ATTEMPTS && !before.aborted && !before.normalClose
    ensures RunFrom(w, attempts, cursor, s) == RunFrom(w, last, from, before)
    ensures var (end, connections) := RunFrom(w, attempts, cursor, s);
            end.aborted || end.normalClose || (connections == last + 1 && EndsHere(w, d, last, from, before))
    decreases MAX_RECONNECT_ATTEMPTS - attempts
  {
    last, from, before := attempts, cursor, s;
    if !EnoughEvents(w.config, s) {
      var round := Round(w, attempts, cursor, s);
      QuietEnd(w, d, attempts, cursor, s);
      NextRound(w, attempts, cursor, s);
      if round.1 && attempts < MAX_RECONNECT_ATTEMPTS {
        var next := round.0.(aborted := w.abortedAsleep(attempts + 1));
        if !next.aborted && !next.normalClose {
          last, from, before :=
            RunEndsOnlyIf(w, d, attempts + 1, if round.2 then Some(round.0.lastDurableSeq) else cursor, next);
        }
      }
    }
  }

  // ---- Everything arrives ----

  /** A stdout that takes everything, and no budget. */
  ghost predicate Willing(config: Config)
  {
    (forall i :: config.stdout(i).Accepted?) && config.maxEvents.None?
  }

  /** What one frame does to a willing run. */
  lemma FrameEffect(config: Config, attempts: nat, c: Session, line: string, f: Frame)
    requires Willing(config) && line != "" && config.parse(line) == Value(f) && f.durableSeq.Some?
    ensures var r := OnLine(config, attempts, c, line);
            && r.0.lastDurableSeq == f.durableSeq.value && r.0.aborted == c.aborted
            && if f.kind.Closed? && f.retryable && attempts < MAX_RECONNECT_ATTEMPTS
               then r.1.Stop? && r.0.shouldResume && r.0.log == c.log && r.0.normalClose == c.normalClose
               else
                 && r.1.Continue? && r.0.shouldResume == c.shouldResume && r.0.log == c.log + [Delivered(f)]
                 && (!f.kind.Closed? ==> r.0.normalClose == c.normalClose)
  {
  }

  predicate HasClose(frames: seq<Frame>)
  {
    exists i :: 0 <= i < |frames| && frames[i].kind.Closed?
  }

  /** Every close invites to come back. */
  predicate OnlyRetryable(frames: seq<Frame>)
  {
    forall i :: 0 <= i < |frames| && frames[i].kind.Closed? ==> frames[i].retryable
  }

  /** No close does. */
  predicate NoneRetryable(frames: seq<Frame>)
  {
    forall i :: 0 <= i < |frames| && frames[i].kind.Closed? ==> !frames[i].retryable
  }

  /** The cursor after the frames. */
  function EndSeq(frames: seq<Frame>, d: int): (r: int)
    requires HubFrames(frames, d)
    ensures d <= r
    decreases |frames|
  {
    if frames == [] then d else EndSeq(frames[1..], frames[0].durableSeq.value)
  }

  /** A willing run that is still on its way. */
  ghost predicate OnItsWay(c: Session, start: int)
  {
    Seamless(c, start) && NoneDropped(c.log) && !c.aborted
  }

  lemma FrameOnItsWay(config: Config, encode: Frame -> string, attempts: nat, c: Session, start: int,
                      frames: seq<Frame>)
    requires Willing(config) && frames != [] && RoundTrip(encode, config.parse, frames[0])
    requires HubFrames(frames, c.lastDurableSeq) && OnItsWay(c, start)
    ensures var r := OnLine(config, attempts, c, encode(frames[0])).0;
            OnItsWay(r, start) && r.lastDurableSeq == frames[0].durableSeq.value
  {
    FrameKeepsSeamless(config, encode, attempts, c, start, frames);
    FrameEffect(config, attempts, c, encode(frames[0]), frames[0]);
  }

  /** Frames that only close to come back: all handed on, or up to the first close, which asks to resume. */
  lemma {:induction false} FeedUpToClose(config: Config, encode: Frame -> string, attempts: nat, c: Session, start: int,
                                         frames: seq<Frame>, k: nat)
    requires Willing(config) && (forall f: Frame :: RoundTrip(encode, config.parse, f)) && k <= |frames|
    requires HubFrames(frames, c.lastDurableSeq) && OnlyRetryable(frames) && attempts < MAX_RECONNECT_ATTEMPTS
    requires OnItsWay(c, start) && !c.normalClose
    ensures var r := Feed(LineHandler(config, attempts), c, Encoded(encode, frames[..k]));
            && OnItsWay(r.0, start) && !r.0.normalClose
            && r.0.lastDurableSeq <= EndSeq(frames, c.lastDurableSeq)
            && (if HasClose(frames[..k]) then r.2.Stop? && r.0.shouldResume else r.2.Continue?)
    decreases k
  {
    if k > 0 {
      assert RoundTrip(encode, config.parse, frames[0]);
      FirstFrame(config, encode, attempts, c, start, frames, k);
      CloseInRest(frames, k);
      if !frames[0].kind.Closed? {
        var first := OnLine(config, attempts, c, encode(frames[0])).0;
        FeedUpToClose(config, encode, attempts, first, start, frames[1..], k - 1);
      }
    }
  }

  /** The first of several frames: a retryable close stops the feeding, anything else passes it on. */
  lemma FirstFrame(config: Config, encode: Frame -> string, attempts: nat, c: Session, start: int, frames: seq<Frame>,
                   k: nat)
    requires Willing(config) && 0 < k <= |frames| && RoundTrip(encode, config.parse, frames[0])
    requires HubFrames(frames, c.lastDurableSeq) && OnItsWay(c, start)
    ensures var first := OnLine(config, attempts, c, encode(frames[0])).0;
            var r := Feed(LineHandler(config, attempts), c, Encoded(encode, frames[..k]));
            var rest := Feed(LineHandler(config, attempts), first, Encoded(encode, frames[1..][..k - 1]));
            && OnItsWay(first, start) && first.lastDurableSeq == frames[0].durableSeq.value
            && (!frames[0].kind.Closed? || (frames[0].retryable && attempts < MAX_RECONNECT_ATTEMPTS) ==>
                  first.normalClose == c.normalClose)
            && if frames[0].kind.Closed? && frames[0].retryable && attempts < MAX_RECONNECT_ATTEMPTS
               then r.0 == first && r.2.Stop? && first.shouldResume
               else r.0 == rest.0 && r.2 == rest.2 && first.shouldResume == c.shouldResume
  {
    FrameOnItsWay(config, encode, attempts, c, start, frames);
    FrameEffect(config, attempts, c, encode(frames[0]), frames[0]);
    FirstLineFed(config, encode, attempts, c, frames, k);
  }

  lemma FirstLineFed(config: Config, encode: Frame -> string, attempts: nat, c: Session, frames: seq<Frame>, k: nat)
    requires 0 < k <= |frames| && Trim(encode(frames[0])) == encode(frames[0])
    ensures var first := OnLine(config, attempts, c, encode(frames[0]));
            var r := Feed(LineHandler(config, attempts), c, Encoded(encode, frames[..k]));
            var rest := Feed(LineHandler(config, attempts), first.0, Encoded(encode, frames[1..][..k - 1]));
            if first.1.Continue? then r.0 == rest.0 && r.2 == rest.2 else r.0 == first.0 && r.2 == first.1
  {
    var line, rest := encode(frames[0]), Encoded(encode, frames[1..][..k - 1]);
    assert Encoded(encode, frames[..k]) == [line] + rest;
    FeedFirst(config, attempts, c, line, rest);
  }

  lemma CloseInRest(frames: seq<Frame>, k: nat)
    requires 0 < k <= |frames|
    ensures HasClose(frames[..k]) <==> frames[0].kind.Closed? || HasClose(frames[1..][..k - 1])
  {
    var some, rest := frames[..k], frames[1..][..k - 1];
    assert some == [frames[0]] + rest;
    if i :| 0 <= i < |rest| && rest[i].kind.Closed? {
      assert some[i + 1].kind.Closed?;
    }
    if i :| 0 <= i < |some| && some[i].kind.Closed? {
      assert i > 0 ==> rest[i - 1].kind.Closed?;
    }
    assert some[0] == frames[0];
  }

  /** Frames without a retryable close are all handed on and written. */
  lemma {:induction false} FeedAllFrames(config: Config, encode: Frame -> string, attempts: nat, c: Session, start: int,
                                         frames: seq<Frame>)
    requires Willing(config) && (forall f: Frame :: RoundTrip(encode, config.parse, f))
    requires HubFrames(frames, c.lastDurableSeq) && NoneRetryable(frames) && OnItsWay(c, start) && !c.shouldResume
    ensures var r := Feed(LineHandler(config, attempts), c, Encoded(encode, frames));
            && OnItsWay(r.0, start) && !r.0.shouldResume && r.2.Continue?
            && r.0.lastDurableSeq == EndSeq(frames, c.lastDurableSeq)
    decreases |frames|
  {
    if frames != [] {
      assert RoundTrip(encode, config.parse, frames[0]);
      FirstFrame(config, encode, attempts, c, start, frames, |frames|);
      assert frames[..|frames|] == frames && frames[1..][..|frames| - 1] == frames[1..];
      FeedAllFrames(config, encode, attempts, OnLine(config, attempts, c, encode(frames[0])).0, start, frames[1..]);
    }
  }

  lemma {:induction false} WholeWire(encode: Frame -> string, frames: seq<Frame>)
    requires forall f: Frame :: NewlineFree(encode(f))
    ensures Lines(Wire(encode, frames)) == Encoded(encode, frames) && Tail(Wire(encode, frames)) == ""
  {
    if frames != [] {
      var head, rest := encode(frames[0]), Wire(encode, frames[1..]);
      var text := Wire(encode, frames);
      assert NewlineFree(head);
      assert text == head + ("\n" + rest);
      assert text[..|head|] == head && text[|head|] == '\n' && text[|head| + 1..] == rest;
      FirstLine(text, |head|);
      WholeWire(encode, frames[1..]);
      assert Encoded(encode, frames) == [head] + Encoded(encode, frames[1..]);
    }
  }

  /** The hub's promises: its frames, its encoding. */
  datatype Promise = Promise(encode: Frame -> string, bytesOf: string -> seq<byte>, script: (nat, int) -> seq<Frame>)

  ghost predicate Sound<S(!new)>(w: World, d: Decoding<S>, p: Promise)
  {
    && Codec(p.encode, w.config.parse, d.flush) && Transcodes(d.step, d.init, p.bytesOf)
    && Fits(w, d) && Willing(w.config) && (forall a :: !w.abortedAsleep(a))
  }

  /** Attempt a from cursor d is refused for now, or breaks off, or ends with a close that invites to come back. */
  ghost predicate Interrupted(w: World, p: Promise, a: nat, d: int, target: int)
  {
    match w.hub(a, Some(d))
    case Refused(retryable, aborted) => retryable && !aborted
    case Stream(chunks, ending, aborted) =>
      var frames := p.script(a, d);
      && !aborted && HubFrames(frames, d) && EndSeq(frames, d) <= target && OnlyRetryable(frames)
      && Concat(chunks) <= p.bytesOf(Wire(p.encode, frames))
      && (ending == Eof ==> Concat(chunks) == p.bytesOf(Wire(p.encode, frames)) && HasClose(frames))
  }

  /** Attempt a from cursor d delivers everything up to the target and ends cleanly. */
  ghost predicate Completed(w: World, p: Promise, a: nat, d: int, target: int)
  {
    match w.hub(a, Some(d))
    case Refused(_, _) => false
    case Stream(chunks, ending, aborted) =>
      var frames := p.script(a, d);
      && !aborted && ending == Eof && HubFrames(frames, d) && EndSeq(frames, d) == target && NoneRetryable(frames)
      && Concat(chunks) == p.bytesOf(Wire(p.encode, frames))
  }

  lemma InterruptedRead<S(!new)>(w: World, dec: Decoding<S>, p: Promise, a: nat, s: Session, start: int, target: int)
    requires Sound(w, dec, p) && a < MAX_RECONNECT_ATTEMPTS && OnItsWay(s, start) && !s.normalClose
    requires Interrupted(w, p, a, s.lastDurableSeq, target) && w.hub(a, Some(s.lastDurableSeq)).Stream?
    ensures var read := Read(dec, w.config, a, s, w.hub(a, Some(s.lastDurableSeq)));
            OnItsWay(read.0, start) && !read.0.normalClose && read.1 && read.0.lastDurableSeq <= target
  {
    var connection, frames := w.hub(a, Some(s.lastDurableSeq)), p.script(a, s.lastDurableSeq);
    var entered := s.(shouldResume := false);
    var got := Decode(dec.step, dec.init, Concat(connection.chunks));
    DecodedPrefix(dec.step, dec.init, Concat(connection.chunks), p.bytesOf(Wire(p.encode, frames)));
    if connection.ending == Eof {
      WholeWire(p.encode, frames);
      assert frames[..|frames|] == frames && Encoded(p.encode, frames[..|frames|]) == Encoded(p.encode, frames);
      FeedUpToClose(w.config, p.encode, a, entered, start, frames, |frames|);
      UnterminatedPiece(Tail(got.1), dec.flush(got.0), got.1);
      FeedAppend(LineHandler(w.config, a), entered, Lines(got.1), [Tail(got.1) + dec.flush(got.0)]);
    } else {
      var k := WirePrefix(p.encode, frames, got.1);
      FeedUpToClose(w.config, p.encode, a, entered, start, frames, k);
    }
  }

  lemma CompletedRead<S(!new)>(w: World, dec: Decoding<S>, p: Promise, a: nat, s: Session, start: int, target: int)
    requires Sound(w, dec, p) && OnItsWay(s, start) && Completed(w, p, a, s.lastDurableSeq, target)
    ensures var read := Read(dec, w.config, a, s, w.hub(a, Some(s.lastDurableSeq)));
            OnItsWay(read.0, start) && !read.1 && read.0.lastDurableSeq == target
  {
    var connection, frames := w.hub(a, Some(s.lastDurableSeq)), p.script(a, s.lastDurableSeq);
    var entered := s.(shouldResume := false);
    var got := Decode(dec.step, dec.init, Concat(connection.chunks));
    WholeWire(p.encode, frames);
    FeedAllFrames(w.config, p.encode, a, entered, start, frames);
    var fed := Feed(LineHandler(w.config, a), entered, Lines(got.1));
    UnterminatedPiece(Tail(got.1), dec.flush(got.0), got.1);
    FeedAppend(LineHandler(w.config, a), entered, Lines(got.1), [Tail(got.1) + dec.flush(got.0)]);
    FlushedIsJunk(w, dec, p, a, fed.0, got.0);
  }

  /** What the decoder flushes at the end of a whole text is no frame. */
  lemma FlushedIsJunk<S(!new)>(w: World, dec: Decoding<S>, p: Promise, a: nat, c: Session, s: S)
    requires Sound(w, dec, p)
    ensures OnLine(w.config, a, c, Trim("" + dec.flush(s))) == (c, Continue)
  {
    if dec.flush(s) == "" {
      assert Trim("") == "";
    } else {
      var f := Frame(Other, None, false, false, []);
      assert p.encode(f)[..0] + dec.flush(s) == "" + dec.flush(s);
      assert Junk(w.config.parse, p.encode(f)[..0] + dec.flush(s));
    }
  }

  /**
    Everything arrives: after fewer than eleven interruptions of any kind (refused for now, broken off anywhere, closed
    to come back), an attempt that delivers the rest leaves every row up to the target written, in order, once each.
   */
  lemma {:induction false} EverythingArrives<S(!new)>(w: World, dec: Decoding<S>, p: Promise, n: nat, a: nat,
                                                      s: Session, start: int, target: int)
    requires Sound(w, dec, p) && a <= n <= MAX_RECONNECT_ATTEMPTS && OnItsWay(s, start) && !s.normalClose
             && s.lastDurableSeq <= target
    requires forall b: nat, d :: a <= b < n && start <= d <= target ==> Interrupted(w, p, b, d, target)
    requires forall d :: start <= d <= target ==> Completed(w, p, n, d, target)
    ensures var r := RunFrom(w, a, Some(s.lastDurableSeq), s);
            r.1 == n + 1 && WrittenRows(r.0.log) == Consecutive(start, target) && ResumesNameLastWritten(r.0.log, start)
    decreases n - a
  {
    if a == n {
      LastAttempt(w, dec, p, a, s, start, target);
    } else {
      assert Interrupted(w, p, a, s.lastDurableSeq, target);
      var next := GoesOn(w, dec, p, a, s, start, target);
      EverythingArrives(w, dec, p, n, a + 1, next, start, target);
    }
  }

  /** An interrupted attempt leads to another one from where the run is. */
  lemma GoesOn<S(!new)>(w: World, dec: Decoding<S>, p: Promise, a: nat, s: Session, start: int, target: int)
    returns (next: Session)
    requires Sound(w, dec, p) && a < MAX_RECONNECT_ATTEMPTS && OnItsWay(s, start) && !s.normalClose
             && s.lastDurableSeq <= target
    requires Interrupted(w, p, a, s.lastDurableSeq, target)
    ensures OnItsWay(next, start) && !next.normalClose && next.lastDurableSeq <= target
    ensures RunFrom(w, a, Some(s.lastDurableSeq), s) == RunFrom(w, a + 1, Some(next.lastDurableSeq), next)
  {
    NextRound(w, a, Some(s.lastDurableSeq), s);
    if w.hub(a, Some(s.lastDurableSeq)).Refused? {
      next := s;
      assert s.(aborted := false) == s;
    } else {
      assert Looking(a, s, w.hub(a, Some(s.lastDurableSeq)));
      InterruptedRead(w, dec, p, a, s, start, target);
      var read := Read(dec, w.config, a, s, w.hub(a, Some(s.lastDurableSeq))).0;
      next := Marked(w.config, read, a + 1).0;
      MarkedOnItsWay(w.config, read, a + 1, start);
      assert next.(aborted := false) == next;
    }
  }

  lemma MarkedOnItsWay(config: Config, s: Session, attempts: nat, start: int)
    requires Willing(config) && OnItsWay(s, start)
    ensures var marked := Marked(config, s, attempts);
            && marked.1 && OnItsWay(marked.0, start) && marked.0.normalClose == s.normalClose
            && marked.0.lastDurableSeq == s.lastDurableSeq
  {
    SeamlessWrite(s, start, Resumed(s.lastDurableSeq, attempts), Marked(config, s, attempts).0);
  }

  lemma LastAttempt<S(!new)>(w: World, dec: Decoding<S>, p: Promise, a: nat, s: Session, start: int, target: int)
    requires Sound(w, dec, p) && a <= MAX_RECONNECT_ATTEMPTS && OnItsWay(s, start) && !s.normalClose
    requires Completed(w, p, a, s.lastDurableSeq, target)
    ensures var r := RunFrom(w, a, Some(s.lastDurableSeq), s);
            && start <= target && r.1 == a + 1
            && WrittenRows(r.0.log) == Consecutive(start, target) && ResumesNameLastWritten(r.0.log, start)
  {
    NextRound(w, a, Some(s.lastDurableSeq), s);
    assert Looking(a, s, w.hub(a, Some(s.lastDurableSeq)));
    CompletedRead(w, dec, p, a, s, start, target);
    AllWritten(w.config, Read(dec, w.config, a, s, w.hub(a, Some(s.lastDurableSeq))).0, start);
  }

  /** From the start of a subscription. */
  lemma SubscriptionGetsEverything<S(!new)>(w: World, dec: Decoding<S>, p: Promise, n: nat, start: int, target: int)
    requires Sound(w, dec, p) && n <= MAX_RECONNECT_ATTEMPTS && start <= target
    requires forall b: nat, d :: b < n && start <= d <= target ==> Interrupted(w, p, b, d, target)
    requires forall d :: start <= d <= target ==> Completed(w, p, n, d, target)
    ensures var r := RunFrom(w, 0, Some(start), Opening(Some(start)));
            r.1 == n + 1 && WrittenRows(r.0.log) == Consecutive(start, target) && ResumesNameLastWritten(r.0.log, start)
  {
    assert Gapless([], start, 0, start);
    EverythingArrives(w, dec, p, n, 0, Opening(Some(start)), start, target);
  }

  lemma AllWritten(config: Config, c: Session, start: int)
    requires OnItsWay(c, start)
    ensures WrittenRows(c.log) == Consecutive(start, c.lastDurableSeq) && ResumesNameLastWritten(c.log, start)
  {
    DropsAreMissing(c.log);
    forall i | 0 <= i < |c.log| && c.log[i].Resumed?
      ensures c.log[i].fromSeq == start + |WrittenRows(c.log[..i])|
    {
      ResumptionNamesLastWrittenIff(c, start, i);
    }
  }
}
