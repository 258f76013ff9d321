/**
  `channels subscribe`: stream channel frames to stdout, reconnecting with backoff and
  resuming from the last durable sequence number the hub reported.
 */
module ChannelSubscribe {
  import opened Streams
  import opened Wrappers
  import opened Ndjson

  const MAX_RECONNECT_ATTEMPTS := 10
  const INITIAL_BACKOFF_MS := 50
  const MAX_BACKOFF_MS := 1000

  datatype Kind = Open | Event | Closed | Other

  /**
    A subscription frame. `rows` are the sequence numbers of the durable rows its payload
    carries; `counted` is false for heartbeats and resync notices.
   */
  datatype Frame = Frame(kind: Kind, durableSeq: Option<int>, counted: bool, retryable: bool, rows: seq<int>)

  /** What `JSON.parse` makes of a line; property access on `null` throws. */
  datatype Parsed = Invalid | NullValue | Value(frame: Frame)

  /**
    A write to stdout: accepted, refused because the reader is gone, or failed (the failure may already have aborted
    the run).
   */
  datatype WriteOutcome = Accepted | PipeClosed | Failed(aborts: bool)

  /** One entry per frame offered to stdout, written or refused, and per resumption announced. */
  datatype Entry = Delivered(frame: Frame) | Dropped(frame: Frame) | Resumed(fromSeq: int, attempt: nat)

  /** One connection attempt as the environment answers it; `aborted` when the run was cancelled meanwhile. */
  datatype Connection =
    | Refused(retryable: bool, aborted: bool)
    | Stream(chunks: seq<seq<byte>>, ending: Ending, aborted: bool)

  datatype Config = Config(parse: string -> Parsed, maxEvents: Option<nat>, stdout: nat -> WriteOutcome)

  /** The variables the run and its line callback share. */
  datatype Session = Session(lastDurableSeq: int, events: nat, normalClose: bool, aborted: bool, shouldResume: bool,
                             writes: nat, log: seq<Entry>)

  predicate EnoughEvents(config: Config, c: Session)
  {
    config.maxEvents.Some? && c.events >= config.maxEvents.value
  }

  function NoteSeq(c: Session, frame: Frame): (r: Session)
  {
    var c := if frame.durableSeq.Some? then c.(lastDurableSeq := frame.durableSeq.value) else c;
    if frame.kind.Event? && frame.counted then c.(events := c.events + 1) else c
  }

  /** The line callback. */
  function OnLine(config: Config, reconnectAttempts: nat, c: Session, line: string): (r: (Session, Verdict))
  {
    if line == "" then (c, Continue)
    else
      match config.parse(line)
      case Invalid => (c, Continue)
      case NullValue => (c, Throw)
      case Value(frame) =>
        var noted := NoteSeq(c, frame);
        if frame.kind.Closed? && frame.retryable && reconnectAttempts < MAX_RECONNECT_ATTEMPTS
        then (noted.(shouldResume := true), Stop)
        else
          var closing := if frame.kind.Closed? then noted.(normalClose := !frame.retryable) else noted;
          var attempted := closing.(writes := closing.writes + 1);
          var refused := attempted.(log := attempted.log + [Dropped(frame)]);
          match config.stdout(closing.writes)
          case PipeClosed => (refused.(normalClose := true, aborted := true), Stop)
          case Failed(aborts) => (refused.(aborted := refused.aborted || aborts), Throw)
          case Accepted =>
            var written := attempted.(log := attempted.log + [Delivered(frame)]);
            if EnoughEvents(config, written) then (written.(normalClose := true, aborted := true), Stop)
            else (written, Continue)
  }

  function LineHandler(config: Config, reconnectAttempts: nat): (r: Handler<Session>)
  {
    (c: Session, line: string) => OnLine(config, reconnectAttempts, c, line)
  }

  // ---- The run as a function of its environment ----

  /** An incremental decoder, its start, and what it makes of a character cut short. */
  datatype Decoding<!S> = Decoding(step: Decoder<S>, flush: S -> string, init: S)

  /** Everything a run depends on: configuration, the hub's answers, interrupted sleeps, and what reading comes to. */
  datatype World = World(config: Config, hub: (nat, Option<int>) -> Connection, abortedAsleep: nat -> bool,
                         read: (nat, Session, Connection) -> (Session, bool))

  /** The session after a connection has been read, and whether to resume. */
  function Read<S>(d: Decoding<S>, config: Config, attempts: nat, s: Session,
                   connection: Connection): (r: (Session, bool))
  {
    if connection.Refused? then (s, false)
    else
      var lines := Offered(d.step, d.flush, d.init, connection.chunks, connection.ending);
      var fed := Feed(LineHandler(config, attempts), s.(shouldResume := false), lines);
      var s' := fed.0.(aborted := fed.0.aborted || connection.aborted);
      if fed.2.Throw? || (fed.2.Continue? && connection.ending.ReadError?) then
        if s'.aborted || attempts >= MAX_RECONNECT_ATTEMPTS then (s', false)
        else (s'.(shouldResume := true), !s'.normalClose)
      else (s', s'.shouldResume && !s'.aborted && !s'.normalClose)
  }

  /** Marks a connection whose reading is looked into. */
  ghost predicate Looking(attempts: nat, s: Session, connection: Connection)
  {
    true
  }

  /** A world whose reading is that of the code. */
  ghost predicate Fits<S(!new)>(w: World, d: Decoding<S>)
  {
    && (forall s :: NewlineFree(d.flush(s)))
    && forall attempts: nat, s, connection {:trigger Looking(attempts, s, connection)} ::
         Looking(attempts, s, connection) ==>
           w.read(attempts, s, connection) == Read(d, w.config, attempts, s, connection)
  }

  function WorldOf<S>(d: Decoding<S>, config: Config, hub: (nat, Option<int>) -> Connection,
                      abortedAsleep: nat -> bool): (w: World)
  {
    World(config, hub, abortedAsleep,
          (attempts: nat, s: Session, connection: Connection) => Read(d, config, attempts, s, connection))
  }

  lemma WorldFits<S(!new)>(d: Decoding<S>, config: Config, hub: (nat, Option<int>) -> Connection,
                           abortedAsleep: nat -> bool)
    requires forall s :: NewlineFree(d.flush(s))
    ensures Fits(WorldOf(d, config, hub, abortedAsleep), d)
  {
  }

  /** The session after the resumption notice, and whether it went out. */
  function Marked(config: Config, s: Session, attempts: nat): (r: (Session, bool))
  {
    var tried := s.(writes := s.writes + 1, normalClose := s.normalClose || config.stdout(s.writes).PipeClosed?);
    if config.stdout(s.writes).Accepted? then (tried.(log := s.log + [Resumed(s.lastDurableSeq, attempts)]), true)
    else (tried, false)
  }

  /** One round: the session after it, whether there is another, and whether the stream was resumed. */
  function Round(w: World, attempts: nat, cursor: Option<int>, s: Session): (r: (Session, bool, bool))
  {
    match w.hub(attempts, cursor)
    case Refused(retryable, aborted) =>
      if aborted then (s.(aborted := true), false, false)
      else (s, retryable && attempts < MAX_RECONNECT_ATTEMPTS, false)
    case Stream(_, _, _) => AfterRead(w.config, attempts, w.read(attempts, s, w.hub(attempts, cursor)))
  }

  function AfterRead(config: Config, attempts: nat, read: (Session, bool)): (r: (Session, bool, bool))
  {
    if !read.1 then (read.0, false, false)
    else if EnoughEvents(config, read.0) then (read.0.(normalClose := true), false, false)
    else
      var marked := Marked(config, read.0, attempts + 1);
      (marked.0, marked.1, true)
  }

  /** Where a run stands: attempts made, the number to resume after, and the session. */
  datatype Place = Place(attempts: nat, cursor: Option<int>, s: Session)

  /** The session a run from here ends with, and the number of connections made by then. */
  function RunAt(w: World, p: Place): (r: (Session, nat))
    decreases MAX_RECONNECT_ATTEMPTS - p.attempts
  {
    if p.s.aborted || p.s.normalClose then (p.s, p.attempts)
    else if EnoughEvents(w.config, p.s) then (p.s.(normalClose := true), p.attempts)
    else
      var round := Round(w, p.attempts, p.cursor, p.s);
      if !round.1 || p.attempts >= MAX_RECONNECT_ATTEMPTS then (round.0, p.attempts + 1)
      else
        RunAt(w, Place(p.attempts + 1, if round.2 then Some(round.0.lastDurableSeq) else p.cursor,
                       round.0.(aborted := w.abortedAsleep(p.attempts + 1))))
  }

  function RunFrom(w: World, attempts: nat, cursor: Option<int>, s: Session): (r: (Session, nat))
  {
    RunAt(w, Place(attempts, cursor, s))
  }

  function Opening(afterSeq: Option<int>): (s: Session)
  {
    Session(if afterSeq.Some? then afterSeq.value else 0, 0, false, false, false, 0, [])
  }

  // ---- Backoff ----

  function Pow2(n: nat): (r: nat)
    ensures r >= 1
  {
    if n == 0 then 1 else 2 * Pow2(n - 1)
  }

  function BackoffMs(attempt: nat): (r: nat)
  {
    var exponent: nat := if attempt >= 1 then attempt - 1 else 0;
    if INITIAL_BACKOFF_MS * Pow2(exponent) < MAX_BACKOFF_MS then INITIAL_BACKOFF_MS * Pow2(exponent) else MAX_BACKOFF_MS
  }

  function TotalBackoffMs(attempts: nat): (r: nat)
  {
    if attempts == 0 then 0 else TotalBackoffMs(attempts - 1) + BackoffMs(attempts)
  }

  lemma {:induction false} BackoffGrows(a: nat, b: nat)
    requires a <= b
    ensures INITIAL_BACKOFF_MS <= BackoffMs(a) <= BackoffMs(b) <= MAX_BACKOFF_MS
    decreases b
  {
    if a < b {
      BackoffGrows(a, b - 1);
    }
  }

  lemma {:induction false} TotalBackoffBound(attempts: nat)
    requires attempts <= MAX_RECONNECT_ATTEMPTS
    ensures TotalBackoffMs(attempts) <= TotalBackoffMs(MAX_RECONNECT_ATTEMPTS) == 6550
    decreases MAX_RECONNECT_ATTEMPTS - attempts
  {
    assert Pow2(1) == 2 && Pow2(2) == 4 && Pow2(3) == 8 && Pow2(4) == 16 && Pow2(5) == 32;
    BackoffGrows(6, 7);
    BackoffGrows(7, 8);
    BackoffGrows(8, 9);
    BackoffGrows(9, 10);
    assert TotalBackoffMs(5) == 1550;
    if attempts < MAX_RECONNECT_ATTEMPTS {
      TotalBackoffBound(attempts + 1);
    }
  }

  // ---- The hub's side of the contract ----

  /** The sequence numbers after `from`, up to and including `to`. */
  function Consecutive(from: int, to: int): (r: seq<int>)
    requires from <= to
    ensures |r| == to - from && forall i :: 0 <= i < |r| ==> r[i] == from + 1 + i
  {
    seq(to - from, i => from + 1 + i)
  }

  /**
    Frames a hub may send to a subscriber at cursor `d`: rows in order from `d + 1`, each frame carrying the cursor
    after it.
   */
  predicate HubFrames(frames: seq<Frame>, d: int)
    decreases |frames|
  {
    frames != [] ==>
      && frames[0].durableSeq.Some?
      && d <= frames[0].durableSeq.value
      && frames[0].rows == Consecutive(d, frames[0].durableSeq.value)
      && (!frames[0].kind.Event? ==> frames[0].rows == [])
      && HubFrames(frames[1..], frames[0].durableSeq.value)
  }

  function Wire(encode: Frame -> string, frames: seq<Frame>): (r: string)
  {
    if frames == [] then "" else encode(frames[0]) + "\n" + Wire(encode, frames[1..])
  }

  /** A frame is a trimmed line that parses to itself. */
  ghost predicate RoundTrip(encode: Frame -> string, parse: string -> Parsed, f: Frame)
  {
    encode(f) != "" && Trim(encode(f)) == encode(f) && parse(encode(f)) == Value(f)
  }

  /** What is left of a line cut short is blank or not JSON. */
  predicate Junk(parse: string -> Parsed, piece: string)
  {
    Trim(piece) == "" || parse(Trim(piece)) == Invalid
  }

  /**
    One frame is one line of JSON. A line cut inside is not JSON, and neither is one followed by what the
    decoder makes of a character cut inside.
   */
  ghost predicate Codec<S(!new)>(encode: Frame -> string, parse: string -> Parsed, flush: S -> string)
  {
    && (forall f: Frame :: NewlineFree(encode(f)))
    && (forall f: Frame :: RoundTrip(encode, parse, f))
    && (forall f: Frame, k :: 0 <= k < |encode(f)| ==> Junk(parse, encode(f)[..k]))
    && (forall f: Frame, k, s :: 0 <= k <= |encode(f)| && flush(s) != "" ==> Junk(parse, encode(f)[..k] + flush(s)))
  }

  /** Text survives the trip through bytes. */
  ghost predicate Transcodes<S(!new)>(step: Decoder<S>, init: S, bytesOf: string -> seq<byte>)
  {
    forall text :: Decode(step, init, bytesOf(text)).1 == text
  }

  /**
    Asked to resume after `d`, the hub streams `script(attempt, d)`; the connection may deliver any prefix of its
    bytes.
   */
  ghost predicate Honest(encode: Frame -> string, bytesOf: string -> seq<byte>, hub: (nat, Option<int>) -> Connection,
                         script: (nat, int) -> seq<Frame>)
  {
    forall attempt: nat, d: int :: hub(attempt, Some(d)).Stream? ==>
      && HubFrames(script(attempt, d), d)
      && Concat(hub(attempt, Some(d)).chunks) <= bytesOf(Wire(encode, script(attempt, d)))
  }

  // ---- What a run has offered and written ----

  function RowsIn(e: Entry): (r: seq<int>)
  {
    if e.Resumed? then [] else e.frame.rows
  }

  /** The rows of every frame offered to stdout. */
  function OfferedRows(log: seq<Entry>): (r: seq<int>)
  {
    if log == [] then [] else OfferedRows(log[..|log| - 1]) + RowsIn(log[|log| - 1])
  }

  /** The rows that reached the reader. */
  function WrittenRows(log: seq<Entry>): (r: seq<int>)
  {
    if log == [] then []
    else WrittenRows(log[..|log| - 1]) + (if log[|log| - 1].Delivered? then RowsIn(log[|log| - 1]) else [])
  }

  function CountedIn(log: seq<Entry>): (r: nat)
  {
    if log == [] then 0
    else
      var last := log[|log| - 1];
      CountedIn(log[..|log| - 1]) + (if !last.Resumed? && last.frame.kind.Event? && last.frame.counted then 1 else 0)
  }

  /** Every resumption names the last row offered. */
  predicate ResumesFit(log: seq<Entry>, start: int)
  {
    forall i :: 0 <= i < |log| && log[i].Resumed? ==> log[i].fromSeq == start + |OfferedRows(log[..i])|
  }

  /** No gap and no duplicate in what was offered since `start`, and the cursor is the last row of it. */
  ghost predicate Seamless(c: Session, start: int)
  {
    Gapless(c.log, c.lastDurableSeq, c.events, start)
  }

  ghost predicate Gapless(log: seq<Entry>, last: int, events: nat, start: int)
  {
    && start <= last
    && OfferedRows(log) == Consecutive(start, last)
    && events == CountedIn(log)
    && ResumesFit(log, start)
  }

  lemma SeamlessWrite(c: Session, start: int, e: Entry, c': Session)
    requires Seamless(c, start)
    requires c'.log == c.log + [e] && c.lastDurableSeq <= c'.lastDurableSeq
    requires e.Resumed? ==> e.fromSeq == c.lastDurableSeq == c'.lastDurableSeq && c'.events == c.events
    requires !e.Resumed? ==>
               && e.frame.rows == Consecutive(c.lastDurableSeq, c'.lastDurableSeq)
               && c'.events == c.events + (if e.frame.kind.Event? && e.frame.counted then 1 else 0)
    ensures Seamless(c', start)
  {
    assert c'.log[..|c.log|] == c.log;
    assert forall i :: 0 <= i < |c.log| ==> c'.log[..i] == c.log[..i];
  }

  // ---- Lines of a truncated wire text ----

  /** Any prefix of the wire text, cut anywhere, is some whole frames and a prefix of the next one. */
  lemma {:induction false} WirePrefix(encode: Frame -> string, frames: seq<Frame>, text: string) returns (k: nat)
    requires text <= Wire(encode, frames) && forall f: Frame :: NewlineFree(encode(f))
    ensures k <= |frames| && Lines(text) == Encoded(encode, frames[..k])
    ensures if k == |frames| then Tail(text) == "" else Tail(text) <= encode(frames[k])
  {
    if frames == [] {
      k := 0;
      assert text == "";
    } else {
      var head := encode(frames[0]);
      assert NewlineFree(head);
      if |text| <= |head| {
        k := 0;
        assert text == head[..|text|];
        NoNewline(text);
      } else {
        assert text[..|head|] == head && text[|head|] == '\n';
        FirstLine(text, |head|);
        var rest := text[|head| + 1..];
        assert rest <= Wire(encode, frames[1..]);
        var k' := WirePrefix(encode, frames[1..], rest);
        k := k' + 1;
        assert frames[..k] == [frames[0]] + frames[1..][..k'];
        assert Encoded(encode, frames[..k]) == [head] + Encoded(encode, frames[1..][..k']);
      }
    }
  }

  function Encoded(encode: Frame -> string, frames: seq<Frame>): (r: seq<string>)
    ensures |r| == |frames| && forall i :: 0 <= i < |r| ==> r[i] == encode(frames[i])
  {
    seq(|frames|, i requires 0 <= i < |frames| => encode(frames[i]))
  }

  /** Handing one frame to the callback keeps the offered rows seamless, whatever stdout does with it. */
  lemma FrameKeepsSeamless(config: Config, encode: Frame -> string, attempts: nat, c: Session, start: int,
                           frames: seq<Frame>)
    requires frames != [] && RoundTrip(encode, config.parse, frames[0]) && HubFrames(frames, c.lastDurableSeq)
    requires Seamless(c, start)
    ensures var r := OnLine(config, attempts, c, encode(frames[0]));
            Seamless(r.0, start) && r.0.lastDurableSeq == frames[0].durableSeq.value
  {
    FrameOffered(config, attempts, c, start, encode(frames[0]), frames[0]);
  }

  lemma FrameOffered(config: Config, attempts: nat, c: Session, start: int, line: string, f: Frame)
    requires line != "" && config.parse(line) == Value(f) && f.durableSeq.Some?
             && c.lastDurableSeq <= f.durableSeq.value
    requires f.rows == Consecutive(c.lastDurableSeq, f.durableSeq.value) && (!f.kind.Event? ==> f.rows == [])
    requires Seamless(c, start)
    ensures var r := OnLine(config, attempts, c, line);
            Seamless(r.0, start) && r.0.lastDurableSeq == f.durableSeq.value
  {
    var r := OnLine(config, attempts, c, line);
    if f.kind.Closed? && f.retryable && attempts < MAX_RECONNECT_ATTEMPTS {
      assert f.rows == [];
      assert r.0.lastDurableSeq == c.lastDurableSeq && r.0.log == c.log && r.0.events == c.events;
    } else {
      var e := if config.stdout(c.writes).Accepted? then Delivered(f) else Dropped(f);
      assert r.0.log == c.log + [e];
      SeamlessWrite(c, start, e, r.0);
    }
  }

  lemma FeedFirst(config: Config, attempts: nat, c: Session, line: string, rest: seq<string>)
    requires Trim(line) == line
    ensures var first := OnLine(config, attempts, c, line);
            var r := Feed(LineHandler(config, attempts), c, [line] + rest);
            if first.1.Continue?
            then
              && r.0 == Feed(LineHandler(config, attempts), first.0, rest).0
              && r.2 == Feed(LineHandler(config, attempts), first.0, rest).2
            else r.0 == first.0 && r.2 == first.1
  {
    assert ([line] + rest)[1..] == rest;
  }

  /** So does handing on the whole frames of a connection, until the callback stops. */
  lemma {:induction false} FeedKeepsSeamless(config: Config, encode: Frame -> string, attempts: nat, c: Session,
                                             start: int, frames: seq<Frame>, k: nat)
    requires (forall f: Frame :: RoundTrip(encode, config.parse, f)) && HubFrames(frames, c.lastDurableSeq)
             && k <= |frames|
    requires Seamless(c, start)
    ensures var r := Feed(LineHandler(config, attempts), c, Encoded(encode, frames[..k]));
            && Seamless(r.0, start)
            && (r.2.Continue? ==> HubFrames(frames[k..], r.0.lastDurableSeq))
    decreases k
  {
    if k > 0 {
      assert RoundTrip(encode, config.parse, frames[0]);
      FrameKeepsSeamless(config, encode, attempts, c, start, frames);
      var first, rest := OnLine(config, attempts, c, encode(frames[0])).0, Encoded(encode, frames[1..][..k - 1]);
      assert Encoded(encode, frames[..k]) == [encode(frames[0])] + rest;
      FeedFirst(config, attempts, c, encode(frames[0]), rest);
      FeedKeepsSeamless(config, encode, attempts, first, start, frames[1..], k - 1);
      assert frames[1..][k - 1..] == frames[k..];
    } else {
      assert frames[k..] == frames;
    }
  }

  /** The last, unterminated piece is a whole frame or junk. */
  lemma LastPieceKeepsSeamless<S(!new)>(config: Config, encode: Frame -> string, flush: S -> string, attempts: nat,
                                        c: Session, start: int, frames: seq<Frame>, tail: string, s: S)
    requires Codec(encode, config.parse, flush) && HubFrames(frames, c.lastDurableSeq) && Seamless(c, start)
    requires if frames == [] then tail == "" else tail <= encode(frames[0])
    ensures Seamless(OnLine(config, attempts, c, Trim(tail + flush(s))).0, start)
  {
    if flush(s) != "" {
      var f := if frames == [] then Frame(Other, None, false, false, []) else frames[0];
      assert tail == encode(f)[..|tail|];
      assert Junk(config.parse, encode(f)[..|tail|] + flush(s));
    } else {
      assert tail + flush(s) == tail;
      if frames != [] && tail == encode(frames[0]) {
        assert RoundTrip(encode, config.parse, frames[0]);
        FrameKeepsSeamless(config, encode, attempts, c, start, frames);
      } else if frames != [] {
        assert tail == encode(frames[0])[..|tail|];
        assert Junk(config.parse, encode(frames[0])[..|tail|]);
      } else {
        assert Trim("") == "";
      }
    }
  }

  /** A connection cut anywhere, even inside a line or a character, leaves the offered rows seamless. */
  lemma ConnectionKeepsSeamless<S(!new)>(step: Decoder<S>, flush: S -> string, init: S, config: Config,
                                         encode: Frame -> string, bytesOf: string -> seq<byte>, attempts: nat,
                                         c: Session, start: int, frames: seq<Frame>, chunks: seq<seq<byte>>,
                                         ending: Ending)
    requires Codec(encode, config.parse, flush) && Transcodes(step, init, bytesOf)
    requires HubFrames(frames, c.lastDurableSeq) && Concat(chunks) <= bytesOf(Wire(encode, frames))
    requires Seamless(c, start) && forall s :: NewlineFree(flush(s))
    ensures Seamless(Feed(LineHandler(config, attempts), c, Offered(step, flush, init, chunks, ending)).0, start)
  {
    var got := Decode(step, init, Concat(chunks));
    DecodedPrefix(step, init, Concat(chunks), bytesOf(Wire(encode, frames)));
    var k := WirePrefix(encode, frames, got.1);
    FeedKeepsSeamless(config, encode, attempts, c, start, frames, k);
    if ending.Eof? {
      UnterminatedPiece(Tail(got.1), flush(got.0), got.1);
      var whole := Feed(LineHandler(config, attempts), c, Lines(got.1));
      FeedAppend(LineHandler(config, attempts), c, Lines(got.1), [Tail(got.1) + flush(got.0)]);
      if whole.2.Continue? {
        LastPieceKeepsSeamless(config, encode, flush, attempts, whole.0, start, frames[k..], Tail(got.1), got.0);
      }
    }
  }

  lemma DecodedPrefix<S(!new)>(step: Decoder<S>, init: S, some: seq<byte>, all: seq<byte>)
    requires some <= all
    ensures Decode(step, init, some).1 <= Decode(step, init, all).1
  {
    assert all == some + all[|some|..];
    DecodeAppend(step, init, some, all[|some|..]);
  }

  // ---- What stdout refused ----

  /** No refused write let the run go on. */
  predicate RefusalsEnd(config: Config, writes: nat)
  {
    forall i :: 0 <= i < writes ==> config.stdout(i) != Failed(false)
  }

  predicate NoneDropped(log: seq<Entry>)
  {
    forall i :: 0 <= i < |log| ==> !log[i].Dropped?
  }

  /** If refusals end the run, only the last entry can be a refused frame, and only of a run that is over. */
  ghost predicate DropsEnd(config: Config, c: Session)
  {
    RefusalsEnd(config, c.writes) ==>
      && (c.log != [] ==> NoneDropped(c.log[..|c.log| - 1]))
      && (!c.aborted ==> NoneDropped(c.log))
  }

  /** Whether a line makes the callback offer a frame to stdout. */
  predicate Offers(config: Config, attempts: nat, line: string)
  {
    line != "" && config.parse(line).Value? &&
    var f := config.parse(line).frame; !(f.kind.Closed? && f.retryable && attempts < MAX_RECONNECT_ATTEMPTS)
  }

  /** What a line does to the log and to the run, apart from the cursor and the count. */
  lemma LineEffect(config: Config, attempts: nat, c: Session, line: string)
    ensures var r := OnLine(config, attempts, c, line);
            if Offers(config, attempts, line) then
              var f, outcome := config.parse(line).frame, config.stdout(c.writes);
              && r.0.log == c.log + [if outcome.Accepted? then Delivered(f) else Dropped(f)]
              && r.0.writes == c.writes + 1
              && (outcome.PipeClosed? || outcome == Failed(true) ==> r.0.aborted)
              && (outcome == Failed(false) ==> r.1.Throw? && r.0.aborted == c.aborted)
              && (!outcome.Accepted? ==> !r.1.Continue?)
            else r.0.log == c.log && r.0.writes == c.writes
  {
  }

  lemma LineKeepsDrops(config: Config, attempts: nat, c: Session, line: string)
    requires RefusalsEnd(config, c.writes) ==> NoneDropped(c.log)
    ensures var r := OnLine(config, attempts, c, line);
            && DropsEnd(config, r.0)
            && (r.1.Continue? && RefusalsEnd(config, r.0.writes) ==> NoneDropped(r.0.log))
  {
    var r := OnLine(config, attempts, c, line);
    LineEffect(config, attempts, c, line);
    if Offers(config, attempts, line) {
      EntryKeepsDrops(config, c, r.0, r.0.log[|c.log|], r.1.Continue?);
    }
  }

  lemma EntryKeepsDrops(config: Config, c: Session, r: Session, e: Entry, goesOn: bool)
    requires RefusalsEnd(config, c.writes) ==> NoneDropped(c.log)
    requires r.log == c.log + [e] && r.writes == c.writes + 1
    requires e.Dropped? ==> !goesOn && (config.stdout(c.writes) != Failed(false) ==> r.aborted)
    ensures DropsEnd(config, r) && (goesOn && RefusalsEnd(config, r.writes) ==> NoneDropped(r.log))
  {
    assert r.log[..|r.log| - 1] == c.log;
    if RefusalsEnd(config, r.writes) {
      assert config.stdout(c.writes) != Failed(false) && RefusalsEnd(config, c.writes);
    }
  }

  lemma {:induction false} FeedKeepsDrops(config: Config, attempts: nat, c: Session, lines: seq<string>)
    requires RefusalsEnd(config, c.writes) ==> NoneDropped(c.log)
    ensures DropsEnd(config, Feed(LineHandler(config, attempts), c, lines).0)
    decreases |lines|
  {
    if lines != [] {
      var first := OnLine(config, attempts, c, Trim(lines[0]));
      LineKeepsDrops(config, attempts, c, Trim(lines[0]));
      if first.1.Continue? {
        FeedKeepsDrops(config, attempts, first.0, lines[1..]);
      }
    }
  }

  /** The written rows run on from `start` without a gap. */
  predicate WrittenInOrder(log: seq<Entry>, start: int)
  {
    WrittenRows(log) == Consecutive(start, start + |WrittenRows(log)|)
  }

  /** A row was written after one was refused. */
  predicate RowAfterDrop(log: seq<Entry>)
  {
    exists i, j ::
      0 <= i < j < |log| && log[i].Dropped? && RowsIn(log[i]) != [] && log[j].Delivered? && RowsIn(log[j]) != []
  }

  /** A row was refused. */
  predicate RowDropped(log: seq<Entry>)
  {
    exists i :: 0 <= i < |log| && log[i].Dropped? && RowsIn(log[i]) != []
  }

  /** Offered is written exactly as long as no row was refused; otherwise it is longer. */
  lemma {:induction false} DropsAreMissing(log: seq<Entry>)
    ensures !RowDropped(log) ==> WrittenRows(log) == OfferedRows(log)
    ensures RowDropped(log) ==> |WrittenRows(log)| < |OfferedRows(log)|
    ensures |WrittenRows(log)| <= |OfferedRows(log)|
  {
    if log != [] {
      var front := log[..|log| - 1];
      DropsAreMissing(front);
      if RowDropped(front) {
        var i :| 0 <= i < |front| && front[i].Dropped? && RowsIn(front[i]) != [];
        assert log[i].Dropped?;
      } else if RowDropped(log) {
        assert log[|log| - 1].Dropped? && RowsIn(log[|log| - 1]) != [];
      }
    }
  }

  lemma {:induction false} InOrderExactly(log: seq<Entry>, start: int)
    requires OfferedRows(log) == Consecutive(start, start + |OfferedRows(log)|)
    ensures WrittenInOrder(log, start) <==> !RowAfterDrop(log)
  {
    if log != [] {
      var front, e := log[..|log| - 1], log[|log| - 1];
      assert OfferedRows(front) == OfferedRows(log)[..|OfferedRows(front)|];
      InOrderExactly(front, start);
      DropsAreMissing(front);
      if e.Delivered? && RowsIn(e) != [] {
        if RowDropped(front) {
          GapAfterDrop(log, start);
        } else {
          assert WrittenRows(log) == OfferedRows(log);
          NoDropNoLateRow(log);
        }
      } else {
        assert WrittenRows(log) == WrittenRows(front);
        LateRowInFront(log);
      }
    }
  }

  lemma GapAfterDrop(log: seq<Entry>, start: int)
    requires log != [] && log[|log| - 1].Delivered? && RowsIn(log[|log| - 1]) != []
    requires OfferedRows(log) == Consecutive(start, start + |OfferedRows(log)|) && RowDropped(log[..|log| - 1])
    ensures RowAfterDrop(log) && !WrittenInOrder(log, start)
  {
    var front, e := log[..|log| - 1], log[|log| - 1];
    DropsAreMissing(front);
    var i :| 0 <= i < |front| && front[i].Dropped? && RowsIn(front[i]) != [];
    assert log[i].Dropped? && RowsIn(log[i]) != [] && log[|log| - 1].Delivered?;
    assert RowsIn(e)[0] == OfferedRows(log)[|OfferedRows(front)|] == start + |OfferedRows(front)| + 1;
    assert WrittenRows(log)[|WrittenRows(front)|] == RowsIn(e)[0];
  }

  lemma NoDropNoLateRow(log: seq<Entry>)
    requires log != [] && !RowDropped(log[..|log| - 1])
    ensures !RowAfterDrop(log)
  {
    var front := log[..|log| - 1];
    assert forall i :: 0 <= i < |front| ==> front[i] == log[i];
  }

  lemma LateRowInFront(log: seq<Entry>)
    requires log != [] && !(log[|log| - 1].Delivered? && RowsIn(log[|log| - 1]) != [])
    ensures RowAfterDrop(log) <==> RowAfterDrop(log[..|log| - 1])
  {
    var front := log[..|log| - 1];
    assert forall i :: 0 <= i < |front| ==> front[i] == log[i];
    if RowAfterDrop(front) {
      var i, j :|
        && 0 <= i < j < |front| && front[i].Dropped? && RowsIn(front[i]) != [] && front[j].Delivered?
        && RowsIn(front[j]) != [];
      assert log[i].Dropped? && log[j].Delivered?;
    }
  }

  /** However stdout behaves: the written rows are without a gap exactly if no row was written after a refused one. */
  lemma WrittenInOrderIff(c: Session, start: int)
    requires Seamless(c, start)
    ensures WrittenInOrder(c.log, start) <==> !RowAfterDrop(c.log)
  {
    InOrderExactly(c.log, start);
  }

  /** And a resumption names the last row written exactly if no row had been refused before it. */
  lemma ResumptionNamesLastWrittenIff(c: Session, start: int, i: nat)
    requires Seamless(c, start) && i < |c.log| && c.log[i].Resumed?
    ensures c.log[i].fromSeq == start + |WrittenRows(c.log[..i])| <==> !RowDropped(c.log[..i])
  {
    DropsAreMissing(c.log[..i]);
  }

  predicate ResumesNameLastWritten(log: seq<Entry>, start: int)
  {
    forall i :: 0 <= i < |log| && log[i].Resumed? ==> log[i].fromSeq == start + |WrittenRows(log[..i])|
  }

  /** While every refused write ends the run, the reader sees no gap and every resumption names the last row it got. */
  lemma ReaderSeesNoGap(config: Config, c: Session, start: int)
    requires Seamless(c, start) && DropsEnd(config, c) && RefusalsEnd(config, c.writes)
    ensures WrittenInOrder(c.log, start) && ResumesNameLastWritten(c.log, start)
  {
    if c.log != [] {
      NoDropNoLateRow(c.log);
    }
    WrittenInOrderIff(c, start);
    forall i | 0 <= i < |c.log| && c.log[i].Resumed?
      ensures c.log[i].fromSeq == start + |WrittenRows(c.log[..i])|
    {
      assert forall k :: 0 <= k < i ==> c.log[..i][k] == c.log[..|c.log| - 1][k];
      ResumptionNamesLastWrittenIff(c, start, i);
    }
  }

  /** The cursor after a write that failed without ending the run, and the resumption it leads to. */
  function AfterFailure(config: Config, attempts: nat, c: Session, line: string): (r: Session)
  {
    var failed := OnLine(config, attempts, c, line).0;
    failed.(writes := failed.writes + 1, log := failed.log + [Resumed(failed.lastDurableSeq, attempts + 1)])
  }

  /** A hub frame that carries rows, as the line callback reads it. */
  predicate CarriesRows(config: Config, line: string, f: Frame, d: int)
  {
    && line != "" && config.parse(line) == Value(f) && f.kind.Event? && f.durableSeq.Some?
    && d < f.durableSeq.value && f.rows == Consecutive(d, f.durableSeq.value)
  }

  /** A write that fails without ending the run: its rows are not written, and the stream resumes behind them. */
  lemma FailedWriteSkipsRows(config: Config, attempts: nat, c: Session, start: int, line: string, f: Frame)
    requires Seamless(c, start) && CarriesRows(config, line, f, c.lastDurableSeq)
    requires config.stdout(c.writes) == Failed(false)
    ensures var r := OnLine(config, attempts, c, line); r.1.Throw? && r.0.aborted == c.aborted
    ensures var resumed := AfterFailure(config, attempts, c, line);
            && Seamless(resumed, start) && resumed.lastDurableSeq == f.durableSeq.value
            && resumed.log == c.log + [Dropped(f), Resumed(f.durableSeq.value, attempts + 1)]
            && f.durableSeq.value > start + |WrittenRows(c.log)|
            && WrittenRows(resumed.log) == WrittenRows(c.log)
  {
    var failed := OnLine(config, attempts, c, line).0;
    var resumed := AfterFailure(config, attempts, c, line);
    LineEffect(config, attempts, c, line);
    FrameOffered(config, attempts, c, start, line, f);
    SeamlessWrite(failed, start, Resumed(failed.lastDurableSeq, attempts + 1), resumed);
    WrittenSnoc(c.log, Dropped(f));
    WrittenSnoc(failed.log, Resumed(failed.lastDurableSeq, attempts + 1));
    DropsAreMissing(c.log);
    assert |OfferedRows(c.log)| == c.lastDurableSeq - start;
  }

  lemma WrittenSnoc(log: seq<Entry>, e: Entry)
    ensures WrittenRows(log + [e]) == WrittenRows(log) + (if e.Delivered? then RowsIn(e) else [])
  {
    assert (log + [e])[..|log|] == log;
  }

  /** The next row written then leaves a gap for good. */
  lemma FailedWriteLosesRows(config: Config, attempts: nat, c: Session, start: int, line: string, f: Frame,
                             next: string, g: Frame)
    requires Seamless(c, start) && CarriesRows(config, line, f, c.lastDurableSeq)
    requires config.stdout(c.writes) == Failed(false)
    requires CarriesRows(config, next, g, f.durableSeq.value) && config.stdout(c.writes + 2).Accepted?
    ensures var resumed := AfterFailure(config, attempts, c, line);
            !WrittenInOrder(OnLine(config, attempts + 1, resumed, next).0.log, start)
  {
    FailedWriteSkipsRows(config, attempts, c, start, line, f);
    RowBehindDrop(config, attempts + 1, AfterFailure(config, attempts, c, line), start, next, g, |c.log|);
  }

  lemma RowBehindDrop(config: Config, attempts: nat, c: Session, start: int, line: string, f: Frame, i: nat)
    requires Seamless(c, start) && CarriesRows(config, line, f, c.lastDurableSeq) && config.stdout(c.writes).Accepted?
    requires i < |c.log| && c.log[i].Dropped? && RowsIn(c.log[i]) != []
    ensures !WrittenInOrder(OnLine(config, attempts, c, line).0.log, start)
  {
    var after := OnLine(config, attempts, c, line).0;
    LineEffect(config, attempts, c, line);
    FrameOffered(config, attempts, c, start, line, f);
    assert after.log[i] == c.log[i];
    LateRow(after.log, i);
    WrittenInOrderIff(after, start);
  }

  lemma LateRow(log: seq<Entry>, i: nat)
    requires i < |log| - 1 && log[i].Dropped? && RowsIn(log[i]) != []
    requires log[|log| - 1].Delivered? && RowsIn(log[|log| - 1]) != []
    ensures RowAfterDrop(log)
  {
  }

  /** The event budget holds however lines arrive, and the callback asks to resume only while attempts are left. */
  lemma {:induction false} FeedKeepsBudget(config: Config, attempts: nat, c: Session, lines: seq<string>)
    requires !EnoughEvents(config, c) && !c.shouldResume
    ensures var r := Feed(LineHandler(config, attempts), c, lines);
            && (config.maxEvents.Some? ==> r.0.events <= config.maxEvents.value)
            && (r.0.shouldResume ==> attempts < MAX_RECONNECT_ATTEMPTS)
            && (r.2.Continue? ==> !EnoughEvents(config, r.0))
    decreases |lines|
  {
    if lines != [] {
      var first := OnLine(config, attempts, c, Trim(lines[0]));
      if first.1.Continue? {
        FeedKeepsBudget(config, attempts, first.0, lines[1..]);
      }
    }
  }

  /**
    The assumptions of the resume guarantee: an honest hub, a JSON codec and a faithful transcoding. Nothing about
    stdout.
   */
  ghost predicate Trusted<S(!new)>(d: Decoding<S>, config: Config, encode: Frame -> string,
                                   bytesOf: string -> seq<byte>, hub: (nat, Option<int>) -> Connection,
                                   script: (nat, int) -> seq<Frame>)
  {
    Codec(encode, config.parse, d.flush) && Transcodes(d.step, d.init, bytesOf) && Honest(encode, bytesOf, hub, script)
  }

  /** Nothing was refused, as long as refusals end the run. */
  ghost predicate Undropped(config: Config, c: Session)
  {
    RefusalsEnd(config, c.writes) ==> NoneDropped(c.log)
  }

  // ---- What every run keeps ----

  lemma ReadKeeps<S(!new)>(d: Decoding<S>, config: Config, attempts: nat, s: Session, connection: Connection)
    requires connection.Stream? && !EnoughEvents(config, s) && Undropped(config, s)
    ensures var (s', resume) := Read(d, config, attempts, s, connection);
            && (config.maxEvents.Some? ==> s'.events <= config.maxEvents.value)
            && (resume ==> attempts < MAX_RECONNECT_ATTEMPTS && !s'.aborted && !s'.normalClose)
            && DropsEnd(config, s')
  {
    var lines := Offered(d.step, d.flush, d.init, connection.chunks, connection.ending);
    FeedKeepsBudget(config, attempts, s.(shouldResume := false), lines);
    FeedKeepsDrops(config, attempts, s.(shouldResume := false), lines);
  }

  lemma ReadKeepsSeamless<S(!new)>(d: Decoding<S>, config: Config, attempts: nat, s: Session, connection: Connection,
                                   encode: Frame -> string, bytesOf: string -> seq<byte>, frames: seq<Frame>,
                                   start: int)
    requires connection.Stream? && Seamless(s, start) && forall c :: NewlineFree(d.flush(c))
    requires Codec(encode, config.parse, d.flush) && Transcodes(d.step, d.init, bytesOf)
    requires HubFrames(frames, s.lastDurableSeq) && Concat(connection.chunks) <= bytesOf(Wire(encode, frames))
    ensures Seamless(Read(d, config, attempts, s, connection).0, start)
  {
    ConnectionKeepsSeamless(d.step, d.flush, d.init, config, encode, bytesOf, attempts, s.(shouldResume := false),
                            start, frames, connection.chunks, connection.ending);
  }

  lemma MarkedKeeps(config: Config, s: Session, attempts: nat)
    requires Undropped(config, s)
    ensures var marked := Marked(config, s, attempts).0;
            Undropped(config, marked) && marked.events == s.events && marked.lastDurableSeq == s.lastDurableSeq
  {
  }

  lemma MarkedKeepsSeamless(config: Config, s: Session, attempts: nat, start: int)
    requires Seamless(s, start)
    ensures Seamless(Marked(config, s, attempts).0, start)
  {
    if config.stdout(s.writes).Accepted? {
      SeamlessWrite(s, start, Resumed(s.lastDurableSeq, attempts), Marked(config, s, attempts).0);
    }
  }

  /** One round goes again only with attempts left, and keeps the budget and the refusals in place. */
  lemma RoundKeeps<S(!new)>(w: World, d: Decoding<S>, attempts: nat, cursor: Option<int>, s: Session)
    requires Fits(w, d) && !EnoughEvents(w.config, s) && Undropped(w.config, s)
    ensures var (s', again, resumed) := Round(w, attempts, cursor, s);
            && (again ==> attempts < MAX_RECONNECT_ATTEMPTS && Undropped(w.config, s'))
            && (again && !resumed ==> s' == s)
            && (w.config.maxEvents.Some? ==> s'.events <= w.config.maxEvents.value)
            && DropsEnd(w.config, s')
  {
    var connection := w.hub(attempts, cursor);
    if connection.Stream? {
      assert Looking(attempts, s, connection);
      ReadKeeps(d, w.config, attempts, s, connection);
      AfterReadKeeps(w.config, attempts, w.read(attempts, s, connection));
    }
  }

  lemma AfterReadKeeps(config: Config, attempts: nat, read: (Session, bool))
    requires config.maxEvents.Some? ==> read.0.events <= config.maxEvents.value
    requires read.1 ==> attempts < MAX_RECONNECT_ATTEMPTS && !read.0.aborted && !read.0.normalClose
    requires DropsEnd(config, read.0)
    ensures var (s', again, resumed) := AfterRead(config, attempts, read);
            && (again ==> attempts < MAX_RECONNECT_ATTEMPTS && Undropped(config, s') && resumed)
            && (config.maxEvents.Some? ==> s'.events <= config.maxEvents.value)
            && DropsEnd(config, s')
  {
    if read.1 {
      MarkedKeeps(config, read.0, attempts + 1);
    }
  }

  lemma RoundKeepsSeamless<S(!new)>(w: World, d: Decoding<S>, attempts: nat, s: Session, encode: Frame -> string,
                                    bytesOf: string -> seq<byte>, script: (nat, int) -> seq<Frame>, start: int)
    requires Fits(w, d) && Seamless(s, start) && Trusted(d, w.config, encode, bytesOf, w.hub, script)
    ensures Seamless(Round(w, attempts, Some(s.lastDurableSeq), s).0, start)
  {
    var connection := w.hub(attempts, Some(s.lastDurableSeq));
    if connection.Stream? {
      assert Looking(attempts, s, connection);
      ReadKeepsSeamless(d, w.config, attempts, s, connection, encode, bytesOf, script(attempts, s.lastDurableSeq),
                        start);
      AfterReadKeepsSeamless(w.config, attempts, w.read(attempts, s, connection), start);
    }
  }

  lemma AfterReadKeepsSeamless(config: Config, attempts: nat, read: (Session, bool), start: int)
    requires Seamless(read.0, start)
    ensures Seamless(AfterRead(config, attempts, read).0, start)
  {
    MarkedKeepsSeamless(config, read.0, attempts + 1, start);
  }

  lemma NextRound(w: World, attempts: nat, cursor: Option<int>, s: Session)
    requires !s.aborted && !s.normalClose && !EnoughEvents(w.config, s)
    ensures var round := Round(w, attempts, cursor, s);
            RunFrom(w, attempts, cursor, s) ==
            if !round.1 || attempts >= MAX_RECONNECT_ATTEMPTS then (round.0, attempts + 1)
            else RunFrom(w, attempts + 1, if round.2 then Some(round.0.lastDurableSeq) else cursor,
                         round.0.(aborted := w.abortedAsleep(attempts + 1)))
  {
  }

  /** What every round keeps, whatever it reads. */
  ghost predicate RoundsKeep(w: World)
  {
    forall attempts: nat, cursor, s :: !EnoughEvents(w.config, s) && Undropped(w.config, s) ==>
      RoundKept(w.config, attempts, s, Round(w, attempts, cursor, s))
  }

  ghost predicate RoundKept(config: Config, attempts: nat, s: Session, round: (Session, bool, bool))
  {
    && (round.1 ==> attempts < MAX_RECONNECT_ATTEMPTS && Undropped(config, round.0))
    && (round.1 && !round.2 ==> round.0 == s)
    && (config.maxEvents.Some? ==> round.0.events <= config.maxEvents.value)
    && DropsEnd(config, round.0)
  }

  lemma FitRoundsKeep<S(!new)>(w: World, d: Decoding<S>)
    requires Fits(w, d)
    ensures RoundsKeep(w)
  {
    forall attempts: nat, cursor, s | !EnoughEvents(w.config, s) && Undropped(w.config, s)
      ensures RoundKept(w.config, attempts, s, Round(w, attempts, cursor, s))
    {
      RoundKeeps(w, d, attempts, cursor, s);
    }
  }

  /** Every run keeps to its attempts and its budget, and a refused write that ends it is its last entry. */
  lemma {:induction false} RunKeepsBounds(w: World, attempts: nat, cursor: Option<int>, s: Session)
    requires RoundsKeep(w) && attempts <= MAX_RECONNECT_ATTEMPTS && Undropped(w.config, s)
    requires w.config.maxEvents.Some? ==> s.events <= w.config.maxEvents.value
    ensures var (end, connections) := RunFrom(w, attempts, cursor, s);
            && connections <= MAX_RECONNECT_ATTEMPTS + 1
            && (w.config.maxEvents.Some? ==> end.events <= w.config.maxEvents.value)
            && DropsEnd(w.config, end)
    decreases MAX_RECONNECT_ATTEMPTS - attempts
  {
    if !s.aborted && !s.normalClose && !EnoughEvents(w.config, s) {
      var round := Round(w, attempts, cursor, s);
      assert RoundKept(w.config, attempts, s, round);
      if round.1 && attempts < MAX_RECONNECT_ATTEMPTS {
        RunKeepsBounds(w, attempts + 1, if round.2 then Some(round.0.lastDurableSeq) else cursor,
                       round.0.(aborted := w.abortedAsleep(attempts + 1)));
      }
    }
  }

  lemma BoundsFromOpening<S(!new)>(w: World, d: Decoding<S>, afterSeq: Option<int>)
    requires Fits(w, d)
    ensures var (end, connections) := RunFrom(w, 0, afterSeq, Opening(afterSeq));
            && connections <= MAX_RECONNECT_ATTEMPTS + 1
            && (w.config.maxEvents.Some? ==> end.events <= w.config.maxEvents.value)
  {
    FitRoundsKeep(w, d);
    RunKeepsBounds(w, 0, afterSeq, Opening(afterSeq));
  }

  /** Rounds keep something, and setting the two closing flags does not matter to it. */
  ghost predicate RoundsPreserve(w: World, good: Session -> bool)
  {
    && (forall attempts: nat, s: Session {:trigger Round(w, attempts, Some(s.lastDurableSeq), s)} ::
          good(s) ==> good(Round(w, attempts, Some(s.lastDurableSeq), s).0))
    && (forall s: Session, b: bool {:trigger s.(aborted := b)} :: good(s) ==> good(s.(aborted := b)))
    && (forall s: Session {:trigger s.(normalClose := true)} :: good(s) ==> good(s.(normalClose := true)))
  }

  /** Then runs keep it. */
  lemma {:induction false} RunPreserves(w: World, attempts: nat, s: Session, good: Session -> bool)
    requires RoundsPreserve(w, good) && attempts <= MAX_RECONNECT_ATTEMPTS && good(s)
    ensures good(RunFrom(w, attempts, Some(s.lastDurableSeq), s).0)
    decreases MAX_RECONNECT_ATTEMPTS - attempts
  {
    if !s.aborted && !s.normalClose && !EnoughEvents(w.config, s) {
      var round := Round(w, attempts, Some(s.lastDurableSeq), s);
      NextRound(w, attempts, Some(s.lastDurableSeq), s);
      UnresumedStays(w, attempts, Some(s.lastDurableSeq), s);
      if round.1 && attempts < MAX_RECONNECT_ATTEMPTS {
        RunPreserves(w, attempts + 1, round.0.(aborted := w.abortedAsleep(attempts + 1)), good);
      }
    }
  }

  lemma UnresumedStays(w: World, attempts: nat, cursor: Option<int>, s: Session)
    ensures var round := Round(w, attempts, cursor, s); round.1 && !round.2 ==> round.0 == s
  {
  }

  /**
    Resume safety, with an honest hub and any stdout: the rows offered over all reconnects are consecutive from the
    starting point, those written are exactly if none was written after a refused one, and both this and the resumption
    notices are right whenever every refused write ends the run.
   */
  lemma ResumeSafety<S(!new)>(w: World, d: Decoding<S>, encode: Frame -> string, bytesOf: string -> seq<byte>,
                              script: (nat, int) -> seq<Frame>, start: int)
    requires Fits(w, d) && Trusted(d, w.config, encode, bytesOf, w.hub, script)
    ensures var s := RunFrom(w, 0, Some(start), Opening(Some(start))).0;
            && Seamless(s, start)
            && (WrittenInOrder(s.log, start) <==> !RowAfterDrop(s.log))
            && (RefusalsEnd(w.config, s.writes) ==>
                WrittenInOrder(s.log, start) && ResumesNameLastWritten(s.log, start))
  {
    FitRoundsKeep(w, d);
    SeamlessRounds(w, d, encode, bytesOf, script, start);
    SeamlessRun(w, start);
  }

  lemma SeamlessRounds<S(!new)>(w: World, d: Decoding<S>, encode: Frame -> string, bytesOf: string -> seq<byte>,
                                script: (nat, int) -> seq<Frame>, start: int)
    requires Fits(w, d) && Trusted(d, w.config, encode, bytesOf, w.hub, script)
    ensures RoundsPreserve(w, (s: Session) => Seamless(s, start))
  {
    forall attempts: nat, s: Session | Seamless(s, start)
      ensures Seamless(Round(w, attempts, Some(s.lastDurableSeq), s).0, start)
    {
      RoundKeepsSeamless(w, d, attempts, s, encode, bytesOf, script, start);
    }
  }

  lemma SeamlessRun(w: World, start: int)
    requires RoundsKeep(w) && RoundsPreserve(w, (s: Session) => Seamless(s, start))
    ensures var s := RunFrom(w, 0, Some(start), Opening(Some(start))).0;
            && Seamless(s, start)
            && (WrittenInOrder(s.log, start) <==> !RowAfterDrop(s.log))
            && (RefusalsEnd(w.config, s.writes) ==>
                WrittenInOrder(s.log, start) && ResumesNameLastWritten(s.log, start))
  {
    var opening := Opening(Some(start));
    assert Gapless([], start, 0, start);
    RunPreserves(w, 0, opening, (s: Session) => Seamless(s, start));
    RunKeepsBounds(w, 0, Some(start), opening);
    var s := RunFrom(w, 0, Some(start), opening).0;
    WrittenInOrderIff(s, start);
    if RefusalsEnd(w.config, s.writes) {
      ReaderSeesNoGap(w.config, s, start);
    }
  }

  // ---- The code ----

  /** Read one accepted connection to its end and decide whether to resume. */
  method ReadConnection<S(!new)>(d: Decoding<S>, config: Config, reconnectAttempts: nat, s: Session,
                                 connection: Connection)
    returns (s': Session, resume: bool)
    requires connection.Stream? && forall c :: NewlineFree(d.flush(c))
    ensures (s', resume) == Read(d, config, reconnectAttempts, s, connection)
  {
    var entered := s.(shouldResume := false);
    var handed, threw;
    s', handed, threw :=
      StreamLines(d.step, d.flush, d.init, LineHandler(config, reconnectAttempts), entered, connection.chunks,
                  connection.ending);
    s' := s'.(aborted := s'.aborted || connection.aborted);
    if threw {
      if s'.aborted || reconnectAttempts >= MAX_RECONNECT_ATTEMPTS {
        return s', false;
      }
      s' := s'.(shouldResume := true);
    }
    resume := s'.shouldResume && !s'.aborted && !s'.normalClose;
  }

  /** Tell the reader where the stream resumes. */
  method WriteResumed(config: Config, s: Session, reconnectAttempts: nat) returns (s': Session, marked: bool)
    ensures (s', marked) == Marked(config, s, reconnectAttempts)
    ensures marked ==> s'.log == s.log + [Resumed(s.lastDurableSeq, reconnectAttempts)]
    ensures !marked ==> s'.log == s.log
  {
    marked := config.stdout(s.writes).Accepted?;
    s' := s.(writes := s.writes + 1, normalClose := s.normalClose || config.stdout(s.writes).PipeClosed?);
    if marked {
      s' := s'.(log := s.log + [Resumed(s.lastDurableSeq, reconnectAttempts)]);
    }
  }

  /** One round: connect, read, and say whether to go round again and whether the stream was resumed. */
  method ConnectOnce<S(!new)>(ghost w: World, d: Decoding<S>, config: Config, hub: (nat, Option<int>) -> Connection,
                              currentAfterSeq: Option<int>, reconnectAttempts: nat, s: Session)
    returns (s': Session, again: bool, resumed: bool)
    requires Fits(w, d) && w.config == config && w.hub == hub
    ensures (s', again, resumed) == Round(w, reconnectAttempts, currentAfterSeq, s)
  {
    s', again, resumed := s, false, false;
    var connection := hub(reconnectAttempts, currentAfterSeq);
    if connection.Refused? {
      if connection.aborted {
        s' := s.(aborted := true);
        return;
      }
      again := connection.retryable && reconnectAttempts < MAX_RECONNECT_ATTEMPTS;
      return;
    }
    var resume;
    assert Looking(reconnectAttempts, s, connection);
    s', resume := ReadConnection(d, config, reconnectAttempts, s, connection);
    if !resume {
      return;
    }
    if EnoughEvents(config, s') {
      s' := s'.(normalClose := true);
      return;
    }
    resumed := true;
    s', again := WriteResumed(config, s', reconnectAttempts + 1);
  }

  /** One turn of the loop: the run is over, or goes on with the next attempt. */
  method Turn<S(!new)>(ghost w: World, d: Decoding<S>, config: Config, hub: (nat, Option<int>) -> Connection,
                       abortedAsleep: nat -> bool, reconnectAttempts: nat, currentAfterSeq: Option<int>, s: Session)
    returns (s': Session, over: bool, connections: nat, nextAfterSeq: Option<int>)
    requires Fits(w, d) && w.config == config && w.hub == hub && w.abortedAsleep == abortedAsleep
    requires !s.aborted && !s.normalClose && reconnectAttempts <= MAX_RECONNECT_ATTEMPTS
    ensures over ==> RunFrom(w, reconnectAttempts, currentAfterSeq, s) == (s', connections)
    ensures !over ==>
              && reconnectAttempts < MAX_RECONNECT_ATTEMPTS && connections == reconnectAttempts + 1
              && RunFrom(w, reconnectAttempts, currentAfterSeq, s) ==
                 RunFrom(w, reconnectAttempts + 1, nextAfterSeq, s')
  {
    if EnoughEvents(config, s) {
      return s.(normalClose := true), true, reconnectAttempts, currentAfterSeq;
    }
    NextRound(w, reconnectAttempts, currentAfterSeq, s);
    var again, resumed;
    s', again, resumed := ConnectOnce(w, d, config, hub, currentAfterSeq, reconnectAttempts, s);
    connections, nextAfterSeq := reconnectAttempts + 1, if resumed then Some(s'.lastDurableSeq) else currentAfterSeq;
    over := !again || reconnectAttempts == MAX_RECONNECT_ATTEMPTS;
    if !over {
      s' := s'.(aborted := abortedAsleep(reconnectAttempts + 1));
    }
  }

  method Sleep(attempt: nat, sleptMs: nat) returns (total: nat)
    requires 0 < attempt <= MAX_RECONNECT_ATTEMPTS && sleptMs == TotalBackoffMs(attempt - 1)
    ensures total == TotalBackoffMs(attempt) <= 6550
  {
    TotalBackoffBound(attempt);
    total := sleptMs + BackoffMs(attempt);
  }

  /** The reconnecting run. The hub, the sleeps and stdout are the environment; `w` is what the run depends on. */
  method Subscribe<S(!new)>(ghost w: World, d: Decoding<S>, config: Config, afterSeq: Option<int>,
                            hub: (nat, Option<int>) -> Connection, abortedAsleep: nat -> bool)
    returns (s: Session, connections: nat, sleptMs: nat)
    requires Fits(w, d) && w.config == config && w.hub == hub && w.abortedAsleep == abortedAsleep
    ensures (s, connections) == RunFrom(w, 0, afterSeq, Opening(afterSeq))
    ensures connections <= MAX_RECONNECT_ATTEMPTS + 1
    ensures sleptMs <= 6550
    ensures config.maxEvents.Some? ==> s.events <= config.maxEvents.value
  {
    var currentAfterSeq, reconnectAttempts, over := afterSeq, 0, false;
    s, connections, sleptMs := Opening(afterSeq), 0, 0;
    ghost var whole := RunFrom(w, 0, afterSeq, s);
    BoundsFromOpening(w, d, afterSeq);
    while !over && !s.aborted && !s.normalClose
      invariant reconnectAttempts <= MAX_RECONNECT_ATTEMPTS && (!over ==> connections == reconnectAttempts)
      invariant sleptMs == TotalBackoffMs(reconnectAttempts) && sleptMs <= 6550
      invariant whole == if over then (s, connections) else RunFrom(w, reconnectAttempts, currentAfterSeq, s)
      decreases !over, MAX_RECONNECT_ATTEMPTS - reconnectAttempts
    {
      s, over, connections, currentAfterSeq :=
        Turn(w, d, config, hub, abortedAsleep, reconnectAttempts, currentAfterSeq, s);
      if !over {
        reconnectAttempts := reconnectAttempts + 1;
        sleptMs := Sleep(reconnectAttempts, sleptMs);
      }
    }
  }
}
