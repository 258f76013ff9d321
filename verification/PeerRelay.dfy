/**
  The peer and the two channels as one state machine. Every await of a poll is a step, so
  channel traffic can come between a page being read, each post, and the cursor moving.
 */
module PeerRelay {
  import opened Wrappers
  import opened OrchestratorPeer

  datatype Phase = Resting | Posting(acks: seq<Ack>, done: nat, nextSeq: nat, upTo: nat)

  /**
    One direction of the relay: the source channel, the peer's cursor into it, the page being
    relayed, and the history of texts posted into the other channel. `below` counts the rows
    at or below the cursor and `upTo` those at or below the cursor to come.
   */
  datatype Relay = Relay(log: seq<Message>, cursor: nat, below: nat, phase: Phase, posted: seq<Ack>)

  /** Who relays, and how it words a text. */
  datatype Voice = Voice(self: string, build: Builder)

  datatype Step =
    | Add(message: Message)                               // a row appears in the source channel
    | Grow(index: nat, status: Status, text: string)      // a stream gains text or finishes
    | Fetch(count: nat)                                   // the hub answers with the lowest unseen rows
    | Post                                                // a text lands in the other channel
    | Fail(landed: bool)                                  // a post fails; the text may still have landed
    | Move                                                // everything is posted, the cursor moves

  function LastSeq(log: seq<Message>): (r: nat)
  {
    if log == [] then 0 else log[|log| - 1].seqNo
  }

  /** The cursor separates the first `count` rows from the rest. */
  predicate Boundary(log: seq<Message>, cursor: nat, count: nat)
  {
    && count <= |log|
    && (forall i :: 0 <= i < count ==> log[i].seqNo <= cursor)
    && (forall i :: count <= i < |log| ==> log[i].seqNo > cursor)
  }

  function Grown(log: seq<Message>, index: nat, status: Status, text: string): (r: seq<Message>)
    requires index < |log|
  {
    log[index := log[index].(status := status, text := text)]
  }

  /** What the peer selects from an ascending page (`SelectionOfAscending` ties this to its selection code). */
  function Fetched(v: Voice, r: Relay, page: seq<Message>): (p: Phase)
  {
    var k := HoldAt(page, v.self);
    Posting(Acks(page[..k], v.self, v.build), 0, if k == 0 then r.cursor else page[k - 1].seqNo, r.below + k)
  }

  predicate Legal(v: Voice, r: Relay, step: Step)
  {
    match step
    case Add(m) => m.seqNo > LastSeq(r.log)
    case Grow(index, _, _) => index < |r.log| && r.log[index].status.Streaming?
    case Fetch(count) => r.phase.Resting? && r.below + count <= |r.log|
    case Post => r.phase.Posting? && r.phase.done < |r.phase.acks|
    case Fail(landed) => r.phase.Posting? && r.phase.done < |r.phase.acks|
    case Move => r.phase.Posting? && r.phase.done == |r.phase.acks|
  }

  function Apply(v: Voice, r: Relay, step: Step): (r': Relay)
    requires Legal(v, r, step)
  {
    match step
    case Add(m) => r.(log := r.log + [m])
    case Grow(index, status, text) => r.(log := Grown(r.log, index, status, text))
    case Fetch(count) => r.(phase := Fetched(v, r, r.log[r.below..r.below + count]))
    case Post => r.(posted := r.posted + [r.phase.acks[r.phase.done]], phase := r.phase.(done := r.phase.done + 1))
    case Fail(landed) =>
      r.(posted := if landed then r.posted + [r.phase.acks[r.phase.done]] else r.posted, phase := Resting)
    case Move => r.(cursor := r.phase.nextSeq, below := r.phase.upTo, phase := Resting)
  }

  function Fresh(log: seq<Message>): (r: Relay)
  {
    Relay(log, 0, 0, Resting, [])
  }

  // ---- Facts about logs and due texts ----

  lemma {:induction false} AcksSplit(ms: seq<Message>, k: nat, self: string, build: Builder)
    requires k <= |ms|
    ensures Acks(ms, self, build) == Acks(ms[..k], self, build) + Acks(ms[k..], self, build)
  {
    if k == |ms| {
      assert ms[..k] == ms && ms[k..] == [];
    } else {
      var front := ms[..|ms| - 1];
      AcksSplit(front, k, self, build);
      assert front[..k] == ms[..k] && ms[k..][..|ms[k..]| - 1] == front[k..];
    }
  }

  /** Two logs that differ only in the peer's own rows owe the same texts. */
  lemma {:induction false} AcksAgree(a: seq<Message>, b: seq<Message>, self: string, build: Builder)
    requires |a| == |b|
    requires forall i :: 0 <= i < |a| ==> a[i] == b[i] || (a[i].sender == self && b[i].sender == self)
    ensures Acks(a, self, build) == Acks(b, self, build)
  {
    if a != [] {
      AcksAgree(a[..|a| - 1], b[..|b| - 1], self, build);
    }
  }

  predicate AckOrder(acks: seq<Ack>, bound: nat)
  {
    && (forall i, j :: 0 <= i < j < |acks| ==> acks[i].seqNo < acks[j].seqNo)
    && (forall i :: 0 <= i < |acks| ==> acks[i].seqNo <= bound)
  }

  /** Due texts are in ascending order of their messages, so no message is due twice. */
  lemma {:induction false} AcksAscend(ms: seq<Message>, self: string, build: Builder)
    requires Ascending(ms)
    ensures AckOrder(Acks(ms, self, build), LastSeq(ms))
  {
    if |ms| >= 2 {
      AcksAscend(ms[..|ms| - 1], self, build);
    } else if |ms| == 1 {
      assert ms[..0] == [] && Acks(ms[..0], self, build) == [];
    }
  }

  lemma MaxSeqAscending(ms: seq<Message>, floor: nat)
    requires Ascending(ms) && forall i :: 0 <= i < |ms| ==> ms[i].seqNo > floor
    ensures MaxSeq(ms, floor) == if ms == [] then floor else ms[|ms| - 1].seqNo
  {
  }

  /** On an ascending page above the cursor, the peer's selection code computes what `Fetched` says. */
  lemma SelectionOfAscending(page: seq<Message>, cursor: nat, self: string, build: Builder)
    requires Ascending(page) && forall i :: 0 <= i < |page| ==> page[i].seqNo > cursor
    ensures var k := HoldAt(page, self);
            Selection(page, cursor, self, build) ==
              (Acks(page[..k], self, build), if k == 0 then cursor else page[k - 1].seqNo)
  {
    AscendingIsSorted(page, cursor);
    MaxSeqAscending(page[..HoldAt(page, self)], cursor);
  }

  /** A stream changing leaves settled rows and the texts they owe alone. */
  lemma GrowKeeps(log: seq<Message>, index: nat, status: Status, text: string, p: nat, q: nat, self: string,
                  build: Builder)
    requires index < |log| && log[index].status.Streaming? && p <= q <= |log| && AllSettled(log[..q], self)
    ensures var grown := Grown(log, index, status, text);
            AllSettled(grown[..q], self) && Acks(grown[p..q], self, build) == Acks(log[p..q], self, build)
  {
    var grown := Grown(log, index, status, text);
    assert forall i :: 0 <= i < q ==> Settled(log[..q][i], self) && log[..q][i] == log[i];
    AcksAgree(grown[p..q], log[p..q], self, build);
  }

  /** Nor does it take back a text that was due. */
  lemma GrowOwesNoLess(log: seq<Message>, index: nat, status: Status, text: string, self: string, build: Builder)
    requires index < |log| && log[index].status.Streaming?
    ensures forall ack :: ack in Acks(log, self, build) ==> ack in Acks(Grown(log, index, status, text), self, build)
  {
    var grown := Grown(log, index, status, text);
    AcksSplit(log, index, self, build);
    AcksSplit(grown, index, self, build);
    AcksSplit(log[index..], 1, self, build);
    AcksSplit(grown[index..], 1, self, build);
    assert log[index..][1..] == grown[index..][1..] && log[..index] == grown[..index];
    assert log[index..][..1] == [log[index]];
    assert Acks([log[index]], self, build) == [];
  }

  // ---- The invariant of one direction ----

  /** The stretch below a cursor is settled, so what it owes is final. */
  ghost predicate Closed(self: string, log: seq<Message>, cursor: nat, count: nat)
  {
    Boundary(log, cursor, count) && cursor <= LastSeq(log) && AllSettled(log[..count], self)
  }

  ghost predicate Inv(v: Voice, r: Relay)
  {
    && Ascending(r.log)
    && Closed(v.self, r.log, r.cursor, r.below)
    && (r.phase.Posting? ==>
          && r.phase.done <= |r.phase.acks| && r.below <= r.phase.upTo
          && Closed(v.self, r.log, r.phase.nextSeq, r.phase.upTo)
          && r.phase.acks == Acks(r.log[r.below..r.phase.upTo], v.self, v.build))
  }

  /** The texts due at or below the cursor. */
  function Due(v: Voice, r: Relay): (acks: seq<Ack>)
    requires r.below <= |r.log|
  {
    Acks(r.log[..r.below], v.self, v.build)
  }

  function InFlight(r: Relay): (acks: seq<Ack>)
  {
    if r.phase.Posting? && r.phase.done <= |r.phase.acks| then r.phase.acks[..r.phase.done] else []
  }

  /** Nothing was posted but what is due below the cursor and the part of the current page already posted. */
  ghost predicate Exact(v: Voice, r: Relay)
    requires r.below <= |r.log|
  {
    r.posted == Due(v, r) + InFlight(r)
  }

  /** What survives failed posts: nothing due below the cursor is missing, and nothing posted was partial. */
  ghost predicate Covered(v: Voice, r: Relay)
    requires r.below <= |r.log|
  {
    && (forall ack :: ack in Due(v, r) || ack in InFlight(r) ==> ack in r.posted)
    && (forall ack :: ack in r.posted ==> ack in Acks(r.log, v.self, v.build))
  }

  lemma AppendAscends(log: seq<Message>, m: Message)
    requires Ascending(log) && m.seqNo > LastSeq(log)
    ensures Ascending(log + [m])
  {
  }

  lemma AppendKeepsClosed(self: string, log: seq<Message>, cursor: nat, count: nat, m: Message)
    requires Closed(self, log, cursor, count) && m.seqNo > LastSeq(log)
    ensures Closed(self, log + [m], cursor, count)
  {
    assert (log + [m])[..count] == log[..count];
  }

  lemma AddKeeps(v: Voice, r: Relay, m: Message)
    requires Inv(v, r) && m.seqNo > LastSeq(r.log)
    ensures Inv(v, Apply(v, r, Add(m))) && Due(v, Apply(v, r, Add(m))) == Due(v, r)
  {
    AppendAscends(r.log, m);
    AppendKeepsClosed(v.self, r.log, r.cursor, r.below, m);
    assert (r.log + [m])[..r.below] == r.log[..r.below];
    if r.phase.Posting? {
      AppendKeepsClosed(v.self, r.log, r.phase.nextSeq, r.phase.upTo, m);
      assert (r.log + [m])[r.below..r.phase.upTo] == r.log[r.below..r.phase.upTo];
    }
  }

  lemma GrowKeepsClosed(v: Voice, log: seq<Message>, step: Step, cursor: nat, count: nat, from: nat)
    requires step.Grow? && step.index < |log| && log[step.index].status.Streaming? && from <= count
    requires Ascending(log) && Closed(v.self, log, cursor, count)
    ensures var grown := Grown(log, step.index, step.status, step.text);
            && Ascending(grown) && Closed(v.self, grown, cursor, count)
            && Acks(grown[from..count], v.self, v.build) == Acks(log[from..count], v.self, v.build)
  {
    var grown := Grown(log, step.index, step.status, step.text);
    assert forall i :: 0 <= i < |grown| ==> grown[i].seqNo == log[i].seqNo;
    GrowKeeps(log, step.index, step.status, step.text, from, count, v.self, v.build);
  }

  lemma GrowKeepsInv(v: Voice, r: Relay, step: Step)
    requires Inv(v, r) && step.Grow? && Legal(v, r, step)
    ensures Inv(v, Apply(v, r, step)) && Due(v, Apply(v, r, step)) == Due(v, r)
  {
    GrowKeepsClosed(v, r.log, step, r.cursor, r.below, 0);
    var grown := Grown(r.log, step.index, step.status, step.text);
    assert grown[0..r.below] == grown[..r.below] && r.log[0..r.below] == r.log[..r.below];
    if r.phase.Posting? {
      GrowKeepsClosed(v, r.log, step, r.phase.nextSeq, r.phase.upTo, r.below);
    }
  }

  /** A settled stretch after the cursor closes the channel up to its last row. */
  lemma StretchCloses(self: string, log: seq<Message>, cursor: nat, below: nat, k: nat)
    requires Ascending(log) && Closed(self, log, cursor, below) && below + k <= |log|
             && AllSettled(log[below..below + k], self)
    ensures Closed(self, log, if k == 0 then cursor else log[below + k - 1].seqNo, below + k)
  {
    assert log[..below + k] == log[..below] + log[below..below + k];
  }

  lemma PageStretch(log: seq<Message>, below: nat, count: nat, self: string, k: nat)
    requires below + count <= |log| && k == HoldAt(log[below..below + count], self)
    ensures k <= count && AllSettled(log[below..below + k], self)
    ensures log[below..below + count][..k] == log[below..below + k]
    ensures k > 0 ==> log[below..below + count][k - 1] == log[below + k - 1]
  {
    HoldsAtFirstUnsettled(log[below..below + count], self);
    assert log[below..below + count][..k] == log[below..below + k];
  }

  lemma SelectionStarts(v: Voice, r: Relay, k: nat)
    requires Inv(v, r) && r.below + k <= |r.log| && AllSettled(r.log[r.below..r.below + k], v.self)
    ensures Inv(v, r.(phase := Posting(Acks(r.log[r.below..r.below + k], v.self, v.build), 0,
                                       if k == 0 then r.cursor else r.log[r.below + k - 1].seqNo, r.below + k)))
  {
    StretchCloses(v.self, r.log, r.cursor, r.below, k);
  }

  /** A page selects the settled rows right after the cursor. */
  lemma FetchedIs(v: Voice, r: Relay, count: nat) returns (k: nat)
    requires r.below + count <= |r.log|
    ensures r.below + k <= |r.log| && AllSettled(r.log[r.below..r.below + k], v.self)
    ensures Fetched(v, r, r.log[r.below..r.below + count])
         == Posting(Acks(r.log[r.below..r.below + k], v.self, v.build), 0,
                    if k == 0 then r.cursor else r.log[r.below + k - 1].seqNo, r.below + k)
  {
    k := HoldAt(r.log[r.below..r.below + count], v.self);
    PageStretch(r.log, r.below, count, v.self, k);
  }

  lemma FetchKeepsInv(v: Voice, r: Relay, count: nat)
    requires Inv(v, r) && Legal(v, r, Fetch(count))
    ensures Inv(v, Apply(v, r, Fetch(count)))
  {
    var k := FetchedIs(v, r, count);
    SelectionStarts(v, r, k);
  }

  lemma MoveKeepsInv(v: Voice, r: Relay)
    requires Inv(v, r) && Legal(v, r, Move)
    ensures Inv(v, Apply(v, r, Move)) && Due(v, Apply(v, r, Move)) == Due(v, r) + r.phase.acks
  {
    var taken := r.log[..r.phase.upTo];
    AcksSplit(taken, r.below, v.self, v.build);
    assert taken[..r.below] == r.log[..r.below] && taken[r.below..] == r.log[r.below..r.phase.upTo];
  }

  /** Cursor, selection and channel order survive every step, failures included. */
  lemma StepKeepsInv(v: Voice, r: Relay, step: Step)
    requires Inv(v, r) && Legal(v, r, step)
    ensures Inv(v, Apply(v, r, step))
  {
    match step
    case Add(m) => AddKeeps(v, r, m);
    case Grow(_, _, _) => GrowKeepsInv(v, r, step);
    case Fetch(count) => FetchKeepsInv(v, r, count);
    case Post => PostKeepsInv(v, r);
    case Fail(landed) => FailKeepsInv(v, r, landed);
    case Move => MoveKeepsInv(v, r);
  }

  lemma PostKeepsInv(v: Voice, r: Relay)
    requires Inv(v, r) && Legal(v, r, Post)
    ensures Inv(v, Apply(v, r, Post))
  {
  }

  lemma FailKeepsInv(v: Voice, r: Relay, landed: bool)
    requires Inv(v, r) && Legal(v, r, Fail(landed))
    ensures Inv(v, Apply(v, r, Fail(landed)))
  {
  }

  lemma PostKeepsExact(v: Voice, r: Relay)
    requires Inv(v, r) && Legal(v, r, Post) && Exact(v, r)
    ensures Exact(v, Apply(v, r, Post))
  {
    var ack := r.phase.acks[r.phase.done];
    assert r.phase.acks[..r.phase.done + 1] == InFlight(r) + [ack];
    assert Due(v, r) + InFlight(r) + [ack] == Due(v, r) + (InFlight(r) + [ack]);
  }

  /** While posts succeed, the posted history stays exactly what is due. */
  lemma StepKeepsExact(v: Voice, r: Relay, step: Step)
    requires Inv(v, r) && Legal(v, r, step) && !step.Fail? && Exact(v, r)
    ensures Inv(v, Apply(v, r, step)) && Exact(v, Apply(v, r, step))
  {
    StepKeepsInv(v, r, step);
    match step
    case Add(m) => AddKeeps(v, r, m);
    case Grow(_, _, _) => GrowKeepsInv(v, r, step);
    case Fetch(count) =>
    case Post => PostKeepsExact(v, r);
    case Move =>
      MoveKeepsInv(v, r);
      assert InFlight(r) == r.phase.acks;
  }

  /** A selected text is due in its channel. */
  lemma SelectedIsDue(v: Voice, r: Relay, ack: Ack)
    requires Inv(v, r) && r.phase.Posting? && ack in r.phase.acks
    ensures ack in Acks(r.log, v.self, v.build)
  {
    AcksSplit(r.log, r.phase.upTo, v.self, v.build);
    AcksSplit(r.log[..r.phase.upTo], r.below, v.self, v.build);
    assert r.log[..r.phase.upTo][r.below..] == r.log[r.below..r.phase.upTo];
  }

  lemma PostKeepsCovered(v: Voice, r: Relay)
    requires Inv(v, r) && Legal(v, r, Post) && Covered(v, r)
    ensures Covered(v, Apply(v, r, Post)) && Covered(v, Apply(v, r, Fail(true)))
  {
    var ack := r.phase.acks[r.phase.done];
    SelectedIsDue(v, r, ack);
    assert r.phase.acks[..r.phase.done + 1] == InFlight(r) + [ack];
  }

  /** Even when posts fail, the cursor never passes a due text that was not posted, and nothing posted was partial. */
  lemma StepKeepsCovered(v: Voice, r: Relay, step: Step)
    requires Inv(v, r) && Legal(v, r, step) && Covered(v, r)
    ensures Inv(v, Apply(v, r, step)) && Covered(v, Apply(v, r, step))
  {
    StepKeepsInv(v, r, step);
    match step
    case Add(m) =>
      AddKeeps(v, r, m);
      AcksSplit(r.log + [m], |r.log|, v.self, v.build);
      assert (r.log + [m])[..|r.log|] == r.log;
    case Grow(index, status, text) =>
      GrowKeepsInv(v, r, step);
      GrowOwesNoLess(r.log, index, status, text, v.self, v.build);
    case Fetch(count) =>
    case Post => PostKeepsCovered(v, r);
    case Fail(landed) =>
      if landed {
        PostKeepsCovered(v, r);
      }
    case Move =>
      MoveKeepsInv(v, r);
      assert InFlight(r) == r.phase.acks;
  }

  lemma FreshIsSound(v: Voice, log: seq<Message>)
    requires Ascending(log) && forall i :: 0 <= i < |log| ==> log[i].seqNo > 0
    ensures Inv(v, Fresh(log)) && Exact(v, Fresh(log)) && Covered(v, Fresh(log))
  {
    assert log[..0] == [];
  }

  // ---- Two channels ----

  datatype Side = Product | Impl

  /** Both directions and whose turn it is within a poll. */
  datatype Hub = Hub(product: Relay, impl: Relay, turn: Side)

  datatype Voices = Voices(self: string, toImpl: Builder, toProduct: Builder) {
    function At(side: Side): (v: Voice)
    {
      Voice(self, if side.Product? then toImpl else toProduct)
    }
  }

  datatype Action =
    | Chat(where: Side, message: Message)                            // someone else posts
    | Stream(where: Side, index: nat, status: Status, text: string)
    | FetchPage(count: nat)
    | FetchFails
    | PostLands(seqNo: nat)
    | PostFails(landedAt: Option<nat>)
    | MoveCursor

  function At(h: Hub, side: Side): (r: Relay)
  {
    if side.Product? then h.product else h.impl
  }

  function Other(side: Side): (r: Side)
  {
    if side.Product? then Impl else Product
  }

  /** How a hub action looks from one direction: a post by the other direction is a row of the peer's own. */
  function Seen(vs: Voices, h: Hub, a: Action, side: Side): (step: Option<Step>)
  {
    var mine := h.turn == side;
    var own := (seqNo: nat) =>
      var acting := At(h, h.turn);
      if acting.phase.Posting? && acting.phase.done < |acting.phase.acks|
      then Some(Add(Message(seqNo, vs.self, Complete, acting.phase.acks[acting.phase.done].text))) else None;
    match a
    case Chat(where, m) => if where == side then Some(Add(m)) else None
    case Stream(where, index, status, text) => if where == side then Some(Grow(index, status, text)) else None
    case FetchPage(count) => if mine then Some(Fetch(count)) else None
    case FetchFails => None
    case PostLands(seqNo) => if mine then Some(Post) else own(seqNo)
    case PostFails(landedAt) =>
      if mine then Some(Fail(landedAt.Some?)) else if landedAt.Some? then own(landedAt.value) else None
    case MoveCursor => if mine then Some(Move) else None
  }

  predicate Possible(vs: Voices, h: Hub, a: Action)
  {
    && (a.Chat? ==> a.message.sender != vs.self)
    && (a.FetchFails? ==> At(h, h.turn).phase.Resting?)
    && (forall side :: Seen(vs, h, a, side).Some? ==> Legal(vs.At(side), At(h, side), Seen(vs, h, a, side).value))
  }

  function Advance(vs: Voices, h: Hub, a: Action, side: Side): (r: Relay)
    requires Possible(vs, h, a)
  {
    var step := Seen(vs, h, a, side);
    if step.Some? then Apply(vs.At(side), At(h, side), step.value) else At(h, side)
  }

  /** A poll handles product, then impl; a failure abandons it and the next poll starts over. */
  function Next(vs: Voices, h: Hub, a: Action): (h': Hub)
    requires Possible(vs, h, a)
    ensures forall side :: At(h', side) == Advance(vs, h, a, side)
  {
    Hub(Advance(vs, h, a, Product), Advance(vs, h, a, Impl),
        match a
        case MoveCursor => Other(h.turn)
        case FetchFails => Product
        case PostFails(_) => Product
        case _ => h.turn)
  }

  predicate PossibleRun(vs: Voices, h: Hub, run: seq<Action>)
    decreases |run|
  {
    run != [] ==> Possible(vs, h, run[0]) && PossibleRun(vs, Next(vs, h, run[0]), run[1..])
  }

  function Final(vs: Voices, h: Hub, run: seq<Action>): (end: Hub)
    requires PossibleRun(vs, h, run)
    decreases |run|
  {
    if run == [] then h else Final(vs, Next(vs, h, run[0]), run[1..])
  }

  predicate PostsSucceed(run: seq<Action>)
  {
    forall i :: 0 <= i < |run| ==> !run[i].PostFails?
  }

  function OwnPosts(log: seq<Message>, self: string): (r: nat)
  {
    if log == [] then 0
    else OwnPosts(log[..|log| - 1], self) + (if log[|log| - 1].sender == self then 1 else 0)
  }

  // ---- Whole runs ----

  lemma {:induction false} RunKeepsCovered(vs: Voices, h: Hub, run: seq<Action>, side: Side)
    requires PossibleRun(vs, h, run) && Inv(vs.At(side), At(h, side)) && Covered(vs.At(side), At(h, side))
    ensures var end := At(Final(vs, h, run), side);
            Inv(vs.At(side), end) && Covered(vs.At(side), end)
    decreases |run|
  {
    if run != [] {
      var step := Seen(vs, h, run[0], side);
      if step.Some? {
        StepKeepsCovered(vs.At(side), At(h, side), step.value);
      }
      RunKeepsCovered(vs, Next(vs, h, run[0]), run[1..], side);
    }
  }

  lemma {:induction false} RunKeepsExact(vs: Voices, h: Hub, run: seq<Action>, side: Side)
    requires PossibleRun(vs, h, run) && PostsSucceed(run) && Inv(vs.At(side), At(h, side))
             && Exact(vs.At(side), At(h, side))
    ensures var end := At(Final(vs, h, run), side);
            Inv(vs.At(side), end) && Exact(vs.At(side), end)
    decreases |run|
  {
    if run != [] {
      var step := Seen(vs, h, run[0], side);
      if step.Some? {
        StepKeepsExact(vs.At(side), At(h, side), step.value);
      }
      RunKeepsExact(vs, Next(vs, h, run[0]), run[1..], side);
    }
  }

  lemma {:induction false} OwnPostsUpdate(log: seq<Message>, index: nat, m: Message, self: string)
    requires index < |log| && m.sender == log[index].sender
    ensures OwnPosts(log[index := m], self) == OwnPosts(log, self)
  {
    var front := log[..|log| - 1];
    assert log[index := m][..|log| - 1] == if index < |front| then front[index := m] else front;
    if index < |front| {
      OwnPostsUpdate(front, index, m, self);
    }
  }

  /** A step adds one own row exactly when it adds a row of the peer's. */
  lemma StepCountsOwn(v: Voice, r: Relay, step: Step)
    requires Legal(v, r, step)
    ensures OwnPosts(Apply(v, r, step).log, v.self) ==
            OwnPosts(r.log, v.self) + (if step.Add? && step.message.sender == v.self then 1 else 0)
  {
    if step.Add? {
      assert (r.log + [step.message])[..|r.log|] == r.log;
    } else if step.Grow? {
      OwnPostsUpdate(r.log, step.index, r.log[step.index].(status := step.status, text := step.text), v.self);
    }
  }

  /** The peer's rows in a channel and the other direction's posting history grow together. */
  lemma NextKeepsCount(vs: Voices, h: Hub, a: Action, side: Side)
    requires Possible(vs, h, a)
    ensures OwnPosts(Advance(vs, h, a, Other(side)).log, vs.self) - |Advance(vs, h, a, side).posted|
            == OwnPosts(At(h, Other(side)).log, vs.self) - |At(h, side).posted|
  {
    var seen := Seen(vs, h, a, Other(side));
    if seen.Some? {
      StepCountsOwn(vs.At(Other(side)), At(h, Other(side)), seen.value);
    }
  }

  lemma {:induction false} RunKeepsCount(vs: Voices, h: Hub, run: seq<Action>, side: Side)
    requires PossibleRun(vs, h, run)
    ensures var end := Final(vs, h, run);
            OwnPosts(At(end, Other(side)).log, vs.self) - |At(end, side).posted| ==
              OwnPosts(At(h, Other(side)).log, vs.self) - |At(h, side).posted|
    decreases |run|
  {
    if run != [] {
      NextKeepsCount(vs, h, run[0], side);
      RunKeepsCount(vs, Next(vs, h, run[0]), run[1..], side);
    }
  }

  predicate Startable(log: seq<Message>)
  {
    Ascending(log) && forall i :: 0 <= i < |log| ==> log[i].seqNo > 0
  }

  function Start(product: seq<Message>, impl: seq<Message>): (h: Hub)
  {
    Hub(Fresh(product), Fresh(impl), Product)
  }

  /** Carries final content from somebody else, complete or cut short. */
  predicate Finished(m: Message, self: string)
  {
    m.sender != self && (m.status == Complete || m.status == Truncated)
  }

  /** Everything finished among the first n rows has been posted. */
  predicate AllPosted(v: Voice, r: Relay, n: nat)
    requires n <= |r.log|
  {
    forall i :: 0 <= i < n && Finished(r.log[i], v.self) ==> Ack(r.log[i].seqNo, v.build(r.log[i])) in r.posted
  }

  /** Everything posted is the final text of a finished message among the first n rows. */
  ghost predicate OnlyPosted(v: Voice, r: Relay, n: nat)
    requires n <= |r.log|
  {
    forall ack :: ack in r.posted ==>
      exists i :: 0 <= i < n && Finished(r.log[i], v.self) && ack == Ack(r.log[i].seqNo, v.build(r.log[i]))
  }

  /** The rows a poll has read: those below the cursor, and those of the page it is relaying. */
  function ReadSoFar(r: Relay): (n: nat)
  {
    if r.phase.Posting? then r.phase.upTo else r.below
  }

  lemma DueIsPosted(v: Voice, r: Relay)
    requires r.below <= |r.log| && forall ack :: ack in Due(v, r) ==> ack in r.posted
    ensures AllPosted(v, r, r.below)
  {
    forall i | 0 <= i < r.below && Finished(r.log[i], v.self)
      ensures Ack(r.log[i].seqNo, v.build(r.log[i])) in r.posted
    {
      FinishedIsOwed(r.log[..r.below], v.self, v.build, i);
    }
  }

  lemma OwedIsFinished(v: Voice, r: Relay, n: nat)
    requires n <= |r.log| && forall ack :: ack in r.posted ==> ack in Acks(r.log[..n], v.self, v.build)
    ensures OnlyPosted(v, r, n)
  {
    forall ack | ack in r.posted
      ensures exists i :: 0 <= i < n && Finished(r.log[i], v.self) && ack == Ack(r.log[i].seqNo, v.build(r.log[i]))
    {
      var m := AcksSource(r.log[..n], v.self, v.build, ack);
      var i :| 0 <= i < n && r.log[..n][i] == m;
      assert r.log[i] == m;
    }
  }

  /** What is posted is the beginning of what the rows read so far owe. */
  lemma PostedIsBeginning(v: Voice, r: Relay)
    requires Inv(v, r) && Exact(v, r)
    ensures r.posted <= Acks(r.log[..ReadSoFar(r)], v.self, v.build)
  {
    if r.phase.Posting? {
      var read := r.log[..r.phase.upTo];
      AcksSplit(read, r.below, v.self, v.build);
      assert read[..r.below] == r.log[..r.below] && read[r.below..] == r.log[r.below..r.phase.upTo];
    }
  }

  lemma BeginningInOrder(acks: seq<Ack>, all: seq<Ack>, bound: nat)
    requires acks <= all && AckOrder(all, bound)
    ensures AckOrder(acks, bound)
    ensures forall ack :: ack in acks ==> ack in all
  {
    assert forall i :: 0 <= i < |acks| ==> acks[i] == all[i];
  }

  lemma ExactMeans(v: Voice, r: Relay)
    requires Inv(v, r) && Exact(v, r)
    ensures ReadSoFar(r) <= |r.log| && AllPosted(v, r, r.below) && OnlyPosted(v, r, ReadSoFar(r))
    ensures AckOrder(r.posted, LastSeq(r.log[..ReadSoFar(r)]))
  {
    var read := r.log[..ReadSoFar(r)];
    PostedIsBeginning(v, r);
    AcksAscend(read, v.self, v.build);
    BeginningInOrder(r.posted, Acks(read, v.self, v.build), LastSeq(read));
    DueIsPosted(v, r);
    OwedIsFinished(v, r, ReadSoFar(r));
  }

  /**
    Poll-schedule independence: however polls interleave with traffic, what has been posted is the final text of
    every finished message of somebody else up to the cursor, of nothing beyond the page being relayed, in order and
    once each; between polls, of nothing beyond the cursor.
   */
  lemma PollScheduleIndependence(vs: Voices, product: seq<Message>, impl: seq<Message>, run: seq<Action>, side: Side)
    requires Startable(product) && Startable(impl) && PossibleRun(vs, Start(product, impl), run) && PostsSucceed(run)
    ensures var end := At(Final(vs, Start(product, impl), run), side);
            && Boundary(end.log, end.cursor, end.below) && ReadSoFar(end) <= |end.log|
            && AllPosted(vs.At(side), end, end.below)
            && OnlyPosted(vs.At(side), end, ReadSoFar(end))
            && AckOrder(end.posted, LastSeq(end.log[..ReadSoFar(end)]))
            && end.posted == Due(vs.At(side), end) + InFlight(end)
  {
    FreshIsSound(vs.At(Product), product);
    FreshIsSound(vs.At(Impl), impl);
    RunKeepsExact(vs, Start(product, impl), run, side);
    ExactMeans(vs.At(side), At(Final(vs, Start(product, impl), run), side));
  }

  /**
    With posts that may fail: no cursor passes a finished message of somebody else that was not posted, and every post
    was the final text of one.
   */
  lemma CursorNeverPassesUnposted(vs: Voices, product: seq<Message>, impl: seq<Message>, run: seq<Action>, side: Side)
    requires Startable(product) && Startable(impl) && PossibleRun(vs, Start(product, impl), run)
    ensures var end := At(Final(vs, Start(product, impl), run), side);
            && Boundary(end.log, end.cursor, end.below)
            && AllPosted(vs.At(side), end, end.below)
            && OnlyPosted(vs.At(side), end, |end.log|)
  {
    FreshIsSound(vs.At(Product), product);
    FreshIsSound(vs.At(Impl), impl);
    RunKeepsCovered(vs, Start(product, impl), run, side);
    var end := At(Final(vs, Start(product, impl), run), side);
    DueIsPosted(vs.At(side), end);
    assert end.log[..|end.log|] == end.log;
    OwedIsFinished(vs.At(side), end, |end.log|);
  }

  /**
    No echo: whatever was in the channels at the start, rows of an earlier peer included, the rows the peer adds to
    one channel number exactly the other channel's finished messages of others up to its cursor, and those of the page
    at hand that are posted already.
   */
  lemma NoEchoAmplification(vs: Voices, product: seq<Message>, impl: seq<Message>, run: seq<Action>, side: Side)
    requires Startable(product) && Startable(impl) && PossibleRun(vs, Start(product, impl), run) && PostsSucceed(run)
    ensures var start, end := Start(product, impl), Final(vs, Start(product, impl), run);
            && At(end, side).below <= |At(end, side).log|
            && OwnPosts(At(end, Other(side)).log, vs.self) ==
               OwnPosts(At(start, Other(side)).log, vs.self)
                 + |FinishedRows(At(end, side).log[..At(end, side).below], vs.self)| + |InFlight(At(end, side))|
            && (At(end, side).phase.Resting? ==> InFlight(At(end, side)) == [])
  {
    PollScheduleIndependence(vs, product, impl, run, side);
    RunKeepsCount(vs, Start(product, impl), run, side);
    var end := At(Final(vs, Start(product, impl), run), side);
    OneTextEach(end.log[..end.below], vs.self, vs.At(side).build);
  }

  // ---- The posts arrive ----

  function OwnTexts(log: seq<Message>, self: string): (r: seq<string>)
  {
    if log == [] then []
    else OwnTexts(log[..|log| - 1], self) + (if log[|log| - 1].sender == self then [log[|log| - 1].text] else [])
  }

  function TextsOf(acks: seq<Ack>): (r: seq<string>)
  {
    if acks == [] then [] else TextsOf(acks[..|acks| - 1]) + [acks[|acks| - 1].text]
  }

  /** The peer's own rows are written complete. */
  predicate OwnWhole(log: seq<Message>, self: string)
  {
    forall i :: 0 <= i < |log| && log[i].sender == self ==> log[i].status != Streaming
  }

  lemma {:induction false} OwnTextsUpdate(log: seq<Message>, index: nat, m: Message, self: string)
    requires index < |log| && log[index].sender != self && m.sender != self
    ensures OwnTexts(log[index := m], self) == OwnTexts(log, self)
  {
    var front := log[..|log| - 1];
    assert log[index := m][..|log| - 1] == if index < |front| then front[index := m] else front;
    if index < |front| {
      OwnTextsUpdate(front, index, m, self);
    }
  }

  lemma StepKeepsTexts(v: Voice, r: Relay, step: Step)
    requires Legal(v, r, step) && OwnWhole(r.log, v.self)
    requires step.Add? && step.message.sender == v.self ==> step.message.status == Complete
    ensures OwnWhole(Apply(v, r, step).log, v.self)
    ensures OwnTexts(Apply(v, r, step).log, v.self) ==
            OwnTexts(r.log, v.self) + (if step.Add? && step.message.sender == v.self then [step.message.text] else [])
  {
    if step.Add? {
      assert (r.log + [step.message])[..|r.log|] == r.log;
    } else if step.Grow? {
      OwnTextsUpdate(r.log, step.index, r.log[step.index].(status := step.status, text := step.text), v.self);
    }
  }

  lemma TextsSnoc(acks: seq<Ack>, ack: Ack)
    ensures TextsOf(acks + [ack]) == TextsOf(acks) + [ack.text]
  {
    assert (acks + [ack])[..|acks|] == acks;
  }

  /** The peer's rows in a channel are what they were, followed by the given posts. */
  predicate Arrived(before: seq<string>, log: seq<Message>, self: string, posted: seq<Ack>)
  {
    OwnWhole(log, self) && OwnTexts(log, self) == before + TextsOf(posted)
  }

  /** The text an action makes land in the other channel, if any. */
  function Landing(h: Hub, a: Action, side: Side): (r: Option<Ack>)
  {
    var r := At(h, side);
    if h.turn == side && r.phase.Posting? && r.phase.done < |r.phase.acks|
      && (a.PostLands? || (a.PostFails? && a.landedAt.Some?))
    then Some(r.phase.acks[r.phase.done])
    else None
  }

  function Landed(acks: seq<Ack>, landing: Option<Ack>): (r: seq<Ack>)
  {
    if landing.Some? then acks + [landing.value] else acks
  }

  lemma LandingIsRecorded(vs: Voices, h: Hub, a: Action, side: Side)
    requires Possible(vs, h, a)
    ensures Advance(vs, h, a, side).posted == Landed(At(h, side).posted, Landing(h, a, side))
  {
    var seen := Seen(vs, h, a, side);
    if seen.Some? {
      assert Legal(vs.At(side), At(h, side), seen.value);
    }
  }

  lemma LandingIsSeen(vs: Voices, h: Hub, a: Action, side: Side)
    requires Possible(vs, h, a)
    ensures var seen, landing := Seen(vs, h, a, Other(side)), Landing(h, a, side);
            && (landing.Some? <==> seen.Some? && seen.value.Add? && seen.value.message.sender == vs.self)
            && (landing.Some? ==>
                seen.value.message.text == landing.value.text && seen.value.message.status == Complete)
  {
    var mine := Seen(vs, h, a, side);
    if mine.Some? {
      assert Legal(vs.At(side), At(h, side), mine.value);
    }
  }

  lemma NextKeepsArrived(vs: Voices, h: Hub, a: Action, side: Side, before: seq<string>)
    requires Possible(vs, h, a) && Arrived(before, At(h, Other(side)).log, vs.self, At(h, side).posted)
    ensures Arrived(before, Advance(vs, h, a, Other(side)).log, vs.self, Advance(vs, h, a, side).posted)
  {
    var seen, landing := Seen(vs, h, a, Other(side)), Landing(h, a, side);
    LandingIsRecorded(vs, h, a, side);
    LandingIsSeen(vs, h, a, side);
    if seen.Some? {
      StepKeepsTexts(vs.At(Other(side)), At(h, Other(side)), seen.value);
    }
    ArrivedNext(before, At(h, Other(side)).log, Advance(vs, h, a, Other(side)).log, vs.self, At(h, side).posted,
                landing);
  }

  lemma ArrivedNext(before: seq<string>, log: seq<Message>, log': seq<Message>, self: string, posted: seq<Ack>,
                    landing: Option<Ack>)
    requires Arrived(before, log, self, posted) && OwnWhole(log', self)
    requires OwnTexts(log', self) == OwnTexts(log, self) + (if landing.Some? then [landing.value.text] else [])
    ensures Arrived(before, log', self, Landed(posted, landing))
  {
    if landing.Some? {
      TextsSnoc(posted, landing.value);
      AppendToBoth(before, TextsOf(posted), [landing.value.text]);
    } else {
      AppendToBoth(before, TextsOf(posted), []);
    }
  }

  lemma AppendToBoth<T>(a: seq<T>, b: seq<T>, c: seq<T>)
    ensures (a + b) + c == a + (b + c) && b + [] == b
  {
  }

  /**
    In every run, failing posts included: the peer's rows in one channel are, in order, those it started with and the
    texts in the other direction's posting history.
   */
  lemma {:induction false} PostsArriveInOrder(vs: Voices, h: Hub, run: seq<Action>, side: Side, before: seq<string>)
    requires PossibleRun(vs, h, run) && Arrived(before, At(h, Other(side)).log, vs.self, At(h, side).posted)
    ensures var end := Final(vs, h, run); Arrived(before, At(end, Other(side)).log, vs.self, At(end, side).posted)
    decreases |run|
  {
    if run != [] {
      NextKeepsArrived(vs, h, run[0], side, before);
      PostsArriveInOrder(vs, Next(vs, h, run[0]), run[1..], side, before);
    }
  }

  // ---- A poll makes progress ----

  predicate LegalSteps(v: Voice, r: Relay, steps: seq<Step>)
    decreases |steps|
  {
    steps != [] ==> Legal(v, r, steps[0]) && LegalSteps(v, Apply(v, r, steps[0]), steps[1..])
  }

  function ApplySteps(v: Voice, r: Relay, steps: seq<Step>): (r': Relay)
    requires LegalSteps(v, r, steps)
    decreases |steps|
  {
    if steps == [] then r else ApplySteps(v, Apply(v, r, steps[0]), steps[1..])
  }

  lemma {:induction false} PostTheRest(v: Voice, r: Relay) returns (steps: seq<Step>)
    requires r.phase.Posting? && r.phase.done <= |r.phase.acks|
    ensures LegalSteps(v, r, steps) && (forall k :: 0 <= k < |steps| ==> steps[k] == Post || steps[k] == Move)
    ensures ApplySteps(v, r, steps) ==
            r.(posted := r.posted + r.phase.acks[r.phase.done..], cursor := r.phase.nextSeq,
               below := r.phase.upTo, phase := Resting)
    decreases |r.phase.acks| - r.phase.done
  {
    if r.phase.done == |r.phase.acks| {
      steps := [Move];
      FirstStep(v, r, Move, []);
      assert steps == [Move] + [] && r.posted + r.phase.acks[r.phase.done..] == r.posted;
    } else {
      var next := Apply(v, r, Post);
      var rest := PostTheRest(v, next);
      steps := [Post] + rest;
      FirstStep(v, r, Post, rest);
      assert next.posted + r.phase.acks[r.phase.done + 1..] == r.posted + r.phase.acks[r.phase.done..];
    }
  }

  /**
    A poll that reads everything and whose posts succeed takes the cursor up to the end, or to a message still
    streaming.
   */
  lemma PollCatchesUp(v: Voice, r: Relay) returns (steps: seq<Step>)
    requires Inv(v, r) && r.phase.Resting?
    ensures LegalSteps(v, r, steps)
    ensures forall k :: 0 <= k < |steps| ==> steps[k].Fetch? || steps[k] == Post || steps[k] == Move
    ensures var end := ApplySteps(v, r, steps);
            && end.log == r.log && end.phase.Resting? && r.below <= end.below <= |r.log|
            && (end.below < |r.log| ==> r.log[end.below].sender != v.self && r.log[end.below].status == Streaming)
  {
    var count := |r.log| - r.below;
    FetchAll(v, r);
    var fetched := Apply(v, r, Fetch(count));
    var rest := PostTheRest(v, fetched);
    steps := [Fetch(count)] + rest;
    FirstStep(v, r, Fetch(count), rest);
  }

  lemma FirstStep(v: Voice, r: Relay, step: Step, rest: seq<Step>)
    requires Legal(v, r, step) && LegalSteps(v, Apply(v, r, step), rest)
    ensures LegalSteps(v, r, [step] + rest) && ApplySteps(v, r, [step] + rest) == ApplySteps(v, Apply(v, r, step), rest)
  {
    assert ([step] + rest)[1..] == rest;
  }

  lemma FetchAll(v: Voice, r: Relay)
    requires Inv(v, r) && r.phase.Resting?
    ensures Legal(v, r, Fetch(|r.log| - r.below))
    ensures var fetched := Apply(v, r, Fetch(|r.log| - r.below));
            && fetched.log == r.log && fetched.phase.Posting? && fetched.phase.done == 0
            && r.below <= fetched.phase.upTo <= |r.log|
            && (fetched.phase.upTo < |r.log| ==>
                  r.log[fetched.phase.upTo].sender != v.self && r.log[fetched.phase.upTo].status == Streaming)
  {
    var page := r.log[r.below..];
    assert r.log[r.below..r.below + |page|] == page;
    HoldsAtFirstUnsettled(page, v.self);
    var k := HoldAt(page, v.self);
    assert k < |page| ==> page[k] == r.log[r.below + k];
  }
}
