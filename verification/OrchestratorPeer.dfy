/**
  The orchestrator peer: polls a product and an implementation channel, relays finished
  messages of each into the other, and holds its cursor in front of a message still streaming.
 */
module OrchestratorPeer {
  import opened Sorting
  import opened Wrappers

  datatype Status = Streaming | Complete | Truncated | Interrupted | Failed

  datatype Message = Message(seqNo: nat, sender: string, status: Status, text: string)

  /** A relayed text, with the sequence number of the message it was built from. */
  datatype Ack = Ack(seqNo: nat, text: string)

  type Builder = Message -> string

  function BuildWorkerMention(framework: string): (r: Builder)
  {
    (m: Message) => "@" + framework + " " + m.text
  }

  function BuildRollup(m: Message): (r: string)
  {
    "rollup (from impl): " + m.text
  }

  /** Carries final content from somebody else. */
  predicate Relayable(m: Message, self: string)
  {
    m.sender != self && (m.status.Complete? || m.status.Truncated?)
  }

  /** Will never change in a way the relay cares about. */
  predicate Settled(m: Message, self: string)
  {
    m.sender == self || !m.status.Streaming?
  }

  predicate AllSettled(ms: seq<Message>, self: string)
  {
    forall i :: 0 <= i < |ms| ==> Settled(ms[i], self)
  }

  predicate Ascending(ms: seq<Message>)
  {
    forall i, j :: 0 <= i < j < |ms| ==> ms[i].seqNo < ms[j].seqNo
  }

  /** Reference: the texts due for a stretch of a channel, in order. */
  function Acks(ms: seq<Message>, self: string, build: Builder): (r: seq<Ack>)
  {
    if ms == [] then []
    else
      var last := ms[|ms| - 1];
      Acks(ms[..|ms| - 1], self, build) + (if Relayable(last, self) then [Ack(last.seqNo, build(last))] else [])
  }

  /** The stretch before the first message of another sender that is still streaming. */
  function HoldAt(ms: seq<Message>, self: string): (r: nat)
    ensures r <= |ms|
  {
    if ms == [] || !Settled(ms[0], self) then 0 else 1 + HoldAt(ms[1..], self)
  }

  lemma {:induction false} HoldsAtFirstUnsettled(ms: seq<Message>, self: string)
    ensures AllSettled(ms[..HoldAt(ms, self)], self)
    ensures HoldAt(ms, self) < |ms| ==> !Settled(ms[HoldAt(ms, self)], self)
  {
    if ms != [] && Settled(ms[0], self) {
      HoldsAtFirstUnsettled(ms[1..], self);
      assert ms[..HoldAt(ms, self)] == [ms[0]] + ms[1..][..HoldAt(ms[1..], self)];
    }
  }

  function MaxSeq(ms: seq<Message>, floor: nat): (r: nat)
    ensures floor <= r && forall i :: 0 <= i < |ms| ==> ms[i].seqNo <= r
    ensures r == floor || exists i :: 0 <= i < |ms| && ms[i].seqNo == r
  {
    if ms == [] then floor
    else
      var rest := MaxSeq(ms[..|ms| - 1], floor);
      if ms[|ms| - 1].seqNo > rest then ms[|ms| - 1].seqNo else rest
  }

  predicate BySeq(ms: seq<Message>)
  {
    forall i, j :: 0 <= i < j < |ms| ==> ms[i].seqNo <= ms[j].seqNo
  }

  /** In order of their messages, none beyond the bound. */
  predicate AcksBySeq(acks: seq<Ack>, bound: nat)
  {
    && (forall i, j :: 0 <= i < j < |acks| ==> acks[i].seqNo <= acks[j].seqNo)
    && (forall i :: 0 <= i < |acks| ==> acks[i].seqNo <= bound)
  }

  /** Every finished message of another sender is owed its text, whether it is complete or was cut short. */
  lemma {:induction false} FinishedIsOwed(ms: seq<Message>, self: string, build: Builder, i: nat)
    requires i < |ms| && ms[i].sender != self && (ms[i].status == Complete || ms[i].status == Truncated)
    ensures Ack(ms[i].seqNo, build(ms[i])) in Acks(ms, self, build)
  {
    if i < |ms| - 1 {
      FinishedIsOwed(ms[..|ms| - 1], self, build, i);
    }
  }

  /** The rows of other senders that carry final content. */
  function FinishedRows(ms: seq<Message>, self: string): (r: set<nat>)
  {
    set i: nat | i < |ms| && ms[i].sender != self && (ms[i].status == Complete || ms[i].status == Truncated)
  }

  /** One text is owed per such row. */
  lemma {:induction false} OneTextEach(ms: seq<Message>, self: string, build: Builder)
    ensures |Acks(ms, self, build)| == |FinishedRows(ms, self)|
  {
    if ms != [] {
      var n := |ms| - 1;
      OneTextEach(ms[..n], self, build);
      assert FinishedRows(ms, self) ==
             FinishedRows(ms[..n], self) + (if n in FinishedRows(ms, self) then {n} else {});
    }
  }

  // ---- Selection ----

  function Unseen(ms: seq<Message>, lastSeq: nat): (r: seq<Message>)
  {
    if ms == [] then []
    else (if ms[0].seqNo > lastSeq then [ms[0]] else []) + Unseen(ms[1..], lastSeq)
  }

  function SortBySeq(ms: seq<Message>): (r: seq<Message>)
  {
    Sort(ms, (m: Message) => m.seqNo)
  }

  lemma {:induction false} AllUnseen(ms: seq<Message>, lastSeq: nat)
    requires forall i :: 0 <= i < |ms| ==> ms[i].seqNo > lastSeq
    ensures Unseen(ms, lastSeq) == ms
  {
    if ms != [] {
      AllUnseen(ms[1..], lastSeq);
      assert ms == [ms[0]] + ms[1..];
    }
  }

  /** A page in ascending order is its own unseen, sorted list. */
  lemma AscendingIsSorted(ms: seq<Message>, lastSeq: nat)
    requires Ascending(ms) && forall i :: 0 <= i < |ms| ==> ms[i].seqNo > lastSeq
    ensures SortBySeq(Unseen(ms, lastSeq)) == ms
  {
    AllUnseen(ms, lastSeq);
    SortedStays(ms, (m: Message) => m.seqNo);
  }

  /** What a history page yields: the settled prefix decides both the texts and the next cursor. */
  function Selection(page: seq<Message>, lastSeq: nat, self: string, build: Builder): (r: (seq<Ack>, nat))
  {
    var unseen := SortBySeq(Unseen(page, lastSeq));
    var settled := unseen[..HoldAt(unseen, self)];
    (Acks(settled, self, build), MaxSeq(settled, lastSeq))
  }

  /** A message beyond the cursor from somebody else. */
  predicate News(m: Message, lastSeq: nat, self: string)
  {
    m.seqNo > lastSeq && m.sender != self
  }

  /** Nothing new is still streaming at or before this number. */
  predicate NothingHeldUpTo(messages: seq<Message>, lastSeq: nat, self: string, seqNo: nat)
  {
    forall s :: s in messages && News(s, lastSeq, self) && s.status == Streaming ==> seqNo < s.seqNo
  }

  /**
    What a selection owes its caller: the final text of every new message in front of the first one still streaming,
    nothing else, in order; and a cursor past all of those, in front of whatever streams.
   */
  ghost predicate Selects(messages: seq<Message>, lastSeq: nat, self: string, build: Builder, acks: seq<Ack>,
                          nextSeq: nat)
  {
    && (forall m :: m in messages && News(m, lastSeq, self) && NothingHeldUpTo(messages, lastSeq, self, m.seqNo) ==>
          m.seqNo <= nextSeq && (m.status == Complete || m.status == Truncated ==> Ack(m.seqNo, build(m)) in acks))
    && (forall ack :: ack in acks ==>
          exists m :: m in messages && News(m, lastSeq, self) && (m.status == Complete || m.status == Truncated)
                      && ack == Ack(m.seqNo, build(m)))
    && AcksBySeq(acks, nextSeq)
    && (forall s :: s in messages && News(s, lastSeq, self) && s.status == Streaming ==> nextSeq <= s.seqNo)
    && (nextSeq == lastSeq || exists m :: m in messages && m.seqNo == nextSeq)
    && lastSeq <= nextSeq
  }

  lemma {:induction false} UnseenKeeps(ms: seq<Message>, lastSeq: nat, m: Message)
    ensures m in Unseen(ms, lastSeq) <==> m in ms && m.seqNo > lastSeq
  {
    if ms != [] {
      UnseenKeeps(ms[1..], lastSeq, m);
      assert ms == [ms[0]] + ms[1..];
    }
  }

  lemma SortedUnseen(ms: seq<Message>, lastSeq: nat)
    ensures forall m :: m in SortBySeq(Unseen(ms, lastSeq)) <==> m in ms && m.seqNo > lastSeq
    ensures BySeq(SortBySeq(Unseen(ms, lastSeq)))
  {
    var key := (m: Message) => m.seqNo;
    SortKeepsAll(Unseen(ms, lastSeq), key);
    SortOrders(Unseen(ms, lastSeq), key, 0);
    KeysInOrder(SortBySeq(Unseen(ms, lastSeq)), key);
    forall m
      ensures m in SortBySeq(Unseen(ms, lastSeq)) <==> m in ms && m.seqNo > lastSeq
    {
      UnseenKeeps(ms, lastSeq, m);
      assert m in multiset(Unseen(ms, lastSeq)) <==> m in Unseen(ms, lastSeq);
      assert m in multiset(SortBySeq(Unseen(ms, lastSeq))) <==> m in SortBySeq(Unseen(ms, lastSeq));
    }
  }

  lemma KeysInOrder(ms: seq<Message>, key: Message -> int)
    requires NonDecreasing(ms, key) && forall m :: key(m) == m.seqNo
    ensures BySeq(ms)
  {
    forall i, j | 0 <= i < j < |ms|
      ensures ms[i].seqNo <= ms[j].seqNo
    {
      assert key(ms[i]) <= key(ms[j]);
    }
  }

  lemma {:induction false} AcksOrdered(ms: seq<Message>, self: string, build: Builder, bound: nat)
    requires BySeq(ms) && forall i :: 0 <= i < |ms| ==> ms[i].seqNo <= bound
    ensures AcksBySeq(Acks(ms, self, build), bound)
  {
    if ms != [] {
      var front, last := ms[..|ms| - 1], ms[|ms| - 1];
      forall i | 0 <= i < |front|
        ensures front[i].seqNo <= last.seqNo
      {
        assert front[i] == ms[i];
      }
      AcksOrdered(front, self, build, last.seqNo);
      var acks := Acks(front, self, build);
      assert Acks(ms, self, build) == acks + (if Relayable(last, self) then [Ack(last.seqNo, build(last))] else []);
      AcksExtend(acks, last.seqNo, Ack(last.seqNo, build(last)), bound);
    }
  }

  lemma AcksExtend(acks: seq<Ack>, upTo: nat, ack: Ack, bound: nat)
    requires AcksBySeq(acks, upTo) && upTo == ack.seqNo <= bound
    ensures AcksBySeq(acks, bound) && AcksBySeq(acks + [ack], bound)
  {
  }

  /** Every owed text is the final text of a finished message of somebody else. */
  lemma {:induction false} AcksSource(ms: seq<Message>, self: string, build: Builder, ack: Ack) returns (m: Message)
    requires ack in Acks(ms, self, build)
    ensures m in ms && m.sender != self && (m.status == Complete || m.status == Truncated)
            && ack == Ack(m.seqNo, build(m))
  {
    var front, last := ms[..|ms| - 1], ms[|ms| - 1];
    if ack in Acks(front, self, build) {
      m := AcksSource(front, self, build, ack);
    } else {
      m := last;
    }
  }

  /** The settled stretch of the sorted news. */
  function SettledNews(messages: seq<Message>, lastSeq: nat, self: string): (r: seq<Message>)
  {
    var sorted := SortBySeq(Unseen(messages, lastSeq));
    sorted[..HoldAt(sorted, self)]
  }

  lemma NewsInFrontIsSettled(messages: seq<Message>, lastSeq: nat, self: string, build: Builder, m: Message)
    requires m in messages && News(m, lastSeq, self) && NothingHeldUpTo(messages, lastSeq, self, m.seqNo)
    ensures var settled := SettledNews(messages, lastSeq, self);
            && m.seqNo <= MaxSeq(settled, lastSeq)
            && (m.status == Complete || m.status == Truncated ==> Ack(m.seqNo, build(m)) in Acks(settled, self, build))
  {
    SortedUnseen(messages, lastSeq);
    var settled := SettledNews(messages, lastSeq, self);
    SettledStretchHas(SortBySeq(Unseen(messages, lastSeq)), self, m);
    var i :| 0 <= i < |settled| && settled[i] == m;
    if m.status == Complete || m.status == Truncated {
      FinishedIsOwed(settled, self, build, i);
    }
  }

  lemma SettledIsNews(messages: seq<Message>, lastSeq: nat, self: string)
    ensures forall m :: m in SettledNews(messages, lastSeq, self) ==> m in messages && m.seqNo > lastSeq
    ensures BySeq(SettledNews(messages, lastSeq, self))
  {
    SortedUnseen(messages, lastSeq);
    var sorted := SortBySeq(Unseen(messages, lastSeq));
    assert forall m :: m in SettledNews(messages, lastSeq, self) ==> m in sorted;
  }

  lemma SelectedIsNews(messages: seq<Message>, lastSeq: nat, self: string, build: Builder, ack: Ack)
    requires ack in Acks(SettledNews(messages, lastSeq, self), self, build)
    ensures exists m :: m in messages && News(m, lastSeq, self) && (m.status == Complete || m.status == Truncated)
                        && ack == Ack(m.seqNo, build(m))
  {
    SettledIsNews(messages, lastSeq, self);
    var m := AcksSource(SettledNews(messages, lastSeq, self), self, build, ack);
  }

  /** The selection is what its caller is owed. */
  lemma SelectionSelects(messages: seq<Message>, lastSeq: nat, self: string, build: Builder)
    ensures var (acks, nextSeq) := Selection(messages, lastSeq, self, build);
            Selects(messages, lastSeq, self, build, acks, nextSeq)
  {
    var settled := SettledNews(messages, lastSeq, self);
    var acks, nextSeq := Acks(settled, self, build), MaxSeq(settled, lastSeq);
    SettledIsNews(messages, lastSeq, self);
    AcksOrdered(settled, self, build, nextSeq);
    forall m | m in messages && News(m, lastSeq, self) && NothingHeldUpTo(messages, lastSeq, self, m.seqNo)
      ensures m.seqNo <= nextSeq && (m.status == Complete || m.status == Truncated ==> Ack(m.seqNo, build(m)) in acks)
    {
      NewsInFrontIsSettled(messages, lastSeq, self, build, m);
    }
    forall ack | ack in acks
      ensures exists m :: m in messages && News(m, lastSeq, self) && (m.status == Complete || m.status == Truncated)
                          && ack == Ack(m.seqNo, build(m))
    {
      SelectedIsNews(messages, lastSeq, self, build, ack);
    }
    forall s | s in messages && News(s, lastSeq, self) && s.status == Streaming
      ensures nextSeq <= s.seqNo
    {
      SortedUnseen(messages, lastSeq);
      StretchEndsBefore(SortBySeq(Unseen(messages, lastSeq)), self, s, lastSeq);
    }
  }

  lemma SettledStretchHas(sorted: seq<Message>, self: string, m: Message)
    requires m in sorted && m.sender != self
    requires BySeq(sorted)
    requires forall s :: s in sorted && s.sender != self && s.status == Streaming ==> m.seqNo < s.seqNo
    ensures m in sorted[..HoldAt(sorted, self)]
  {
    HoldsAtFirstUnsettled(sorted, self);
    var hold := HoldAt(sorted, self);
    var i :| 0 <= i < |sorted| && sorted[i] == m;
    if hold < |sorted| {
      assert sorted[hold] in sorted;
      assert i < hold;
    }
    assert sorted[..hold][i] == m;
  }

  lemma StretchEndsBefore(sorted: seq<Message>, self: string, s: Message, lastSeq: nat)
    requires s in sorted && s.sender != self && s.status == Streaming && lastSeq < s.seqNo
    requires BySeq(sorted)
    ensures MaxSeq(sorted[..HoldAt(sorted, self)], lastSeq) <= s.seqNo
  {
    HoldsAtFirstUnsettled(sorted, self);
    var hold := HoldAt(sorted, self);
    var j :| 0 <= j < |sorted| && sorted[j] == s;
    assert forall i :: 0 <= i < hold ==> Settled(sorted[..hold][i], self) && sorted[..hold][i] == sorted[i];
    assert forall i :: 0 <= i < hold ==> sorted[..hold][i].seqNo <= s.seqNo;
  }

  method SelectNewMessages(messages: seq<Message>, lastSeq: nat, self: string, build: Builder)
    returns (acks: seq<Ack>, nextSeq: nat)
    ensures (acks, nextSeq) == Selection(messages, lastSeq, self, build)
    ensures Selects(messages, lastSeq, self, build, acks, nextSeq)
  {
    SelectionSelects(messages, lastSeq, self, build);
    acks, nextSeq := ScanUnseen(SortBySeq(Unseen(messages, lastSeq)), lastSeq, self, build);
  }

  method ScanUnseen(unseen: seq<Message>, lastSeq: nat, self: string, build: Builder)
    returns (acks: seq<Ack>, nextSeq: nat)
    ensures var settled := unseen[..HoldAt(unseen, self)];
            acks == Acks(settled, self, build) && nextSeq == MaxSeq(settled, lastSeq)
  {
    acks, nextSeq := [], lastSeq;
    ghost var hold := HoldAt(unseen, self);
    HoldsAtFirstUnsettled(unseen, self);
    var k := 0;
    while k < |unseen|
      invariant 0 <= k <= hold
      invariant acks == Acks(unseen[..k], self, build) && nextSeq == MaxSeq(unseen[..k], lastSeq)
    {
      var m := unseen[k];
      assert unseen[..k + 1][..k] == unseen[..k];
      if m.sender != self {
        if m.status.Streaming? {
          HoldsHere(unseen, self, k);
          break;
        }
        if m.status.Complete? || m.status.Truncated? {
          acks := acks + [Ack(m.seqNo, build(m))];
        }
      }
      nextSeq := if m.seqNo > nextSeq then m.seqNo else nextSeq;
      k := k + 1;
    }
  }

  lemma HoldsHere(ms: seq<Message>, self: string, k: nat)
    requires k < |ms| && k <= HoldAt(ms, self) && !Settled(ms[k], self)
    ensures HoldAt(ms, self) == k
  {
    var h := HoldAt(ms, self);
    HoldsAtFirstUnsettled(ms, self);
    assert forall i :: 0 <= i < h ==> Settled(ms[..h][i], self) && ms[..h][i] == ms[i];
  }

  /** The peer between awaits: one poll handles a page of each channel, posting in order until a post fails. */
  class Peer {
    var productCursor: nat
    var implCursor: nat

    constructor ()
      ensures productCursor == 0 && implCursor == 0
    {
      productCursor, implCursor := 0, 0;
    }

    /** Relay one page; `posts(i)` says whether the i-th post succeeds. `next` is None when the poll throws. */
    static method RelayChannel(page: seq<Message>, cursor: nat, self: string, build: Builder, posts: nat -> bool)
      returns (next: Option<nat>, posted: seq<Ack>)
      ensures var (acks, nextSeq) := Selection(page, cursor, self, build);
              && posted <= acks
              && (forall i :: 0 <= i < |posted| ==> posts(i))
              && if posted == acks then next == Some(nextSeq) else next == None && !posts(|posted|)
    {
      var acks, nextSeq := SelectNewMessages(page, cursor, self, build);
      posted := [];
      while |posted| < |acks|
        invariant posted <= acks
        invariant forall i :: 0 <= i < |posted| ==> posts(i)
      {
        if !posts(|posted|) {
          return None, posted;
        }
        posted := acks[..|posted| + 1];
      }
      return Some(nextSeq), posted;
    }

    /** A cursor moves only past a page whose every due text was posted; a failed product relay never polls impl. */
    method PollOnce(productPage: seq<Message>, implPage: seq<Message>, self: string, framework: string,
                    instructionPosts: nat -> bool, rollupPosts: nat -> bool)
      returns (instructions: seq<Ack>, rollups: seq<Ack>)
      modifies this
      ensures var (due, next) := Selection(productPage, old(productCursor), self, BuildWorkerMention(framework));
              && instructions <= due
              && productCursor == (if instructions == due then next else old(productCursor))
              && (instructions != due ==>
                    !instructionPosts(|instructions|) && rollups == [] && implCursor == old(implCursor))
      ensures var (dueBefore, _) := Selection(productPage, old(productCursor), self, BuildWorkerMention(framework));
              var (due, next) := Selection(implPage, old(implCursor), self, BuildRollup);
              instructions == dueBefore ==>
                && rollups <= due && (rollups != due ==> !rollupPosts(|rollups|))
                && implCursor == (if rollups == due then next else old(implCursor))
    {
      rollups := [];
      var next;
      next, instructions :=
        RelayChannel(productPage, productCursor, self, BuildWorkerMention(framework), instructionPosts);
      if next.None? {
        return;
      }
      productCursor := next.value;
      next, rollups := RelayChannel(implPage, implCursor, self, BuildRollup, rollupPosts);
      if next.None? {
        return;
      }
      implCursor := next.value;
    }
  }
}
