/**
  Reading newline-delimited JSON off a response body: chunks of bytes in, trimmed lines out
  to a callback that may keep reading, stop, or throw.
 */
module Ndjson {
  import opened Streams

  datatype Verdict = Continue | Stop | Throw

  /** The line callback, with the variables it closes over made explicit. */
  type Handler<!C> = (C, string) -> (C, Verdict)

  /** How the reads end: a clean end of stream, or a `read` that rejects. */
  datatype Ending = Eof | ReadError

  predicate NewlineFree(text: string)
  {
    forall j :: 0 <= j < |text| ==> text[j] != '\n'
  }

  function NewlineAt(text: string): (r: int)
    ensures -1 <= r < |text|
    ensures r < 0 ==> NewlineFree(text)
    ensures 0 <= r ==> text[r] == '\n' && forall j :: 0 <= j < r ==> text[j] != '\n'
  {
    if text == "" then -1
    else if text[0] == '\n' then 0
    else
      var rest := NewlineAt(text[1..]);
      assert forall j :: 1 <= j < |text| ==> text[j] == text[1..][j - 1];
      if rest < 0 then -1 else rest + 1
  }

  // ---- Reference: the newline-split of a whole text ----

  /** One character at a time: the lines finished so far, and the piece not yet terminated. */
  function Cut(text: string): (r: (seq<string>, string))
  {
    if text == "" then ([], "")
    else
      var before := Cut(text[..|text| - 1]);
      var c := text[|text| - 1];
      if c == '\n' then (before.0 + [before.1], "") else (before.0, before.1 + [c])
  }

  /** The terminated lines of a text, without their newlines. */
  function Lines(text: string): (r: seq<string>)
  {
    Cut(text).0
  }

  /** What follows the last newline. */
  function Tail(text: string): (r: string)
  {
    Cut(text).1
  }

  function Split(text: string): (r: seq<string>)
  {
    Lines(text) + [Tail(text)]
  }

  function Join(pieces: seq<string>): (r: string)
    requires pieces != []
  {
    if |pieces| == 1 then pieces[0] else pieces[0] + "\n" + Join(pieces[1..])
  }

  lemma {:induction false} JoinSnoc(pieces: seq<string>, last: string, c: char)
    ensures Join(pieces + [last + [c]]) == Join(pieces + [last]) + [c]
    ensures Join(pieces + [last, ""]) == Join(pieces + [last]) + "\n"
  {
    if pieces != [] {
      JoinSnoc(pieces[1..], last, c);
      assert (pieces + [last + [c]])[1..] == pieces[1..] + [last + [c]];
      assert (pieces + [last, ""])[1..] == pieces[1..] + [last, ""];
      assert (pieces + [last])[1..] == pieces[1..] + [last];
    } else {
      assert Join([last, ""][1..]) == "";
    }
  }

  /** `Split` is the newline-split: newline-free pieces that join back to the text. */
  lemma {:induction false} SplitJoins(text: string)
    ensures Join(Split(text)) == text
    ensures forall i :: 0 <= i < |Split(text)| ==> NewlineFree(Split(text)[i])
  {
    if text != "" {
      var before := text[..|text| - 1];
      SplitJoins(before);
      assert NewlineFree(Split(before)[|Lines(before)|]);
      JoinSnoc(Lines(before), Tail(before), text[|text| - 1]);
      assert text == before + [text[|text| - 1]];
      assert Lines(before) + [Tail(before)] + [""] == Lines(before) + [Tail(before), ""];
      forall i | 0 <= i < |Split(text)|
        ensures NewlineFree(Split(text)[i])
      {
        assert i < |Lines(before)| ==> Split(before)[i] == Lines(before)[i];
      }
    }
  }

  lemma {:induction false} NoNewline(text: string)
    requires NewlineFree(text)
    ensures Lines(text) == [] && Tail(text) == text
  {
    if text != "" {
      NoNewline(text[..|text| - 1]);
    }
  }

  lemma TailIsNewlineFree(text: string)
    ensures NewlineFree(Tail(text))
  {
    SplitJoins(text);
    assert NewlineFree(Split(text)[|Lines(text)|]);
  }

  /** Splitting a text that grows: finished lines stay finished, the tail is completed. */
  lemma {:induction false} LinesAppend(a: string, b: string)
    ensures Lines(a + b) == Lines(a) + Lines(Tail(a) + b)
    ensures Tail(a + b) == Tail(Tail(a) + b)
  {
    if b == "" {
      TailIsNewlineFree(a);
      NoNewline(Tail(a));
      assert a + b == a && Tail(a) + b == Tail(a);
    } else {
      var b' := b[..|b| - 1];
      LinesAppend(a, b');
      assert (a + b)[..|a + b| - 1] == a + b';
      assert (Tail(a) + b)[..|Tail(a) + b| - 1] == Tail(a) + b';
    }
  }

  /** Taking the first line off the buffer takes the first line off the split. */
  lemma FirstLine(text: string, i: nat)
    requires i < |text| && text[i] == '\n' && NewlineFree(text[..i])
    ensures Lines(text) == [text[..i]] + Lines(text[i + 1..])
    ensures Tail(text) == Tail(text[i + 1..])
  {
    TerminatedLine(text[..i]);
    assert text == (text[..i] + "\n") + text[i + 1..];
    LinesAppend(text[..i] + "\n", text[i + 1..]);
    assert "" + text[i + 1..] == text[i + 1..];
  }

  lemma TerminatedLine(line: string)
    requires NewlineFree(line)
    ensures Lines(line + "\n") == [line] && Tail(line + "\n") == ""
  {
    NoNewline(line);
    assert (line + "\n")[..|line|] == line;
  }

  /** Hand trimmed lines to the callback until it does not ask to continue: state, number handed, last answer. */
  function Feed<C>(onLine: Handler<C>, c: C, lines: seq<string>): (r: (C, nat, Verdict))
    ensures r.1 <= |lines| && (r.2.Continue? ==> r.1 == |lines|)
  {
    if lines == [] then (c, 0, Continue)
    else
      var first := onLine(c, Trim(lines[0]));
      if !first.1.Continue? then (first.0, 1, first.1)
      else
        var rest := Feed(onLine, first.0, lines[1..]);
        (rest.0, rest.1 + 1, rest.2)
  }

  /** The callback sees a longer list of lines exactly as the shorter one, until it stops. */
  lemma {:induction false} FeedAppend<C>(onLine: Handler<C>, c: C, a: seq<string>, b: seq<string>)
    ensures var first := Feed(onLine, c, a);
            Feed(onLine, c, a + b) ==
              if first.2.Continue?
              then var rest := Feed(onLine, first.0, b); (rest.0, |a| + rest.1, rest.2)
              else first
  {
    if a == [] {
      assert a + b == b;
    } else {
      assert (a + b)[1..] == a[1..] + b;
      FeedAppend(onLine, onLine(c, Trim(a[0])).0, a[1..], b);
    }
  }

  function TrimAll(lines: seq<string>): (r: seq<string>)
    ensures |r| == |lines|
  {
    seq(|lines|, i requires 0 <= i < |lines| => Trim(lines[i]))
  }

  /** The text a finished body decodes to; the decoder is flushed only at a clean end. */
  function Text<S>(step: Decoder<S>, flush: S -> string, init: S, chunks: seq<seq<byte>>, ending: Ending): (r: string)
  {
    var whole := Decode(step, init, Concat(chunks));
    if ending.Eof? then whole.1 + flush(whole.0) else whole.1
  }

  /** The lines a body offers: every piece at a clean end, only terminated lines when a read rejects. */
  function Offered<S>(step: Decoder<S>, flush: S -> string, init: S, chunks: seq<seq<byte>>,
                      ending: Ending): (r: seq<string>)
  {
    var text := Text(step, flush, init, chunks, ending);
    if ending.Eof? then Split(text) else Lines(text)
  }

  /** What has been handed on once the decoded text is `text`, and what waits in the buffer. */
  ghost predicate Handed<C(!new)>(onLine: Handler<C>, c0: C, text: string, c: C, handed: seq<string>, last: Verdict,
                                  buffer: string)
  {
    && Feed(onLine, c0, Lines(text)) == (c, |handed|, last)
    && |handed| <= |Lines(text)| && handed == TrimAll(Lines(text)[..|handed|])
    && (last.Continue? ==> buffer == Tail(text))
  }

  /** Consume every complete line in the buffer. */
  method DrainBuffer<C(!new)>(onLine: Handler<C>, ghost c0: C, ghost text: string, more: string, c: C,
                              handed: seq<string>, buffer: string)
    returns (c': C, handed': seq<string>, last: Verdict, buffer': string)
    requires Handed(onLine, c0, text, c, handed, Continue, buffer)
    ensures Handed(onLine, c0, text + more, c', handed', last, buffer')
  {
    ghost var done := Lines(text);
    c', handed', last, buffer' := c, handed, Continue, buffer + more;
    LinesAppend(text, more);
    var newline := NewlineAt(buffer');
    while 0 <= newline
      invariant newline == NewlineAt(buffer')
      invariant Lines(text + more) == done + Lines(buffer') && Tail(text + more) == Tail(buffer')
      invariant Feed(onLine, c0, done) == (c', |done|, Continue) && handed' == TrimAll(done)
      invariant last.Continue?
      decreases |buffer'|
    {
      var line := buffer'[..newline];
      ghost var rest := Lines(buffer'[newline + 1..]);
      FirstLine(buffer', newline);
      TakeLine(onLine, c0, done, c', line, rest);
      assert Lines(text + more) == (done + [line]) + rest;
      var answer := onLine(c', Trim(line));
      c', last, handed' := answer.0, answer.1, handed' + [Trim(line)];
      buffer', done := buffer'[newline + 1..], done + [line];
      if !last.Continue? {
        assert Lines(text + more)[..|done|] == done;
        return;
      }
      newline := NewlineAt(buffer');
    }
    NoNewline(buffer');
    assert done + [] == done && Lines(text + more)[..|done|] == done;
  }

  /** Handing on one more line, and what follows it if the callback stops there. */
  lemma TakeLine<C(!new)>(onLine: Handler<C>, c0: C, done: seq<string>, c: C, line: string, rest: seq<string>)
    requires Feed(onLine, c0, done) == (c, |done|, Continue)
    ensures var answer := onLine(c, Trim(line));
            && Feed(onLine, c0, done + [line]) == (answer.0, |done| + 1, answer.1)
            && (!answer.1.Continue? ==> Feed(onLine, c0, done + [line] + rest) == (answer.0, |done| + 1, answer.1))
    ensures TrimAll(done + [line]) == TrimAll(done) + [Trim(line)]
  {
    FeedAppend(onLine, c0, done, [line]);
    assert [line][1..] == [];
    FeedAppend(onLine, c0, done + [line], rest);
  }

  /**
    The reader loop. However the body is cut into chunks, the callback sees the trimmed
    newline-split of the whole text, cut right after the first line it does not continue on.
   */
  method StreamLines<S(!new), C(!new)>(step: Decoder<S>, flush: S -> string, init: S, onLine: Handler<C>, c0: C,
                                       chunks: seq<seq<byte>>, ending: Ending)
    returns (c: C, handed: seq<string>, threw: bool)
    requires forall s :: NewlineFree(flush(s))
    ensures var offered := Offered(step, flush, init, chunks, ending);
            var run := Feed(onLine, c0, offered);
            && c == run.0
            && handed == TrimAll(offered[..run.1])
            && threw == (run.2.Throw? || (run.2.Continue? && ending.ReadError?))
  {
    var decoder, buffer, last, k := init, "", Continue, 0;
    c, handed := c0, [];
    while k < |chunks| && last.Continue?
      invariant 0 <= k <= |chunks|
      invariant decoder == Decode(step, init, Concat(chunks[..k])).0
      invariant Handed(onLine, c0, Decode(step, init, Concat(chunks[..k])).1, c, handed, last, buffer)
    {
      ghost var text := Decode(step, init, Concat(chunks[..k])).1;
      var decoded := Decode(step, decoder, chunks[k]);
      c, handed, last, buffer := DrainBuffer(onLine, c0, text, decoded.1, c, handed, buffer);
      assert chunks[..k + 1] == chunks[..k] + [chunks[k]];
      ConcatSnoc(chunks[..k], chunks[k]);
      DecodeAppend(step, init, Concat(chunks[..k]), chunks[k]);
      decoder := decoded.0;
      k := k + 1;
    }
    ghost var text := Decode(step, init, Concat(chunks[..k])).1;
    if last.Continue? {
      assert chunks[..k] == chunks;
      if ending.Eof? {
        c, handed, threw := LastPiece(onLine, c0, text, flush(decoder), c, handed, buffer);
      } else {
        threw := true;
      }
    } else {
      threw := last.Throw?;
      StoppedEarly(step, flush, init, onLine, c0, chunks, ending, k);
    }
  }

  /** At a clean end, what is left in the buffer and the decoder is the last line. */
  method LastPiece<C(!new)>(onLine: Handler<C>, ghost c0: C, ghost text: string, flushed: string, c: C,
                            handed: seq<string>, buffer: string)
    returns (c': C, handed': seq<string>, threw: bool)
    requires NewlineFree(flushed) && Handed(onLine, c0, text, c, handed, Continue, buffer)
    ensures var run := Feed(onLine, c0, Split(text + flushed));
            c' == run.0 && handed' == TrimAll(Split(text + flushed)[..run.1]) && threw == run.2.Throw?
  {
    UnterminatedPiece(buffer, flushed, text);
    var line := buffer + flushed;
    FeedAppend(onLine, c0, Lines(text), [line]);
    var answer := onLine(c, Trim(line));
    c', handed', threw := answer.0, handed + [Trim(line)], answer.1.Throw?;
  }

  lemma UnterminatedPiece(buffer: string, flushed: string, text: string)
    requires buffer == Tail(text) && NewlineFree(flushed)
    ensures Split(text + flushed) == Lines(text) + [buffer + flushed]
  {
    TailIsNewlineFree(text);
    LinesAppend(text, flushed);
    NoNewline(buffer + flushed);
  }

  /** Chunks that were never read cannot change what was handed on. */
  lemma StoppedEarly<S(!new), C(!new)>(step: Decoder<S>, flush: S -> string, init: S, onLine: Handler<C>, c0: C,
                                       chunks: seq<seq<byte>>, ending: Ending, k: nat)
    requires k <= |chunks|
    requires !Feed(onLine, c0, Lines(Decode(step, init, Concat(chunks[..k])).1)).2.Continue?
    ensures var read := Lines(Decode(step, init, Concat(chunks[..k])).1);
            var offered := Offered(step, flush, init, chunks, ending);
            && Feed(onLine, c0, offered) == Feed(onLine, c0, read)
            && |read| <= |offered| && offered[..|read|] == read
  {
    assert chunks == chunks[..k] + chunks[k..];
    ConcatAppend(chunks[..k], chunks[k..]);
    DecodeAppend(step, init, Concat(chunks[..k]), Concat(chunks[k..]));
    var mid := Decode(step, init, Concat(chunks[..k]));
    var rest := Decode(step, mid.0, Concat(chunks[k..]));
    var more := if ending.Eof? then rest.1 + flush(rest.0) else rest.1;
    assert Text(step, flush, init, chunks, ending) == mid.1 + more;
    LinesAppend(mid.1, more);
    var extra := Offered(step, flush, init, chunks, ending)[|Lines(mid.1)|..];
    assert Offered(step, flush, init, chunks, ending) == Lines(mid.1) + extra;
    FeedAppend(onLine, c0, Lines(mid.1), extra);
  }

  // ---- What the callback sees ----

  /** A callback that notes what it is handed. */
  function Noting(verdict: string -> Verdict): (r: Handler<seq<string>>)
  {
    (seen: seq<string>, line: string) => (seen + [line], verdict(line))
  }

  /** The trimmed lines in order, all of them or up to and including the first one the answer is not to continue. */
  predicate Noted(verdict: string -> Verdict, seen: seq<string>, lines: seq<string>, r: (seq<string>, nat, Verdict))
  {
    && r.1 <= |lines| && r.0 == seen + TrimAll(lines[..r.1])
    && (forall i :: 0 <= i < r.1 - 1 ==> verdict(Trim(lines[i])).Continue?)
    && (if r.1 > 0 then r.2 == verdict(Trim(lines[r.1 - 1])) else r.2.Continue?)
    && (r.1 < |lines| ==> !r.2.Continue?)
  }

  /** Whatever the callback answers, that is what it is handed. */
  lemma {:induction false} CallbackSeesTrimmedLines(verdict: string -> Verdict, seen: seq<string>, lines: seq<string>)
    ensures Noted(verdict, seen, lines, Feed(Noting(verdict), seen, lines))
    decreases |lines|
  {
    if lines == [] {
      assert TrimAll([]) == [] && seen + [] == seen;
    } else if verdict(Trim(lines[0])).Continue? {
      CallbackSeesTrimmedLines(verdict, seen + [Trim(lines[0])], lines[1..]);
      NotedOneMore(verdict, seen, lines, Feed(Noting(verdict), seen + [Trim(lines[0])], lines[1..]));
    } else {
      assert lines[..1] == [lines[0]] && TrimAll(lines[..1]) == [Trim(lines[0])];
    }
  }

  lemma NotedOneMore(verdict: string -> Verdict, seen: seq<string>, lines: seq<string>,
                     rest: (seq<string>, nat, Verdict))
    requires lines != [] && verdict(Trim(lines[0])).Continue?
    requires Noted(verdict, seen + [Trim(lines[0])], lines[1..], rest)
    ensures Noted(verdict, seen, lines, (rest.0, rest.1 + 1, rest.2))
  {
    var n := rest.1 + 1;
    TrimFirst(lines, n);
    assert (seen + [Trim(lines[0])]) + TrimAll(lines[1..][..n - 1]) == seen + TrimAll(lines[..n]);
    forall i | 0 <= i < n - 1
      ensures verdict(Trim(lines[i])).Continue?
    {
      assert i > 0 ==> lines[i] == lines[1..][i - 1];
    }
  }

  lemma TrimFirst(lines: seq<string>, n: nat)
    requires 0 < n <= |lines|
    ensures TrimAll(lines[..n]) == [Trim(lines[0])] + TrimAll(lines[1..][..n - 1])
  {
    assert lines[..n] == [lines[0]] + lines[1..][..n - 1];
  }
}
