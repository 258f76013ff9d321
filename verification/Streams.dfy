/**
  Byte streams as the command-line tool sees them: a stream arrives cut into chunks,
  and an incremental text decoder turns the bytes it has been fed so far into characters.
  A `char` stands for one UTF-16 code unit of a JavaScript string.
 */
module Streams {

  type byte = b: int | 0 <= b < 256

  /** An incremental decoder consumes one byte at a time: new state, and the text completed by that byte. */
  type Decoder<!S> = (S, byte) -> (S, string)

  function Concat<T>(chunks: seq<seq<T>>): (r: seq<T>)
  {
    if chunks == [] then [] else chunks[0] + Concat(chunks[1..])
  }

  lemma {:induction false} ConcatAppend<T>(a: seq<seq<T>>, b: seq<seq<T>>)
    ensures Concat(a + b) == Concat(a) + Concat(b)
  {
    if a == [] {
      assert a + b == b;
    } else {
      ConcatAppend(a[1..], b);
      assert (a + b)[1..] == a[1..] + b;
    }
  }

  lemma ConcatSnoc<T>(a: seq<seq<T>>, c: seq<T>)
    ensures Concat(a + [c]) == Concat(a) + c
  {
    ConcatAppend(a, [c]);
    assert Concat([c]) == c;
  }

  /** Feed `bytes` to a decoder in state `s`. */
  function Decode<S>(step: Decoder<S>, s: S, bytes: seq<byte>): (r: (S, string))
  {
    if bytes == [] then (s, "")
    else
      var first := step(s, bytes[0]);
      var rest := Decode(step, first.0, bytes[1..]);
      (rest.0, first.1 + rest.1)
  }

  /** Decoding does not see chunk boundaries. */
  lemma {:induction false} DecodeAppend<S>(step: Decoder<S>, s: S, a: seq<byte>, b: seq<byte>)
    ensures var mid := Decode(step, s, a);
            var end := Decode(step, mid.0, b);
            Decode(step, s, a + b) == (end.0, mid.1 + end.1)
  {
    if a == [] {
      assert a + b == b && "" + Decode(step, s, b).1 == Decode(step, s, b).1;
    } else {
      var first := step(s, a[0]);
      DecodeAppend(step, first.0, a[1..], b);
      assert (a + b)[1..] == a[1..] + b;
      var mid := Decode(step, first.0, a[1..]);
      var end := Decode(step, mid.0, b);
      assert first.1 + (mid.1 + end.1) == (first.1 + mid.1) + end.1;
    }
  }

  /** JavaScript `includes`. */
  predicate Contains(text: string, part: string)
  {
    exists i :: 0 <= i <= |text| - |part| && OccursAt(text, part, i)
  }

  predicate OccursAt(text: string, part: string, i: nat)
    requires i + |part| <= |text|
  {
    text[i..i + |part|] == part
  }

  lemma ContainsInExtension(text: string, more: string, part: string)
    requires Contains(text, part)
    ensures Contains(text + more, part)
  {
    var i :| 0 <= i <= |text| - |part| && OccursAt(text, part, i);
    assert (text + more)[i..i + |part|] == text[i..i + |part|];
    assert OccursAt(text + more, part, i);
  }

  // ECMAScript white space and line terminators, the characters `trim` removes.
  predicate IsSpace(c: char)
  {
    c in {' ', '\t', '\n', '\r', '\U{000B}', '\U{000C}', '\U{00A0}', '\U{1680}', '\U{2028}', '\U{2029}',
          '\U{202F}', '\U{205F}', '\U{3000}', '\U{FEFF}'}
    || '\U{2000}' <= c <= '\U{200A}'
  }

  function TrimStart(s: string): (r: string)
  {
    if s != "" && IsSpace(s[0]) then TrimStart(s[1..]) else s
  }

  function TrimEnd(s: string): (r: string)
  {
    if s != "" && IsSpace(s[|s| - 1]) then TrimEnd(s[..|s| - 1]) else s
  }

  function Trim(s: string): (r: string)
  {
    TrimEnd(TrimStart(s))
  }

  lemma {:induction false} TrimStartTrimmed(s: string)
    ensures TrimStart(s) != "" ==> !IsSpace(TrimStart(s)[0])
  {
    if s != "" && IsSpace(s[0]) {
      TrimStartTrimmed(s[1..]);
    }
  }

  lemma {:induction false} TrimEndTrimmed(s: string)
    ensures TrimEnd(s) <= s
    ensures TrimEnd(s) != "" ==> !IsSpace(TrimEnd(s)[|TrimEnd(s)| - 1])
  {
    if s != "" && IsSpace(s[|s| - 1]) {
      TrimEndTrimmed(s[..|s| - 1]);
    }
  }

  lemma TrimTwice(s: string)
    ensures Trim(Trim(s)) == Trim(s)
  {
    TrimStartTrimmed(s);
    TrimEndTrimmed(TrimStart(s));
  }

  lemma TrimSpaceless(s: string)
    requires forall k :: 0 <= k < |s| ==> !IsSpace(s[k])
    ensures Trim(s) == s
  {
  }
}
