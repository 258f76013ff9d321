/**
  A concrete codec, decoder and transcoding that meet the assumptions of the resume guarantee, so that the guarantee is
  not about nothing. Frames are tallies of numbers; characters are tallies of bytes.
 */
module SubscribeWitness {
  import opened Streams
  import opened Wrappers
  import opened Ndjson
  import opened ChannelSubscribe

  // ---- Lists of numbers as text, none a prefix of another ----

  /** What is left once the first mark is read. */
  function Less(ns: seq<nat>): (r: seq<nat>)
    requires ns != []
  {
    if ns[0] == 0 then ns[1..] else [ns[0] - 1] + ns[1..]
  }

  function Mark(ns: seq<nat>): (r: char)
  {
    if ns == [] then ';' else if ns[0] == 0 then ',' else 'i'
  }

  function Nums(ns: seq<nat>): (r: string)
    decreases |ns|, if ns == [] then 0 else ns[0]
  {
    [Mark(ns)] + (if ns == [] then "" else Nums(Less(ns)))
  }

  predicate Plain(s: string)
  {
    forall k :: 0 <= k < |s| ==> s[k] == 'i' || s[k] == ',' || s[k] == ';'
  }

  lemma {:induction false} NumsArePlain(ns: seq<nat>)
    ensures Plain(Nums(ns)) && Nums(ns) != ""
    decreases |ns|, if ns == [] then 0 else ns[0]
  {
    if ns != [] {
      NumsArePlain(Less(ns));
    }
  }

  lemma {:induction false} NoneAPrefix(a: seq<nat>, b: seq<nat>)
    requires Nums(a) <= Nums(b)
    ensures a == b
    decreases |Nums(a)|
  {
    assert Nums(a)[0] == Mark(a) && Nums(b)[0] == Mark(b);
    if a != [] {
      assert Nums(Less(a)) == Nums(a)[1..] && Nums(Less(b)) == Nums(b)[1..];
      NoneAPrefix(Less(a), Less(b));
      SameLess(a, b);
    }
  }

  lemma SameLess(a: seq<nat>, b: seq<nat>)
    requires a != [] && b != [] && Mark(a) == Mark(b) && Less(a) == Less(b)
    ensures a == b
  {
    assert a == [a[0]] + a[1..] && b == [b[0]] + b[1..];
    if a[0] > 0 {
      assert Less(a)[0] == Less(b)[0] && Less(a)[1..] == a[1..] && Less(b)[1..] == b[1..];
    }
  }

  // ---- Frames as lists of numbers ----

  function Zig(n: int): (r: nat)
  {
    if n >= 0 then 2 * n else -2 * n - 1
  }

  function Bit(b: bool): (r: nat)
  {
    if b then 1 else 0
  }

  function KindCode(k: Kind): (r: nat)
  {
    match k
    case Open => 0
    case Event => 1
    case Closed => 2
    case Other => 3
  }

  function Head(f: Frame): (r: seq<nat>)
    ensures |r| == 5
  {
    var seqCode := if f.durableSeq.Some? then Zig(f.durableSeq.value) else 0;
    [KindCode(f.kind), Bit(f.durableSeq.Some?), seqCode, Bit(f.counted), Bit(f.retryable)]
  }

  function ZigAll(ns: seq<int>): (r: seq<nat>)
    ensures |r| == |ns| && forall i :: 0 <= i < |ns| ==> r[i] == Zig(ns[i])
  {
    seq(|ns|, i requires 0 <= i < |ns| => Zig(ns[i]))
  }

  function Code(f: Frame): (r: seq<nat>)
  {
    Head(f) + ZigAll(f.rows)
  }

  lemma HeadInjective(f: Frame, g: Frame)
    requires Head(f) == Head(g)
    ensures f.kind == g.kind && f.durableSeq == g.durableSeq && f.counted == g.counted && f.retryable == g.retryable
  {
    assert forall i :: 0 <= i < 5 ==> Head(f)[i] == Head(g)[i];
    assert Head(f)[0] == Head(g)[0] && Head(f)[1] == Head(g)[1] && Head(f)[2] == Head(g)[2];
    assert Head(f)[3] == Head(g)[3] && Head(f)[4] == Head(g)[4];
  }

  lemma RowsInjective(a: seq<int>, b: seq<int>)
    requires ZigAll(a) == ZigAll(b)
    ensures a == b
  {
    assert |a| == |ZigAll(a)| == |b|;
    assert forall i :: 0 <= i < |a| ==> Zig(a[i]) == ZigAll(a)[i] == ZigAll(b)[i] == Zig(b[i]);
  }

  lemma CodeInjective(f: Frame, g: Frame)
    requires Code(f) == Code(g)
    ensures f == g
  {
    assert Code(f)[..5] == Head(f) && Code(g)[..5] == Head(g);
    assert Code(f)[5..] == ZigAll(f.rows) && Code(g)[5..] == ZigAll(g.rows);
    HeadInjective(f, g);
    RowsInjective(f.rows, g.rows);
  }

  function Encode(f: Frame): (r: string)
  {
    Nums(Code(f))
  }

  ghost function Parse(line: string): (r: Parsed)
  {
    if exists f: Frame :: Encode(f) == line
    then var f: Frame :| Encode(f) == line; Value(f)
    else Invalid
  }

  lemma ParseEncode(f: Frame)
    ensures Parse(Encode(f)) == Value(f)
  {
    var g := Parse(Encode(f)).frame;
    assert Encode(g) == Encode(f);
    NoneAPrefix(Code(g), Code(f));
    CodeInjective(g, f);
  }

  // ---- Characters as tallies of bytes ----

  predicate IsChar(n: int)
  {
    0 <= n < 0xD800 || 0xE000 <= n < 0x11_0000
  }

  /** Count bytes up to a zero, then emit the character of that number. */
  function Step(): (r: Decoder<int>)
  {
    (n: int, b: byte) => if b != 0 then (n + 1, "") else (0, if IsChar(n) then [n as char] else "")
  }

  /** What is left inside a character becomes a mark no frame contains. */
  function Flush(n: int): (r: string)
  {
    if n == 0 then "" else "?"
  }

  function Ones(m: nat): (r: seq<byte>)
  {
    if m == 0 then [] else [1] + Ones(m - 1)
  }

  function BytesOf(text: string): (r: seq<byte>)
  {
    if text == "" then [] else Ones(text[0] as int) + ([0] + BytesOf(text[1..]))
  }

  lemma {:induction false} CountUp(n: int, m: nat)
    ensures Decode(Step(), n, Ones(m)) == (n + m, "")
    decreases m
  {
    if m > 0 {
      assert Ones(m)[1..] == Ones(m - 1) && Ones(m)[0] == 1;
      CountUp(n + 1, m - 1);
      assert "" + Decode(Step(), n + 1, Ones(m - 1)).1 == "";
    }
  }

  lemma {:induction false} BytesRoundTrip(text: string)
    ensures Decode(Step(), 0, BytesOf(text)) == (0, text)
  {
    if text != "" {
      var n, rest := text[0] as int, [0] + BytesOf(text[1..]);
      CountUp(0, n);
      BytesRoundTrip(text[1..]);
      DecodeAppend(Step(), 0, Ones(n), rest);
      assert rest[1..] == BytesOf(text[1..]) && rest[0] == 0;
      assert Step()(n, 0) == (0, [text[0]]);
      assert Decode(Step(), n, rest) == (0, [text[0]] + text[1..]);
      assert "" + ([text[0]] + text[1..]) == text;
    }
  }

  // ---- The assumptions hold ----

  lemma PrefixIsJunk(f: Frame, k: nat)
    requires k < |Encode(f)|
    ensures Junk(Parse, Encode(f)[..k])
  {
    var piece := Encode(f)[..k];
    NumsArePlain(Code(f));
    TrimSpaceless(piece);
    if g: Frame :| Encode(g) == piece {
      NoneAPrefix(Code(g), Code(f));
    }
  }

  lemma TornIsJunk(f: Frame, k: nat)
    requires k <= |Encode(f)|
    ensures Junk(Parse, Encode(f)[..k] + "?")
  {
    var piece := Encode(f)[..k] + "?";
    NumsArePlain(Code(f));
    TrimSpaceless(piece);
    assert piece[k] == '?';
    forall g: Frame
      ensures Encode(g) != piece
    {
      NumsArePlain(Code(g));
    }
  }

  lemma CodecCanBeMet()
    ensures Codec(Encode, Parse, Flush) && Transcodes(Step(), 0, BytesOf) && forall n :: NewlineFree(Flush(n))
  {
    forall f: Frame
      ensures NewlineFree(Encode(f)) && RoundTrip(Encode, Parse, f)
    {
      NumsArePlain(Code(f));
      TrimSpaceless(Encode(f));
      ParseEncode(f);
    }
    forall f: Frame, k | 0 <= k < |Encode(f)|
      ensures Junk(Parse, Encode(f)[..k])
    {
      PrefixIsJunk(f, k);
    }
    forall f: Frame, k, n: int | 0 <= k <= |Encode(f)| && Flush(n) != ""
      ensures Junk(Parse, Encode(f)[..k] + Flush(n))
    {
      TornIsJunk(f, k);
    }
    forall text: string
      ensures Decode(Step(), 0, BytesOf(text)).1 == text
    {
      BytesRoundTrip(text);
    }
  }
}
