/**
 The reader of the live event stream: the data-line subset of server-sent events
 (WHATWG HTML Living Standard, section 9.2, with LF or CRLF line ends). Decoding
 bytes is not part of this model, and parsing the data is a parameter.
 */
module EventStream {
  import opened Prelude

  const CR: char := '\r'
  const LF: char := '\n'
  const BLANK_LINE: string := [LF, LF]

  /** Every CRLF becomes LF, in one pass from the left. */
  function Normalize(s: string): string {
    if s == [] then []
    else if |s| > 1 && s[0] == CR && s[1] == LF then [LF] + Normalize(s[2..])
    else [s[0]] + Normalize(s[1..])
  }

  /** The position of the first blank line, or the length when there is none. */
  function Boundary(s: string): (i: nat)
    ensures i <= |s|
    ensures i < |s| ==> i + 2 <= |s| && s[i] == LF && s[i + 1] == LF
  {
    if |s| < 2 then |s|
    else if s[0] == LF && s[1] == LF then 0
    else 1 + Boundary(s[1..])
  }

  datatype Cut = Cut(blocks: seq<string>, rest: string)

  /** The completed blocks and what is left after the last blank line. */
  function CutBlocks(s: string): Cut
    decreases |s|
  {
    var i := Boundary(s);
    if i == |s| then
      Cut([], s)
    else
      var later := CutBlocks(s[i + 2..]);
      Cut([s[..i]] + later.blocks, later.rest)
  }

  // --------------------------------------------------- the data of one block

  function TrimStart(s: string): string {
    if s != [] && IsSpace(s[0]) then TrimStart(s[1..]) else s
  }

  /** All leading white space goes, and nothing else. */
  lemma {:induction false} TrimExactly(space: string, value: string)
    requires (forall c | c in space :: IsSpace(c)) && (value == [] || !IsSpace(value[0]))
    ensures TrimStart(space + value) == value
  {
    hide IsSpace;
    if space == [] {
      assert space + value == value;
    } else {
      assert space[0] in space && (space + value)[1..] == space[1..] + value;
      TrimExactly(space[1..], value);
    }
  }

  function SplitLines(s: string): (lines: seq<string>)
    ensures lines != []
    decreases |s|
  {
    if LF !in s then
      [s]
    else
      var i := FirstLine(s);
      [s[..i]] + SplitLines(s[i + 1..])
  }

  function FirstLine(s: string): (i: nat)
    requires LF in s
    ensures i < |s| && s[i] == LF && LF !in s[..i]
  {
    if s[0] == LF then 0 else 1 + FirstLine(s[1..])
  }

  const DATA_PREFIX: string := "data:"

  function DataLines(lines: seq<string>): seq<string> {
    if lines == [] then []
    else
      (if DATA_PREFIX <= lines[0] then [TrimStart(lines[0][|DATA_PREFIX|..])] else []) + DataLines(lines[1..])
  }

  function JoinLines(lines: seq<string>): string {
    if lines == [] then ""
    else if |lines| == 1 then lines[0]
    else lines[0] + [LF] + JoinLines(lines[1..])
  }

  function Data(block: string): string {
    JoinLines(DataLines(SplitLines(block)))
  }

  /** A block without data carries no message. */
  function MessageOf(block: string): seq<string> {
    if Data(block) != "" then [Data(block)] else []
  }

  function Messages(blocks: seq<string>): seq<string> {
    if blocks == [] then [] else MessageOf(blocks[0]) + Messages(blocks[1..])
  }

  lemma {:induction false} MessagesAppend(a: seq<string>, b: seq<string>)
    ensures Messages(a + b) == Messages(a) + Messages(b)
  {
    hide MessageOf;
    if a == [] {
      assert a + b == b;
    } else {
      MessagesAppend(a[1..], b);
      assert (a + b)[0] == a[0] && (a + b)[1..] == a[1..] + b;
      Concatenated(MessageOf(a[0]), Messages(a[1..]), Messages(b));
    }
  }

  lemma Concatenated<T>(a: seq<T>, b: seq<T>, c: seq<T>)
    ensures (a + b) + c == a + (b + c)
  {
  }

  // ------------------------------------------------------------- the reader

  function Concat(chunks: seq<string>): string {
    if chunks == [] then "" else chunks[0] + Concat(chunks[1..])
  }

  /** The blocks completed while the chunks arrive one by one. */
  function Feed(buffer: string, chunks: seq<string>): Cut
    decreases |chunks|
  {
    if chunks == [] then
      Cut([], buffer)
    else
      var cut := CutBlocks(Normalize(buffer + chunks[0]));
      var later := Feed(cut.rest, chunks[1..]);
      Cut(cut.blocks + later.blocks, later.rest)
  }

  /** The messages handed on, and whether one was refused; the stream ends at the first that is. */
  datatype Reading = Reading(delivered: seq<string>, refused: bool)

  function Read(accepts: string -> bool, messages: seq<string>): Reading {
    if messages == [] then
      Reading([], false)
    else if !accepts(messages[0]) then
      Reading([], true)
    else
      var later := Read(accepts, messages[1..]);
      Reading([messages[0]] + later.delivered, later.refused)
  }

  lemma {:induction false} ReadAppend(accepts: string -> bool, a: seq<string>, b: seq<string>)
    ensures var first, second := Read(accepts, a), Read(accepts, b);
            Read(accepts, a + b) ==
            if first.refused then first else Reading(first.delivered + second.delivered, second.refused)
  {
    if a == [] {
      assert a + b == b;
      assert [] + Read(accepts, b).delivered == Read(accepts, b).delivered;
    } else {
      ReadAppend(accepts, a[1..], b);
      assert (a + b)[0] == a[0] && (a + b)[1..] == a[1..] + b;
      Concatenated([a[0]], Read(accepts, a[1..]).delivered, Read(accepts, b).delivered);
    }
  }

  lemma {:induction false} AllRead(accepts: string -> bool, messages: seq<string>)
    requires forall m | m in messages :: accepts(m)
    ensures Read(accepts, messages) == Reading(messages, false)
  {
    if messages == [] {
    } else {
      AllRead(accepts, messages[1..]);
      assert messages == [messages[0]] + messages[1..];
    }
  }

  /** What becomes of one more message behind those handed on. */
  lemma ReadNext(accepts: string -> bool, messages: seq<string>, message: string, later: seq<string>)
    requires Read(accepts, messages) == Reading(messages, false)
    ensures if accepts(message) then Read(accepts, messages + [message]) == Reading(messages + [message], false)
            else Read(accepts, messages + [message] + later) == Reading(messages, true)
  {
    ReadAppend(accepts, messages, [message]);
    ReadAppend(accepts, messages + [message], later);
    assert messages + [] == messages;
    assert [message][1..] == [] && [message] + [] == [message];
  }

  /**
   What the reader hands on for the chunks it receives, the last one being the
   decoder's remainder. Parsing a message as JSON and as a live message is a
   parameter: a message that is not accepted ends the stream.
   */
  method ConsumeLiveEventStream(chunks: seq<string>, accepts: string -> bool) returns (r: Reading)
    ensures r == Read(accepts, Messages(Feed("", chunks).blocks))
  {
    hide Normalize, CutBlocks, Data;
    var buffer := "";
    var messages := [];
    assert chunks[0..] == chunks;
    for i := 0 to |chunks|
      invariant Messages(Feed("", chunks).blocks) == messages + Messages(Feed(buffer, chunks[i..]).blocks)
      invariant Read(accepts, messages) == Reading(messages, false)
    {
      assert chunks[i..][0] == chunks[i] && chunks[i..][1..] == chunks[i + 1..];
      ghost var received := Normalize(buffer + chunks[i]);
      ghost var later := Feed(CutBlocks(received).rest, chunks[i + 1..]).blocks;
      MessagesAppend(CutBlocks(received).blocks, later);
      Concatenated(messages, Messages(CutBlocks(received).blocks), Messages(later));
      ReadAppend(accepts, messages + Messages(CutBlocks(received).blocks), Messages(later));
      var refused;
      messages, buffer, refused := ConsumeBuffer(messages, buffer + chunks[i], accepts);
      if refused {
        return Reading(messages, true);
      }
    }
    assert chunks[|chunks|..] == [];
    assert messages + [] == messages;
    r := Reading(messages, false);
  }

  /** What is delivered in all when a buffer is cut after some messages were delivered. */
  function DeliveredFrom(messages: seq<string>, buffer: string): seq<string> {
    messages + Messages(CutBlocks(buffer).blocks)
  }

  lemma DeliverNext(messages: seq<string>, buffer: string)
    requires Boundary(buffer) < |buffer|
    ensures var block := buffer[..Boundary(buffer)];
            var rest := buffer[Boundary(buffer) + 2..];
            && DeliveredFrom(messages, buffer) ==
               DeliveredFrom(if Data(block) != "" then messages + [Data(block)] else messages, rest)
            && CutBlocks(buffer).rest == CutBlocks(rest).rest
  {
    hide Data, Boundary;
    var block := buffer[..Boundary(buffer)];
    var later := CutBlocks(buffer[Boundary(buffer) + 2..]).blocks;
    CutOne(buffer);
    assert ([block] + later)[0] == block && ([block] + later)[1..] == later;
    assert messages + ([Data(block)] + Messages(later)) == (messages + [Data(block)]) + Messages(later);
    assert [] + Messages(later) == Messages(later);
  }

  lemma DeliverEnds(messages: seq<string>, buffer: string)
    requires Boundary(buffer) == |buffer|
    ensures DeliveredFrom(messages, buffer) == messages && CutBlocks(buffer).rest == buffer
  {
    hide Boundary;
    assert messages + [] == messages;
  }

  /** One pass over the buffer: normalizes it and hands on every completed block's message until one is refused. */
  method ConsumeBuffer(delivered: seq<string>, received: string, accepts: string -> bool)
    returns (messages: seq<string>, buffer: string, refused: bool)
    requires Read(accepts, delivered) == Reading(delivered, false)
    ensures var cut := CutBlocks(Normalize(received));
            && Read(accepts, delivered + Messages(cut.blocks)) == Reading(messages, refused)
            && (!refused ==> messages == delivered + Messages(cut.blocks) && buffer == cut.rest)
  {
    hide Normalize, Data, CutBlocks, Messages, Boundary, Read;
    buffer := Normalize(received);
    messages, refused := delivered, false;
    ghost var all := DeliveredFrom(delivered, buffer);
    ghost var remainder := CutBlocks(buffer).rest;
    var boundary := Boundary(buffer);
    while boundary < |buffer|
      invariant boundary == Boundary(buffer)
      invariant all == DeliveredFrom(messages, buffer)
      invariant remainder == CutBlocks(buffer).rest
      invariant Read(accepts, messages) == Reading(messages, false)
      decreases |buffer|
    {
      DeliverNext(messages, buffer);
      var block := buffer[..boundary];
      buffer := buffer[boundary + 2..];
      var data := Data(block);
      if data != "" {
        ReadNext(accepts, messages, data, Messages(CutBlocks(buffer).blocks));
        if !accepts(data) {
          refused := true;
          return;
        }
        messages := messages + [data];
      }
      boundary := Boundary(buffer);
    }
    DeliverEnds(messages, buffer);
  }

  // --------------------------------------------------------- normalization

  /** No CR CR LF anywhere: only then could normalizing twice go further than once. */
  predicate NoCrCrLf(s: string) {
    forall i | 0 <= i < |s| - 2 :: !(s[i] == CR && s[i + 1] == CR && s[i + 2] == LF)
  }

  predicate NoCrLf(s: string) {
    forall i | 0 <= i < |s| - 1 :: !(s[i] == CR && s[i + 1] == LF)
  }

  /** The text the reader is meant for: a CR only ever begins a line end. */
  predicate CrOnlyInCrLf(s: string) {
    forall i | 0 <= i < |s| && s[i] == CR :: i + 1 < |s| && s[i + 1] == LF
  }

  lemma GuardIsImplied(s: string)
    requires CrOnlyInCrLf(s)
    ensures NoCrCrLf(s)
  {
    forall i | 0 <= i < |s| - 2
      ensures !(s[i] == CR && s[i + 1] == CR && s[i + 2] == LF)
    {
    }
  }

  lemma {:induction false} NormalizedHead(s: string)
    requires s != []
    ensures Normalize(s) != []
    ensures Normalize(s)[0] == if |s| > 1 && s[0] == CR && s[1] == LF then LF else s[0]
    decreases |s|
  {
  }

  lemma NormalizeCons(c: char, t: string)
    ensures !(c == CR && t != [] && t[0] == LF) ==> Normalize([c] + t) == [c] + Normalize(t)
    ensures c == CR && t != [] && t[0] == LF ==> Normalize([c] + t) == [LF] + Normalize(t[1..])
  {
    assert ([c] + t)[1..] == t;
    if t != [] {
      assert ([c] + t)[2..] == t[1..];
    }
  }

  /** Normalizing what has been read before the rest arrives changes nothing. */
  lemma {:induction false} NormalizeEarly(x: string, y: string)
    requires NoCrCrLf(x)
    ensures Normalize(Normalize(x) + y) == Normalize(x + y)
    decreases |x|
  {
    hide Normalize;
    if x == [] {
      NormalizeEmpty();
      assert x + y == y && Normalize(x) + y == y;
    } else {
      var t := x[1..];
      assert x == [x[0]] + t && x + y == [x[0]] + (t + y);
      NormalizeCons(x[0], t);
      NormalizeCons(x[0], t + y);
      if x[0] == CR && t != [] && t[0] == LF {
        Suffix(x, 2);
        NormalizeEarly(t[1..], y);
        assert x[2..] == t[1..];
        assert Normalize(x) + y == [LF] + (Normalize(t[1..]) + y);
        assert (t + y)[1..] == t[1..] + y;
        NormalizeCons(LF, Normalize(t[1..]) + y);
      } else {
        Suffix(x, 1);
        NormalizeEarly(t, y);
        assert Normalize(x) + y == [x[0]] + (Normalize(t) + y);
        NormalizeCons(x[0], Normalize(t) + y);
        if t == [] {
          NormalizeEmpty();
          assert Normalize(t) + y == y && t + y == y;
        } else {
          NormalizedHead(t);
          assert x[0] == CR && |x| > 2 ==> !(x[1] == CR && x[2] == LF);
          assert x[0] == CR ==> (Normalize(t) + y)[0] != LF;
          assert x[0] == CR ==> (t + y)[0] != LF;
        }
      }
    }
  }

  lemma NormalizeEmpty()
    ensures Normalize([]) == []
  {
  }

  lemma Suffix(s: string, n: nat)
    requires NoCrCrLf(s) && n <= |s|
    ensures NoCrCrLf(s[n..])
  {
    forall i | 0 <= i < |s[n..]| - 2
      ensures !(s[n..][i] == CR && s[n..][i + 1] == CR && s[n..][i + 2] == LF)
    {
      assert s[n..][i] == s[n + i];
    }
  }

  lemma {:induction false} NormalizedHasNoCrLf(s: string)
    requires NoCrCrLf(s)
    ensures NoCrLf(Normalize(s))
    decreases |s|
  {
    if s == [] {
    } else {
      var n := if |s| > 1 && s[0] == CR && s[1] == LF then 2 else 1;
      Suffix(s, n);
      NormalizedHasNoCrLf(s[n..]);
      if n < |s| {
        NormalizedHead(s[n..]);
      }
      var rest := Normalize(s[n..]);
      assert Normalize(s)[1..] == rest;
      forall i | 0 <= i < |Normalize(s)| - 1
        ensures !(Normalize(s)[i] == CR && Normalize(s)[i + 1] == LF)
      {
        if i > 0 {
          assert Normalize(s)[i] == rest[i - 1] && Normalize(s)[i + 1] == rest[i];
        }
      }
    }
  }

  /** The guard survives normalizing a part of the text. */
  lemma {:induction false} NormalizeKeepsGuard(x: string, y: string)
    requires NoCrCrLf(x + y)
    ensures NoCrCrLf(Normalize(x) + y)
    decreases |x|
  {
    hide NoCrCrLf, Normalize;
    if x == [] {
      NormalizeEmpty();
      assert Normalize(x) + y == x + y;
    } else {
      var n := if |x| > 1 && x[0] == CR && x[1] == LF then 2 else 1;
      assert (x + y)[n..] == x[n..] + y;
      Suffix(x + y, n);
      NormalizeKeepsGuard(x[n..], y);
      var head := if n == 2 then LF else x[0];
      NormalizeFirst(x, n);
      FirstTwo(x, y, n);
      GuardCons(head, Normalize(x[n..]) + y);
      assert Normalize(x) + y == [head] + (Normalize(x[n..]) + y);
    }
  }

  lemma NormalizeFirst(x: string, n: nat)
    requires x != [] && n == if |x| > 1 && x[0] == CR && x[1] == LF then 2 else 1
    ensures Normalize(x) == [if n == 2 then LF else x[0]] + Normalize(x[n..])
  {
  }

  lemma GuardCons(head: char, rest: string)
    requires NoCrCrLf(rest) && (|rest| > 1 ==> !(head == CR && rest[0] == CR && rest[1] == LF))
    ensures NoCrCrLf([head] + rest)
  {
    var whole := [head] + rest;
    forall i | 0 <= i < |whole| - 2
      ensures !(whole[i] == CR && whole[i + 1] == CR && whole[i + 2] == LF)
    {
      if i > 0 {
        assert whole[i] == rest[i - 1] && whole[i + 1] == rest[i] && whole[i + 2] == rest[i + 1];
      }
    }
  }

  lemma FirstTwo(x: string, y: string, n: nat)
    requires x != [] && NoCrCrLf(x + y)
    requires n == if |x| > 1 && x[0] == CR && x[1] == LF then 2 else 1
    ensures var whole := Normalize(x) + y;
            |whole| > 2 ==> !(whole[0] == CR && whole[1] == CR && whole[2] == LF)
  {
    var whole := Normalize(x) + y;
    if n == 1 && x[0] == CR && |x| > 1 {
      NormalizedHead(x[1..]);
      if |x| > 2 {
        assert (x + y)[0] == x[0] && (x + y)[1] == x[1] && (x + y)[2] == x[2];
        if x[1] == CR {
          NormalizedHead(x[2..]);
          assert Normalize(x[1..]) == [CR] + Normalize(x[1..][1..]);
          assert x[1..][1..] == x[2..];
          if |x| > 3 {
            assert (x + y)[3] == x[3];
          } else {
            assert x[2..] == [x[2]];
          }
        }
      } else {
        assert x[1..] == [x[1]];
        assert Normalize(x) == x;
      }
    } else if |x| == 1 {
      assert Normalize(x) == x;
    }
  }

  // ------------------------------------------------------ chunk independence

  lemma {:induction false} CutPrefix(block: string, t: string)
    requires Boundary(block + BLANK_LINE) == |block|
    ensures Boundary(block + BLANK_LINE + t) == |block|
    ensures CutBlocks(block + BLANK_LINE + t) == Cut([block] + CutBlocks(t).blocks, CutBlocks(t).rest)
    decreases |block|
  {
    BoundaryPrefix(block, t);
    var s := block + BLANK_LINE + t;
    assert s[..|block|] == block && s[|block| + 2..] == t;
  }

  lemma {:induction false} BoundaryPrefix(block: string, t: string)
    requires Boundary(block + BLANK_LINE) == |block|
    ensures Boundary(block + BLANK_LINE + t) == |block|
    decreases |block|
  {
    var s := block + BLANK_LINE + t;
    if block == [] {
    } else {
      assert (block + BLANK_LINE)[1..] == block[1..] + BLANK_LINE;
      assert s[1..] == block[1..] + BLANK_LINE + t;
      assert (block + BLANK_LINE)[0] == s[0] && (block + BLANK_LINE)[1] == s[1];
      BoundaryPrefix(block[1..], t);
    }
  }

  /** The first block of a text, taken on its own, ends where it ended in the text. */
  lemma {:induction false} FirstBlock(s: string)
    requires Boundary(s) < |s|
    ensures var block := s[..Boundary(s)];
            s == block + BLANK_LINE + s[Boundary(s) + 2..] && Boundary(block + BLANK_LINE) == |block|
    decreases |s|
  {
    var i := Boundary(s);
    var head := s[..i] + BLANK_LINE;
    assert s == head + s[i + 2..];
    if i == 0 {
    } else {
      FirstBlock(s[1..]);
      assert head[1..] == s[1..][..i - 1] + BLANK_LINE;
      assert head[0] == s[0] && head[1] == s[1];
    }
  }

  lemma {:induction false} NormalizePrefix(p: string, w: string)
    requires NoCrLf(p) && (p != [] ==> p[|p| - 1] != CR)
    ensures Normalize(p + w) == p + Normalize(w)
    decreases |p|
  {
    hide Normalize;
    if p == [] {
      assert p + w == w && p + Normalize(w) == Normalize(w);
    } else {
      var t := p[1..];
      assert p + w == [p[0]] + (t + w);
      forall i | 0 <= i < |t| - 1
        ensures !(t[i] == CR && t[i + 1] == LF)
      {
        assert t[i] == p[i + 1] && t[i + 1] == p[i + 2];
      }
      NormalizePrefix(t, w);
      NormalizeCons(p[0], t + w);
      assert p[0] == CR ==> t != [] && (t + w)[0] == p[1];
      assert [p[0]] + (t + Normalize(w)) == p + Normalize(w);
    }
  }

  lemma TailHasNoCrLf(s: string, n: nat)
    requires NoCrLf(s) && n <= |s|
    ensures NoCrLf(s[n..]) && NoCrLf(s[..n])
  {
    forall k | 0 <= k < |s[n..]| - 1
      ensures !(s[n..][k] == CR && s[n..][k + 1] == LF)
    {
      assert s[n..][k] == s[n + k] && s[n..][k + 1] == s[n + k + 1];
    }
  }

  /** Cutting normalized text before the rest arrives cuts the whole. */
  lemma {:induction false} CutEarly(s: string, z: string)
    requires NoCrLf(s)
    ensures var cut := CutBlocks(s);
            var later := CutBlocks(Normalize(cut.rest + z));
            CutBlocks(Normalize(s + z)) == Cut(cut.blocks + later.blocks, later.rest)
    decreases |s|
  {
    hide Normalize, NoCrLf, CutBlocks, Boundary;
    var i := Boundary(s);
    if i < |s| {
      var t := s[i + 2..];
      CutOne(s);
      TailHasNoCrLf(s, i + 2);
      CutEarly(t, z);
      FirstCutEarly(s, z);
      var cut := CutBlocks(t);
      var later := CutBlocks(Normalize(cut.rest + z));
      assert [s[..i]] + (cut.blocks + later.blocks) == ([s[..i]] + cut.blocks) + later.blocks;
    } else {
      NothingCut(s);
      assert [] + CutBlocks(Normalize(s + z)).blocks == CutBlocks(Normalize(s + z)).blocks;
    }
  }

  lemma NothingCut(s: string)
    requires Boundary(s) == |s|
    ensures CutBlocks(s) == Cut([], s)
  {
  }

  lemma CutOne(s: string)
    requires Boundary(s) < |s|
    ensures var later := CutBlocks(s[Boundary(s) + 2..]);
            CutBlocks(s) == Cut([s[..Boundary(s)]] + later.blocks, later.rest)
  {
    hide Boundary;
  }

  lemma FirstCutEarly(s: string, z: string)
    requires NoCrLf(s) && Boundary(s) < |s|
    ensures var i := Boundary(s);
            var later := CutBlocks(Normalize(s[i + 2..] + z));
            CutBlocks(Normalize(s + z)) == Cut([s[..i]] + later.blocks, later.rest)
  {
    hide Normalize, CutBlocks;
    var i := Boundary(s);
    var block, t := s[..i], s[i + 2..];
    var p := block + BLANK_LINE;
    FirstBlock(s);
    TailHasNoCrLf(s, i + 2);
    assert p == s[..i + 2];
    assert s + z == p + (t + z);
    NormalizePrefix(p, t + z);
    CutPrefix(block, Normalize(t + z));
  }

  lemma {:induction false} RestIsSuffix(s: string)
    ensures |CutBlocks(s).rest| <= |s| && CutBlocks(s).rest == s[|s| - |CutBlocks(s).rest|..]
    decreases |s|
  {
    if Boundary(s) == |s| {
    } else {
      RestIsSuffix(s[Boundary(s) + 2..]);
    }
  }

  /** Feeding chunks to a buffer cuts what feeding them all at once would. */
  lemma {:induction false} FeedIsWhole(buffer: string, chunks: seq<string>)
    requires chunks != [] && NoCrCrLf(buffer + Concat(chunks))
    ensures Feed(buffer, chunks) == CutBlocks(Normalize(buffer + Concat(chunks)))
    decreases |chunks|
  {
    hide Normalize, CutBlocks;
    var x := buffer + chunks[0];
    var s := Normalize(x);
    var z := Concat(chunks[1..]);
    assert buffer + Concat(chunks) == x + z;
    GuardOfPrefix(x, z);
    NormalizedHasNoCrLf(x);
    var cut := CutBlocks(s);
    if |chunks| == 1 {
      assert chunks[1..] == [];
      assert x + z == x;
      assert cut.blocks + [] == cut.blocks;
    } else {
      NormalizeKeepsGuard(x, z);
      RestIsSuffix(s);
      var n := |s| - |cut.rest|;
      Suffix(s + z, n);
      assert (s + z)[n..] == cut.rest + z;
      FeedIsWhole(cut.rest, chunks[1..]);
      CutEarly(s, z);
      NormalizeEarly(x, z);
    }
  }

  lemma GuardOfPrefix(x: string, z: string)
    requires NoCrCrLf(x + z)
    ensures NoCrCrLf(x)
  {
    forall i | 0 <= i < |x| - 2
      ensures !(x[i] == CR && x[i + 1] == CR && x[i + 2] == LF)
    {
      assert x[i] == (x + z)[i] && x[i + 1] == (x + z)[i + 1] && x[i + 2] == (x + z)[i + 2];
    }
  }

  /**
   The reader is independent of how the text is cut into chunks: it delivers the
   messages of the whole text, normalized once and split at its blank lines.
   */
  lemma ReaderIsChunkIndependent(chunks: seq<string>)
    requires chunks != [] && NoCrCrLf(Concat(chunks))
    ensures Messages(Feed("", chunks).blocks) == Messages(CutBlocks(Normalize(Concat(chunks))).blocks)
  {
    assert "" + Concat(chunks) == Concat(chunks);
    FeedIsWhole("", chunks);
  }

  // ------------------------------------------------------ the exact guard

  lemma {:induction false} NormalizeShrinks(s: string)
    ensures |Normalize(s)| <= |s|
    ensures !NoCrLf(s) ==> |Normalize(s)| < |s|
    decreases |s|
  {
    if s == [] {
    } else if |s| > 1 && s[0] == CR && s[1] == LF {
      NormalizeShrinks(s[2..]);
    } else {
      NormalizeShrinks(s[1..]);
      if !NoCrLf(s) {
        var i :| 0 <= i < |s| - 1 && s[i] == CR && s[i + 1] == LF;
        assert s[1..][i - 1] == CR && s[1..][i] == LF;
      }
    }
  }

  lemma {:induction false} NormalizeSplit(a: string, b: string)
    requires a != [] && a[|a| - 1] == LF
    ensures Normalize(a + b) == Normalize(a) + Normalize(b)
    ensures Normalize(a) != [] && Normalize(a)[|Normalize(a)| - 1] == LF
    decreases |a|
  {
    hide Normalize;
    var t := a[1..];
    assert a == [a[0]] + t && a + b == [a[0]] + (t + b);
    NormalizeCons(a[0], t);
    NormalizeCons(a[0], t + b);
    NormalizeEmpty();
    if t == [] {
      assert t + b == b;
    } else if a[0] == CR && t[0] == LF {
      assert (t + b)[1..] == t[1..] + b;
      if t[1..] == [] {
        assert t[1..] + b == b;
      } else {
        NormalizeSplit(t[1..], b);
      }
    } else {
      NormalizeSplit(t, b);
    }
  }

  predicate EndsInCrLf(s: string) {
    |s| >= 2 && s[|s| - 2] == CR && s[|s| - 1] == LF
  }

  lemma EndingIsCrLf(s: string)
    requires EndsInCrLf(s)
    ensures !NoCrLf(s)
  {
    assert s[|s| - 2] == CR && s[|s| - 2 + 1] == LF;
  }

  /** A CR CR LF leaves a line end behind that a second pass would change. */
  lemma {:induction false} TripleLeavesCrLf(s: string)
    requires |s| >= 3 && s[|s| - 3] == CR && s[|s| - 2] == CR && s[|s| - 1] == LF
    ensures EndsInCrLf(Normalize(s))
    decreases |s|
  {
    hide Normalize;
    var t := s[1..];
    assert s == [s[0]] + t;
    NormalizeCons(s[0], t);
    NormalizeEmpty();
    if |s| == 3 {
      NormalizeCons(t[0], t[1..]);
      assert t == [t[0]] + t[1..];
      assert t[1..][1..] == [];
      assert Normalize(s) == [CR, LF];
    } else if s[0] == CR && t[0] == LF {
      assert |t[1..]| >= 3;
      TripleLeavesCrLf(t[1..]);
    } else {
      TripleLeavesCrLf(t);
    }
  }

  /**
   Normalizing at a chunk border agrees with normalizing once for every place a
   text can be cut, exactly when the text holds no CR CR LF.
   */
  lemma NormalizationIsChunkIndependentIff(text: string)
    ensures (forall k | 0 <= k <= |text| :: Normalize(Normalize(text[..k]) + text[k..]) == Normalize(text))
            <==> NoCrCrLf(text)
  {
    hide Normalize;
    if NoCrCrLf(text) {
      forall k | 0 <= k <= |text|
        ensures Normalize(Normalize(text[..k]) + text[k..]) == Normalize(text)
      {
        assert text == text[..k] + text[k..];
        GuardOfPrefix(text[..k], text[k..]);
        NormalizeEarly(text[..k], text[k..]);
      }
    } else {
      var i :| 0 <= i < |text| - 2 && text[i] == CR && text[i + 1] == CR && text[i + 2] == LF;
      var x, y := text[..i + 3], text[i + 3..];
      assert text == x + y;
      TripleLeavesCrLf(x);
      EndingIsCrLf(Normalize(x));
      NormalizeSplit(x, y);
      NormalizeShrinks(Normalize(x));
      NormalizeSplit(Normalize(x), y);
      assert Normalize(Normalize(text[..i + 3]) + text[i + 3..]) != Normalize(text);
    }
  }

  /** How much text the blocks, their blank lines and the rest come from. */
  function BlocksSize(blocks: seq<string>): nat {
    if blocks == [] then 0 else |blocks[0]| + 2 + BlocksSize(blocks[1..])
  }

  lemma {:induction false} BlocksSizeAppend(a: seq<string>, b: seq<string>)
    ensures BlocksSize(a + b) == BlocksSize(a) + BlocksSize(b)
  {
    if a == [] {
      assert a + b == b;
    } else {
      BlocksSizeAppend(a[1..], b);
      assert (a + b)[0] == a[0] && (a + b)[1..] == a[1..] + b;
    }
  }

  /** Cutting loses nothing: blocks, blank lines and rest make up the text. */
  lemma {:induction false} CutSize(s: string)
    ensures BlocksSize(CutBlocks(s).blocks) + |CutBlocks(s).rest| == |s|
    decreases |s|
  {
    if Boundary(s) == |s| {
    } else {
      var t := s[Boundary(s) + 2..];
      CutSize(t);
      var later := CutBlocks(t).blocks;
      assert ([s[..Boundary(s)]] + later)[1..] == later;
    }
  }

  /** A line end that keeps its CR stays in the rest. */
  lemma {:induction false} RestKeepsCrLf(s: string)
    requires EndsInCrLf(s)
    ensures EndsInCrLf(CutBlocks(s).rest)
    decreases |s|
  {
    if Boundary(s) == |s| {
    } else {
      RestKeepsCrLf(s[Boundary(s) + 2..]);
    }
  }

  /** Cut behind a CR CR LF, the reader keeps less text than the whole normalized once. */
  lemma CutBehindTriple(x: string, y: string)
    requires |x| >= 3 && x[|x| - 3] == CR && x[|x| - 2] == CR && x[|x| - 1] == LF
    ensures Feed("", [x, y]) != CutBlocks(Normalize(x + y))
  {
    hide Normalize, CutBlocks;
    var cut := CutBlocks(Normalize(x));
    var late := CutBlocks(Normalize(cut.rest + y));
    TripleLeavesCrLf(x);
    RestKeepsCrLf(Normalize(x));
    EndingIsCrLf(cut.rest);
    NormalizeShrinks(cut.rest);
    NormalizeSplit(cut.rest, y);
    NormalizeSplit(x, y);
    CutSize(Normalize(x));
    CutSize(Normalize(cut.rest + y));
    CutSize(Normalize(x + y));
    BlocksSizeAppend(cut.blocks, late.blocks);
    FedTwice(x, y);
  }

  /**
   The reader cuts every chunking of a text as it would cut the whole, exactly when
   the text holds no CR CR LF.
   */
  lemma ReaderIsExactIff(text: string)
    ensures (forall chunks | chunks != [] && Concat(chunks) == text ::
               Feed("", chunks) == CutBlocks(Normalize(text)))
            <==> NoCrCrLf(text)
  {
    hide Normalize, CutBlocks, Feed;
    if NoCrCrLf(text) {
      forall chunks | chunks != [] && Concat(chunks) == text
        ensures Feed("", chunks) == CutBlocks(Normalize(text))
      {
        assert "" + Concat(chunks) == text;
        FeedIsWhole("", chunks);
      }
    } else {
      var i :| 0 <= i < |text| - 2 && text[i] == CR && text[i + 1] == CR && text[i + 2] == LF;
      var x, y := text[..i + 3], text[i + 3..];
      assert text == x + y;
      FedTwice(x, y);
      CutBehindTriple(x, y);
    }
  }

  // --------------------------------------------------------- what is written

  /** What the server writes: a live message, or a comment that keeps the connection open. */
  datatype Frame = LiveFrame(json: string) | KeepAlive

  function Encode(frame: Frame): string {
    match frame
    case LiveFrame(json) => "event: live" + [LF] + "data: " + json + BLANK_LINE
    case KeepAlive => ": keepalive" + BLANK_LINE
  }

  function EncodeAll(frames: seq<Frame>): string {
    if frames == [] then "" else Encode(frames[0]) + EncodeAll(frames[1..])
  }

  function Payloads(frames: seq<Frame>): seq<string> {
    if frames == [] then []
    else (match frames[0] case LiveFrame(json) => [json] case KeepAlive => []) + Payloads(frames[1..])
  }

  /** A JSON text on one line. */
  predicate OneLine(json: string) {
    json != [] && !IsSpace(json[0]) && CR !in json && LF !in json
  }

  predicate Writable(frames: seq<Frame>) {
    forall f | f in frames && f.LiveFrame? :: OneLine(f.json)
  }

  lemma {:induction false} NoBoundaryWithin(s: string)
    requires forall i | 0 <= i < |s| - 1 :: !(s[i] == LF && s[i + 1] == LF)
    requires s != [] ==> s[|s| - 1] != LF
    ensures Boundary(s + BLANK_LINE) == |s|
    decreases |s|
  {
    if s == [] {
    } else {
      var t := s[1..];
      assert (s + BLANK_LINE)[1..] == t + BLANK_LINE;
      forall i | 0 <= i < |t| - 1
        ensures !(t[i] == LF && t[i + 1] == LF)
      {
        assert t[i] == s[i + 1] && t[i + 1] == s[i + 2];
      }
      NoBoundaryWithin(t);
    }
  }

  function Block(frame: Frame): string {
    match frame
    case LiveFrame(json) => "event: live" + [LF] + "data: " + json
    case KeepAlive => ": keepalive"
  }

  lemma LiveData(json: string)
    requires OneLine(json)
    ensures Data(Block(LiveFrame(json))) == json
  {
    hide SplitLines, TrimStart;
    var first, second := "event: live", "data: " + json;
    assert Block(LiveFrame(json)) == first + [LF] + second;
    SplitAtFirst(first, second);
    OneLineSplit(second);
    assert DATA_PREFIX <= second && second[|DATA_PREFIX|..] == " " + json;
    TrimOne(json);
    var lines: seq<string> := [first, second];
    assert lines[1..] == [second] && lines[1..][1..] == [];
    assert !(DATA_PREFIX <= first) by {
      assert first[0] != DATA_PREFIX[0];
    }
    assert DataLines([]) == [];
    assert DataLines(lines[1..]) == [json];
    assert DataLines(lines) == [json];
  }

  lemma KeepAliveData()
    ensures Data(Block(KeepAlive)) == ""
  {
    var block := Block(KeepAlive);
    OneLineSplit(block);
    var lines: seq<string> := [block];
    assert lines[1..] == [];
    assert !(DATA_PREFIX <= block) by {
      assert block[0] != DATA_PREFIX[0];
    }
    assert DataLines(lines) == [];
  }

  lemma BlockData(frame: Frame)
    requires frame.LiveFrame? ==> OneLine(frame.json)
    ensures Encode(frame) == Block(frame) + BLANK_LINE
    ensures CR !in Block(frame)
    ensures Boundary(Block(frame) + BLANK_LINE) == |Block(frame)|
    ensures Data(Block(frame)) == if frame.LiveFrame? then frame.json else ""
  {
    hide Data, Boundary;
    NoBoundaryWithin(Block(frame));
    match frame {
      case LiveFrame(json) => LiveData(json);
      case KeepAlive => KeepAliveData();
    }
  }

  lemma TrimOne(json: string)
    requires json != [] && !IsSpace(json[0])
    ensures TrimStart(" " + json) == json
  {
    assert (" " + json)[1..] == json;
  }

  lemma OneLineSplit(s: string)
    requires LF !in s
    ensures SplitLines(s) == [s]
  {
  }

  lemma {:induction false} FirstLineAt(a: string, b: string)
    requires LF !in a
    ensures LF in a + [LF] + b && FirstLine(a + [LF] + b) == |a|
    decreases |a|
  {
    var s := a + [LF] + b;
    assert s[|a|] == LF;
    if a == [] {
    } else {
      assert s[0] == a[0] && a[0] in a;
      assert s[1..] == a[1..] + [LF] + b;
      FirstLineAt(a[1..], b);
    }
  }

  lemma SplitAtFirst(a: string, b: string)
    requires LF !in a
    ensures SplitLines(a + [LF] + b) == [a] + SplitLines(b)
  {
    FirstLineAt(a, b);
    var s := a + [LF] + b;
    assert s[..|a|] == a && s[|a| + 1..] == b;
  }

  lemma {:induction false} EncodedMessages(frames: seq<Frame>)
    requires Writable(frames)
    ensures CR !in EncodeAll(frames)
    ensures Messages(CutBlocks(EncodeAll(frames)).blocks) == Payloads(frames)
    decreases |frames|
  {
    hide Data, Boundary;
    if frames == [] {
      NothingToCut();
    } else {
      assert frames[0] in frames;
      var block := Block(frames[0]);
      BlockData(frames[0]);
      EncodedMessages(frames[1..]);
      CutPrefix(block, EncodeAll(frames[1..]));
      var later := CutBlocks(EncodeAll(frames[1..])).blocks;
      assert ([block] + later)[1..] == later;
      assert frames[0].LiveFrame? ==> frames[0].json != "";
    }
  }

  lemma NothingToCut()
    ensures CutBlocks("") == Cut([], "")
  {
  }

  lemma {:induction false} NormalizeNothing(s: string)
    requires CR !in s
    ensures Normalize(s) == s
  {
    if s == [] {
    } else {
      assert s[0] in s;
      NormalizeNothing(s[1..]);
    }
  }

  /**
   The round trip: whatever frames the server writes and however the network cuts
   them, the reader finds exactly the written messages, in order, and hands them all
   on when each is accepted.
   */
  lemma WrittenIsRead(frames: seq<Frame>, chunks: seq<string>, accepts: string -> bool)
    requires Writable(frames) && chunks != [] && Concat(chunks) == EncodeAll(frames)
    ensures Messages(Feed("", chunks).blocks) == Payloads(frames)
    ensures (forall m | m in Payloads(frames) :: accepts(m)) ==>
              Read(accepts, Messages(Feed("", chunks).blocks)) == Reading(Payloads(frames), false)
  {
    var text := EncodeAll(frames);
    EncodedMessages(frames);
    NormalizeNothing(text);
    forall i | 0 <= i < |text|
      ensures text[i] != CR
    {
      assert text[i] in text;
    }
    ReaderIsChunkIndependent(chunks);
    if forall m | m in Payloads(frames) :: accepts(m) {
      AllRead(accepts, Payloads(frames));
    }
  }

  // ----------------------------------------------- the reader on CR CR LF

  lemma {:induction false} NoBoundaryAtAll(s: string)
    requires forall i | 0 <= i < |s| - 1 :: !(s[i] == LF && s[i + 1] == LF)
    ensures Boundary(s) == |s|
    decreases |s|
  {
    if |s| < 2 {
    } else {
      var t := s[1..];
      forall i | 0 <= i < |t| - 1
        ensures !(t[i] == LF && t[i + 1] == LF)
      {
        assert t[i] == s[i + 1] && t[i + 1] == s[i + 2];
      }
      NoBoundaryAtAll(t);
    }
  }

  /** A text without CR stays as it is in front of anything. */
  lemma PlainPrefix(p: string, w: string)
    requires CR !in p
    ensures Normalize(p + w) == p + Normalize(w)
  {
    hide Normalize;
    forall i | 0 <= i < |p|
      ensures p[i] != CR
    {
      assert p[i] in p;
    }
    NormalizePrefix(p, w);
  }

  lemma NormalizeEnding(tail: string)
    requires CR !in tail
    ensures Normalize([CR, LF] + tail) == [LF] + tail
    ensures Normalize([CR, CR, LF] + tail) == [CR, LF] + tail
  {
    hide Normalize;
    NormalizeNothing(tail);
    assert [CR, LF] + tail == [CR] + ([LF] + tail) && ([LF] + tail)[1..] == tail;
    NormalizeCons(CR, [LF] + tail);
    assert [CR, CR, LF] + tail == [CR] + ([CR, LF] + tail);
    NormalizeCons(CR, [CR, LF] + tail);
    assert [CR] + ([LF] + tail) == [CR, LF] + tail;
  }

  /** One CR CR LF is one CR LF after normalizing, and one LF after normalizing again. */
  lemma NormalizeTriple(p: string, tail: string)
    requires CR !in p && CR !in tail
    ensures Normalize(p + [CR, CR, LF] + tail) == p + [CR, LF] + tail
    ensures Normalize(p + [CR, LF] + tail) == p + [LF] + tail
  {
    hide Normalize;
    NormalizeEnding(tail);
    PlainPrefix(p, [CR, CR, LF] + tail);
    PlainPrefix(p, [CR, LF] + tail);
    Concatenated(p, [CR, CR, LF], tail);
    Concatenated(p, [CR, LF], tail);
    Concatenated(p, [LF], tail);
  }

  /** A line that carries the data of a one-line text. */
  function DataLine(value: string): string {
    DATA_PREFIX + value
  }

  lemma DataOfLine(value: string)
    requires OneLine(value)
    ensures LF !in DataLine(value) && CR !in DataLine(value)
    ensures DataLines([DataLine(value)]) == [value]
    ensures Data(DataLine(value)) == value
    ensures Boundary(DataLine(value) + BLANK_LINE) == |DataLine(value)|
  {
    hide Boundary;
    var line := DataLine(value);
    forall i | 0 <= i < |line|
      ensures line[i] != LF && line[i] != CR
    {
      assert i >= |DATA_PREFIX| ==> line[i] == value[i - |DATA_PREFIX|] && line[i] in value;
    }
    OneLineSplit(line);
    assert line[|DATA_PREFIX|..] == value;
    var lines: seq<string> := [line];
    assert lines[1..] == [] && DataLines([]) == [];
    NoBoundaryWithin(line);
  }

  /** Two data lines with a line between them that carries no data are one message. */
  lemma DataOfThree(first: string, second: string)
    requires OneLine(first) && OneLine(second)
    ensures Data(DataLine(first) + [LF] + [CR] + [LF] + DataLine(second)) == first + [LF] + second
  {
    hide SplitLines, TrimStart, DataLine;
    var a, b := DataLine(first), DataLine(second);
    var middle: string := [CR];
    DataOfLine(first);
    DataOfLine(second);
    assert a + [LF] + [CR] + [LF] + b == a + [LF] + (middle + [LF] + b);
    SplitAtFirst(a, middle + [LF] + b);
    SplitAtFirst(middle, b);
    OneLineSplit(b);
    var lines: seq<string> := [a, middle, b];
    var later: seq<string> := [middle, b];
    var last, nothing: seq<string> := [b], [];
    var start: seq<string> := [a];
    assert [a] + ([middle] + [b]) == lines && lines[1..] == later && later[1..] == last;
    assert start[1..] == nothing && DataLines(nothing) == [];
    assert DataLines(later) == [] + [second];
    assert DataLines(start) == DataLines(lines)[..1];
    assert DataLines(lines) == [first] + ([] + [second]);
    var values: seq<string> := [first, second];
    var end: seq<string> := [second];
    assert [first] + ([] + [second]) == values && values[1..] == end;
    assert JoinLines(end) == second;
  }

  lemma MessageAlone(block: string, value: string)
    requires Boundary(block + BLANK_LINE) == |block| && Data(block) == value != ""
    ensures Messages(CutBlocks(block + BLANK_LINE).blocks) == [value]
  {
    hide Data, Boundary;
    CutPrefix(block, "");
    NothingToCut();
    assert block + BLANK_LINE + "" == block + BLANK_LINE;
    var blocks: seq<string> := [block];
    assert blocks[1..] == [] && [block] + [] == blocks;
  }

  /** Uncut, the CR that is left keeps the two data lines in one block. */
  lemma UncutIsOneMessage(first: string, second: string)
    requires OneLine(first) && OneLine(second)
    ensures var p, late := DataLine(first) + [LF], DataLine(second) + BLANK_LINE;
            Messages(CutBlocks(p + [CR, LF] + late).blocks) == [first + [LF] + second]
  {
    hide Data, Boundary, CutBlocks, Messages, DataLine;
    var a, b := DataLine(first), DataLine(second);
    var block := a + [LF] + [CR] + [LF] + b;
    DataOfLine(first);
    DataOfLine(second);
    DataOfThree(first, second);
    assert a + [LF] + [CR, LF] + (b + BLANK_LINE) == block + BLANK_LINE;
    DataLineIsNotEmpty(second);
    forall i | 0 <= i < |block| - 1
      ensures !(block[i] == LF && block[i + 1] == LF)
    {
      SeparatedLines(a, b, i);
    }
    assert block[|block| - 1] == b[|b| - 1] && b[|b| - 1] in b;
    NoBoundaryWithin(block);
    MessageAlone(block, first + [LF] + second);
  }

  lemma DataLineIsNotEmpty(value: string)
    ensures |DataLine(value)| > 0
  {
  }

  lemma SeparatedLines(a: string, b: string, i: nat)
    requires LF !in a && LF !in b && i + 1 < |a + [LF] + [CR] + [LF] + b|
    ensures var block := a + [LF] + [CR] + [LF] + b; !(block[i] == LF && block[i + 1] == LF)
  {
    var block := a + [LF] + [CR] + [LF] + b;
    if i < |a| {
      assert block[i] == a[i] && a[i] in a;
    } else if i + 1 > |a| + 2 {
      assert block[i + 1] == b[i + 1 - |a| - 3] && b[i + 1 - |a| - 3] in b;
    }
  }

  /** Cut behind the CR CR LF, the second pass removes the CR and leaves a blank line. */
  lemma CutIsTwoMessages(first: string, second: string)
    requires OneLine(first) && OneLine(second)
    ensures var p, late := DataLine(first) + [LF], DataLine(second) + BLANK_LINE;
            Messages(CutBlocks(p + [LF] + late).blocks) == [first, second]
  {
    hide Data, Boundary, CutBlocks, DataLine;
    var a, b := DataLine(first), DataLine(second);
    DataOfLine(first);
    DataOfLine(second);
    assert a + [LF] + [LF] + (b + BLANK_LINE) == a + BLANK_LINE + (b + BLANK_LINE);
    CutPrefix(a, b + BLANK_LINE);
    MessageAlone(b, second);
    var later := CutBlocks(b + BLANK_LINE).blocks;
    assert ([a] + later)[1..] == later;
    assert [first] + [second] == [first, second];
  }

  /** Nothing is cut off before the second chunk arrives. */
  lemma NothingCutEarly(first: string)
    requires OneLine(first)
    ensures var kept := DataLine(first) + [LF] + [CR, LF]; CutBlocks(kept) == Cut([], kept)
  {
    hide DataLine;
    var a := DataLine(first);
    var kept := a + [LF] + [CR, LF];
    DataOfLine(first);
    forall i | 0 <= i < |kept| - 1
      ensures !(kept[i] == LF && kept[i + 1] == LF)
    {
      if i < |a| {
        assert kept[i] == a[i] && a[i] in a;
      }
    }
    NoBoundaryAtAll(kept);
    NothingCut(kept);
  }

  /**
   With a CR CR LF in the text the reader does depend on the chunks, for any two
   one-line texts that are messages and do not form one together: uncut, they arrive
   as one, which is refused; cut behind the CR CR LF, both are handed on.
   */
  lemma ReaderDependsOnChunks(first: string, second: string, accepts: string -> bool)
    requires OneLine(first) && OneLine(second)
    requires accepts(first) && accepts(second) && !accepts(first + [LF] + second)
    ensures var early := DataLine(first) + [LF] + [CR, CR, LF];
            var late := DataLine(second) + BLANK_LINE;
            && Concat([early + late]) == Concat([early, late])
            && Read(accepts, Messages(Feed("", [early + late]).blocks)) == Reading([], true)
            && Read(accepts, Messages(Feed("", [early, late]).blocks)) == Reading([first, second], false)
  {
    hide Normalize, CutBlocks, Messages, DataLine;
    var p, late := DataLine(first) + [LF], DataLine(second) + BLANK_LINE;
    var early := p + [CR, CR, LF];
    DataOfLine(first);
    DataOfLine(second);
    NormalizeTriple(p, late);
    NormalizeTriple(p, "");
    FedWhole(early + late);
    UncutIsOneMessage(first, second);
    assert p + [CR, CR, LF] + "" == early && p + [CR, LF] + "" == p + [CR, LF];
    NothingCutEarly(first);
    FedTwice(early, late);
    CutIsTwoMessages(first, second);
    var cut := CutBlocks(Normalize(p + [CR, LF] + late));
    assert [] + cut.blocks == cut.blocks;
    var both: seq<string> := [first, second];
    AllRead(accepts, both);
  }

  lemma FedWhole(text: string)
    ensures Concat([text]) == text
    ensures Feed("", [text]).blocks == CutBlocks(Normalize(text)).blocks
  {
    hide Normalize, CutBlocks;
    var chunks: seq<string> := [text];
    assert chunks[1..] == [] && "" + text == text && text + "" == text;
    assert CutBlocks(Normalize(text)).blocks + [] == CutBlocks(Normalize(text)).blocks;
  }

  lemma FedTwice(early: string, late: string)
    ensures Concat([early, late]) == early + late
    ensures var cut := CutBlocks(Normalize(early));
            var later := CutBlocks(Normalize(cut.rest + late));
            Feed("", [early, late]) == Cut(cut.blocks + later.blocks, later.rest)
  {
    hide Normalize, CutBlocks;
    var chunks: seq<string> := [early, late];
    assert chunks[1..] == [late] && chunks[1..][1..] == [];
    assert "" + early == early && late + "" == late;
    assert Concat(chunks[1..]) == late;
    var cut := CutBlocks(Normalize(early));
    var later := CutBlocks(Normalize(cut.rest + late));
    assert later.blocks + [] == later.blocks;
    assert Feed(later.rest, []) == Cut([], later.rest);
    assert Feed(cut.rest, [late]) == Cut(later.blocks, later.rest);
  }
}
