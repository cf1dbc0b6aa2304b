/** NUL framing of packet texts on a character stream. */
module Framing {
  import opened Seqs
  import opened Texts

  /** A framed packet as it is written to the stream. */
  function Frame(packetText: string): string { packetText + [NUL] }

  function Concat(chunks: seq<string>): string {
    if chunks == [] then "" else Concat(chunks[..|chunks| - 1]) + chunks[|chunks| - 1]
  }

  function FrameAll(packetTexts: seq<string>): string {
    if packetTexts == [] then "" else FrameAll(packetTexts[..|packetTexts| - 1]) + Frame(packetTexts[|packetTexts| - 1])
  }

  datatype Received = Received(packets: seq<string>, residue: string)

  /** One chunk added to the text left over: the finished pieces, and the unfinished last one. */
  function Accept(residue: string, chunk: string): Received {
    var pieces := Split(residue + chunk, NUL);
    Received(pieces[..|pieces| - 1], pieces[|pieces| - 1])
  }

  class NodeStreamLink {
    var recvBuffer: seq<string>
    var written: string // everything passed to the stream's write

    ghost predicate Valid()
      reads this
    {
      forall i | 0 <= i < |recvBuffer| :: Free(recvBuffer[i], NUL)
    }

    constructor ()
      ensures Valid() && recvBuffer == [] && written == ""
    {
      recvBuffer := [];
      written := "";
    }

    /** The synchronous part of the stream's data handler: complete packets are split off, the rest is kept. */
    method OnStreamData(chunk: string) returns (packetTexts: seq<string>)
      requires Valid()
      modifies this`recvBuffer
      ensures Valid()
      ensures Received(packetTexts, Concat(recvBuffer)) == Accept(old(Concat(recvBuffer)), chunk)
    {
      packetTexts := [];
      var pieces := Split(chunk, NUL);
      var first, rest := pieces[0], pieces[1..];
      AcceptByPieces(recvBuffer, chunk);
      recvBuffer := recvBuffer + [first];
      if |rest| > 0 {
        packetTexts := packetTexts + [Concat(recvBuffer)];
        for index := 0 to |rest|
          invariant packetTexts == [Concat(recvBuffer)] + rest[..if index < |rest| then index else |rest| - 1]
        {
          if index < |rest| - 1 {
            packetTexts := packetTexts + [rest[index]];
          }
        }
        recvBuffer := [rest[|rest| - 1]];
      }
    }

    method Send(packetText: string)
      modifies this`written
      ensures written == old(written) + Frame(packetText)
    {
      written := written + (packetText + [NUL]);
    }
  }

  lemma ConcatAppend(buffer: seq<string>, last: string)
    ensures Concat(buffer + [last]) == Concat(buffer) + last
    ensures Concat([last]) == last
  {
    assert (buffer + [last])[..|buffer|] == buffer;
    assert Concat([last]) == Concat([last][..0]) + last == "" + last;
  }

  /** The pieces of a chunk with the buffer in front of the first one are what accepting the chunk yields. */
  lemma AcceptByPieces(buffer: seq<string>, chunk: string)
    requires forall i | 0 <= i < |buffer| :: Free(buffer[i], NUL)
    ensures var pieces := Split(chunk, NUL);
            var first, rest := pieces[0], pieces[1..];
            && Concat(buffer + [first]) == Concat(buffer) + first
            && (forall i | 0 <= i < |pieces| :: Free(pieces[i], NUL))
            && (|rest| == 0 ==> Accept(Concat(buffer), chunk) == Received([], Concat(buffer + [first])))
            && (|rest| > 0 ==> Concat([rest[|rest| - 1]]) == rest[|rest| - 1])
            && (|rest| > 0 ==> Accept(Concat(buffer), chunk) ==
                               Received([Concat(buffer + [first])] + rest[..|rest| - 1], rest[|rest| - 1]))
  {
    var pieces := Split(chunk, NUL);
    ConcatAppend(buffer, pieces[0]);
    ConcatAppend([], pieces[|pieces| - 1]);
    SplitPartsAreFree(chunk, NUL);
    BufferIsFree(buffer);
    AcceptPieces(Concat(buffer), chunk);
  }

  lemma AcceptPieces(before: string, chunk: string)
    requires Free(before, NUL)
    ensures var pieces := Split(chunk, NUL);
            var first, rest := before + pieces[0], pieces[1..];
            && (|rest| == 0 ==> Accept(before, chunk) == Received([], first))
            && (|rest| > 0 ==> Accept(before, chunk) == Received([first] + rest[..|rest| - 1], rest[|rest| - 1]))
  {
    var pieces := Split(chunk, NUL);
    SplitFree(before, NUL);
    SplitGlue(before, chunk, NUL);
    GlueOne(before, pieces);
    if |pieces| > 1 { EndsOfPieces(before + pieces[0], pieces[1..]); }
  }

  lemma GlueOne(first: string, pieces: seq<string>)
    requires pieces != []
    ensures Glue([first], pieces) == [first + pieces[0]] + pieces[1..]
  {
  }

  lemma EndsOfPieces<T>(first: T, rest: seq<T>)
    requires rest != []
    ensures ([first] + rest)[..|rest|] == [first] + rest[..|rest| - 1]
    ensures ([first] + rest)[|rest|] == rest[|rest| - 1]
  {
  }

  lemma {:induction false} BufferIsFree(buffer: seq<string>)
    requires forall i | 0 <= i < |buffer| :: Free(buffer[i], NUL)
    ensures Free(Concat(buffer), NUL)
  {
    if buffer != [] {
      BufferIsFree(buffer[..|buffer| - 1]);
      assert Free(buffer[|buffer| - 1], NUL);
    }
  }

  /** All packets split off and the text left over after a series of chunks. */
  function Feed(chunks: seq<string>): Received {
    if chunks == [] then Received([], "")
    else
      var before := Feed(chunks[..|chunks| - 1]);
      var next := Accept(before.residue, chunks[|chunks| - 1]);
      Received(before.packets + next.packets, next.residue)
  }

  lemma LastApart(front: seq<string>, s: seq<string>)
    requires s != []
    ensures front + s == front + s[..|s| - 1] + [s[|s| - 1]]
  {
    SameElements(front + s, front + s[..|s| - 1] + [s[|s| - 1]]);
  }

  lemma AcceptExtendsSplit(packets: seq<string>, residue: string, text: string, chunk: string)
    requires Split(text, NUL) == packets + [residue] && Free(residue, NUL)
    ensures var next := Accept(residue, chunk);
            Split(text + chunk, NUL) == packets + next.packets + [next.residue] && Free(next.residue, NUL)
  {
    var pieces := Split(residue + chunk, NUL);
    assert Split(text + chunk, NUL) == packets + pieces by {
      SplitFree(residue, NUL);
      SplitGlue(residue, chunk, NUL);
      SplitGlue(text, chunk, NUL);
      GlueAppend(packets, residue, Split(chunk, NUL));
    }
    LastApart(packets, pieces);
    assert Free(pieces[|pieces| - 1], NUL) by { SplitPartsAreFree(residue + chunk, NUL); }
  }

  /** However the stream is cut, the packets and the residue are the pieces of the whole stream. */
  lemma {:induction false} ChunkingInvariance(chunks: seq<string>)
    ensures var r := Feed(chunks); r.packets + [r.residue] == Split(Concat(chunks), NUL)
    ensures Free(Feed(chunks).residue, NUL)
  {
    if chunks != [] {
      ChunkingInvariance(chunks[..|chunks| - 1]);
      var before := Feed(chunks[..|chunks| - 1]);
      AcceptExtendsSplit(before.packets, before.residue, Concat(chunks[..|chunks| - 1]), chunks[|chunks| - 1]);
    }
  }

  /** Two ways of cutting the same stream are told apart by nothing. */
  lemma CutsAgree(a: seq<string>, b: seq<string>)
    requires Concat(a) == Concat(b)
    ensures Feed(a) == Feed(b)
  {
    ChunkingInvariance(a);
    ChunkingInvariance(b);
    var x, y := Feed(a), Feed(b);
    assert (x.packets + [x.residue])[|x.packets|] == x.residue;
    assert (y.packets + [y.residue])[|y.packets|] == y.residue;
    assert x.packets == (x.packets + [x.residue])[..|x.packets|];
    assert y.packets == (y.packets + [y.residue])[..|y.packets|];
  }

  lemma {:induction false} SplitFramed(packetTexts: seq<string>)
    requires forall i | 0 <= i < |packetTexts| :: Free(packetTexts[i], NUL)
    ensures Split(FrameAll(packetTexts), NUL) == packetTexts + [""]
  {
    if packetTexts != [] {
      var front, last := packetTexts[..|packetTexts| - 1], packetTexts[|packetTexts| - 1];
      SplitFramed(front);
      SplitFrame(last);
      SplitGlue(FrameAll(front), Frame(last), NUL);
      GlueFrame(front, last);
      assert packetTexts == front + [last];
    }
  }

  lemma SplitFrame(packetText: string)
    requires Free(packetText, NUL)
    ensures Split(Frame(packetText), NUL) == [packetText] + [""]
  {
    SplitAtSeparator(packetText, "", NUL);
    SplitFree(packetText, NUL);
    assert Frame(packetText) == packetText + [NUL] + "";
  }

  lemma GlueFrame(front: seq<string>, last: string)
    ensures Glue(front + [""], [last] + [""]) == front + [last] + [""]
  {
    assert "" + last == last;
    SameElements(Glue(front + [""], [last] + [""]), front + [last] + [""]);
  }

  /** Framed packets come out as they went in, however the stream is cut, exactly when none contains a NUL. */
  lemma FramingRoundTripIff(packetTexts: seq<string>, chunks: seq<string>)
    requires Concat(chunks) == FrameAll(packetTexts)
    ensures Feed(chunks) == Received(packetTexts, "") <==>
            forall i | 0 <= i < |packetTexts| :: Free(packetTexts[i], NUL)
  {
    ChunkingInvariance(chunks);
    var r := Feed(chunks);
    assert (r.packets + [r.residue])[|r.packets|] == r.residue;
    assert r.packets == (r.packets + [r.residue])[..|r.packets|];
    assert forall i | 0 <= i < |packetTexts| :: (packetTexts + [""])[i] == packetTexts[i];
    SplitPartsAreFree(Concat(chunks), NUL);
    if forall i | 0 <= i < |packetTexts| :: Free(packetTexts[i], NUL) {
      SplitFramed(packetTexts);
      assert packetTexts == (packetTexts + [""])[..|packetTexts|];
    }
  }
}
