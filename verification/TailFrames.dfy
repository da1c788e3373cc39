/** Reading the frames of a live tail out of a text that arrives in chunks. */
module TailFrames {
  import opened Options
  import opened Splitting

  // ---- blocks: what stands before each blank line ----

  predicate BlankLineAt(text: string, k: int) {
    0 <= k < |text| - 1 && text[k] == '\n' && text[k + 1] == '\n'
  }

  predicate NoBlankLine(text: string) {
    forall k :: 0 <= k < |text| ==> !BlankLineAt(text, k)
  }

  /** Where the first blank line starts, or -1. */
  function Cut(text: string): (cut: int)
    ensures cut == -1 || BlankLineAt(text, cut)
    ensures forall k :: 0 <= k < (if cut < 0 then |text| else cut) ==> !BlankLineAt(text, k)
  {
    CutFrom(text, 0)
  }

  function CutFrom(text: string, i: nat): (cut: int)
    ensures cut == -1 || (i <= cut && BlankLineAt(text, cut))
    ensures forall k :: i <= k < (if cut < 0 then |text| else cut) ==> !BlankLineAt(text, k)
    decreases |text| - i
  {
    if i >= |text| then -1 else if BlankLineAt(text, i) then i else CutFrom(text, i + 1)
  }

  function Blocks(text: string): seq<string>
    decreases |text|
  {
    var cut := Cut(text);
    if cut < 0 then [] else [text[..cut]] + Blocks(text[cut + 2..])
  }

  /** What follows the last blank line. */
  function Rest(text: string): string
    decreases |text|
  {
    var cut := Cut(text);
    if cut < 0 then text else Rest(text[cut + 2..])
  }

  /** Blocks written one after the other, a blank line behind each. */
  function Written(blocks: seq<string>): string {
    if blocks == [] then "" else blocks[0] + "\n\n" + Written(blocks[1..])
  }

  /** A blank line written behind the text is the first one. */
  predicate Clean(block: string) { NoBlankLine(block + "\n") }

  lemma CutIs(text: string, cut: nat)
    requires BlankLineAt(text, cut) && forall k :: 0 <= k < cut ==> !BlankLineAt(text, k)
    ensures Cut(text) == cut
  {
  }

  lemma CutWritten(block: string, tail: string)
    requires Clean(block)
    ensures Cut(block + "\n\n" + tail) == |block|
  {
    var text := block + "\n\n" + tail;
    forall k | 0 <= k < |block| ensures !BlankLineAt(text, k) {
      assert !BlankLineAt(block + "\n", k);
    }
    CutIs(text, |block|);
  }

  lemma CutClean(text: string)
    requires Cut(text) >= 0
    ensures Clean(text[..Cut(text)])
  {
    var cut := Cut(text);
    forall k | 0 <= k < cut + 1 ensures !BlankLineAt(text[..cut] + "\n", k) {
      if k < cut { assert !BlankLineAt(text, k); }
    }
  }

  /** A text is its blocks and its rest; no block or rest holds a blank line. */
  lemma {:induction false} BlocksWritten(text: string)
    ensures Written(Blocks(text)) + Rest(text) == text
    ensures NoBlankLine(Rest(text)) && forall b :: b in Blocks(text) ==> Clean(b)
    decreases |text|
  {
    var cut := Cut(text);
    if cut >= 0 {
      hide Clean, CutFrom;
      var more := Blocks(text[cut + 2..]);
      BlocksWritten(text[cut + 2..]);
      CutClean(text);
      assert Blocks(text) == [text[..cut]] + more && Blocks(text)[1..] == more;
      assert text == text[..cut] + "\n\n" + text[cut + 2..];
    }
  }

  /** And there is only one way to read a text like that. */
  lemma {:induction false} WrittenBlocks(blocks: seq<string>, tail: string)
    requires NoBlankLine(tail) && forall b :: b in blocks ==> Clean(b)
    ensures Blocks(Written(blocks) + tail) == blocks && Rest(Written(blocks) + tail) == tail
  {
    if blocks == [] {
      assert Written(blocks) + tail == tail;
    } else {
      var text := Written(blocks) + tail;
      var more := Written(blocks[1..]) + tail;
      assert text == blocks[0] + "\n\n" + more;
      CutWritten(blocks[0], more);
      assert text[..|blocks[0]|] == blocks[0] && text[|blocks[0]| + 2..] == more;
      WrittenBlocks(blocks[1..], tail);
    }
  }

  lemma {:induction false} WrittenAppend(a: seq<string>, b: seq<string>)
    ensures Written(a + b) == Written(a) + Written(b)
  {
    if a == [] {
      assert a + b == b;
    } else {
      assert (a + b)[1..] == a[1..] + b;
      WrittenAppend(a[1..], b);
    }
  }

  /** Reading on from the rest of what was read is reading the whole. */
  lemma ReadOn(a: string, b: string)
    ensures Blocks(a + b) == Blocks(a) + Blocks(Rest(a) + b)
    ensures Rest(a + b) == Rest(Rest(a) + b)
  {
    hide *;
    var first, rest := Blocks(a), Rest(a);
    var second, tail := Blocks(rest + b), Rest(rest + b);
    BlocksWritten(a);
    BlocksWritten(rest + b);
    WrittenAppend(first, second);
    assert Written(first + second) + tail == a + b by {
      Regroup(Written(first), Written(second), tail);
      Regroup(Written(first), rest, b);
    }
    WrittenBlocks(first + second, tail);
  }

  lemma Regroup<T>(a: seq<T>, b: seq<T>, c: seq<T>)
    ensures (a + b) + c == a + (b + c)
  {
  }

  // ---- frames: what the data lines of a block say ----

  const DATA := "data:"

  function Unlabelled(line: string): string
    requires DATA <= line
  {
    var value := line[5..];
    if " " <= value then value[1..] else value
  }

  function Values(lines: seq<string>): seq<string> {
    if lines == [] then [] else (if DATA <= lines[0] then [Unlabelled(lines[0])] else []) + Values(lines[1..])
  }

  function Data(block: string): string { Join(Values(Split(block, '\n')), '\n') }

  /** The frames of data strings: empty ones and ones the decoder refuses are skipped. */
  function Decoded<F>(data: seq<string>, toFrame: string -> Option<F>): seq<F> {
    if data == [] then []
    else
      var frame := if data[0] == "" then None else toFrame(data[0]);
      (if frame.Some? then [frame.value] else []) + Decoded(data[1..], toFrame)
  }

  function AllData(blocks: seq<string>): seq<string> { seq(|blocks|, i requires 0 <= i < |blocks| => Data(blocks[i])) }

  function Frames<F>(text: string, toFrame: string -> Option<F>): seq<F> { Decoded(AllData(Blocks(text)), toFrame) }

  lemma {:induction false} DecodedAppend<F>(a: seq<string>, b: seq<string>, toFrame: string -> Option<F>)
    ensures Decoded(a + b, toFrame) == Decoded(a, toFrame) + Decoded(b, toFrame)
  {
    if a == [] {
      assert a + b == b;
    } else {
      assert (a + b)[1..] == a[1..] + b;
      DecodedAppend(a[1..], b, toFrame);
    }
  }

  lemma FramesOn<F>(a: string, b: string, toFrame: string -> Option<F>)
    ensures Frames(a + b, toFrame) == Frames(a, toFrame) + Frames(Rest(a) + b, toFrame)
  {
    hide Data, Decoded, Blocks, Rest;
    ReadOn(a, b);
    assert AllData(Blocks(a + b)) == AllData(Blocks(a)) + AllData(Blocks(Rest(a) + b));
    DecodedAppend(AllData(Blocks(a)), AllData(Blocks(Rest(a) + b)), toFrame);
  }

  lemma FramesCut<F>(text: string, toFrame: string -> Option<F>)
    requires Cut(text) >= 0
    ensures Frames(text, toFrame)
            == Decoded([Data(text[..Cut(text)])], toFrame) + Frames(text[Cut(text) + 2..], toFrame)
    ensures Rest(text) == Rest(text[Cut(text) + 2..])
  {
    hide Data, Decoded, CutFrom, NoBlankLine, Rest;
    var cut := Cut(text);
    RestCut(text);
    var more := Blocks(text[cut + 2..]);
    AllDataFirst(text[..cut], more);
    DecodedAppend([Data(text[..cut])], AllData(more), toFrame);
  }

  lemma RestCut(text: string)
    requires Cut(text) >= 0
    ensures Rest(text) == Rest(text[Cut(text) + 2..])
  {
  }

  lemma AllDataFirst(block: string, blocks: seq<string>)
    ensures AllData([block] + blocks) == [Data(block)] + AllData(blocks)
  {
    hide Data;
  }

  // ---- the reader ----

  function Flat(chunks: seq<string>): string {
    if chunks == [] then "" else Flat(chunks[..|chunks| - 1]) + chunks[|chunks| - 1]
  }

  /** One turn of the inner loop: the first block leaves the buffer, and its frame, if it makes one, comes out. */
  lemma CutOff<F>(buffer: string, toFrame: string -> Option<F>)
    requires Cut(buffer) >= 0
    ensures var data, more := Data(buffer[..Cut(buffer)]), Frames(buffer[Cut(buffer) + 2..], toFrame);
            && (data == "" || toFrame(data).None? ==> Frames(buffer, toFrame) == more)
            && (data != "" && toFrame(data).Some? ==> Frames(buffer, toFrame) == [toFrame(data).value] + more)
  {
    FramesCut(buffer, toFrame);
    var data := Data(buffer[..Cut(buffer)]);
    assert [data][1..] == [];
  }

  /** However the text was cut into chunks, the frames are the ones of the text. */
  method ReadFrames<F>(chunks: seq<string>, toFrame: string -> Option<F>) returns (frames: seq<F>)
    ensures frames == Frames(Flat(chunks), toFrame)
  {
    hide *;
    frames := [];
    var buffer := "";
    ghost var text := "";
    NothingRead(chunks, toFrame);
    for i := 0 to |chunks|
      invariant text == Flat(chunks[..i]) && frames == Frames(text, toFrame)
      invariant buffer == Rest(text) && NoBlankLine(buffer)
    {
      ReadOn(text, chunks[i]);
      FramesOn(text, chunks[i], toFrame);
      FlatNext(chunks, i);
      text, buffer := text + chunks[i], buffer + chunks[i];
      var cut := Cut(buffer);
      while cut >= 0
        invariant cut == Cut(buffer)
        invariant frames + Frames(buffer, toFrame) == Frames(text, toFrame)
        invariant Rest(buffer) == Rest(text)
        decreases |buffer|
      {
        FramesCut(buffer, toFrame);
        CutOff(buffer, toFrame);
        CutInside(buffer);
        var block := buffer[..cut];
        buffer := buffer[cut + 2..];
        var data := Data(block);
        cut := Cut(buffer);
        if data == "" { continue; }
        var frame := toFrame(data);
        if frame.Some? { frames := frames + [frame.value]; }
      }
      NothingLeft(buffer, toFrame);
    }
    assert chunks[..|chunks|] == chunks;
  }

  lemma NothingRead<F>(chunks: seq<string>, toFrame: string -> Option<F>)
    ensures Flat(chunks[..0]) == "" && Frames("", toFrame) == [] && Rest("") == "" && NoBlankLine("")
  {
    assert Blocks("") == [];
  }

  lemma FlatNext(chunks: seq<string>, i: nat)
    requires i < |chunks|
    ensures Flat(chunks[..i + 1]) == Flat(chunks[..i]) + chunks[i]
  {
    assert chunks[..i + 1][..i] == chunks[..i];
  }

  lemma CutInside(text: string)
    ensures Cut(text) <= |text| - 2 || Cut(text) == -1
  {
  }

  lemma NothingLeft<F>(buffer: string, toFrame: string -> Option<F>)
    requires Cut(buffer) < 0
    ensures Frames(buffer, toFrame) == [] && Rest(buffer) == buffer && NoBlankLine(buffer)
  {
    assert Blocks(buffer) == [];
  }

  // ---- what a sender writes ----

  /** A line of a block: part of its data, with or without the space after the colon, or anything else. */
  datatype Line = Value(value: string, spaced: bool) | Other(text: string)

  function Wire(line: Line): string {
    match line
    case Value(value, spaced) => "data:" + (if spaced then " " else "") + value
    case Other(text) => text
  }

  predicate Sendable(line: Line) {
    match line
    case Value(value, spaced) => '\n' !in value && (spaced || !(" " <= value))
    case Other(text) => '\n' !in text && text != "" && !("data:" <= text)
  }

  function Wires(lines: seq<Line>): seq<string> { seq(|lines|, i requires 0 <= i < |lines| => Wire(lines[i])) }

  function Block(lines: seq<Line>): string { Join(Wires(lines), '\n') }

  /** The data a block carries: the values of its data lines. */
  function Carried(lines: seq<Line>): seq<string> {
    if lines == [] then [] else (if lines[0].Value? then [lines[0].value] else []) + Carried(lines[1..])
  }

  predicate Message(lines: seq<Line>) { lines != [] && forall i :: 0 <= i < |lines| ==> Sendable(lines[i]) }

  lemma WireLine(line: Line)
    requires Sendable(line)
    ensures '\n' !in Wire(line) && Wire(line) != ""
    ensures line.Value? <==> DATA <= Wire(line)
    ensures line.Value? ==> Unlabelled(Wire(line)) == line.value
  {
    if line.Value? {
      var value := Wire(line)[5..];
      assert value == (if line.spaced then " " else "") + line.value;
    }
  }

  lemma {:induction false} DataLinesOf(lines: seq<Line>)
    requires forall i :: 0 <= i < |lines| ==> Sendable(lines[i])
    ensures Values(Wires(lines)) == Carried(lines)
  {
    if lines == [] {
      assert Wires(lines) == [];
    } else {
      hide Wire, Unlabelled, Sendable;
      WireLine(lines[0]);
      DataLinesOf(lines[1..]);
      assert Wires(lines)[1..] == Wires(lines[1..]);
    }
  }

  lemma {:induction false} JoinedClean(lines: seq<string>)
    requires lines != [] && forall i :: 0 <= i < |lines| ==> '\n' !in lines[i] && lines[i] != ""
    ensures Clean(Join(lines, '\n'))
    ensures Join(lines, '\n') != "" && Join(lines, '\n')[0] != '\n'
  {
    var text, head := Join(lines, '\n'), lines[0];
    assert head[0] in head;
    if |lines| == 1 {
      forall k | 0 <= k < |text| + 1 ensures !BlankLineAt(text + "\n", k) {
        if k < |text| { assert text[k] in text; }
      }
    } else {
      var more := Join(lines[1..], '\n');
      JoinedClean(lines[1..]);
      forall k | 0 <= k < |text| + 1 ensures !BlankLineAt(text + "\n", k) {
        if k < |head| {
          assert head[k] in head;
        } else if k > |head| {
          assert !BlankLineAt(more + "\n", k - |head| - 1);
        }
      }
    }
  }

  /** A block says what was put in it: every line of its data, and nothing of its other lines. */
  lemma BlockSays(lines: seq<Line>)
    requires Message(lines)
    ensures Clean(Block(lines)) && Data(Block(lines)) == Join(Carried(lines), '\n')
  {
    forall i | 0 <= i < |lines| ensures '\n' !in Wires(lines)[i] && Wires(lines)[i] != "" { WireLine(lines[i]); }
    JoinedClean(Wires(lines));
    SplitJoin(Wires(lines), '\n');
    DataLinesOf(lines);
  }

  function Sent(messages: seq<seq<Line>>): string {
    Written(seq(|messages|, i requires 0 <= i < |messages| => Block(messages[i])))
  }

  /** A sender's messages arrive whole and in order; one that was not finished does not arrive at all. */
  lemma Delivered<F>(messages: seq<seq<Line>>, unfinished: string, toFrame: string -> Option<F>)
    requires forall i :: 0 <= i < |messages| ==> Message(messages[i])
    requires NoBlankLine(unfinished)
    ensures Frames(Sent(messages) + unfinished, toFrame) ==
            Decoded(seq(|messages|, i requires 0 <= i < |messages| => Join(Carried(messages[i]), '\n')), toFrame)
  {
    var blocks := seq(|messages|, i requires 0 <= i < |messages| => Block(messages[i]));
    forall i | 0 <= i < |messages| ensures Clean(blocks[i]) && Data(blocks[i]) == Join(Carried(messages[i]), '\n') {
      BlockSays(messages[i]);
    }
    WrittenBlocks(blocks, unfinished);
    assert AllData(blocks) == seq(|messages|, i requires 0 <= i < |messages| => Join(Carried(messages[i]), '\n'));
  }

  lemma {:induction false} DecodedWhole<F>(data: seq<string>, toFrame: string -> Option<F>)
    requires forall i :: 0 <= i < |data| ==> data[i] != "" && toFrame(data[i]).Some?
    ensures |Decoded(data, toFrame)| == |data|
    ensures forall i :: 0 <= i < |data| ==> Decoded(data, toFrame)[i] == toFrame(data[i]).value
  {
    if data != [] { DecodedWhole(data[1..], toFrame); }
  }

  /** If the data of every message make a frame, the frames are those, one for each message. */
  lemma AllArrive<F>(messages: seq<seq<Line>>, unfinished: string, toFrame: string -> Option<F>)
    requires forall i :: 0 <= i < |messages| ==> Message(messages[i]) && Join(Carried(messages[i]), '\n') != ""
    requires forall i :: 0 <= i < |messages| ==> toFrame(Join(Carried(messages[i]), '\n')).Some?
    requires NoBlankLine(unfinished)
    ensures var frames := Frames(Sent(messages) + unfinished, toFrame);
            && |frames| == |messages|
            && forall i :: 0 <= i < |messages| ==> frames[i] == toFrame(Join(Carried(messages[i]), '\n')).value
  {
    hide Message, Frames, Decoded, Carried, Join;
    Delivered(messages, unfinished, toFrame);
    DecodedWhole(seq(|messages|, i requires 0 <= i < |messages| => Join(Carried(messages[i]), '\n')), toFrame);
  }

  /** Messages without data, and those whose data make no frame, are passed over, and nothing else is. */
  lemma PassedOver<F>(data: seq<string>, one: string, toFrame: string -> Option<F>)
    ensures Decoded(data + [one], toFrame)
            == Decoded(data, toFrame) + if one != "" && toFrame(one).Some? then [toFrame(one).value] else []
  {
    DecodedAppend(data, [one], toFrame);
    assert [one][1..] == [];
  }

  /** Any data can be sent: its lines, one data line each. */
  function DataMessage(data: string): seq<Line> {
    var lines := Split(data, '\n');
    seq(|lines|, i requires 0 <= i < |lines| => Value(lines[i], true))
  }

  lemma {:induction false} AllCarried(lines: seq<Line>)
    requires forall i :: 0 <= i < |lines| ==> lines[i].Value?
    ensures |Carried(lines)| == |lines| && forall i :: 0 <= i < |lines| ==> Carried(lines)[i] == lines[i].value
  {
    if lines != [] { AllCarried(lines[1..]); }
  }

  lemma AnyData(data: string)
    ensures Message(DataMessage(data)) && Join(Carried(DataMessage(data)), '\n') == data
  {
    PiecesHoldNoSeparator(data, '\n');
    AllCarried(DataMessage(data));
    assert Carried(DataMessage(data)) == Split(data, '\n');
    JoinSplit(data, '\n');
  }
}
