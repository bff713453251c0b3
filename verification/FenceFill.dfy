/** That the fence-aware splitter fills its chunks: no chunk ends before it has to. */
module FenceFill {
  import opened Text
  import opened FenceSplit
  import opened FenceBounds
  import opened FenceContent

  /** How many characters of a chunk's own text fit, beside the closing fence if there is one. */
  function Room(fenced: bool, maxLen: int): int {
    if fenced then maxLen - 4 else maxLen
  }

  /** The position of the first piece that comes from the text. */
  function Own(pieces: seq<Piece>): nat {
    if pieces != [] && pieces[0].Seed? then 1 else 0
  }

  predicate HasOwn(pieces: seq<Piece>) {
    Own(pieces) < |pieces| && !pieces[Own(pieces)].Seed?
  }

  function Len(pieces: seq<Piece>): int {
    |Join(Texts(pieces))|
  }

  predicate InsideLine(c: Chunk) {
    c.pieces != [] && c.pieces[|c.pieces| - 1].Part? && !c.pieces[|c.pieces| - 1].last
  }

  /** Why a chunk ends where the next one begins: inside a line, because it is full; in front of a whole
      line, because that line does not fit behind it; in front of a line that is cut, because its first
      part fills a chunk of its own. */
  predicate CutHere(c: Chunk, next: seq<Piece>, maxLen: int)
    requires HasOwn(next)
  {
    var x := next[Own(next)];
    if InsideLine(c) then Len(c.pieces) == Room(c.closed, maxLen)
    else if x.Whole? then Len(c.pieces) + |x.text| + 2 > Room(c.closed, maxLen)
    else Len(next[..Own(next) + 1]) == Room(next[0].Seed?, maxLen)
  }

  predicate Filled(chunks: seq<Chunk>, maxLen: int) {
    && (forall i :: 0 <= i < |chunks| ==> HasOwn(chunks[i].pieces))
    && forall i :: 0 < i < |chunks| ==> CutHere(chunks[i - 1], chunks[i].pieces, maxLen)
  }

  /** The chunks so far are filled, and so is the last of them in view of the one under construction. */
  predicate FillState(st: State, maxLen: int) {
    && Filled(st.chunks, maxLen)
    && (st.chunks != [] || st.current != [] ==> HasOwn(st.current))
    && (st.chunks != [] ==> CutHere(st.chunks[|st.chunks| - 1], st.current, maxLen))
  }

  /** Just flushed, and how the last chunk was left. */
  predicate FillFresh(st: State, maxLen: int) {
    && Fresh(st) && Filled(st.chunks, maxLen)
    && (st.chunks != [] && InsideLine(st.chunks[|st.chunks| - 1]) ==>
          var c := st.chunks[|st.chunks| - 1]; Len(c.pieces) == Room(c.closed, maxLen))
  }

  lemma AddKeepsCut(c: Chunk, next: seq<Piece>, p: Piece, maxLen: int)
    requires HasOwn(next) && CutHere(c, next, maxLen)
    ensures HasOwn(next + [p]) && CutHere(c, next + [p], maxLen)
  {
    hide Join;
    assert (next + [p])[..Own(next) + 1] == next[..Own(next) + 1];
  }

  /** A line that fits. */
  lemma AddFills(st: State, line: string, maxLen: int)
    requires FillState(st, maxLen)
    ensures FillState(Add(st, Whole(line)), maxLen)
  {
    hide Filled, CutHere, Len;
    if HasOwn(st.current) && st.chunks != [] {
      AddKeepsCut(st.chunks[|st.chunks| - 1], st.current, Whole(line), maxLen);
    }
  }

  lemma MeasuredLen(st: State)
    requires Measured(st) && st.current != []
    ensures st.currentLen == Len(st.current) + 1
  {
  }

  lemma FlushFills(st: State, maxLen: int)
    requires FillState(st, maxLen) && Good(st, maxLen)
    requires st.current != [] ==> !InsideLine(Chunk(st.current, st.open != ""))
    ensures FillFresh(Flush(st), maxLen) && Flush(st).open == st.open
    ensures st.current != [] ==> Flush(st).chunks == st.chunks + [Chunk(st.current, st.open != "")]
    ensures st.current == [] ==> Flush(st) == st && st.chunks == []
  {
    hide CutHere, Len, Join;
  }

  /** The line did not fit, so the chunk in front of it was full enough. */
  lemma FlushedAddFills(st: State, line: string, maxLen: int)
    requires FillState(st, maxLen) && Good(st, maxLen) && !Fits(st, line, maxLen)
    requires st.current != [] ==> !InsideLine(Chunk(st.current, st.open != ""))
    ensures FillState(Add(Flush(st), Whole(line)), maxLen)
  {
    hide Join, Filled, Len;
    FlushFills(st, maxLen);
    if st.current != [] {
      MeasuredLen(st);
    }
  }

  lemma FreshPart(st: State, p: Piece, maxLen: int)
    requires Fresh(st) && p.Part?
    ensures HasOwn(Add(st, p).current)
    ensures var next := Add(st, p).current;
            && next[..Own(next) + 1] == next && next[0].Seed? == (st.open != "")
            && Len(next) == (if st.open != "" then |st.open| + 1 else 0) + |p.text|
  {
    hide Join;
    TextsAppend(st.current, p);
    JoinAppendLength(Texts(st.current), p.text);
    SmallJoins(st.open);
  }

  lemma SmallJoins(open: string)
    ensures Texts([]) == [] && Join([]) == "" && Texts([Seed(open)]) == [open] && Join([open]) == open
  {
  }

  predicate AfterPart(st: State) {
    st.chunks != [] && InsideLine(st.chunks[|st.chunks| - 1])
  }

  lemma LastPartFills(st: State, rest: string, maxLen: int)
    requires FillFresh(st, maxLen) && |rest| <= Width(st.open, maxLen)
    requires AfterPart(st) || |rest| >= Width(st.open, maxLen)
    ensures FillState(Add(st, Part(rest, true)), maxLen) && !InsideLine(Chunk(Add(st, Part(rest, true)).current, false))
  {
    hide Join, Len, Filled;
    FreshPart(st, Part(rest, true), maxLen);
  }

  lemma {:induction false} SplitLongFills(st: State, remaining: string, maxLen: int)
    requires FillFresh(st, maxLen) && Good(st, maxLen) && Width(st.open, maxLen) >= 1 && remaining != ""
    requires AfterPart(st) || |remaining| >= Width(st.open, maxLen)
    ensures SplitLong(st, remaining, maxLen).Done?
    ensures FillState(SplitLong(st, remaining, maxLen).value, maxLen)
    ensures var end := SplitLong(st, remaining, maxLen).value;
            end.current != [] && !InsideLine(Chunk(end.current, false))
    decreases |remaining|
  {
    hide Join, IsFence, Good, Len, Filled, CutHere, FillState, InsideLine, Flush;
    SplitLongGood(st, remaining, maxLen);
    var avail := Limit(st, maxLen) - st.currentLen;
    assert RoomFor(st, maxLen) == st && avail == Width(st.open, maxLen);
    if avail >= |remaining| {
      LastPartFills(st, remaining, maxLen);
    } else {
      var part := Part(remaining[..avail], false);
      var next := Add(st, part);
      AddGood(st, part, maxLen);
      FlushGood(next, maxLen);
      PartFills(st, part, maxLen);
      SplitLongFills(Flush(next), remaining[avail..], maxLen);
    }
  }

  /** A part that is not the last fills its chunk. */
  lemma PartFills(st: State, part: Piece, maxLen: int)
    requires FillFresh(st, maxLen) && part.Part? && !part.last && |part.text| == Width(st.open, maxLen)
    ensures var f := Flush(Add(st, part));
            FillFresh(f, maxLen) && AfterPart(f) && f.open == st.open
  {
    hide Join, Len;
    FreshPart(st, part, maxLen);
  }

  lemma PlaceFills(st: State, line: string, maxLen: int)
    requires FillState(st, maxLen) && Good(st, maxLen) && Width(st.open, maxLen) >= 1
    requires st.current != [] ==> !InsideLine(Chunk(st.current, false))
    ensures Place(st, line, maxLen).Done?
    ensures var end := Place(st, line, maxLen).value;
            FillState(end, maxLen) && end.current != [] && !InsideLine(Chunk(end.current, false))
  {
    hide Join, Good, FillState, FillFresh, Flush, Len;
    PlaceGood(st, line, maxLen);
    GoodParts(st, maxLen);
    FlushGood(st, maxLen);
    GoodParts(Flush(st), maxLen);
    FitsIff(Flush(st), line, maxLen);
    if Fits(st, line, maxLen) {
      AddFills(st, line, maxLen);
    } else {
      FlushFills(st, maxLen);
      if Fits(Flush(st), line, maxLen) {
        FlushedAddFills(st, line, maxLen);
      } else {
        SplitLongFills(Flush(st), line, maxLen);
      }
    }
  }

  lemma TrackFills(st: State, line: string, maxLen: int)
    requires FillState(st, maxLen)
    ensures FillState(TrackFence(st, line), maxLen) && TrackFence(st, line).current == st.current
  {
    hide Filled, CutHere, IsFence, TrimSpace;
  }

  lemma {:induction false} LinesFill(st: State, lines: seq<string>, maxLen: int)
    requires FillState(st, maxLen) && Good(st, maxLen) && Spacious(st.open, lines, maxLen)
    requires st.current != [] ==> !InsideLine(Chunk(st.current, false))
    ensures Lines(st, lines, maxLen).Done? && FillState(Lines(st, lines, maxLen).value, maxLen)
    decreases |lines|
  {
    hide Good, FillState, Place, TrackFence, NextOpen, IsFence, InsideLine;
    if lines != [] {
      LineStepGood(st, lines[0], maxLen);
      PlaceFills(st, lines[0], maxLen);
      TrackFills(Place(st, lines[0], maxLen).value, lines[0], maxLen);
      LinesFill(LineStep(st, lines[0], maxLen).value, lines[1..], maxLen);
    }
  }

  lemma FinishFills(st: State, maxLen: int)
    requires FillState(st, maxLen)
    ensures Filled(Finish(st), maxLen)
  {
    hide Join, Len, CutHere;
  }

  /** For every spacious text: each chunk ends only where it has to. */
  lemma ChunksAreFilled(lines: seq<string>, maxLen: int)
    requires maxLen >= 0 && Spacious("", lines, maxLen)
    ensures SplitLines(lines, maxLen).Done? && Filled(SplitLines(lines, maxLen).value, maxLen)
  {
    hide Good, FillState, Filled, Lines, Spacious, Finish;
    StartGood(maxLen);
    StartFills(maxLen);
    LinesFill(Start, lines, maxLen);
    FinishFills(Lines(Start, lines, maxLen).value, maxLen);
  }

  lemma StartFills(maxLen: int)
    ensures FillState(Start, maxLen)
  {
  }

  // ---- So there are not many ----

  /** What a piece takes of the text, with the line break behind the line it ends. */
  function PieceSize(p: Piece): nat {
    match p
    case Seed(_) => 0
    case Whole(line) => |line| + 1
    case Part(text, last) => |text| + if last then 1 else 0
  }

  function Size(pieces: seq<Piece>): nat {
    if pieces == [] then 0 else Size(pieces[..|pieces| - 1]) + PieceSize(pieces[|pieces| - 1])
  }

  lemma SizeSnoc(pieces: seq<Piece>, p: Piece)
    ensures Size(pieces + [p]) == Size(pieces) + PieceSize(p)
  {
    assert (pieces + [p])[..|pieces|] == pieces;
  }

  lemma {:induction false} SizeAppend(a: seq<Piece>, b: seq<Piece>)
    ensures Size(a + b) == Size(a) + Size(b)
  {
    if b == [] {
      assert a + b == a;
    } else {
      var init, last := b[..|b| - 1], b[|b| - 1];
      assert a + b == (a + init) + [last];
      SizeSnoc(a + init, last);
      SizeAppend(a, init);
    }
  }

  function LinesSize(lines: seq<string>): nat {
    if lines == [] then 0 else LinesSize(lines[..|lines| - 1]) + |lines[|lines| - 1]| + 1
  }

  lemma {:induction false} LinesSizeIsJoin(lines: seq<string>)
    requires lines != []
    ensures LinesSize(lines) == |Join(lines)| + 1
  {
    var init, last := lines[..|lines| - 1], lines[|lines| - 1];
    assert lines == init + [last];
    JoinAppendLength(init, last);
    if init != [] {
      LinesSizeIsJoin(init);
    }
  }

  lemma LinesSizeSnoc(lines: seq<string>, line: string)
    ensures LinesSize(lines + [line]) == LinesSize(lines) + |line| + 1
  {
    assert (lines + [line])[..|lines|] == lines;
  }

  lemma {:induction false} SizeIsErased(pieces: seq<Piece>)
    ensures Size(pieces) == LinesSize(Erase(pieces).lines) + |Erase(pieces).pending|
  {
    if pieces != [] {
      var init, p := pieces[..|pieces| - 1], pieces[|pieces| - 1];
      SizeIsErased(init);
      var e := Erase(init);
      match p {
        case Seed(_) =>
        case Whole(line) => LinesSizeSnoc(e.lines, e.pending + line);
        case Part(text, last) =>
          if last {
            LinesSizeSnoc(e.lines, e.pending + text);
          }
      }
    }
  }

  /** Only the first piece can be a re-opened fence, which leaves room for w characters, and only the
      last can be a part that goes on. */
  predicate Shaped(pieces: seq<Piece>, w: int, maxLen: int) {
    && (forall i :: 0 <= i < |pieces| && pieces[i].Seed? ==>
          i == 0 && pieces[i].text != "" && Width(pieces[i].text, maxLen) >= w)
    && (forall i :: 0 <= i < |pieces| && pieces[i].Part? && !pieces[i].last ==> i == |pieces| - 1)
  }

  predicate ShapeState(st: State, w: int, maxLen: int) {
    && (forall i :: 0 <= i < |st.chunks| ==> Shaped(st.chunks[i].pieces, w, maxLen))
    && Shaped(st.current, w, maxLen)
    && (st.open != "" ==> Width(st.open, maxLen) >= w)
  }

  lemma FlushShapes(st: State, w: int, maxLen: int)
    requires ShapeState(st, w, maxLen)
    ensures ShapeState(Flush(st), w, maxLen)
    ensures st.current != [] ==> !InsideLine(Chunk(Flush(st).current, false))
  {
  }

  lemma AddShapes(st: State, p: Piece, w: int, maxLen: int)
    requires ShapeState(st, w, maxLen) && !InsideLine(Chunk(st.current, false)) && !p.Seed?
    ensures ShapeState(Add(st, p), w, maxLen)
  {
  }

  lemma {:induction false} SplitLongShapes(st: State, remaining: string, w: int, maxLen: int)
    requires ShapeState(st, w, maxLen) && !InsideLine(Chunk(st.current, false))
    requires SplitLong(st, remaining, maxLen).Done?
    ensures ShapeState(SplitLong(st, remaining, maxLen).value, w, maxLen)
    ensures !InsideLine(Chunk(SplitLong(st, remaining, maxLen).value.current, false))
    decreases |remaining|
  {
    hide ShapeState, Flush;
    if remaining != "" {
      FlushShapes(st, w, maxLen);
      RoomIsNotInside(st, maxLen);
      var room := RoomFor(st, maxLen);
      var avail := Limit(room, maxLen) - room.currentLen;
      if avail >= |remaining| {
        AddShapes(room, Part(remaining, true), w, maxLen);
      } else {
        var next := Add(room, Part(remaining[..avail], false));
        AddShapes(room, Part(remaining[..avail], false), w, maxLen);
        FlushShapes(next, w, maxLen);
        SplitLongShapes(Flush(next), remaining[avail..], w, maxLen);
      }
    }
  }

  lemma RoomIsNotInside(st: State, maxLen: int)
    requires !InsideLine(Chunk(st.current, false))
    ensures !InsideLine(Chunk(RoomFor(st, maxLen).current, false)) && !InsideLine(Chunk(Flush(st).current, false))
  {
  }

  /** Every fence line of the text leaves room for w characters behind it. */
  predicate LeavesRoom(lines: seq<string>, w: int, maxLen: int) {
    forall i :: 0 <= i < |lines| && IsFence(lines[i]) ==> Width(TrimSpace(lines[i]), maxLen) >= w
  }

  lemma LineShapes(st: State, line: string, w: int, maxLen: int)
    requires ShapeState(st, w, maxLen) && !InsideLine(Chunk(st.current, false)) && LineStep(st, line, maxLen).Done?
    requires IsFence(line) ==> Width(TrimSpace(line), maxLen) >= w
    ensures ShapeState(LineStep(st, line, maxLen).value, w, maxLen)
    ensures !InsideLine(Chunk(LineStep(st, line, maxLen).value.current, false))
  {
    hide IsFence, TrimSpace, Flush, SplitLong, Shaped;
    FlushShapes(st, w, maxLen);
    RoomIsNotInside(st, maxLen);
    if Fits(st, line, maxLen) {
      AddShapes(st, Whole(line), w, maxLen);
    } else if Fits(Flush(st), line, maxLen) {
      AddShapes(Flush(st), Whole(line), w, maxLen);
    } else {
      SplitLongShapes(Flush(st), line, w, maxLen);
    }
  }

  lemma {:induction false} LinesShape(st: State, lines: seq<string>, w: int, maxLen: int)
    requires ShapeState(st, w, maxLen) && !InsideLine(Chunk(st.current, false)) && Lines(st, lines, maxLen).Done?
    requires LeavesRoom(lines, w, maxLen)
    ensures ShapeState(Lines(st, lines, maxLen).value, w, maxLen)
    decreases |lines|
  {
    hide ShapeState, InsideLine, LineStep, IsFence, TrimSpace;
    if lines != [] {
      LineShapes(st, lines[0], w, maxLen);
      LinesShape(LineStep(st, lines[0], maxLen).value, lines[1..], w, maxLen);
    }
  }

  /** The length of a chunk's text, by what it takes of the text. */
  lemma {:induction false} LenIs(pieces: seq<Piece>, w: int, maxLen: int)
    requires pieces != [] && Shaped(pieces, w, maxLen)
    ensures Len(pieces) + 1 ==
            (if pieces[0].Seed? then |pieces[0].text| + 1 else 0) + Size(pieces)
            + (if InsideLine(Chunk(pieces, false)) then 1 else 0)
  {
    hide Join;
    var n := |pieces| - 1;
    var init, p := pieces[..n], pieces[n];
    assert pieces == init + [p];
    TextsAppend(init, p);
    JoinAppendLength(Texts(init), p.text);
    SizeSnoc(init, p);
    if init != [] {
      LenIs(init, w, maxLen);
      assert init[|init| - 1] == pieces[n - 1];
    }
  }

  lemma {:induction false} SizeAtLeast(pieces: seq<Piece>, k: nat)
    requires k < |pieces|
    ensures Size(pieces) >= PieceSize(pieces[k])
  {
    if k < |pieces| - 1 {
      SizeAtLeast(pieces[..|pieces| - 1], k);
    }
  }

  lemma FirstPartFills(next: seq<Piece>, w: int, maxLen: int)
    requires HasOwn(next) && Shaped(next, w, maxLen) && next[Own(next)].Part? && w <= maxLen
    requires Len(next[..Own(next) + 1]) == Room(next[0].Seed?, maxLen)
    ensures |next[Own(next)].text| >= w
  {
    hide Join;
    var k := Own(next);
    var x := next[k];
    SmallJoins(next[0].text);
    if k == 0 {
      assert next[..1] == [x];
      JoinAppendLength([], x.text);
      assert Texts([x]) == [] + [x.text];
    } else {
      assert next[..2] == [next[0], x];
      JoinAppendLength([next[0].text], x.text);
      assert Texts([next[0], x]) == [next[0].text] + [x.text];
      JoinAppendLength([], next[0].text);
      assert [] + [next[0].text] == [next[0].text];
    }
  }

  /** Two neighbours take at least w characters of the text. */
  lemma NeighboursTake(c: Chunk, next: seq<Piece>, w: int, maxLen: int)
    requires HasOwn(next) && CutHere(c, next, maxLen) && w <= maxLen - 4 && c.pieces != []
    requires Shaped(c.pieces, w, maxLen) && Shaped(next, w, maxLen)
    ensures Size(c.pieces) + Size(next) >= w
  {
    hide Len, Size;
    LenIs(c.pieces, w, maxLen);
    SizeAtLeast(next, Own(next));
    if !InsideLine(c) && next[Own(next)].Part? {
      FirstPartFills(next, w, maxLen);
    }
  }

  predicate Neighbours(chunks: seq<Chunk>, w: int) {
    forall i :: 0 < i < |chunks| ==> Size(chunks[i - 1].pieces) + Size(chunks[i].pieces) >= w
  }

  lemma {:induction false} NeighboursBound(chunks: seq<Chunk>, w: int)
    requires chunks != [] && Neighbours(chunks, w)
    ensures (|chunks| - 1) * w + Size(chunks[0].pieces) + Size(chunks[|chunks| - 1].pieces) <= 2 * Size(Flatten(chunks))
  {
    hide Size;
    var n := |chunks| - 1;
    var init, last := chunks[..n], chunks[n];
    assert chunks == init + [last];
    FlattenAppend(init, last);
    SizeAppend(Flatten(init), last.pieces);
    if n > 0 {
      NeighboursBound(init, w);
      assert init[n - 1] == chunks[n - 1] && init[0] == chunks[0];
      assert n * w == (n - 1) * w + w;
    } else {
      assert init == [] && Flatten(init) == [];
      EmptySize();
    }
  }

  lemma EmptySize()
    ensures Size([]) == 0
  {
  }

  lemma ChunksShaped(lines: seq<string>, w: int, maxLen: int)
    requires SplitLines(lines, maxLen).Done? && LeavesRoom(lines, w, maxLen)
    ensures forall i :: 0 <= i < |SplitLines(lines, maxLen).value| ==>
              Shaped(SplitLines(lines, maxLen).value[i].pieces, w, maxLen)
  {
    hide Shaped, Lines, LeavesRoom;
    assert Shaped([], w, maxLen) by { NothingShaped(w, maxLen); }
    LinesShape(Start, lines, w, maxLen);
  }

  lemma NothingShaped(w: int, maxLen: int)
    ensures Shaped([], w, maxLen)
  {
  }

  /** The number of chunks of a spacious text: if every fence line leaves room for w characters, two
      neighbours take at least w characters of the text. */
  lemma ChunkCount(lines: seq<string>, maxLen: int, w: int)
    requires lines != [] && maxLen >= 0 && Spacious("", lines, maxLen)
    requires LeavesRoom(lines, w, maxLen) && w <= maxLen - 4
    ensures SplitLines(lines, maxLen).Done?
    ensures (|SplitLines(lines, maxLen).value| - 1) * w <= 2 * (|Join(lines)| + 1)
  {
    hide Spacious, LeavesRoom, Join, SplitLines, Size, Shaped, CutHere, Erase, LinesSize;
    ChunksAreFilled(lines, maxLen);
    var chunks := SplitLines(lines, maxLen).value;
    ChunksShaped(lines, w, maxLen);
    forall i | 0 < i < |chunks| ensures Size(chunks[i - 1].pieces) + Size(chunks[i].pieces) >= w {
      NeighboursTake(chunks[i - 1], chunks[i].pieces, w, maxLen);
    }
    StartGood(maxLen);
    SpaciousLosesNothing(Start, lines, maxLen);
    SplitKeepsText(lines, maxLen);
    SizeIsErased(Flatten(chunks));
    LinesSizeIsJoin(lines);
    if chunks != [] {
      NeighboursBound(chunks, w);
    } else {
      assert Flatten(chunks) == [];
      NoLines(lines);
    }
  }

  lemma NoLines(lines: seq<string>)
    requires lines != []
    ensures Erase([]) == Erased([], "") && Erase([]) != Erased(lines, "")
  {
  }

  /** The same for the messages that are sent; a text within the limit is one. */
  lemma MessageCount(text: string, maxLen: int, w: int)
    requires maxLen >= 0 && Spacious("", Split(text), maxLen) && LeavesRoom(Split(text), w, maxLen) && w <= maxLen - 4
    ensures SplitMessage(text, maxLen).Done?
    ensures |text| <= maxLen ==> SplitMessage(text, maxLen).value == [text]
    ensures (|SplitMessage(text, maxLen).value| - 1) * w <= 2 * (|text| + 1)
  {
    hide Spacious, LeavesRoom, Join, SplitLines, Split;
    ChunkCount(Split(text), maxLen, w);
    JoinOfSplit(text);
  }
}
