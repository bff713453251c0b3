/** How long the chunks of the fence-aware splitter are. */
module FenceBounds {
  import opened Text
  import opened FenceSplit

  /** How much of a line a fresh chunk takes, inside the block that `open` opened or outside any. */
  function Width(open: string, maxLen: int): int {
    if open != "" then maxLen - 5 - |open| else maxLen
  }

  /** The opening line of the block behind a line, "" if it is not in a block. */
  function NextOpen(open: string, line: string): string {
    if IsFence(line) then (if open != "" then "" else TrimSpace(line)) else open
  }

  /** A condition on the lines alone: every line finds room behind the fence that is open there,
      and every fence line fits whole in a fresh chunk. */
  predicate Spacious(open: string, lines: seq<string>, maxLen: int)
    decreases |lines|
  {
    lines == []
    || (&& Width(open, maxLen) >= 1
        && (IsFence(lines[0]) ==> |lines[0]| < Width(open, maxLen))
        && Spacious(NextOpen(open, lines[0]), lines[1..], maxLen))
  }

  /** No fence line takes more than half of a chunk, less three. */
  predicate Roomy(lines: seq<string>, maxLen: int) {
    maxLen >= 1 && forall i :: 0 <= i < |lines| && IsFence(lines[i]) ==> 2 * |lines[i]| + 6 <= maxLen
  }

  lemma {:induction false} RoomyIsSpacious(open: string, lines: seq<string>, maxLen: int)
    requires Roomy(lines, maxLen) && (open != "" ==> 2 * |open| + 6 <= maxLen)
    ensures Spacious(open, lines, maxLen)
    decreases |lines|
  {
    hide IsFence, TrimSpace;
    if lines != [] {
      assert IsFence(lines[0]) ==> 2 * |lines[0]| + 6 <= maxLen;
      RoomyIsSpacious(NextOpen(open, lines[0]), lines[1..], maxLen);
    }
  }

  lemma {:induction false} JoinAppendLength(a: seq<string>, x: string)
    ensures |Join(a + [x])| == if a == [] then |x| else |Join(a)| + 1 + |x|
  {
    if |a| >= 1 {
      assert (a + [x])[1..] == a[1..] + [x] && (a + [x])[0] == a[0];
      JoinAppendLength(a[1..], x);
    }
  }

  /** currentLen is one more than the length of the chunk under construction. */
  predicate Measured(st: State) {
    if st.current == [] then st.currentLen == 0 else st.currentLen == |Join(Texts(st.current))| + 1
  }

  /** Inside a block the chunk holds at least its opening line. */
  predicate HoldsOpening(st: State) {
    st.open != "" ==> st.current != [] && st.currentLen >= |st.open| + 1
  }

  predicate EndsOnOpening(pieces: seq<Piece>) {
    pieces != [] && pieces[|pieces| - 1].Whole? && IsFence(pieces[|pieces| - 1].text)
  }

  /** The exact bound: maxLen, and three more for a chunk that ends on an opening fence line. */
  predicate Bounded(c: Chunk, maxLen: int) {
    |Render(c)| <= maxLen || (c.closed && EndsOnOpening(c.pieces) && |Render(c)| <= maxLen + 3)
  }

  predicate CurrentBounded(st: State, maxLen: int) {
    if st.open == "" then st.currentLen <= maxLen + 1
    else st.currentLen <= maxLen - 3 || (st.currentLen <= maxLen && EndsOnOpening(st.current))
  }

  predicate Good(st: State, maxLen: int) {
    && Measured(st) && HoldsOpening(st) && CurrentBounded(st, maxLen)
    && forall i :: 0 <= i < |st.chunks| ==> Bounded(st.chunks[i], maxLen)
  }

  /** Just flushed: nothing but the re-opened fence. */
  predicate Fresh(st: State) {
    && st.current == (if st.open != "" then [Seed(st.open)] else [])
    && st.currentLen == if st.open != "" then |st.open| + 1 else 0
  }

  lemma RenderLength(pieces: seq<Piece>, closed: bool)
    ensures |Render(Chunk(pieces, closed))| == |Join(Texts(pieces))| + if closed then 4 else 0
  {
  }

  lemma FlushedIsFresh(st: State)
    requires st.current == [] ==> st.currentLen == 0 && st.open == ""
    ensures Fresh(Flush(st)) && Flush(st).open == st.open && st.chunks <= Flush(st).chunks
  {
  }

  lemma FlushBounds(st: State, maxLen: int)
    requires Good(st, maxLen)
    ensures forall i :: 0 <= i < |Flush(st).chunks| ==> Bounded(Flush(st).chunks[i], maxLen)
  {
    hide Join, Render, IsFence, Texts;
    if st.current != [] {
      RenderLength(st.current, st.open != "");
    }
  }

  lemma FreshIsGood(st: State, maxLen: int)
    requires Fresh(st) && Width(st.open, maxLen) >= 1
    requires forall i :: 0 <= i < |st.chunks| ==> Bounded(st.chunks[i], maxLen)
    ensures Good(st, maxLen)
  {
    hide Join, Render, IsFence, Bounded;
    assert Texts([Seed(st.open)]) == [st.open];
    JoinAppendLength([], st.open);
    assert [] + [st.open] == [st.open];
  }

  lemma FlushGood(st: State, maxLen: int)
    requires Good(st, maxLen) && Width(st.open, maxLen) >= 1
    ensures Good(Flush(st), maxLen) && Fresh(Flush(st)) && Flush(st).open == st.open
    ensures st.chunks <= Flush(st).chunks
  {
    hide Join, Render, IsFence, Texts, Bounded, Flush;
    FlushedIsFresh(st);
    FlushBounds(st, maxLen);
    FreshIsGood(Flush(st), maxLen);
  }

  lemma AddMeasured(st: State, piece: Piece)
    requires Measured(st)
    ensures Measured(Add(st, piece))
  {
    hide Join;
    TextsAppend(st.current, piece);
    JoinAppendLength(Texts(st.current), piece.text);
  }

  lemma AddGood(st: State, piece: Piece, maxLen: int)
    requires Good(st, maxLen) && Add(st, piece).currentLen <= Limit(st, maxLen) + 1
    ensures Good(Add(st, piece), maxLen)
  {
    hide Join, Render, IsFence, Texts;
    AddMeasured(st, piece);
  }

  lemma GoodParts(st: State, maxLen: int)
    requires Good(st, maxLen)
    ensures HoldsOpening(st) && st.currentLen >= 0 && (st.current == [] ==> st.currentLen == 0)
  {
    hide Join, Render;
  }

  /** Cutting a long line always advances: by the width, and by what is left at the end. */
  lemma {:induction false} SplitLongGood(st: State, remaining: string, maxLen: int)
    requires Good(st, maxLen) && Fresh(st) && Width(st.open, maxLen) >= 1
    ensures SplitLong(st, remaining, maxLen).Done?
    ensures Good(SplitLong(st, remaining, maxLen).value, maxLen)
    ensures SplitLong(st, remaining, maxLen).value.open == st.open
    ensures st.chunks <= SplitLong(st, remaining, maxLen).value.chunks
    decreases |remaining|
  {
    hide Join, Render, IsFence, Good, Flush;
    if remaining != "" {
      var avail := Limit(st, maxLen) - st.currentLen;
      assert RoomFor(st, maxLen) == st && avail == Width(st.open, maxLen);
      if avail >= |remaining| {
        AddGood(st, Part(remaining, true), maxLen);
      } else {
        var next := Add(st, Part(remaining[..avail], false));
        AddGood(st, Part(remaining[..avail], false), maxLen);
        FlushGood(next, maxLen);
        SplitLongGood(Flush(next), remaining[avail..], maxLen);
      }
    }
  }

  /** A line is over-long exactly if it has at least the width: then it does not fit anywhere. */
  lemma FitsIff(st: State, line: string, maxLen: int)
    requires HoldsOpening(st) && st.currentLen >= 0
    ensures Fits(st, line, maxLen) ==> |line| < Width(st.open, maxLen)
    ensures Fresh(st) && |line| < Width(st.open, maxLen) ==> Fits(st, line, maxLen)
  {
  }

  lemma PlaceGood(st: State, line: string, maxLen: int)
    requires Good(st, maxLen) && Width(st.open, maxLen) >= 1
    ensures Place(st, line, maxLen).Done?
    ensures var placed := Place(st, line, maxLen).value;
            && Good(placed, maxLen) && placed.open == st.open && st.chunks <= placed.chunks
            && (|line| < Width(st.open, maxLen) ==>
                  && placed.current != [] && placed.current[|placed.current| - 1] == Whole(line)
                  && |line| + 1 <= placed.currentLen <= Limit(placed, maxLen))
  {
    hide Join, Render, IsFence, Good, Flush, Texts;
    GoodParts(st, maxLen);
    FlushGood(st, maxLen);
    var flushed := Flush(st);
    GoodParts(flushed, maxLen);
    FitsIff(flushed, line, maxLen);
    if Fits(st, line, maxLen) {
      AddGood(st, Whole(line), maxLen);
    } else if Fits(flushed, line, maxLen) {
      AddGood(flushed, Whole(line), maxLen);
    } else {
      SplitLongGood(flushed, line, maxLen);
    }
  }

  lemma LineStepGood(st: State, line: string, maxLen: int)
    requires Good(st, maxLen) && Width(st.open, maxLen) >= 1
    requires IsFence(line) ==> |line| < Width(st.open, maxLen)
    ensures LineStep(st, line, maxLen).Done?
    ensures var next := LineStep(st, line, maxLen).value;
            Good(next, maxLen) && st.chunks <= next.chunks && next.open == NextOpen(st.open, line)
  {
    hide Join, Render, Place, TrimSpace, Texts;
    PlaceGood(st, line, maxLen);
    TrimmedIsShorter(line);
  }

  lemma TrimmedIsShorter(line: string)
    ensures |TrimSpace(line)| <= |line|
  {
    hide TrimLeft, TrimRight;
  }

  lemma {:induction false} LinesGood(st: State, lines: seq<string>, maxLen: int)
    requires Good(st, maxLen) && Spacious(st.open, lines, maxLen)
    ensures Lines(st, lines, maxLen).Done?
    ensures Good(Lines(st, lines, maxLen).value, maxLen) && st.chunks <= Lines(st, lines, maxLen).value.chunks
    decreases |lines|
  {
    hide Good, LineStep, IsFence, TrimSpace, NextOpen;
    if lines != [] {
      LineStepGood(st, lines[0], maxLen);
      LinesGood(LineStep(st, lines[0], maxLen).value, lines[1..], maxLen);
    }
  }

  lemma StartGood(maxLen: int)
    requires maxLen >= 0
    ensures Good(Start, maxLen)
  {
  }

  lemma FinishBounds(st: State, maxLen: int)
    requires Good(st, maxLen)
    ensures forall i :: 0 <= i < |Finish(st)| ==> Bounded(Finish(st)[i], maxLen)
  {
    hide Join, Render, IsFence, Bounded;
    FlushBounds(st, maxLen);
    assert Finish(st) == Flush(st).chunks;
  }

  /** With room for its fences the splitter ends, slices only within bounds, and every chunk has at
      most maxLen characters, or at most maxLen + 3 when it ends on an opening fence line. */
  lemma SplitBound(lines: seq<string>, maxLen: int)
    requires maxLen >= 0 && Spacious("", lines, maxLen)
    ensures SplitLines(lines, maxLen).Done?
    ensures forall c :: c in SplitLines(lines, maxLen).value ==> Bounded(c, maxLen)
  {
    hide Join, Render, Lines, IsFence, Good, Bounded, Spacious;
    StartGood(maxLen);
    LinesGood(Start, lines, maxLen);
    FinishBounds(Lines(Start, lines, maxLen).value, maxLen);
  }

  // ---- The bound on the texts that are returned ----

  /** Whole pieces are lines of the text. */
  predicate WholesFrom(pieces: seq<Piece>, lines: seq<string>) {
    forall i :: 0 <= i < |pieces| && pieces[i].Whole? ==> pieces[i].text in lines
  }

  predicate StateFrom(st: State, lines: seq<string>) {
    WholesFrom(st.current, lines) && forall k :: 0 <= k < |st.chunks| ==> WholesFrom(st.chunks[k].pieces, lines)
  }

  lemma FlushFrom(st: State, lines: seq<string>)
    requires StateFrom(st, lines)
    ensures StateFrom(Flush(st), lines)
  {
  }

  lemma AddFrom(st: State, p: Piece, lines: seq<string>)
    requires StateFrom(st, lines) && (p.Whole? ==> p.text in lines)
    ensures StateFrom(Add(st, p), lines)
  {
  }

  lemma {:induction false} SplitLongFrom(st: State, remaining: string, maxLen: int, lines: seq<string>)
    requires StateFrom(st, lines) && SplitLong(st, remaining, maxLen).Done?
    ensures StateFrom(SplitLong(st, remaining, maxLen).value, lines)
    decreases |remaining|
  {
    hide StateFrom, Flush, Add;
    FlushFrom(st, lines);
    var room := RoomFor(st, maxLen);
    var avail := Limit(room, maxLen) - room.currentLen;
    if remaining == "" {
    } else if avail >= |remaining| {
      AddFrom(room, Part(remaining, true), lines);
    } else {
      AddFrom(room, Part(remaining[..avail], false), lines);
      FlushFrom(Add(room, Part(remaining[..avail], false)), lines);
      SplitLongFrom(Flush(Add(room, Part(remaining[..avail], false))), remaining[avail..], maxLen, lines);
    }
  }

  lemma LineFrom(st: State, line: string, maxLen: int, lines: seq<string>)
    requires StateFrom(st, lines) && line in lines && LineStep(st, line, maxLen).Done?
    ensures StateFrom(LineStep(st, line, maxLen).value, lines)
  {
    hide Flush, IsFence, TrimSpace, SplitLong;
    FlushFrom(st, lines);
    if Fits(st, line, maxLen) {
      AddFrom(st, Whole(line), lines);
    } else if Fits(Flush(st), line, maxLen) {
      AddFrom(Flush(st), Whole(line), lines);
    } else {
      SplitLongFrom(Flush(st), line, maxLen, lines);
    }
  }

  lemma {:induction false} LinesFrom(st: State, rest: seq<string>, maxLen: int, lines: seq<string>)
    requires StateFrom(st, lines) && (forall l :: l in rest ==> l in lines) && Lines(st, rest, maxLen).Done?
    ensures StateFrom(Lines(st, rest, maxLen).value, lines)
    decreases |rest|
  {
    hide StateFrom, LineStep;
    if rest != [] {
      LineFrom(st, rest[0], maxLen, lines);
      LinesFrom(LineStep(st, rest[0], maxLen).value, rest[1..], maxLen, lines);
    }
  }

  predicate EndsWith(c: string, tail: string) {
    |tail| <= |c| && c[|c| - |tail|..] == tail
  }

  /** The text of a chunk: at most maxLen, or three more if it ends on a fence line of the text that
      is closed right behind. */
  predicate TextBounded(c: string, lines: seq<string>, maxLen: int) {
    |c| <= maxLen
    || (|c| <= maxLen + 3 && exists k :: 0 <= k < |lines| && IsFence(lines[k]) && EndsWith(c, lines[k] + CLOSING))
  }

  lemma {:induction false} JoinEndsWith(a: seq<string>, x: string)
    ensures EndsWith(Join(a + [x]), x)
  {
    if a != [] {
      assert (a + [x])[1..] == a[1..] + [x] && (a + [x])[0] == a[0];
      JoinEndsWith(a[1..], x);
      var rest := Join(a[1..] + [x]);
      assert Join(a + [x]) == a[0] + "\n" + rest;
    }
  }

  lemma BoundedText(c: Chunk, lines: seq<string>, maxLen: int)
    requires Bounded(c, maxLen) && WholesFrom(c.pieces, lines)
    ensures TextBounded(Render(c), lines, maxLen)
  {
    hide Join, IsFence, Render;
    if |Render(c)| > maxLen {
      var n := |c.pieces| - 1;
      var line := c.pieces[n].text;
      var k :| 0 <= k < |lines| && lines[k] == line;
      RenderIs(c.pieces, c.closed);
      assert Texts(c.pieces) == Texts(c.pieces[..n]) + [line];
      JoinEndsWith(Texts(c.pieces[..n]), line);
      var joined := Join(Texts(c.pieces));
      assert Render(c) == joined + CLOSING && joined == joined[..|joined| - |line|] + line;
      assert EndsWith(Render(c), line + CLOSING);
    }
  }

  /** The same bound on the texts that are returned. */
  lemma SplitMessageBound(text: string, maxLen: int)
    requires maxLen >= 0 && Spacious("", Split(text), maxLen)
    ensures SplitMessage(text, maxLen).Done?
    ensures forall c :: c in SplitMessage(text, maxLen).value ==> TextBounded(c, Split(text), maxLen)
  {
    hide Join, Render, Lines, IsFence, Good, Bounded, Spacious, TextBounded, Split, WholesFrom;
    var lines := Split(text);
    if |text| <= maxLen {
      ShortIsBounded(text, lines, maxLen);
    } else {
      SplitBound(lines, maxLen);
      NothingFrom(lines);
      LinesFrom(Start, lines, maxLen, lines);
      var end := Lines(Start, lines, maxLen).value;
      FlushFrom(end, lines);
      var chunks := SplitLines(lines, maxLen).value;
      assert chunks == Flush(end).chunks;
      forall c | c in RenderAll(chunks) ensures TextBounded(c, lines, maxLen) {
        var i :| 0 <= i < |chunks| && RenderAll(chunks)[i] == c;
        assert WholesFrom(chunks[i].pieces, lines);
        BoundedText(chunks[i], lines, maxLen);
      }
    }
  }

  lemma ShortIsBounded(c: string, lines: seq<string>, maxLen: int)
    requires |c| <= maxLen
    ensures TextBounded(c, lines, maxLen)
  {
  }

  lemma NothingFrom(lines: seq<string>)
    ensures StateFrom(Start, lines)
  {
  }

  // ---- Exactly when the promised bound of maxLen is met ----

  /** An opening fence line is placed so that the closing fence no longer fits behind it. */
  predicate OpensTight(st: State, line: string, maxLen: int) {
    && st.open == "" && IsFence(line)
    && var placed := Place(st, line, maxLen);
       placed.Done? && placed.value.currentLen > maxLen - 3
  }

  predicate SomeOpensTight(st: State, lines: seq<string>, maxLen: int)
    decreases |lines|
  {
    && lines != []
    && (OpensTight(st, lines[0], maxLen)
        || (&& LineStep(st, lines[0], maxLen).Done?
            && SomeOpensTight(LineStep(st, lines[0], maxLen).value, lines[1..], maxLen)))
  }

  predicate AllWithin(chunks: seq<Chunk>, maxLen: int) {
    forall i :: 0 <= i < |chunks| ==> |Render(chunks[i])| <= maxLen
  }

  predicate Loose(st: State, maxLen: int) {
    st.open != "" ==> st.currentLen <= maxLen - 3
  }

  lemma FinishWithin(st: State, maxLen: int)
    requires Good(st, maxLen) && Loose(st, maxLen) && AllWithin(st.chunks, maxLen)
    ensures AllWithin(Finish(st), maxLen) && AllWithin(Flush(st).chunks, maxLen)
  {
    hide Join, Render, IsFence;
    if st.current != [] {
      RenderLength(st.current, st.open != "");
    }
  }

  lemma {:induction false} SplitLongWithin(st: State, remaining: string, maxLen: int)
    requires Good(st, maxLen) && Fresh(st) && Width(st.open, maxLen) >= 1 && AllWithin(st.chunks, maxLen)
    ensures SplitLong(st, remaining, maxLen).Done?
    ensures var end := SplitLong(st, remaining, maxLen).value;
            AllWithin(end.chunks, maxLen) && Loose(end, maxLen) && end.open == st.open
    decreases |remaining|
  {
    hide Join, Render, IsFence, Good, Flush, AllWithin;
    if remaining != "" {
      var avail := Limit(st, maxLen) - st.currentLen;
      assert RoomFor(st, maxLen) == st && avail == Width(st.open, maxLen);
      if avail < |remaining| {
        var next := Add(st, Part(remaining[..avail], false));
        AddGood(st, Part(remaining[..avail], false), maxLen);
        FinishWithin(next, maxLen);
        FlushGood(next, maxLen);
        SplitLongWithin(Flush(next), remaining[avail..], maxLen);
      }
    }
  }

  /** Placing a line never leaves a block loose enough to close and then too tight. */
  lemma PlaceWithin(st: State, line: string, maxLen: int)
    requires Good(st, maxLen) && Width(st.open, maxLen) >= 1 && Loose(st, maxLen) && AllWithin(st.chunks, maxLen)
    requires Place(st, line, maxLen).Done?
    ensures AllWithin(Place(st, line, maxLen).value.chunks, maxLen) && Loose(Place(st, line, maxLen).value, maxLen)
    ensures Place(st, line, maxLen).value.open == st.open
  {
    hide Join, Render, IsFence, Good, AllWithin, Flush;
    FinishWithin(st, maxLen);
    FlushGood(st, maxLen);
    GoodParts(Flush(st), maxLen);
    if !Fits(st, line, maxLen) && !Fits(Flush(st), line, maxLen) {
      SplitLongWithin(Flush(st), line, maxLen);
    }
  }

  lemma StepLoose(st: State, line: string, maxLen: int)
    requires Good(st, maxLen) && Width(st.open, maxLen) >= 1 && Loose(st, maxLen) && AllWithin(st.chunks, maxLen)
    requires IsFence(line) ==> |line| < Width(st.open, maxLen)
    requires !OpensTight(st, line, maxLen)
    ensures LineStep(st, line, maxLen).Done?
    ensures var next := LineStep(st, line, maxLen).value; Loose(next, maxLen) && AllWithin(next.chunks, maxLen)
  {
    hide Join, Render, Place, IsFence, Good, TrimSpace, AllWithin;
    LineStepGood(st, line, maxLen);
    PlaceWithin(st, line, maxLen);
  }

  lemma {:induction false} LooseStays(st: State, lines: seq<string>, maxLen: int)
    requires Good(st, maxLen) && Spacious(st.open, lines, maxLen) && Loose(st, maxLen) && AllWithin(st.chunks, maxLen)
    requires !SomeOpensTight(st, lines, maxLen)
    ensures Lines(st, lines, maxLen).Done? && AllWithin(Finish(Lines(st, lines, maxLen).value), maxLen)
    decreases |lines|
  {
    hide Join, Render, LineStep, IsFence, Good, AllWithin, OpensTight, Loose, NextOpen;
    if lines == [] {
      FinishWithin(st, maxLen);
    } else {
      LineStepGood(st, lines[0], maxLen);
      StepLoose(st, lines[0], maxLen);
      LooseStays(LineStep(st, lines[0], maxLen).value, lines[1..], maxLen);
    }
  }

  /** Once an opening line was placed too tight, an over-long chunk is certain. */
  lemma {:induction false} TightShows(st: State, lines: seq<string>, maxLen: int)
    requires Good(st, maxLen) && Spacious(st.open, lines, maxLen) && SomeOpensTight(st, lines, maxLen)
    ensures Lines(st, lines, maxLen).Done? && !AllWithin(Finish(Lines(st, lines, maxLen).value), maxLen)
    decreases |lines|
  {
    hide Join, Render, LineStep, IsFence, Good, AllWithin, NextOpen, OpensTight;
    var line, rest := lines[0], lines[1..];
    LineStepGood(st, line, maxLen);
    var next := LineStep(st, line, maxLen).value;
    if OpensTight(st, line, maxLen) {
      TightNext(st, line, maxLen);
      TightIsFlushed(next, rest, maxLen);
    } else {
      TightShows(next, rest, maxLen);
    }
  }

  lemma TightNext(st: State, line: string, maxLen: int)
    requires OpensTight(st, line, maxLen)
    ensures LineStep(st, line, maxLen).Done?
    ensures var next := LineStep(st, line, maxLen).value; next.open != "" && next.currentLen > maxLen - 3
  {
    hide Place, TrimLeft, TrimRight;
    PlaceKeepsOpen(st, line, maxLen);
    assert FENCE != "" && FENCE <= TrimSpace(line);
  }

  lemma {:induction false} SplitLongKeepsOpen(st: State, remaining: string, maxLen: int)
    requires SplitLong(st, remaining, maxLen).Done?
    ensures SplitLong(st, remaining, maxLen).value.open == st.open
    decreases |remaining|
  {
    var room := RoomFor(st, maxLen);
    var avail := Limit(room, maxLen) - room.currentLen;
    if remaining != "" && avail < |remaining| {
      SplitLongKeepsOpen(Flush(Add(room, Part(remaining[..avail], false))), remaining[avail..], maxLen);
    }
  }

  lemma PlaceKeepsOpen(st: State, line: string, maxLen: int)
    requires Place(st, line, maxLen).Done?
    ensures Place(st, line, maxLen).value.open == st.open
  {
    if !Fits(st, line, maxLen) && !Fits(Flush(st), line, maxLen) {
      SplitLongKeepsOpen(Flush(st), line, maxLen);
    }
  }

  lemma TightIsFlushed(st: State, lines: seq<string>, maxLen: int)
    requires Good(st, maxLen) && Spacious(st.open, lines, maxLen) && st.open != "" && st.currentLen > maxLen - 3
    ensures Lines(st, lines, maxLen).Done? && !AllWithin(Finish(Lines(st, lines, maxLen).value), maxLen)
  {
    hide Join, Render, IsFence, LineStep, NextOpen, Texts;
    var c := Chunk(st.current, true);
    RenderLength(st.current, true);
    LinesGood(st, lines, maxLen);
    if lines == [] {
      assert Finish(st)[|st.chunks|] == c;
    } else {
      LineStepGood(st, lines[0], maxLen);
      TightStepFlushes(st, lines[0], maxLen);
      var next := LineStep(st, lines[0], maxLen).value;
      LinesGood(next, lines[1..], maxLen);
      var end := Lines(next, lines[1..], maxLen).value;
      assert Finish(end)[|st.chunks|] == end.chunks[|st.chunks|] == next.chunks[|st.chunks|] == c;
    }
  }

  lemma TightStepFlushes(st: State, line: string, maxLen: int)
    requires Good(st, maxLen) && Width(st.open, maxLen) >= 1 && st.open != "" && st.currentLen > maxLen - 3
    requires LineStep(st, line, maxLen).Done?
    ensures var next := LineStep(st, line, maxLen).value;
            |next.chunks| > |st.chunks| && next.chunks[|st.chunks|] == Chunk(st.current, true)
  {
    hide Join, Render, IsFence, Good;
    GoodParts(st, maxLen);
    var flushed := Flush(st);
    FlushGood(st, maxLen);
    if !Fits(flushed, line, maxLen) {
      SplitLongGood(flushed, line, maxLen);
    }
  }

  /** The documented bound of maxLen holds if and only if no opening fence line was placed with
      fewer than three characters of room behind it. */
  lemma DocumentedBoundIff(lines: seq<string>, maxLen: int)
    requires maxLen >= 0 && Spacious("", lines, maxLen)
    ensures SplitLines(lines, maxLen).Done?
    ensures AllWithin(SplitLines(lines, maxLen).value, maxLen) <==> !SomeOpensTight(Start, lines, maxLen)
  {
    hide Join, Render, Lines, IsFence, SomeOpensTight, Good, Spacious;
    StartGood(maxLen);
    if SomeOpensTight(Start, lines, maxLen) {
      TightShows(Start, lines, maxLen);
    } else {
      LooseStays(Start, lines, maxLen);
    }
  }

  lemma FencesOf()
    ensures IsFence("```") && TrimSpace("```") == "```" && !IsFence("aaaaaaa") && !IsFence("b")
  {
    TrimSpaceOfPadded("", "```", "");
    TrimSpaceOfPadded("", "aaaaaaa", "");
    TrimSpaceOfPadded("", "b", "");
    assert "" + "```" + "" == "```" && "" + "aaaaaaa" + "" == "aaaaaaa" && "" + "b" + "" == "b";
  }

  /** A text on which it is missed: the first chunk has fifteen characters instead of twelve. */
  lemma DocumentedBoundFails()
    ensures var lines := ["aaaaaaa", "```", "b"];
            && Spacious("", lines, 12) && SplitLines(lines, 12).Done?
            && !AllWithin(SplitLines(lines, 12).value, 12)
  {
    hide Join, Render, IsFence, TrimSpace;
    FencesOf();
    var lines := ["aaaaaaa", "```", "b"];
    RoomyIsSpacious("", lines, 12);
    var st := Add(Start, Whole("aaaaaaa"));
    assert LineStep(Start, "aaaaaaa", 12) == Done(st);
    assert OpensTight(st, "```", 12);
    assert lines[1..][0] == "```";
    assert SomeOpensTight(st, lines[1..], 12);
    assert SomeOpensTight(Start, lines, 12);
    DocumentedBoundIff(lines, 12);
  }
}
