/** What the fence-aware splitter preserves: the text, and the balance of its fences. */
module FenceContent {
  import opened Text
  import opened FenceSplit
  import opened FenceBounds
  import opened FenceEnds

  /** Whole lines recovered so far, and the parts of a line still being put together. */
  datatype Erased = Erased(lines: seq<string>, pending: string)

  function EraseOne(e: Erased, p: Piece): Erased {
    match p
    case Seed(_) => e
    case Whole(line) => Erased(e.lines + [e.pending + line], "")
    case Part(text, last) => if last then Erased(e.lines + [e.pending + text], "")
      else Erased(e.lines, e.pending + text)
  }

  /** Leave out what the splitter added and join the parts of each line. */
  function Erase(pieces: seq<Piece>): Erased {
    if pieces == [] then Erased([], "") else EraseOne(Erase(pieces[..|pieces| - 1]), pieces[|pieces| - 1])
  }

  /** All pieces, chunk after chunk. */
  function Flatten(chunks: seq<Chunk>): seq<Piece> {
    if chunks == [] then [] else Flatten(chunks[..|chunks| - 1]) + chunks[|chunks| - 1].pieces
  }

  function AllPieces(st: State): seq<Piece> {
    Flatten(st.chunks) + st.current
  }

  lemma FlattenAppend(chunks: seq<Chunk>, c: Chunk)
    ensures Flatten(chunks + [c]) == Flatten(chunks) + c.pieces
  {
    assert (chunks + [c])[..|chunks|] == chunks;
  }

  lemma EraseAppend(pieces: seq<Piece>, p: Piece)
    ensures Erase(pieces + [p]) == EraseOne(Erase(pieces), p)
  {
    assert (pieces + [p])[..|pieces|] == pieces;
  }

  lemma FlushErases(st: State)
    ensures Erase(AllPieces(Flush(st))) == Erase(AllPieces(st))
  {
    if st.current != [] {
      FlattenAppend(st.chunks, Chunk(st.current, st.open != ""));
      if st.open != "" {
        EraseAppend(AllPieces(st), Seed(st.open));
      } else {
        assert AllPieces(Flush(st)) == AllPieces(st);
      }
    }
  }

  lemma AddErases(st: State, p: Piece)
    ensures Erase(AllPieces(Add(st, p))) == EraseOne(Erase(AllPieces(st)), p)
  {
    EraseAppend(AllPieces(st), p);
    assert AllPieces(Add(st, p)) == AllPieces(st) + [p];
  }

  lemma FinishErases(st: State)
    ensures Erase(Flatten(Finish(st))) == Erase(AllPieces(st))
  {
    if st.current != [] {
      FlattenAppend(st.chunks, Chunk(st.current, st.open != ""));
    } else {
      assert AllPieces(st) == Flatten(st.chunks);
    }
  }

  lemma {:induction false} SplitLongErases(st: State, remaining: string, maxLen: int)
    requires remaining != "" && SplitLong(st, remaining, maxLen).Done?
    ensures var before, after := Erase(AllPieces(st)), Erase(AllPieces(SplitLong(st, remaining, maxLen).value));
            after == Erased(before.lines + [before.pending + remaining], "")
    decreases |remaining|
  {
    hide Flush, Add, AllPieces, Erase;
    var room := RoomFor(st, maxLen);
    var avail := Limit(room, maxLen) - room.currentLen;
    FlushErases(st);
    if avail >= |remaining| {
      AddErases(room, Part(remaining, true));
    } else {
      var head, tail := remaining[..avail], remaining[avail..];
      var next := Add(room, Part(head, false));
      AddErases(room, Part(head, false));
      FlushErases(next);
      SplitLongErases(Flush(next), tail, maxLen);
      var p := Erase(AllPieces(st)).pending;
      assert (p + head) + tail == p + remaining;
    }
  }

  /** Only an empty line can be lost: it is, where it does not even fit in a fresh chunk. */
  predicate Lost(st: State, line: string, maxLen: int) {
    line == "" && !Fits(st, line, maxLen) && !Fits(Flush(st), line, maxLen)
  }

  /** The lines of a run that are not lost. */
  function Kept(st: State, lines: seq<string>, maxLen: int): (kept: seq<string>)
    ensures |kept| <= |lines|
    decreases |lines|
  {
    if lines == [] || !LineStep(st, lines[0], maxLen).Done? then []
    else
      (if Lost(st, lines[0], maxLen) then [] else [lines[0]])
      + Kept(LineStep(st, lines[0], maxLen).value, lines[1..], maxLen)
  }

  predicate SomeLost(st: State, lines: seq<string>, maxLen: int)
    decreases |lines|
  {
    && lines != [] && LineStep(st, lines[0], maxLen).Done?
    && (Lost(st, lines[0], maxLen) || SomeLost(LineStep(st, lines[0], maxLen).value, lines[1..], maxLen))
  }

  lemma LineErases(st: State, line: string, maxLen: int)
    requires LineStep(st, line, maxLen).Done? && Erase(AllPieces(st)).pending == ""
    ensures Erase(AllPieces(LineStep(st, line, maxLen).value)) ==
            Erased(Erase(AllPieces(st)).lines + if Lost(st, line, maxLen) then [] else [line], "")
  {
    hide Flush, Add, Erase, IsFence, Fits;
    FlushErases(st);
    var placed := Place(st, line, maxLen).value;
    assert AllPieces(TrackFence(placed, line)) == AllPieces(placed);
    assert "" + line == line;
    var before := Erase(AllPieces(st));
    assert before.lines + [] == before.lines;
    if Fits(st, line, maxLen) {
      AddErases(st, Whole(line));
    } else if Fits(Flush(st), line, maxLen) {
      AddErases(Flush(st), Whole(line));
    } else if line != "" {
      SplitLongErases(Flush(st), line, maxLen);
    }
  }

  lemma {:induction false} LinesErase(st: State, lines: seq<string>, maxLen: int)
    requires Lines(st, lines, maxLen).Done? && Erase(AllPieces(st)).pending == ""
    ensures Erase(AllPieces(Lines(st, lines, maxLen).value)) ==
            Erased(Erase(AllPieces(st)).lines + Kept(st, lines, maxLen), "")
    decreases |lines|
  {
    hide Erase, AllPieces, LineStep, Lost;
    var before := Erase(AllPieces(st)).lines;
    if lines == [] {
      assert before + [] == before;
    } else {
      LineErases(st, lines[0], maxLen);
      LinesErase(LineStep(st, lines[0], maxLen).value, lines[1..], maxLen);
      var first := if Lost(st, lines[0], maxLen) then [] else [lines[0]];
      var rest := Kept(LineStep(st, lines[0], maxLen).value, lines[1..], maxLen);
      assert before + first + rest == before + (first + rest);
    }
  }

  lemma {:induction false} KeptAll(st: State, lines: seq<string>, maxLen: int)
    requires Lines(st, lines, maxLen).Done?
    ensures Kept(st, lines, maxLen) == lines <==> !SomeLost(st, lines, maxLen)
    decreases |lines|
  {
    hide LineStep, Lost;
    if lines != [] {
      KeptAll(LineStep(st, lines[0], maxLen).value, lines[1..], maxLen);
    }
  }

  /** Content, for every text on which the splitter ends: without the re-opened fences and the
      appended closers, and with the parts of each line joined, the chunks are the lines of the
      text that are not lost, in order; so they are the text if and only if none is. */
  lemma SplitKeepsText(lines: seq<string>, maxLen: int)
    requires SplitLines(lines, maxLen).Done?
    ensures Erase(Flatten(SplitLines(lines, maxLen).value)) == Erased(Kept(Start, lines, maxLen), "")
    ensures Erase(Flatten(SplitLines(lines, maxLen).value)) == Erased(lines, "") <==> !SomeLost(Start, lines, maxLen)
  {
    hide Lines, Kept, SomeLost, Finish;
    assert Erase([]) == Erased([], "") && AllPieces(Start) == [];
    LinesErase(Start, lines, maxLen);
    assert [] + Kept(Start, lines, maxLen) == Kept(Start, lines, maxLen);
    FinishErases(Lines(Start, lines, maxLen).value);
    KeptAll(Start, lines, maxLen);
  }

  /** With room for the fences none is. */
  lemma {:induction false} SpaciousLosesNothing(st: State, lines: seq<string>, maxLen: int)
    requires Good(st, maxLen) && Spacious(st.open, lines, maxLen)
    ensures !SomeLost(st, lines, maxLen)
    decreases |lines|
  {
    hide Good, IsFence, LineStep, NextOpen, Flush;
    if lines != [] {
      LineStepGood(st, lines[0], maxLen);
      FlushGood(st, maxLen);
      GoodParts(Flush(st), maxLen);
      FitsIff(Flush(st), "", maxLen);
      SpaciousLosesNothing(LineStep(st, lines[0], maxLen).value, lines[1..], maxLen);
    }
  }

  // ---- Length, whatever the fences ----

  predicate Within(st: State, maxLen: int) {
    && Measured(st) && st.currentLen <= maxLen + 1 && (st.current == [] ==> st.open == "")
    && forall i :: 0 <= i < |st.chunks| ==> |Render(st.chunks[i])| <= maxLen + 4
  }

  lemma FlushWithin(st: State, maxLen: int)
    requires Within(st, maxLen) && maxLen >= 0
    ensures Fresh(Flush(st)) && Flush(st).open == st.open
    ensures forall i :: 0 <= i < |Flush(st).chunks| ==> |Render(Flush(st).chunks[i])| <= maxLen + 4
    ensures Width(st.open, maxLen) >= 1 ==> Within(Flush(st), maxLen)
  {
    hide Join, Render, IsFence;
    FlushedIsFresh(st);
    if st.current != [] {
      RenderLength(st.current, st.open != "");
      assert Texts([Seed(st.open)]) == [st.open];
      JoinAppendLength([], st.open);
      assert [] + [st.open] == [st.open];
    }
  }

  lemma AddWithin(st: State, p: Piece, maxLen: int)
    requires Within(st, maxLen) && Add(st, p).currentLen <= maxLen + 1
    ensures Within(Add(st, p), maxLen)
  {
    hide Join, Render, Texts;
    AddMeasured(st, p);
  }

  lemma {:induction false} PartsWithin(st: State, remaining: string, maxLen: int)
    requires Within(st, maxLen) && Fresh(st) && Width(st.open, maxLen) >= 1 && maxLen >= 0
    ensures SplitLong(st, remaining, maxLen).Done? && Within(SplitLong(st, remaining, maxLen).value, maxLen)
    ensures remaining != "" ==> SplitLong(st, remaining, maxLen).value.current != []
    decreases |remaining|
  {
    hide Within, Flush;
    if remaining != "" {
      var avail := Limit(st, maxLen) - st.currentLen;
      assert RoomFor(st, maxLen) == st && avail == Width(st.open, maxLen);
      if avail >= |remaining| {
        AddWithin(st, Part(remaining, true), maxLen);
      } else {
        var next := Add(st, Part(remaining[..avail], false));
        AddWithin(st, Part(remaining[..avail], false), maxLen);
        FlushWithin(next, maxLen);
        PartsWithin(Flush(next), remaining[avail..], maxLen);
      }
    }
  }

  lemma StepWithin(st: State, line: string, maxLen: int)
    requires Within(st, maxLen) && maxLen >= 1 && LineStep(st, line, maxLen).Done? && !Lost(st, line, maxLen)
    ensures Within(LineStep(st, line, maxLen).value, maxLen)
  {
    hide Flush, Render, Join, Texts, TrimLeft, TrimRight;
    FlushWithin(st, maxLen);
    StepOutcome(st, line, maxLen);
    if Fits(st, line, maxLen) {
      AddWithin(st, Whole(line), maxLen);
    } else if Fits(Flush(st), line, maxLen) {
      AddWithin(Flush(st), Whole(line), maxLen);
    } else {
      assert !Starved(st, line, maxLen);
      PartsWithin(Flush(st), line, maxLen);
    }
  }

  lemma {:induction false} LinesWithin(st: State, lines: seq<string>, maxLen: int)
    requires Within(st, maxLen) && maxLen >= 1 && Lines(st, lines, maxLen).Done? && !SomeLost(st, lines, maxLen)
    ensures Within(Lines(st, lines, maxLen).value, maxLen)
    decreases |lines|
  {
    hide Within, LineStep, Lost;
    if lines != [] {
      StepWithin(st, lines[0], maxLen);
      LinesWithin(LineStep(st, lines[0], maxLen).value, lines[1..], maxLen);
    }
  }

  /** For every text on which the splitter ends without losing a line, cut fence lines included, no
      chunk has more than maxLen + 4 characters. */
  lemma EndedBound(lines: seq<string>, maxLen: int)
    requires maxLen >= 1 && SplitLines(lines, maxLen).Done? && !SomeLost(Start, lines, maxLen)
    ensures forall c :: c in SplitLines(lines, maxLen).value ==> |Render(c)| <= maxLen + 4
  {
    hide Lines, SomeLost, Render;
    LinesWithin(Start, lines, maxLen);
    var end := Lines(Start, lines, maxLen).value;
    FlushWithin(end, maxLen);
    assert SplitLines(lines, maxLen).value == Flush(end).chunks;
  }

  // ---- What the splitter adds, and the balance of fences ----

  /** The trimmed last fence line among the pieces: what a block that is still open was opened by. */
  function LastFence(pieces: seq<Piece>): string {
    if pieces == [] then ""
    else
      var p := pieces[|pieces| - 1];
      if !p.Part? && IsFence(p.text) then TrimSpace(p.text) else LastFence(pieces[..|pieces| - 1])
  }

  function FenceCount(texts: seq<string>): nat {
    if texts == [] then 0
    else FenceCount(texts[..|texts| - 1]) + if IsFence(texts[|texts| - 1]) then 1 else 0
  }

  /** The lines of a chunk that the splitter takes for fences: whole ones and re-opened ones. */
  function FenceLines(pieces: seq<Piece>): nat {
    if pieces == [] then 0
    else
      var p := pieces[|pieces| - 1];
      FenceLines(pieces[..|pieces| - 1]) + if !p.Part? && IsFence(p.text) then 1 else 0
  }

  /** Parts of over-long lines that only look like fences. */
  function FenceParts(pieces: seq<Piece>): nat {
    if pieces == [] then 0
    else
      var p := pieces[|pieces| - 1];
      FenceParts(pieces[..|pieces| - 1]) + if p.Part? && IsFence(p.text) then 1 else 0
  }

  lemma {:induction false} FencesAre(pieces: seq<Piece>)
    ensures FenceCount(Texts(pieces)) == FenceLines(pieces) + FenceParts(pieces)
  {
    hide IsFence;
    if pieces != [] {
      var init := pieces[..|pieces| - 1];
      assert Texts(pieces)[..|pieces| - 1] == Texts(init);
      FencesAre(init);
    }
  }

  predicate SeedsOnlyFirst(pieces: seq<Piece>) {
    forall i :: 0 < i < |pieces| ==> !pieces[i].Seed?
  }

  /** A piece list is in order: it is open exactly when an odd number of fence lines was seen,
      and what is open is the last of them. */
  predicate InOrder(pieces: seq<Piece>, open: string) {
    && SeedsOnlyFirst(pieces)
    && (open != "" <==> FenceLines(pieces) % 2 == 1)
    && (open != "" ==> open == LastFence(pieces))
  }

  /** Each finished chunk is in order, is closed exactly when it ends inside a block, and after
      such a chunk, and only then, the next one starts by opening the same block again. */
  predicate Reopens(chunks: seq<Chunk>) {
    forall k :: 0 <= k < |chunks| ==> ChunkInOrder(chunks, k)
  }

  predicate ChunkInOrder(chunks: seq<Chunk>, k: nat)
    requires k < |chunks|
  {
    && chunks[k].pieces != []
    && InOrder(chunks[k].pieces, if chunks[k].closed then LastFence(chunks[k].pieces) else "")
    && (chunks[k].closed ==> LastFence(chunks[k].pieces) != "")
    && (k + 1 < |chunks| ==> chunks[k + 1].pieces != [] && Follows(chunks[k], chunks[k + 1].pieces[0]))
  }

  predicate Follows(c: Chunk, p: Piece) {
    if c.closed then p == Seed(LastFence(c.pieces)) else !p.Seed?
  }

  predicate Linked(st: State) {
    && InOrder(st.current, st.open) && Reopens(st.chunks)
    && (st.open == "" || (IsFence(st.open) && TrimSpace(st.open) == st.open))
    && (st.chunks != [] ==>
          var c := st.chunks[|st.chunks| - 1];
          if st.current == [] then !c.closed else Follows(c, st.current[0]))
  }

  lemma OrderAppend(pieces: seq<Piece>, p: Piece)
    requires pieces != [] ==> !p.Seed?
    requires SeedsOnlyFirst(pieces)
    ensures SeedsOnlyFirst(pieces + [p])
    ensures FenceLines(pieces + [p]) == FenceLines(pieces) + if !p.Part? && IsFence(p.text) then 1 else 0
    ensures LastFence(pieces + [p]) == if !p.Part? && IsFence(p.text) then TrimSpace(p.text) else LastFence(pieces)
  {
    hide IsFence, TrimSpace;
    assert (pieces + [p])[..|pieces|] == pieces;
  }

  lemma ReopensAppend(chunks: seq<Chunk>, c: Chunk)
    requires Reopens(chunks) && c.pieces != []
    requires InOrder(c.pieces, if c.closed then LastFence(c.pieces) else "")
    requires c.closed ==> LastFence(c.pieces) != ""
    requires chunks != [] ==> Follows(chunks[|chunks| - 1], c.pieces[0])
    ensures Reopens(chunks + [c])
  {
    hide InOrder, Follows;
    var all := chunks + [c];
    forall k | 0 <= k < |all| ensures ChunkInOrder(all, k) {
      if k < |chunks| {
        assert ChunkInOrder(chunks, k);
      }
    }
  }

  lemma FlushLinked(st: State)
    requires Linked(st)
    ensures Linked(Flush(st)) && Flush(st).open == st.open
  {
    hide IsFence, TrimSpace;
    if st.current != [] {
      ReopensAppend(st.chunks, Chunk(st.current, st.open != ""));
      OrderAppend([], Seed(st.open));
      assert [] + [Seed(st.open)] == [Seed(st.open)];
    }
  }

  lemma AddLinked(st: State, p: Piece)
    requires Linked(st) && !p.Seed? && (p.Part? || !IsFence(p.text))
    requires st.open != "" ==> st.current != []
    ensures Linked(Add(st, p))
  {
    hide IsFence, TrimSpace;
    OrderAppend(st.current, p);
  }

  lemma AddFenceLinked(st: State, line: string)
    requires Linked(st) && IsFence(line) && (st.open != "" ==> st.current != [])
    ensures Linked(TrackFence(Add(st, Whole(line)), line))
  {
    hide TrimSpace;
    TrimSpaceTwice(line);
    OrderAppend(st.current, Whole(line));
  }

  lemma {:induction false} TrimLeftIsSuffix(s: string)
    ensures TrimLeft(s) == s[|s| - |TrimLeft(s)|..]
  {
    if s != "" && IsSpace(s[0]) {
      TrimLeftIsSuffix(s[1..]);
    }
  }

  lemma {:induction false} SplitLongLinked(st: State, remaining: string, maxLen: int)
    requires Good(st, maxLen) && Fresh(st) && Linked(st) && Width(st.open, maxLen) >= 1
    ensures SplitLong(st, remaining, maxLen).Done? && Linked(SplitLong(st, remaining, maxLen).value)
    decreases |remaining|
  {
    hide IsFence, Good, Linked, Flush;
    SplitLongGood(st, remaining, maxLen);
    if remaining != "" {
      GoodParts(st, maxLen);
      var avail := Limit(st, maxLen) - st.currentLen;
      assert RoomFor(st, maxLen) == st && avail == Width(st.open, maxLen);
      if avail >= |remaining| {
        AddLinked(st, Part(remaining, true));
      } else {
        var head, tail := remaining[..avail], remaining[avail..];
        var next := Add(st, Part(head, false));
        AddLinked(st, Part(head, false));
        AddGood(st, Part(head, false), maxLen);
        FlushLinked(next);
        FlushGood(next, maxLen);
        SplitLongLinked(Flush(next), tail, maxLen);
      }
    }
  }

  lemma LineLinked(st: State, line: string, maxLen: int)
    requires Good(st, maxLen) && Linked(st) && Width(st.open, maxLen) >= 1
    requires IsFence(line) ==> |line| < Width(st.open, maxLen)
    ensures LineStep(st, line, maxLen).Done? && Linked(LineStep(st, line, maxLen).value)
  {
    hide IsFence, Good, Linked, Flush, Add, TrimSpace, Fits;
    LineStepGood(st, line, maxLen);
    FlushLinked(st);
    FlushGood(st, maxLen);
    GoodParts(st, maxLen);
    GoodParts(Flush(st), maxLen);
    FitsIff(Flush(st), line, maxLen);
    if IsFence(line) {
      AddFenceLinked(if Fits(st, line, maxLen) then st else Flush(st), line);
    } else if Fits(st, line, maxLen) {
      AddLinked(st, Whole(line));
    } else if Fits(Flush(st), line, maxLen) {
      AddLinked(Flush(st), Whole(line));
    } else {
      SplitLongLinked(Flush(st), line, maxLen);
    }
  }

  lemma {:induction false} LinesLinked(st: State, lines: seq<string>, maxLen: int)
    requires Good(st, maxLen) && Linked(st) && Spacious(st.open, lines, maxLen)
    ensures Lines(st, lines, maxLen).Done? && Linked(Lines(st, lines, maxLen).value)
    decreases |lines|
  {
    hide IsFence, Good, Linked, LineStep, TrimSpace, NextOpen;
    if lines != [] {
      LineStepGood(st, lines[0], maxLen);
      LineLinked(st, lines[0], maxLen);
      LinesLinked(LineStep(st, lines[0], maxLen).value, lines[1..], maxLen);
    }
  }

  /** Before rendering: every chunk of a text with room for its fences is in order. */
  lemma SplitLinked(lines: seq<string>, maxLen: int)
    requires maxLen >= 0 && Spacious("", lines, maxLen)
    ensures SplitLines(lines, maxLen).Done? && Reopens(SplitLines(lines, maxLen).value)
  {
    hide IsFence, Lines, TrimSpace, Good, Spacious, Reopens;
    StartGood(maxLen);
    StartLinked();
    LinesLinked(Start, lines, maxLen);
    var st := Lines(Start, lines, maxLen).value;
    FlushLinked(st);
    assert Finish(st) == Flush(st).chunks;
  }

  lemma StartLinked()
    ensures Linked(Start)
  {
  }

  predicate PiecesNewlineFree(pieces: seq<Piece>) {
    forall i :: 0 <= i < |pieces| ==> '\n' !in pieces[i].text
  }

  predicate ChunksNewlineFree(chunks: seq<Chunk>) {
    forall k :: 0 <= k < |chunks| ==> PiecesNewlineFree(chunks[k].pieces)
  }

  predicate StateNewlineFree(st: State) {
    '\n' !in st.open && PiecesNewlineFree(st.current) && ChunksNewlineFree(st.chunks)
  }

  lemma FlushNewlineFree(st: State)
    requires StateNewlineFree(st)
    ensures StateNewlineFree(Flush(st))
  {
  }

  lemma AddNewlineFree(st: State, p: Piece)
    requires StateNewlineFree(st) && '\n' !in p.text
    ensures StateNewlineFree(Add(st, p))
  {
  }

  lemma {:induction false} SplitLongNewlineFree(st: State, remaining: string, maxLen: int)
    requires StateNewlineFree(st) && '\n' !in remaining && SplitLong(st, remaining, maxLen).Done?
    ensures StateNewlineFree(SplitLong(st, remaining, maxLen).value)
    decreases |remaining|
  {
    hide StateNewlineFree, Flush, Add;
    FlushNewlineFree(st);
    var room := RoomFor(st, maxLen);
    var avail := Limit(room, maxLen) - room.currentLen;
    if remaining == "" {
    } else if avail >= |remaining| {
      AddNewlineFree(room, Part(remaining, true));
    } else {
      var head, tail := remaining[..avail], remaining[avail..];
      AddNewlineFree(room, Part(head, false));
      FlushNewlineFree(Add(room, Part(head, false)));
      SplitLongNewlineFree(Flush(Add(room, Part(head, false))), tail, maxLen);
    }
  }

  lemma TrimNewlineFree(s: string)
    requires '\n' !in s
    ensures '\n' !in TrimSpace(s)
  {
    TrimLeftIsSuffix(s);
    var t := TrimLeft(s);
    assert forall i :: 0 <= i < |t| ==> t[i] in s;
    assert forall c :: c in TrimRight(t) ==> c in t;
  }

  lemma LineNewlineFree(st: State, line: string, maxLen: int)
    requires StateNewlineFree(st) && '\n' !in line && LineStep(st, line, maxLen).Done?
    ensures StateNewlineFree(LineStep(st, line, maxLen).value)
  {
    hide Flush, IsFence, TrimSpace, SplitLong;
    TrimNewlineFree(line);
    FlushNewlineFree(st);
    if Fits(st, line, maxLen) {
      AddNewlineFree(st, Whole(line));
    } else if Fits(Flush(st), line, maxLen) {
      AddNewlineFree(Flush(st), Whole(line));
    } else {
      SplitLongNewlineFree(Flush(st), line, maxLen);
    }
  }

  lemma {:induction false} LinesNewlineFree(st: State, lines: seq<string>, maxLen: int)
    requires StateNewlineFree(st) && NewlineFree(lines) && Lines(st, lines, maxLen).Done?
    ensures StateNewlineFree(Lines(st, lines, maxLen).value)
    decreases |lines|
  {
    hide StateNewlineFree, LineStep;
    if lines != [] {
      LineNewlineFree(st, lines[0], maxLen);
      LinesNewlineFree(LineStep(st, lines[0], maxLen).value, lines[1..], maxLen);
    }
  }

  lemma SplitNewlineFree(lines: seq<string>, maxLen: int)
    requires NewlineFree(lines) && SplitLines(lines, maxLen).Done?
    ensures ChunksNewlineFree(SplitLines(lines, maxLen).value)
  {
    hide Lines;
    LinesNewlineFree(Start, lines, maxLen);
  }

  lemma {:induction false} JoinSnoc(lines: seq<string>, x: string)
    requires lines != []
    ensures Join(lines + [x]) == Join(lines) + "\n" + x
  {
    if |lines| == 1 {
      assert lines + [x] == [lines[0], x];
      assert [lines[0], x][1..] == [x];
    } else {
      assert (lines + [x])[1..] == lines[1..] + [x] && (lines + [x])[0] == lines[0];
      JoinSnoc(lines[1..], x);
    }
  }

  /** The lines of the rendered chunk are its pieces, and the closing fence. */
  lemma RenderedLines(c: Chunk)
    requires c.pieces != [] && PiecesNewlineFree(c.pieces)
    ensures Split(Render(c)) == Texts(c.pieces) + if c.closed then [FENCE] else []
  {
    hide TrimSpace;
    var texts := Texts(c.pieces);
    RenderIs(c.pieces, c.closed);
    if c.closed {
      JoinSnoc(texts, FENCE);
      assert Join(texts) + CLOSING == Join(texts) + "\n" + FENCE;
      SplitOfJoin(texts + [FENCE]);
    } else {
      SplitOfJoin(texts);
      assert texts + [] == texts;
    }
  }

  /** A chunk has balanced fences if and only if an even number of parts of over-long lines in it
      look like fences. */
  lemma ChunkBalancedIff(c: Chunk)
    requires c.pieces != [] && PiecesNewlineFree(c.pieces)
    requires InOrder(c.pieces, if c.closed then LastFence(c.pieces) else "") && (c.closed ==> LastFence(c.pieces) != "")
    ensures FenceCount(Split(Render(c))) % 2 == 0 <==> FenceParts(c.pieces) % 2 == 0
  {
    hide TrimSpace, Split, Render;
    RenderedLines(c);
    FencesOf();
    FencesAre(c.pieces);
    var texts := Texts(c.pieces);
    if c.closed {
      assert (texts + [FENCE])[..|texts|] == texts;
    } else {
      assert texts + [] == texts;
    }
  }
}
