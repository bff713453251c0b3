/** Exactly when every chunk has balanced fences, from the lines of the text alone. */
module FenceBalance {
  import opened Text
  import opened FenceSplit
  import opened FenceBounds
  import opened FenceContent

  // ---- A chunk holds at most one part of a cut line ----

  function PartTexts(pieces: seq<Piece>): seq<string> {
    if pieces == [] then []
    else
      var p := pieces[|pieces| - 1];
      PartTexts(pieces[..|pieces| - 1]) + if p.Part? then [p.text] else []
  }

  lemma PartTextsSnoc(pieces: seq<Piece>, p: Piece)
    ensures PartTexts(pieces + [p]) == PartTexts(pieces) + if p.Part? then [p.text] else []
  {
    assert (pieces + [p])[..|pieces|] == pieces;
  }

  lemma {:induction false} PartTextsAppend(a: seq<Piece>, b: seq<Piece>)
    ensures PartTexts(a + b) == PartTexts(a) + PartTexts(b)
  {
    if b == [] {
      assert a + b == a;
    } else {
      var init, last := b[..|b| - 1], b[|b| - 1];
      assert a + b == (a + init) + [last] && b == init + [last];
      PartTextsSnoc(a + init, last);
      PartTextsSnoc(init, last);
      PartTextsAppend(a, init);
    }
  }

  predicate OnePartEach(st: State) {
    |PartTexts(st.current)| <= 1 && forall k :: 0 <= k < |st.chunks| ==> |PartTexts(st.chunks[k].pieces)| <= 1
  }

  lemma FlushOnePart(st: State)
    requires OnePartEach(st)
    ensures OnePartEach(Flush(st)) && (st.current != [] ==> PartTexts(Flush(st).current) == [])
  {
    PartTextsSnoc([], Seed(st.open));
    assert [] + [Seed(st.open)] == [Seed(st.open)];
  }

  lemma AddOnePart(st: State, p: Piece)
    requires OnePartEach(st) && (p.Part? ==> PartTexts(st.current) == [])
    ensures OnePartEach(Add(st, p))
  {
    hide PartTexts;
    PartTextsSnoc(st.current, p);
  }

  lemma {:induction false} SplitLongOnePart(st: State, remaining: string, maxLen: int)
    requires OnePartEach(st) && PartTexts(st.current) == [] && SplitLong(st, remaining, maxLen).Done?
    ensures OnePartEach(SplitLong(st, remaining, maxLen).value)
    decreases |remaining|
  {
    hide PartTexts, OnePartEach, Flush;
    FlushOnePart(st);
    FlushNothing(st);
    var room := RoomFor(st, maxLen);
    var avail := Limit(room, maxLen) - room.currentLen;
    if remaining == "" {
    } else if avail >= |remaining| {
      AddOnePart(room, Part(remaining, true));
    } else {
      var next := Add(room, Part(remaining[..avail], false));
      AddOnePart(room, Part(remaining[..avail], false));
      FlushOnePart(next);
      SplitLongOnePart(Flush(next), remaining[avail..], maxLen);
    }
  }

  lemma FlushNothing(st: State)
    ensures st.current == [] ==> Flush(st) == st
  {
  }

  lemma {:induction false} LinesOnePart(st: State, lines: seq<string>, maxLen: int)
    requires OnePartEach(st) && Lines(st, lines, maxLen).Done?
    ensures OnePartEach(Lines(st, lines, maxLen).value)
    decreases |lines|
  {
    hide PartTexts, OnePartEach, LineStep;
    if lines != [] {
      LineOnePart(st, lines[0], maxLen);
      LinesOnePart(LineStep(st, lines[0], maxLen).value, lines[1..], maxLen);
    }
  }

  lemma LineOnePart(st: State, line: string, maxLen: int)
    requires OnePartEach(st) && LineStep(st, line, maxLen).Done?
    ensures OnePartEach(LineStep(st, line, maxLen).value)
  {
    hide PartTexts, Flush, IsFence, TrimSpace, SplitLong, Fits;
    FlushOnePart(st);
    FlushNothing(st);
    NoParts();
    if Fits(st, line, maxLen) {
      AddOnePart(st, Whole(line));
    } else if Fits(Flush(st), line, maxLen) {
      AddOnePart(Flush(st), Whole(line));
    } else {
      SplitLongOnePart(Flush(st), line, maxLen);
    }
  }

  lemma NoParts()
    ensures PartTexts([]) == []
  {
  }

  /** For every text on which the splitter ends, a chunk has at most one part of an over-long line. */
  lemma AtMostOnePart(lines: seq<string>, maxLen: int)
    requires SplitLines(lines, maxLen).Done?
    ensures forall c :: c in SplitLines(lines, maxLen).value ==> |PartTexts(c.pieces)| <= 1
  {
    hide PartTexts, Lines;
    NoParts();
    LinesOnePart(Start, lines, maxLen);
    var end := Lines(Start, lines, maxLen).value;
    FlushOnePart(end);
    assert SplitLines(lines, maxLen).value == Flush(end).chunks;
  }

  // ---- Where a line is cut depends on the limit and the open fence only ----

  function Slices(line: string, width: int): seq<string>
    requires width >= 1
    decreases |line|
  {
    if |line| <= width then [line] else [line[..width]] + Slices(line[width..], width)
  }

  /** All parts of over-long lines, in order, from a walk over the lines with the open fence. */
  function CutParts(open: string, lines: seq<string>, maxLen: int): seq<string>
    requires Spacious(open, lines, maxLen)
    decreases |lines|
  {
    if lines == [] then []
    else
      var width := Width(open, maxLen);
      (if |lines[0]| >= width then Slices(lines[0], width) else [])
      + CutParts(NextOpen(open, lines[0]), lines[1..], maxLen)
  }

  lemma FlushParts(st: State)
    ensures PartTexts(AllPieces(Flush(st))) == PartTexts(AllPieces(st))
  {
    hide PartTexts;
    if st.current != [] {
      FlattenAppend(st.chunks, Chunk(st.current, st.open != ""));
      if st.open != "" {
        PartTextsSnoc(AllPieces(st), Seed(st.open));
      } else {
        assert AllPieces(Flush(st)) == AllPieces(st);
      }
      assert PartTexts(AllPieces(st)) + [] == PartTexts(AllPieces(st));
    }
  }

  lemma AddParts(st: State, p: Piece)
    ensures PartTexts(AllPieces(Add(st, p))) == PartTexts(AllPieces(st)) + if p.Part? then [p.text] else []
  {
    hide PartTexts;
    PartTextsSnoc(AllPieces(st), p);
    assert AllPieces(Add(st, p)) == AllPieces(st) + [p];
  }

  lemma {:induction false} SplitLongParts(st: State, remaining: string, maxLen: int)
    requires Good(st, maxLen) && Fresh(st) && Width(st.open, maxLen) >= 1 && remaining != ""
    ensures SplitLong(st, remaining, maxLen).Done?
    ensures PartTexts(AllPieces(SplitLong(st, remaining, maxLen).value)) ==
            PartTexts(AllPieces(st)) + Slices(remaining, Width(st.open, maxLen))
    decreases |remaining|
  {
    hide Good, Flush, AllPieces, PartTexts, Add;
    SplitLongGood(st, remaining, maxLen);
    var avail := Limit(st, maxLen) - st.currentLen;
    assert RoomFor(st, maxLen) == st && avail == Width(st.open, maxLen);
    if avail >= |remaining| {
      AddParts(st, Part(remaining, true));
    } else {
      var head, tail := remaining[..avail], remaining[avail..];
      var next := Add(st, Part(head, false));
      AddIs(st, Part(head, false));
      AddParts(st, Part(head, false));
      AddGood(st, Part(head, false), maxLen);
      FlushGood(next, maxLen);
      FlushParts(next);
      SplitLongParts(Flush(next), tail, maxLen);
      var before := PartTexts(AllPieces(st));
      assert before + [head] + Slices(tail, avail) == before + ([head] + Slices(tail, avail));
    }
  }

  lemma AddIs(st: State, p: Piece)
    ensures Add(st, p).currentLen == st.currentLen + |p.text| + 1 && Add(st, p).open == st.open
  {
  }

  lemma LineParts(st: State, line: string, maxLen: int)
    requires Good(st, maxLen) && Width(st.open, maxLen) >= 1
    requires IsFence(line) ==> |line| < Width(st.open, maxLen)
    ensures LineStep(st, line, maxLen).Done?
    ensures PartTexts(AllPieces(LineStep(st, line, maxLen).value)) == PartTexts(AllPieces(st)) +
            if |line| >= Width(st.open, maxLen) then Slices(line, Width(st.open, maxLen)) else []
  {
    hide Good, Flush, PartTexts, Add, IsFence, TrimSpace, Fits, Slices;
    LineStepGood(st, line, maxLen);
    FlushGood(st, maxLen);
    GoodParts(st, maxLen);
    GoodParts(Flush(st), maxLen);
    FitsIff(st, line, maxLen);
    FitsIff(Flush(st), line, maxLen);
    FlushParts(st);
    var placed := Place(st, line, maxLen).value;
    assert AllPieces(TrackFence(placed, line)) == AllPieces(placed);
    var before := PartTexts(AllPieces(st));
    assert before + [] == before;
    if Fits(st, line, maxLen) {
      AddParts(st, Whole(line));
    } else if Fits(Flush(st), line, maxLen) {
      AddParts(Flush(st), Whole(line));
    } else {
      SplitLongParts(Flush(st), line, maxLen);
    }
  }

  lemma {:induction false} LinesParts(st: State, lines: seq<string>, maxLen: int)
    requires Good(st, maxLen) && Spacious(st.open, lines, maxLen)
    ensures Lines(st, lines, maxLen).Done?
    ensures PartTexts(AllPieces(Lines(st, lines, maxLen).value)) ==
            PartTexts(AllPieces(st)) + CutParts(st.open, lines, maxLen)
    decreases |lines|
  {
    hide Good, AllPieces, PartTexts, LineStep, IsFence, NextOpen, Slices;
    var before := PartTexts(AllPieces(st));
    if lines == [] {
      assert before + [] == before;
    } else {
      var width := Width(st.open, maxLen);
      var first := if |lines[0]| >= width then Slices(lines[0], width) else [];
      LineStepGood(st, lines[0], maxLen);
      LineParts(st, lines[0], maxLen);
      var next := LineStep(st, lines[0], maxLen).value;
      LinesParts(next, lines[1..], maxLen);
      var rest := CutParts(next.open, lines[1..], maxLen);
      assert before + first + rest == before + (first + rest);
    }
  }

  lemma SplitParts(lines: seq<string>, maxLen: int)
    requires maxLen >= 0 && Spacious("", lines, maxLen)
    ensures SplitLines(lines, maxLen).Done?
    ensures PartTexts(Flatten(SplitLines(lines, maxLen).value)) == CutParts("", lines, maxLen)
  {
    hide Good, Lines, PartTexts, Spacious, CutParts, Finish;
    StartGood(maxLen);
    LinesParts(Start, lines, maxLen);
    NoParts();
    assert AllPieces(Start) == [];
    assert [] + CutParts("", lines, maxLen) == CutParts("", lines, maxLen);
    var end := Lines(Start, lines, maxLen).value;
    FinishPieces(end);
  }

  lemma FinishPieces(st: State)
    ensures Flatten(Finish(st)) == AllPieces(st)
  {
    if st.current != [] {
      FlattenAppend(st.chunks, Chunk(st.current, st.open != ""));
    } else {
      assert AllPieces(st) == Flatten(st.chunks);
    }
  }

  // ---- Balance ----

  predicate SomeFence(texts: seq<string>) {
    exists k :: 0 <= k < |texts| && IsFence(texts[k])
  }

  lemma SomeFenceAppend(a: seq<string>, b: seq<string>)
    ensures SomeFence(a + b) <==> SomeFence(a) || SomeFence(b)
  {
    hide IsFence;
    var all := a + b;
    if k :| 0 <= k < |a| && IsFence(a[k]) {
      assert all[k] == a[k];
    }
    if k :| 0 <= k < |b| && IsFence(b[k]) {
      assert all[|a| + k] == b[k];
    }
  }

  /** Some slice of an over-long line trims to a fence. */
  predicate SliceLooksLikeFence(open: string, lines: seq<string>, maxLen: int)
    requires Spacious(open, lines, maxLen)
    decreases |lines|
  {
    && lines != []
    && (|| (|lines[0]| >= Width(open, maxLen) && SomeFence(Slices(lines[0], Width(open, maxLen))))
        || SliceLooksLikeFence(NextOpen(open, lines[0]), lines[1..], maxLen))
  }

  lemma {:induction false} SliceInCutParts(open: string, lines: seq<string>, maxLen: int)
    requires Spacious(open, lines, maxLen)
    ensures SliceLooksLikeFence(open, lines, maxLen) <==> SomeFence(CutParts(open, lines, maxLen))
    decreases |lines|
  {
    hide IsFence, NextOpen, SomeFence, Slices;
    NoFences();
    if lines != [] {
      var width := Width(open, maxLen);
      SliceInCutParts(NextOpen(open, lines[0]), lines[1..], maxLen);
      SomeFenceAppend(if |lines[0]| >= width then Slices(lines[0], width) else [],
        CutParts(NextOpen(open, lines[0]), lines[1..], maxLen));
    }
  }

  lemma NoFences()
    ensures !SomeFence([])
  {
  }

  lemma {:induction false} FencePartsIff(pieces: seq<Piece>)
    ensures FenceParts(pieces) <= |PartTexts(pieces)|
    ensures FenceParts(pieces) > 0 <==> SomeFence(PartTexts(pieces))
  {
    hide IsFence, SomeFence;
    NoFences();
    if pieces != [] {
      var init, p := pieces[..|pieces| - 1], pieces[|pieces| - 1];
      FencePartsIff(init);
      SomeFenceAppend(PartTexts(init), if p.Part? then [p.text] else []);
      OneFence(p.text);
    }
  }

  lemma OneFence(text: string)
    ensures SomeFence([text]) <==> IsFence(text)
  {
    hide IsFence;
    assert [text][0] == text;
  }

  lemma {:induction false} FlattenFences(chunks: seq<Chunk>)
    ensures SomeFence(PartTexts(Flatten(chunks))) <==>
            exists i :: 0 <= i < |chunks| && FenceParts(chunks[i].pieces) > 0
  {
    hide IsFence, SomeFence, PartTexts, FenceParts;
    NoFences();
    NoParts();
    if chunks != [] {
      var n := |chunks| - 1;
      var init := chunks[..n];
      FlattenFences(init);
      PartTextsAppend(Flatten(init), chunks[n].pieces);
      SomeFenceAppend(PartTexts(Flatten(init)), PartTexts(chunks[n].pieces));
      FencePartsIff(chunks[n].pieces);
      if i :| 0 <= i < n && FenceParts(init[i].pieces) > 0 {
        assert chunks[i] == init[i];
      }
      if i :| 0 <= i < |chunks| && FenceParts(chunks[i].pieces) > 0 {
        assert i < n ==> init[i] == chunks[i];
      }
    }
  }

  predicate Balanced(chunk: string) {
    FenceCount(Split(chunk)) % 2 == 0
  }

  lemma ChunkIsBalancedIff(lines: seq<string>, maxLen: int, i: nat)
    requires maxLen >= 0 && Spacious("", lines, maxLen) && NewlineFree(lines)
    requires SplitLines(lines, maxLen).Done? && i < |SplitLines(lines, maxLen).value|
    ensures Balanced(Render(SplitLines(lines, maxLen).value[i])) <==>
            FenceParts(SplitLines(lines, maxLen).value[i].pieces) == 0
  {
    hide IsFence, Lines, TrimSpace, SplitLines, Split, Render, Spacious, PartTexts, FenceParts;
    SplitLinked(lines, maxLen);
    SplitNewlineFree(lines, maxLen);
    AtMostOnePart(lines, maxLen);
    var chunks := SplitLines(lines, maxLen).value;
    assert ChunkInOrder(chunks, i);
    assert chunks[i] in chunks;
    ChunkBalancedIff(chunks[i]);
    FencePartsIff(chunks[i].pieces);
  }

  /** Balance, exactly: for every text over maxLen with room for its fences, all chunks have
      balanced fences if and only if no slice of an over-long line looks like a fence. */
  lemma ChunksBalancedIff(text: string, maxLen: int)
    requires |text| > maxLen >= 0 && Spacious("", Split(text), maxLen)
    ensures SplitMessage(text, maxLen).Done?
    ensures (forall i :: 0 <= i < |SplitMessage(text, maxLen).value| ==> Balanced(SplitMessage(text, maxLen).value[i]))
       <==> !SliceLooksLikeFence("", Split(text), maxLen)
  {
    hide IsFence, Lines, TrimSpace, SplitLines, Split, Render, Spacious, Balanced, PartTexts, FenceParts, SomeFence,
      CutParts, SliceLooksLikeFence;
    var lines := Split(text);
    Text.SplitParts(text);
    SplitParts(lines, maxLen);
    SliceInCutParts("", lines, maxLen);
    var chunks := SplitLines(lines, maxLen).value;
    FlattenFences(chunks);
    forall i | 0 <= i < |chunks|
      ensures Balanced(RenderAll(chunks)[i]) <==> FenceParts(chunks[i].pieces) == 0
    {
      ChunkIsBalancedIff(lines, maxLen, i);
    }
  }

  // ---- A sufficient condition: over-long lines without three backticks ----

  /** Three backticks in a row somewhere in the line. */
  predicate HasTicks(s: string) {
    exists i :: 0 <= i <= |s| && FENCE <= s[i..]
  }

  lemma TicksOfSlice(s: string, a: nat, b: nat)
    requires a <= b <= |s| && HasTicks(s[a..b])
    ensures HasTicks(s)
  {
    var t := s[a..b];
    var i :| 0 <= i <= |t| && FENCE <= t[i..];
    assert t[i..] <= s[a + i..];
  }

  lemma FenceHasTicks(s: string)
    requires IsFence(s)
    ensures HasTicks(s)
  {
    TrimLeftIsSuffix(s);
    var k, t := |s| - |TrimLeft(s)|, TrimSpace(s);
    assert t[0..] == t;
    assert t == TrimLeft(s)[..|t|];
    assert t == s[k..k + |t|];
    assert HasTicks(t);
    TicksOfSlice(s, k, k + |t|);
  }

  lemma PartIsNoFence(s: string, a: nat, b: nat)
    requires a <= b <= |s| && !HasTicks(s)
    ensures !IsFence(s[a..b]) && !HasTicks(s[a..b])
  {
    hide IsFence, HasTicks;
    if HasTicks(s[a..b]) {
      TicksOfSlice(s, a, b);
    }
    if IsFence(s[a..b]) {
      FenceHasTicks(s[a..b]);
    }
  }

  lemma {:induction false} PlainSlices(line: string, width: int)
    requires width >= 1 && !HasTicks(line)
    ensures !SomeFence(Slices(line, width))
    decreases |line|
  {
    hide IsFence, HasTicks, SomeFence;
    if |line| <= width {
      PartIsNoFence(line, 0, |line|);
      assert line[0..|line|] == line;
      OneFence(line);
    } else {
      PartIsNoFence(line, 0, width);
      PartIsNoFence(line, width, |line|);
      assert line[0..width] == line[..width] && line[width..|line|] == line[width..];
      PlainSlices(line[width..], width);
      OneFence(line[..width]);
      SomeFenceAppend([line[..width]], Slices(line[width..], width));
    }
  }

  /** No over-long line has three backticks in it. */
  predicate TicksWhole(open: string, lines: seq<string>, maxLen: int)
    decreases |lines|
  {
    lines == []
    || (&& (|lines[0]| >= Width(open, maxLen) ==> !HasTicks(lines[0]))
        && TicksWhole(NextOpen(open, lines[0]), lines[1..], maxLen))
  }

  lemma {:induction false} TicksWholeSuffices(open: string, lines: seq<string>, maxLen: int)
    requires Spacious(open, lines, maxLen) && TicksWhole(open, lines, maxLen)
    ensures !SliceLooksLikeFence(open, lines, maxLen)
    decreases |lines|
  {
    hide IsFence, HasTicks, SomeFence, Slices, NextOpen;
    if lines != [] {
      if |lines[0]| >= Width(open, maxLen) {
        PlainSlices(lines[0], Width(open, maxLen));
      }
      TicksWholeSuffices(NextOpen(open, lines[0]), lines[1..], maxLen);
    }
  }

  /** So for a text in which no over-long line has three backticks, every chunk is balanced. */
  lemma ChunksBalanced(text: string, maxLen: int)
    requires |text| > maxLen >= 0 && Spacious("", Split(text), maxLen) && TicksWhole("", Split(text), maxLen)
    ensures SplitMessage(text, maxLen).Done?
    ensures forall i :: 0 <= i < |SplitMessage(text, maxLen).value| ==> Balanced(SplitMessage(text, maxLen).value[i])
  {
    hide IsFence, HasTicks, Split, Spacious, TicksWhole, SliceLooksLikeFence, SplitMessage, Balanced;
    TicksWholeSuffices("", Split(text), maxLen);
    ChunksBalancedIff(text, maxLen);
  }

  /** Without that a chunk can be unbalanced: a cut leaves three backticks at the start of a part. */
  lemma BalanceFails()
    ensures var text := "aaaaaaaaaa```";
            && Spacious("", Split(text), 10) && SliceLooksLikeFence("", Split(text), 10)
            && SplitMessage(text, 10).Done?
            && exists i :: 0 <= i < |SplitMessage(text, 10).value| && !Balanced(SplitMessage(text, 10).value[i])
  {
    hide IsFence, TrimSpace, SplitMessage, Balanced, Split;
    var text := "aaaaaaaaaa```";
    FencesOf();
    NoFence(text);
    SplitOfLine(text, "");
    var lines := [text];
    assert lines[1..] == [] && Split(text) == lines;
    assert Spacious("", lines, 10);
    assert text[..10] == "aaaaaaaaaa" && text[10..] == "```";
    var slices := Slices(text, 10);
    assert Slices(text[10..], 10) == ["```"];
    assert slices == ["aaaaaaaaaa", "```"] && slices[1] == "```";
    assert SomeFence(slices);
    ChunksBalancedIff(text, 10);
  }

  lemma NoFence(line: string)
    requires line == "aaaaaaaaaa```"
    ensures !IsFence(line)
  {
    assert "" + line + "" == line;
    TrimSpaceOfPadded("", line, "");
    assert line[0] == 'a' && FENCE[0] == '`';
  }
}
