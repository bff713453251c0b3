/** When the fence-aware splitter ends, and when a slice is out of range or a line is never used up. */
module FenceEnds {
  import opened Text
  import opened FenceSplit
  import opened FenceBounds

  /** The fence that is open leaves no room for any part of the line: not in this chunk, and not
      behind the fence in a fresh one. */
  predicate Starved(st: State, line: string, maxLen: int) {
    line != "" && !Fits(st, line, maxLen) && st.open != "" && Width(st.open, maxLen) <= 0
  }

  /** The run comes to such a line; the first one decides how it ends. */
  predicate SomeStarved(st: State, lines: seq<string>, maxLen: int)
    decreases |lines|
  {
    && lines != []
    && (Starved(st, lines[0], maxLen)
        || (LineStep(st, lines[0], maxLen).Done?
             && SomeStarved(LineStep(st, lines[0], maxLen).value, lines[1..], maxLen)))
  }

  /** How it ends: an open fence of more than maxLen - 5 characters makes the next slice negative,
      one of just so many makes it empty. */
  predicate StarvedShort(st: State, lines: seq<string>, maxLen: int)
    decreases |lines|
  {
    && lines != []
    && if Starved(st, lines[0], maxLen) then |st.open| + 5 > maxLen
       else
         && LineStep(st, lines[0], maxLen).Done?
         && StarvedShort(LineStep(st, lines[0], maxLen).value, lines[1..], maxLen)
  }

  /** An empty chunk is in no block. */
  predicate Fine(st: State) {
    st.current == [] ==> st.currentLen == 0 && st.open == ""
  }

  lemma {:induction false} SplitLongOutcome(st: State, remaining: string, maxLen: int)
    requires Fresh(st) && Fine(st) && remaining != "" && (st.open == "" ==> maxLen >= 1)
    ensures SplitLong(st, remaining, maxLen).Done? <==> Width(st.open, maxLen) >= 1
    ensures SplitLong(st, remaining, maxLen).Panics? <==> Width(st.open, maxLen) < 0
    ensures SplitLong(st, remaining, maxLen).Done? ==>
      SplitLong(st, remaining, maxLen).value.current != [] && SplitLong(st, remaining, maxLen).value.open == st.open
    decreases |remaining|
  {
    hide Flush;
    var room := RoomFor(st, maxLen);
    FlushedIsFresh(st);
    var avail := Limit(room, maxLen) - room.currentLen;
    assert Fresh(room) && room.open == st.open && avail == Width(st.open, maxLen);
    if 1 <= avail < |remaining| {
      var next := Add(room, Part(remaining[..avail], false));
      FlushedIsFresh(next);
      FreshIsFine(Flush(next));
      SplitLongOutcome(Flush(next), remaining[avail..], maxLen);
    }
  }

  lemma FreshIsFine(st: State)
    requires Fresh(st)
    ensures Fine(st)
  {
  }

  lemma PlaceOutcome(st: State, line: string, maxLen: int)
    requires maxLen >= 1 && Fine(st)
    ensures Place(st, line, maxLen).Done? <==> !Starved(st, line, maxLen)
    ensures Starved(st, line, maxLen) ==> (Place(st, line, maxLen).Panics? <==> |st.open| + 5 > maxLen)
    ensures Place(st, line, maxLen).Done? ==>
      && Fine(Place(st, line, maxLen).value) && Place(st, line, maxLen).value.open == st.open
      && (line != "" ==> Place(st, line, maxLen).value.current != [])
  {
    hide Flush;
    FlushedIsFresh(st);
    FreshIsFine(Flush(st));
    if !Fits(st, line, maxLen) && !Fits(Flush(st), line, maxLen) && line != "" {
      SplitLongOutcome(Flush(st), line, maxLen);
    }
  }

  lemma StepOutcome(st: State, line: string, maxLen: int)
    requires maxLen >= 1 && Fine(st)
    ensures LineStep(st, line, maxLen).Done? <==> !Starved(st, line, maxLen)
    ensures Starved(st, line, maxLen) ==> (LineStep(st, line, maxLen).Panics? <==> |st.open| + 5 > maxLen)
    ensures LineStep(st, line, maxLen).Done? ==> Fine(LineStep(st, line, maxLen).value)
  {
    hide Place, Starved, TrimLeft, TrimRight;
    PlaceOutcome(st, line, maxLen);
    assert IsFence(line) ==> line != "";
  }

  lemma {:induction false} LinesOutcome(st: State, lines: seq<string>, maxLen: int)
    requires maxLen >= 1 && Fine(st)
    ensures Lines(st, lines, maxLen).Done? <==> !SomeStarved(st, lines, maxLen)
    ensures Lines(st, lines, maxLen).Panics? <==> StarvedShort(st, lines, maxLen)
    decreases |lines|
  {
    hide LineStep, Starved, Fine;
    if lines != [] {
      StepOutcome(st, lines[0], maxLen);
      if !Starved(st, lines[0], maxLen) {
        LinesOutcome(LineStep(st, lines[0], maxLen).value, lines[1..], maxLen);
      }
    }
  }

  /** For every text and every limit of at least one: the splitter ends if and only if it never
      comes to a line that the open fence starves, and otherwise the fence's length says how it fails. */
  lemma EndsIff(lines: seq<string>, maxLen: int)
    requires maxLen >= 1
    ensures SplitLines(lines, maxLen).Done? <==> !SomeStarved(Start, lines, maxLen)
    ensures SplitLines(lines, maxLen).Panics? <==> StarvedShort(Start, lines, maxLen)
    ensures SplitLines(lines, maxLen).Diverges? <==>
      SomeStarved(Start, lines, maxLen) && !StarvedShort(Start, lines, maxLen)
  {
    hide Lines, SomeStarved, StarvedShort;
    LinesOutcome(Start, lines, maxLen);
  }

  /** With a limit of zero or less only lines that are all empty are ever split, into nothing. */
  lemma {:induction false} EndsWithoutLimitIff(lines: seq<string>, maxLen: int)
    requires maxLen <= 0
    ensures Lines(Start, lines, maxLen) ==
            if forall i :: 0 <= i < |lines| ==> lines[i] == "" then Done(Start)
            else if maxLen < 0 then Panics else Diverges
    ensures SplitLines(lines, maxLen) ==
            if forall i :: 0 <= i < |lines| ==> lines[i] == "" then Done([])
            else if maxLen < 0 then Panics else Diverges
    decreases |lines|
  {
    hide IsFence;
    if lines != [] {
      EmptyIsNoFence();
      var tail := lines[1..];
      assert LineStep(Start, lines[0], maxLen) ==
             if lines[0] == "" then Done(Start) else if maxLen < 0 then Panics else Diverges;
      EndsWithoutLimitIff(tail, maxLen);
      assert (forall i :: 0 <= i < |lines| ==> lines[i] == "") <==>
             lines[0] == "" && forall i :: 0 <= i < |tail| ==> tail[i] == "" by {
        assert forall i :: 0 <= i < |tail| ==> tail[i] == lines[i + 1];
        assert forall i :: 0 < i < |lines| ==> lines[i] == tail[i - 1];
      }
    }
  }

  lemma EmptyIsNoFence()
    ensures !IsFence("")
  {
  }

  /** A fence line that starves the line behind it, and the shortest limit. */
  lemma NoRoomFails()
    ensures SplitLines(["```abcd", "eee"], 10) == Panics
    ensures SplitLines(["```ab", "eeeee"], 10) == Diverges
    ensures SplitLines(["a"], 0) == Diverges
  {
    hide TrimLeft, TrimRight, IsFence, TrimSpace;
    OneFenceStarves("```abcd", "eee", 10);
    OneFenceStarves("```ab", "eeeee", 10);
    EndsWithoutLimitIff(["a"], 0);
    assert ["a"][0] != "";
  }

  lemma OneFenceStarves(fence: string, line: string, maxLen: int)
    requires 1 <= |fence| < maxLen <= |fence| + 5 && FENCE <= fence && !IsSpace(fence[|fence| - 1]) && line != ""
    ensures SplitLines([fence, line], maxLen) == if |fence| + 5 > maxLen then Panics else Diverges
  {
    hide TrimSpace;
    assert "" + fence + "" == fence;
    assert fence[0] == FENCE[0] == '`';
    TrimSpaceOfPadded("", fence, "");
    var lines := [fence, line];
    var st := Add(Start, Whole(fence)).(open := fence);
    assert LineStep(Start, fence, maxLen) == Done(st);
    assert lines[1..] == [line];
    assert Starved(st, line, maxLen);
    assert SomeStarved(st, lines[1..], maxLen) && SomeStarved(Start, lines, maxLen);
    assert StarvedShort(st, lines[1..], maxLen) <==> |fence| + 5 > maxLen;
    assert StarvedShort(Start, lines, maxLen) <==> |fence| + 5 > maxLen;
    EndsIff(lines, maxLen);
  }
}
