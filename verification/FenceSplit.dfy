/** SplitMessageCodeFenceAware: cutting a message into chunks, closing a code fence at the end of a
    chunk and opening it again at the start of the next. */
module FenceSplit {
  import opened Text

  const FENCE := "```"
  const CLOSING := "\n```"

  predicate IsFence(line: string) {
    FENCE <= TrimSpace(line)
  }

  /** Where a line of a chunk comes from: a re-opened fence, a line of the text, or a part of one. */
  datatype Piece = Seed(text: string) | Whole(text: string) | Part(text: string, last: bool)

  datatype Chunk = Chunk(pieces: seq<Piece>, closed: bool)

  /** The splitter's variables; `open` is the opening fence line of the block it is in, or "". */
  datatype State = State(chunks: seq<Chunk>, current: seq<Piece>, currentLen: int, open: string)

  /** A slice with a negative bound panics; taking no character of a line never ends. */
  datatype Outcome<T> = Done(value: T) | Panics | Diverges

  const Start := State([], [], 0, "")

  function Texts(pieces: seq<Piece>): seq<string> {
    seq(|pieces|, i requires 0 <= i < |pieces| => pieces[i].text)
  }

  function Render(c: Chunk): string {
    Join(Texts(c.pieces)) + if c.closed then CLOSING else ""
  }

  function RenderAll(chunks: seq<Chunk>): seq<string> {
    seq(|chunks|, i requires 0 <= i < |chunks| => Render(chunks[i]))
  }

  /** effectiveLimit */
  function Limit(st: State, maxLen: int): int {
    if st.open != "" then maxLen - 4 else maxLen
  }

  function Flush(st: State): State {
    if st.current == [] then st
    else
      State(st.chunks + [Chunk(st.current, st.open != "")],
        if st.open != "" then [Seed(st.open)] else [],
        if st.open != "" then |st.open| + 1 else 0, st.open)
  }

  function Add(st: State, piece: Piece): State {
    st.(current := st.current + [piece], currentLen := st.currentLen + |piece.text| + 1)
  }

  predicate Fits(st: State, line: string, maxLen: int) {
    st.currentLen + |line| + 1 <= Limit(st, maxLen)
  }

  /** The state in which the next part of a long line is cut. */
  function RoomFor(st: State, maxLen: int): State {
    if Limit(st, maxLen) - st.currentLen <= 0 then Flush(st) else st
  }

  function SplitLong(st: State, remaining: string, maxLen: int): Outcome<State>
    decreases |remaining|
  {
    if remaining == "" then Done(st)
    else
      var room := RoomFor(st, maxLen);
      var avail := Limit(room, maxLen) - room.currentLen;
      if avail < 0 then Panics
      else if avail == 0 then Diverges
      else if avail >= |remaining| then Done(Add(room, Part(remaining, true)))
      else SplitLong(Flush(Add(room, Part(remaining[..avail], false))), remaining[avail..], maxLen)
  }

  function Place(st: State, line: string, maxLen: int): Outcome<State> {
    if Fits(st, line, maxLen) then Done(Add(st, Whole(line)))
    else
      var flushed := Flush(st);
      if Fits(flushed, line, maxLen) then Done(Add(flushed, Whole(line))) else SplitLong(flushed, line, maxLen)
  }

  function TrackFence(st: State, line: string): State {
    if IsFence(line) then st.(open := if st.open != "" then "" else TrimSpace(line)) else st
  }

  function LineStep(st: State, line: string, maxLen: int): Outcome<State> {
    var placed := Place(st, line, maxLen);
    if placed.Done? then Done(TrackFence(placed.value, line)) else placed
  }

  function Lines(st: State, lines: seq<string>, maxLen: int): Outcome<State>
    decreases |lines|
  {
    if lines == [] then Done(st)
    else
      var next := LineStep(st, lines[0], maxLen);
      if next.Done? then Lines(next.value, lines[1..], maxLen) else next
  }

  function Finish(st: State): seq<Chunk> {
    if st.current == [] then st.chunks else st.chunks + [Chunk(st.current, st.open != "")]
  }

  /** The chunks, by origin, of a text that is too long to stay whole. */
  function SplitLines(lines: seq<string>, maxLen: int): Outcome<seq<Chunk>> {
    var end := Lines(Start, lines, maxLen);
    match end
    case Done(st) => Done(Finish(st))
    case Panics => Panics
    case Diverges => Diverges
  }

  function SplitMessage(text: string, maxLen: int): Outcome<seq<string>> {
    if |text| <= maxLen then Done([text])
    else
      match SplitLines(Split(text), maxLen)
      case Done(chunks) => Done(RenderAll(chunks))
      case Panics => Panics
      case Diverges => Diverges
  }

  // ---- The loop ----

  lemma TextsAppend(pieces: seq<Piece>, p: Piece)
    ensures Texts(pieces + [p]) == Texts(pieces) + [p.text]
  {
  }

  lemma RenderAllAppend(chunks: seq<Chunk>, c: Chunk)
    ensures RenderAll(chunks + [c]) == RenderAll(chunks) + [Render(c)]
  {
  }

  lemma RenderIs(pieces: seq<Piece>, closed: bool)
    ensures Render(Chunk(pieces, closed)) == if closed then Join(Texts(pieces)) + CLOSING else Join(Texts(pieces))
  {
    assert !closed ==> Join(Texts(pieces)) + "" == Join(Texts(pieces));
  }

  /** The real variables hold the texts of the model's pieces. */
  predicate Holds(st: State, chunks: seq<string>, current: seq<string>, currentLen: int, openFence: string) {
    chunks == RenderAll(st.chunks) && current == Texts(st.current) && currentLen == st.currentLen
      && openFence == st.open
  }

  method FlushChunk(chunks: seq<string>, current: seq<string>, currentLen: int, openFence: string, ghost st: State)
    returns (chunks': seq<string>, current': seq<string>, currentLen': int)
    requires Holds(st, chunks, current, currentLen, openFence)
    ensures Holds(Flush(st), chunks', current', currentLen', openFence)
  {
    if |current| == 0 {
      assert st.current == [];
      return chunks, current, currentLen;
    }
    assert st.current != [];
    RenderAllAppend(st.chunks, Chunk(st.current, st.open != ""));
    RenderIs(st.current, st.open != "");
    assert Texts([Seed(openFence)]) == [openFence];
    var chunk := Join(current);
    if openFence != "" {
      chunk := chunk + CLOSING;
    }
    chunks' := chunks + [chunk];
    current', currentLen' := [], 0;
    if openFence != "" {
      current' := current' + [openFence];
      currentLen' := |openFence| + 1;
    }
  }

  method SplitMessageCodeFenceAware(text: string, maxLen: int) returns (result: Outcome<seq<string>>)
    ensures result == SplitMessage(text, maxLen)
  {
    hide Join, Render, TrimSpace, Split, Flush;
    if |text| <= maxLen {
      return Done([text]);
    }
    var lines := Split(text);
    var chunks: seq<string>, current: seq<string>, currentLen, openFence := [], [], 0, "";
    ghost var st := Start;
    for i := 0 to |lines|
      invariant Lines(Start, lines, maxLen) == Lines(st, lines[i..], maxLen)
      invariant Holds(st, chunks, current, currentLen, openFence)
    {
      var line := lines[i];
      assert lines[i..][0] == line && lines[i..][1..] == lines[i + 1..];
      ghost var before := st;
      var limit := if openFence != "" then maxLen - 4 else maxLen;
      if currentLen + |line| + 1 <= limit {
        TextsAppend(st.current, Whole(line));
        current, currentLen := current + [line], currentLen + |line| + 1;
        st := Add(st, Whole(line));
      } else {
        chunks, current, currentLen := FlushChunk(chunks, current, currentLen, openFence, st);
        st := Flush(st);
        limit := if openFence != "" then maxLen - 4 else maxLen;
        if currentLen + |line| + 1 <= limit {
          TextsAppend(st.current, Whole(line));
          current, currentLen := current + [line], currentLen + |line| + 1;
          st := Add(st, Whole(line));
        } else {
          var status;
          status, chunks, current, currentLen := CutLongLine(line, chunks, current, currentLen, openFence, maxLen, st);
          if status.Panics? {
            return Panics;
          } else if status.Diverges? {
            return Diverges;
          }
          st := SplitLong(st, line, maxLen).value;
        }
      }
      assert Place(before, line, maxLen) == Done(st);
      var trimmed := TrimSpace(line);
      if FENCE <= trimmed {
        openFence := if openFence != "" then "" else trimmed;
      }
      st := TrackFence(st, line);
    }
    if |current| > 0 {
      RenderAllAppend(st.chunks, Chunk(st.current, st.open != ""));
      RenderIs(st.current, st.open != "");
      var chunk := Join(current);
      if openFence != "" {
        chunk := chunk + CLOSING;
      }
      chunks := chunks + [chunk];
    }
    assert current == [] <==> st.current == [];
    assert chunks == RenderAll(Finish(st));
    result := Done(chunks);
  }

  /** The inner loop: cut within the line, flushing between the parts. */
  method CutLongLine(line: string, chunks0: seq<string>, current0: seq<string>, currentLen0: int, openFence: string,
      maxLen: int, ghost st0: State)
    returns (status: Outcome<()>, chunks: seq<string>, current: seq<string>, currentLen: int)
    requires Holds(st0, chunks0, current0, currentLen0, openFence)
    ensures match SplitLong(st0, line, maxLen)
      case Done(end) => status == Done(()) && Holds(end, chunks, current, currentLen, openFence)
      case Panics => status == Panics
      case Diverges => status == Diverges
  {
    hide Join, Render, Flush;
    chunks, current, currentLen := chunks0, current0, currentLen0;
    ghost var st := st0;
    var remaining := line;
    while |remaining| > 0
      invariant SplitLong(st, remaining, maxLen) == SplitLong(st0, line, maxLen)
      invariant Holds(st, chunks, current, currentLen, openFence)
      decreases |remaining|
    {
      ghost var before := st;
      var limit := if openFence != "" then maxLen - 4 else maxLen;
      var avail := limit - currentLen;
      if avail <= 0 {
        chunks, current, currentLen := FlushChunk(chunks, current, currentLen, openFence, st);
        st := Flush(st);
        limit := if openFence != "" then maxLen - 4 else maxLen;
        avail := limit - currentLen;
      }
      if avail > |remaining| {
        avail := |remaining|;
      }
      if avail < 0 {
        return Panics, chunks, current, currentLen;
      }
      if avail == 0 {
        return Diverges, chunks, current, currentLen;
      }
      var part := remaining[..avail];
      assert avail == |remaining| ==> part == remaining;
      TextsAppend(st.current, Part(part, avail == |remaining|));
      current, currentLen := current + [part], currentLen + avail + 1;
      st := Add(st, Part(part, avail == |remaining|));
      remaining := remaining[avail..];
      if |remaining| > 0 {
        chunks, current, currentLen := FlushChunk(chunks, current, currentLen, openFence, st);
        st := Flush(st);
      }
    }
    status := Done(());
  }
}
