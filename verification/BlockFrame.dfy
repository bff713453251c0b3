/** What an edit that touches no project or platform header does to every span of the file. */
module BlockFrame {
  import opened LineSearch
  import opened ConfigSpans

  predicate IsBlockHeader(line: string) {
    Passes(line, Table(PROJECTS)) || Passes(line, Table(PLATFORMS))
  }

  /** The lines a..b were replaced by the lines a..b' of the new file; the rest is unchanged and
      in order, and neither stretch holds a block header. */
  predicate Edited(lines: seq<string>, lines': seq<string>, a: int, b: int, b': int) {
    && 0 <= a <= b <= |lines| && a <= b' <= |lines'|
    && |lines| - b == |lines'| - b'
    && (forall i :: 0 <= i < a ==> lines'[i] == lines[i])
    && (forall i :: b <= i < |lines| ==> lines'[i + (b' - b)] == lines[i])
    && (forall i :: a <= i < b ==> !IsBlockHeader(lines[i]))
    && (forall i :: a <= i < b' ==> !IsBlockHeader(lines'[i]))
  }

  /** Where a line number outside the edit moves to. */
  function Moved(i: int, a: int, d: int): int {
    if i < a then i else i + d
  }

  function MovedAll(at: seq<int>, a: int, d: int): (r: seq<int>)
    ensures |r| == |at| && forall k :: 0 <= k < |at| ==> r[k] == Moved(at[k], a, d)
  {
    seq(|at|, k requires 0 <= k < |at| => Moved(at[k], a, d))
  }

  lemma PositionsOutside(lines: seq<string>, lines': seq<string>, a: int, b: int, b': int, lo: int, hi: int,
          test: LineTest)
    requires Edited(lines, lines', a, b, b') && 0 <= lo <= hi <= |lines|
    ensures hi <= a ==> Positions(lines', lo, hi, test) == Positions(lines, lo, hi, test)
    ensures b <= lo ==>
            Positions(lines', lo + (b' - b), hi + (b' - b), test) == Shift(Positions(lines, lo, hi, test), b' - b)
  {
    hide Passes, IsBlockHeader, Positions;
    if hi <= a {
      PositionsMoved(lines, lines', lo, hi, 0, test);
      assert Shift(Positions(lines, lo, hi, test), 0) == Positions(lines, lo, hi, test);
    }
    if b <= lo {
      PositionsMoved(lines, lines', lo, hi, b' - b, test);
    }
  }

  lemma PositionsAcross(lines: seq<string>, lines': seq<string>, a: int, b: int, b': int, lo: int, hi: int,
          header: string)
    requires Edited(lines, lines', a, b, b') && 0 <= lo <= a && b <= hi <= |lines|
    requires header == PROJECTS || header == PLATFORMS
    ensures Positions(lines', lo, hi + (b' - b), Table(header)) ==
            MovedAll(Positions(lines, lo, hi, Table(header)), a, b' - b)
  {
    hide Passes, Positions;
    var test, d := Table(header), b' - b;
    PositionsSplit(lines, lo, a, hi, test);
    PositionsSplit(lines, a, b, hi, test);
    PositionsNone(lines, a, b, test);
    PositionsSplit(lines', lo, a, hi + d, test);
    PositionsSplit(lines', a, b', hi + d, test);
    PositionsNone(lines', a, b', test);
    PositionsOutside(lines, lines', a, b, b', lo, a, test);
    PositionsOutside(lines, lines', a, b, b', b, hi, test);
    MovedParts(Positions(lines, lo, a, test), Positions(lines, b, hi, test), a, d);
  }

  lemma MovedParts(before: seq<int>, after: seq<int>, a: int, d: int)
    requires (forall k :: 0 <= k < |before| ==> before[k] < a) && (forall k :: 0 <= k < |after| ==> a <= after[k])
    ensures MovedAll(before + after, a, d) == before + Shift(after, d)
  {
  }

  /** The headers of the block that fills start..end, wherever it lies relative to the edit. */
  lemma PositionsOfBlock(lines: seq<string>, lines': seq<string>, a: int, b: int, b': int, start: int, end: int,
          header: string)
    requires Edited(lines, lines', a, b, b') && 0 <= start <= end < |lines|
    requires header == PROJECTS || header == PLATFORMS
    requires (start < a || b <= start) && (end + 1 < a || b <= end + 1)
    ensures Positions(lines', Moved(start, a, b' - b) + 1, Moved(end + 1, a, b' - b), Table(header))
         == MovedAll(Positions(lines, start + 1, end + 1, Table(header)), a, b' - b)
  {
    hide Passes, Positions, IsBlockHeader;
    var test, d := Table(header), b' - b;
    var at := Positions(lines, start + 1, end + 1, test);
    if end + 1 < a {
      PositionsOutside(lines, lines', a, b, b', start + 1, end + 1, test);
      assert MovedAll(at, a, d) == at;
    } else if b <= start && a <= start {
      PositionsOutside(lines, lines', a, b, b', start + 1, end + 1, test);
      assert MovedAll(at, a, d) == Shift(at, d);
    } else {
      PositionsAcross(lines, lines', a, b, b', start + 1, end + 1, header);
    }
  }

  /** Every block keeps its index; its ends only move with the edit. */
  predicate BlockMoved(start: int, end: int, start': int, end': int, a: int, d: int) {
    start' == Moved(start, a, d) && end' + 1 == Moved(end + 1, a, d)
  }

  lemma BlockEndMoved(at: seq<int>, at': seq<int>, k: nat, end: int, end': int, a: int, d: int)
    requires at' == MovedAll(at, a, d) && k < |at| && end' + 1 == Moved(end + 1, a, d)
    ensures BlockEnd(at', k, end') + 1 == Moved(BlockEnd(at, k, end) + 1, a, d)
  {
  }

  lemma HeaderOutside(lines: seq<string>, lines': seq<string>, a: int, b: int, b': int, i: int)
    requires Edited(lines, lines', a, b, b')
    requires i == |lines| || (0 <= i < |lines| && IsBlockHeader(lines[i]))
    ensures i < a || b <= i
  {
  }

  predicate ProjectsMoved(spans: seq<ProjectSpan>, spans': seq<ProjectSpan>, a: int, d: int) {
    && |spans'| == |spans|
    && forall q :: 0 <= q < |spans| ==>
         BlockMoved(spans[q].start, spans[q].end, spans'[q].start, spans'[q].end, a, d)
  }

  predicate PlatformsMoved(platforms: seq<PlatformSpan>, platforms': seq<PlatformSpan>, a: int, d: int) {
    && |platforms'| == |platforms|
    && forall p :: 0 <= p < |platforms| ==>
         BlockMoved(platforms[p].start, platforms[p].end, platforms'[p].start, platforms'[p].end, a, d)
  }

  lemma ProjectsKeepIndex(lines: seq<string>, lines': seq<string>, a: int, b: int, b': int)
    requires Edited(lines, lines', a, b, b')
    ensures ProjectsMoved(ProjectSpans(lines), ProjectSpans(lines'), a, b' - b)
  {
    hide Passes, Positions, ProjectSpans, IsBlockHeader;
    var spans, spans', d := ProjectSpans(lines), ProjectSpans(lines'), b' - b;
    PositionsAcross(lines, lines', a, b, b', 0, |lines|, PROJECTS);
    ProjectSpanCount(lines);
    ProjectSpanCount(lines');
    var at, at' := Positions(lines, 0, |lines|, Table(PROJECTS)), Positions(lines', 0, |lines'|, Table(PROJECTS));
    forall q | 0 <= q < |spans|
      ensures BlockMoved(spans[q].start, spans[q].end, spans'[q].start, spans'[q].end, a, d)
    {
      ProjectSpanAt(lines, q);
      ProjectSpanAt(lines', q);
      BlockEndMoved(at, at', q, |lines| - 1, |lines'| - 1, a, d);
    }
  }

  lemma ProjectEdges(lines: seq<string>, q: nat)
    requires q < |ProjectSpans(lines)|
    ensures var s := ProjectSpans(lines)[q];
            && 0 <= s.start <= s.end < |lines|
            && IsBlockHeader(lines[s.start])
            && (s.end + 1 == |lines| || IsBlockHeader(lines[s.end + 1]))
  {
    hide Passes, Positions, ProjectSpans;
    ProjectSpanAt(lines, q);
    PositionsPass(lines, 0, |lines|, Table(PROJECTS), q);
    if q + 1 < |ProjectSpans(lines)| {
      PositionsPass(lines, 0, |lines|, Table(PROJECTS), q + 1);
    }
  }

  lemma PlatformsOfBlockMoved(lines: seq<string>, lines': seq<string>, a: int, b: int, b': int,
      start: int, end: int, start': int, end': int)
    requires Edited(lines, lines', a, b, b') && 0 <= start <= end < |lines| && 0 <= start' <= end' < |lines'|
    requires (start < a || b <= start) && (end + 1 < a || b <= end + 1)
    requires BlockMoved(start, end, start', end', a, b' - b)
    ensures PlatformsMoved(PlatformsIn(lines, start, end), PlatformsIn(lines', start', end'), a, b' - b)
  {
    hide Passes, Positions, IsBlockHeader, PlatformsIn, Edited, BlockEnd, PlatformAt;
    var d, platforms, platforms' := b' - b, PlatformsIn(lines, start, end), PlatformsIn(lines', start', end');
    PositionsOfBlock(lines, lines', a, b, b', start, end, PLATFORMS);
    PlatformSpanCount(lines, start, end);
    PlatformSpanCount(lines', start', end');
    var at, at' := Positions(lines, start + 1, end + 1, Table(PLATFORMS)),
      Positions(lines', start' + 1, end' + 1, Table(PLATFORMS));
    forall p | 0 <= p < |platforms|
      ensures BlockMoved(platforms[p].start, platforms[p].end, platforms'[p].start, platforms'[p].end, a, d)
    {
      PlatformSpanAt(lines, start, end, p);
      PlatformSpanAt(lines', start', end', p);
      BlockEndMoved(at, at', p, end, end', a, d);
    }
  }

  lemma PlatformsKeepIndex(lines: seq<string>, lines': seq<string>, a: int, b: int, b': int, q: nat)
    requires Edited(lines, lines', a, b, b') && q < |ProjectSpans(lines)|
    ensures q < |ProjectSpans(lines')|
    ensures PlatformsMoved(ProjectSpans(lines)[q].platforms, ProjectSpans(lines')[q].platforms, a, b' - b)
  {
    hide Passes, Positions, ProjectSpans, IsBlockHeader, PlatformsIn, Edited, PlatformsMoved, BlockEnd;
    ProjectsKeepIndex(lines, lines', a, b, b');
    ProjectSpanAt(lines, q);
    ProjectSpanAt(lines', q);
    var s, s' := ProjectSpans(lines)[q], ProjectSpans(lines')[q];
    ProjectEdges(lines, q);
    HeaderOutside(lines, lines', a, b, b', s.start);
    HeaderOutside(lines, lines', a, b, b', s.end + 1);
    PlatformsOfBlockMoved(lines, lines', a, b, b', s.start, s.end, s'.start, s'.end);
  }

  /** A block that does not meet the edit keeps its text. */
  lemma BlockTextKept(lines: seq<string>, lines': seq<string>, a: int, b: int, b': int, start: int, end: int,
          start': int, end': int)
    requires Edited(lines, lines', a, b, b') && 0 <= start <= end < |lines|
    requires BlockMoved(start, end, start', end', a, b' - b)
    requires end + 1 < a || (a <= start && b <= start)
    ensures 0 <= start' <= end' < |lines'| && lines'[start'..end' + 1] == lines[start..end + 1]
  {
    hide IsBlockHeader;
    var before, after := lines[start..end + 1], lines'[start'..end' + 1];
    forall k | 0 <= k < |before| ensures after[k] == before[k] {
      if b <= start {
        assert lines'[start + k + (b' - b)] == lines[start + k];
      }
    }
  }
}
