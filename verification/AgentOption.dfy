/** The edit chain of patchProjectAgentOption: add the agent's options table if the project has
    none, find the spans again, then upsert one key in it. */
module AgentOption {
  import opened Text
  import opened ConfigLines
  import opened LineSearch
  import opened Upsert
  import opened Quote
  import opened ConfigSpans
  import opened BlockFrame

  const SHORT_BLOCK := ["", AGENT_OPTIONS]
  const FULL_BLOCK := ["", AGENT, "type = \"claudecode\"", "", AGENT_OPTIONS]

  datatype Outcome = Patched(lines: seq<string>) | NoProject

  /** Behind the agent table, or in front of the project's first table. */
  function InsertPoint(lines: seq<string>, s: ProjectSpan): int
    requires 0 <= s.start <= s.end < |lines|
  {
    if s.agentStart < 0 then Find(lines, s.start + 1, s.end + 1, AnyTable) else s.agentEnd + 1
  }

  function Block(s: ProjectSpan): seq<string> {
    if s.agentStart < 0 then FULL_BLOCK else SHORT_BLOCK
  }

  function WithTable(lines: seq<string>, s: ProjectSpan): seq<string>
    requires 0 <= s.start <= s.end < |lines|
  {
    if s.agentOptionsStart < 0 then InsertLines(lines, InsertPoint(lines, s), Block(s)) else lines
  }

  function UpsertAgentOption(lines: seq<string>, q: nat, key: string, rendered: string): seq<string> {
    if q < |ProjectSpans(lines)| then
      var s := ProjectSpans(lines)[q];
      UpsertKey(lines, s.agentOptionsStart + 1, s.agentOptionsEnd, key, rendered)
    else lines
  }

  function Patch(lines: seq<string>, q: nat, key: string, rendered: string): Outcome {
    if q >= |ProjectSpans(lines)| then NoProject
    else
      ProjectSpanAt(lines, q);
      Patched(UpsertAgentOption(WithTable(lines, ProjectSpans(lines)[q]), q, key, rendered))
  }

  // ---- The last table of a project ----

  predicate IsLast(lines: seq<string>, start: int, hi: int, header: string, r: int)
    requires 0 <= start < hi <= |lines|
  {
    && (r == -1 || (start < r < hi && Passes(lines[r], Table(header))))
    && forall j :: start < j < hi && r < j ==> !Passes(lines[j], Table(header))
  }

  lemma LastBeforeIs(lines: seq<string>, start: int, hi: int, header: string, r: int)
    requires 0 <= start < hi <= |lines| && IsLast(lines, start, hi, header, r)
    ensures LastBefore(lines, start, hi, header) == r
  {
    hide Passes, Positions;
    if r < 0 {
      PositionsNone(lines, start + 1, hi, Table(header));
    } else {
      PositionsSplit(lines, start + 1, r + 1, hi, Table(header));
      PositionsNone(lines, r + 1, hi, Table(header));
      PositionsSnoc(lines, start + 1, r, Table(header));
    }
  }

  lemma LastTableIsLast(lines: seq<string>, start: int, hi: int, header: string)
    requires 0 <= start < hi <= |lines|
    ensures IsLast(lines, start, hi, header, LastBefore(lines, start, hi, header))
  {
    hide Passes, Positions;
    var at := Positions(lines, start + 1, hi, Table(header));
    PositionsAscend(lines, start + 1, hi, Table(header));
    if at != [] {
      PositionsPass(lines, start + 1, hi, Table(header), |at| - 1);
    }
    forall j | start < j < hi && LastOf(at) < j ensures !Passes(lines[j], Table(header)) {
      if Passes(lines[j], Table(header)) {
        PositionsComplete(lines, start + 1, hi, Table(header), j);
      }
    }
  }

  // ---- One edit inside a project ----

  function ProjectText(lines: seq<string>, q: nat): seq<string>
    requires q < |ProjectSpans(lines)|
  {
    ProjectSpanAt(lines, q);
    lines[ProjectSpans(lines)[q].start..ProjectSpans(lines)[q].end + 1]
  }

  /** The frame: every project and platform keeps its index, and every other project its text. */
  predicate OthersKept(lines: seq<string>, lines': seq<string>, q: nat) {
    && |ProjectSpans(lines')| == |ProjectSpans(lines)|
    && (forall r :: 0 <= r < |ProjectSpans(lines)| ==>
          |ProjectSpans(lines')[r].platforms| == |ProjectSpans(lines)[r].platforms|)
    && (forall r :: 0 <= r < |ProjectSpans(lines)| && r != q ==> ProjectText(lines', r) == ProjectText(lines, r))
  }

  lemma OthersKeptCompose(lines: seq<string>, mid: seq<string>, lines': seq<string>, q: nat)
    requires OthersKept(lines, mid, q) && OthersKept(mid, lines', q)
    ensures OthersKept(lines, lines', q)
  {
    hide ProjectSpans, ProjectText;
  }

  lemma ProjectsApart(lines: seq<string>, q: nat, r: nat)
    requires q < |ProjectSpans(lines)| && r < |ProjectSpans(lines)| && q != r
    ensures ProjectSpans(lines)[r].end < ProjectSpans(lines)[q].start
            || ProjectSpans(lines)[q].end < ProjectSpans(lines)[r].start
  {
    hide Passes, Positions, ProjectSpans, ProjectAt;
    ProjectSpanAt(lines, q);
    ProjectSpanAt(lines, r);
    var at := Positions(lines, 0, |lines|, Table(PROJECTS));
    PositionsAscend(lines, 0, |lines|, Table(PROJECTS));
    if q < r {
      assert at[q + 1] <= at[r];
    } else {
      assert at[r + 1] <= at[q];
    }
  }

  /** An edit of lines a..b inside project q, which become a..b'. */
  lemma EditInProject(lines: seq<string>, lines': seq<string>, q: nat, a: int, b: int, b': int)
    requires q < |ProjectSpans(lines)| && Edited(lines, lines', a, b, b')
    requires var s := ProjectSpans(lines)[q]; s.start < a && b <= s.end + 1
    ensures OthersKept(lines, lines', q)
    ensures var s := ProjectSpans(lines)[q];
            && 0 <= s.start <= s.end < |lines| && s.start <= s.end + (b' - b) < |lines'|
            && q < |ProjectSpans(lines')| && ProjectSpans(lines')[q] == ProjectAt(lines', s.start, s.end + (b' - b))
  {
    hide Passes, Positions, ProjectSpans, ProjectAt, IsBlockHeader, Edited;
    ProjectsKeepIndex(lines, lines', a, b, b');
    ProjectSpanAt(lines, q);
    ProjectSpanAt(lines', q);
    EndsBehind(lines, lines', q, a, b, b');
    forall r: nat | r < |ProjectSpans(lines)|
      ensures |ProjectSpans(lines')[r].platforms| == |ProjectSpans(lines)[r].platforms|
      ensures r != q ==> ProjectText(lines', r) == ProjectText(lines, r)
    {
      PlatformsKeepIndex(lines, lines', a, b, b', r);
      if r != q {
        OtherTextKept(lines, lines', q, r, a, b, b');
      }
    }
  }

  lemma EndsBehind(lines: seq<string>, lines': seq<string>, q: nat, a: int, b: int, b': int)
    requires q < |ProjectSpans(lines)| && Edited(lines, lines', a, b, b')
    requires var s := ProjectSpans(lines)[q]; s.start < a && b <= s.end + 1
    ensures 0 <= ProjectSpans(lines)[q].start && a <= b
  {
    hide ProjectSpans, IsBlockHeader;
    ProjectSpanAt(lines, q);
  }

  lemma OtherTextKept(lines: seq<string>, lines': seq<string>, q: nat, r: nat, a: int, b: int, b': int)
    requires q < |ProjectSpans(lines)| && r < |ProjectSpans(lines)| && r != q && Edited(lines, lines', a, b, b')
    requires var s := ProjectSpans(lines)[q]; s.start < a && b <= s.end + 1
    ensures r < |ProjectSpans(lines')| && ProjectText(lines', r) == ProjectText(lines, r)
  {
    hide Passes, Positions, ProjectSpans, ProjectAt, Edited;
    ProjectsKeepIndex(lines, lines', a, b, b');
    ProjectSpanAt(lines, q);
    ProjectSpanAt(lines, r);
    ProjectSpanAt(lines', r);
    EndsBehind(lines, lines', q, a, b, b');
    ProjectsApart(lines, q, r);
    var s, s' := ProjectSpans(lines)[r], ProjectSpans(lines')[r];
    BlockTextKept(lines, lines', a, b, b', s.start, s.end, s'.start, s'.end);
  }

  // ---- Adding the table ----

  lemma BlockFacts(s: ProjectSpan)
    ensures var block := Block(s);
            && |block| >= 2 && Passes(block[|block| - 1], Table(AGENT_OPTIONS))
            && forall k :: 0 <= k < |block| ==> !IsBlockHeader(block[k])
  {
    hide MatchTableHeader;
    PlainTable(AGENT);
    PlainTable(AGENT_OPTIONS);
    OtherLines();
  }

  lemma TrimOfTrimmed(t: string)
    requires t != "" && !IsSpace(t[0]) && !IsSpace(t[|t| - 1])
    ensures TrimSpace(t) == t
  {
    assert "" + t + "" == t;
    TrimSpaceOfPadded("", t, "");
  }

  lemma PlainTable(h: string)
    requires h == AGENT || h == AGENT_OPTIONS
    ensures !IsBlockHeader(h) && Passes(h, Table(h))
  {
    hide TrimSpace;
    assert h[0] == '[' && h[1] == 'p' && h[|h| - 1] == ']';
    TrimOfTrimmed(h);
    assert PROJECTS[1] == '[' && PLATFORMS[1] == '[';
  }

  lemma OtherLines()
    ensures !IsBlockHeader("") && !IsBlockHeader("type = \"claudecode\"")
  {
    hide TrimSpace;
    var t := "type = \"claudecode\"";
    assert t[0] == 't' && t[|t| - 1] == '"';
    TrimOfTrimmed(t);
    assert TrimSpace("") == "";
    assert PROJECTS[0] == '[' && PLATFORMS[0] == '[';
  }

  lemma InsertIsEdit(lines: seq<string>, at: int, block: seq<string>)
    requires 0 <= at <= |lines| && forall k :: 0 <= k < |block| ==> !IsBlockHeader(block[k])
    ensures Edited(lines, InsertLines(lines, at, block), at, at, at + |block|)
  {
    hide IsBlockHeader;
  }

  lemma InsertPointInProject(lines: seq<string>, q: nat)
    requires q < |ProjectSpans(lines)|
    ensures var s := ProjectSpans(lines)[q];
            0 <= s.start <= s.end < |lines| && s.start < InsertPoint(lines, s) <= s.end + 1
  {
    hide Passes, Positions, ProjectSpans;
    ProjectSpanAt(lines, q);
  }

  /** The project's agent options table: where it starts and ends. */
  predicate HasTable(lines: seq<string>, q: nat) {
    && q < |ProjectSpans(lines)|
    && var s := ProjectSpans(lines)[q];
       && 0 <= s.start < s.agentOptionsStart <= s.agentOptionsEnd <= s.end < |lines|
       && s == ProjectAt(lines, s.start, s.end)
  }

  lemma TableIsThere(lines: seq<string>, q: nat)
    requires q < |ProjectSpans(lines)| && ProjectSpans(lines)[q].agentOptionsStart >= 0
    ensures HasTable(lines, q)
  {
    hide Passes, Positions, ProjectSpans;
    ProjectSpanAt(lines, q);
  }

  lemma TableAdded(lines: seq<string>, q: nat)
    requires q < |ProjectSpans(lines)|
    ensures 0 <= ProjectSpans(lines)[q].start <= ProjectSpans(lines)[q].end < |lines|
    ensures var lines' := WithTable(lines, ProjectSpans(lines)[q]);
            HasTable(lines', q) && OthersKept(lines, lines', q)
  {
    hide Passes, Positions, ProjectSpans, ProjectAt, IsBlockHeader, Edited, Block, InsertPoint, InsertLines,
         ProjectText;
    ProjectSpanAt(lines, q);
    var s := ProjectSpans(lines)[q];
    if s.agentOptionsStart >= 0 {
      TableIsThere(lines, q);
    } else {
      var at, block := InsertPoint(lines, s), Block(s);
      var lines' := InsertLines(lines, at, block);
      InsertPointInProject(lines, q);
      BlockFacts(s);
      InsertIsEdit(lines, at, block);
      EditInProject(lines, lines', q, at, at, at + |block|);
      AddedTableIsLast(lines, s.start, s.end, at, block);
      TableIsThere(lines', q);
    }
  }

  lemma AddedTableIsLast(lines: seq<string>, start: int, end: int, at: int, block: seq<string>)
    requires 0 <= start <= end < |lines| && start < at <= end + 1 && block != []
    requires Passes(block[|block| - 1], Table(AGENT_OPTIONS)) && ProjectAt(lines, start, end).agentOptionsStart < 0
    ensures var lines' := InsertLines(lines, at, block);
            |lines'| == |lines| + |block|
              && ProjectAt(lines', start, end + |block|).agentOptionsStart == at + |block| - 1
  {
    hide Passes, Positions;
    var lines', n := InsertLines(lines, at, block), |block|;
    LastTableIsLast(lines, start, end + 1, AGENT_OPTIONS);
    assert lines'[at + n - 1] == block[n - 1];
    forall j | at + n - 1 < j < end + n + 1 ensures !Passes(lines'[j], Table(AGENT_OPTIONS)) {
      assert lines'[j] == lines[j - n];
    }
    LastBeforeIs(lines', start, end + n + 1, AGENT_OPTIONS, at + n - 1);
  }

  // ---- The upsert ----

  predicate ReadsOption(lines: seq<string>, q: nat, key: string, found: Found) {
    && HasTable(lines, q)
    && var s := ProjectSpans(lines)[q];
       Lookup(lines, s.agentOptionsStart + 1, s.agentOptionsEnd, key) == found
  }

  lemma TableBody(lines: seq<string>, start: int, end: int)
    requires 0 <= start <= end < |lines| && ProjectAt(lines, start, end).agentOptionsStart >= 0
    ensures var s := ProjectAt(lines, start, end);
            && s.agentOptionsEnd + 1 == Find(lines, s.agentOptionsStart + 1, end + 1, AnyTable)
            && IsLast(lines, start, end + 1, AGENT_OPTIONS, s.agentOptionsStart)
            && forall i :: s.agentOptionsStart < i <= s.agentOptionsEnd ==> !IsAnyTableHeader(lines[i])
  {
    hide Positions, MatchTableHeader, MatchKey, IsAnyTableHeader;
    LastTableIsLast(lines, start, end + 1, AGENT_OPTIONS);
    FindFinds(lines, ProjectAt(lines, start, end).agentOptionsStart + 1, end + 1, AnyTable);
  }

  lemma PlainLine(line: string)
    requires !IsAnyTableHeader(line)
    ensures !IsBlockHeader(line) && !Passes(line, AnyTable) && !Passes(line, Table(AGENT_OPTIONS))
  {
    assert "[" <= PROJECTS && "[" <= PLATFORMS && "[" <= AGENT_OPTIONS;
    NoTableNoHeader(line, PROJECTS);
    NoTableNoHeader(line, PLATFORMS);
    NoTableNoHeader(line, AGENT_OPTIONS);
  }

  /** Replacing a line of the table: the table is found again where it was. */
  lemma TableLineReplaced(lines: seq<string>, start: int, end: int, i: int, line: string)
    requires 0 <= start <= end < |lines| && ProjectAt(lines, start, end).agentOptionsStart >= 0
    requires ProjectAt(lines, start, end).agentOptionsStart < i <= ProjectAt(lines, start, end).agentOptionsEnd
    requires !IsAnyTableHeader(line)
    ensures var s, lines' := ProjectAt(lines, start, end), lines[i := line];
            var s' := ProjectAt(lines', start, end);
            && s'.agentOptionsStart == s.agentOptionsStart && s'.agentOptionsEnd == s.agentOptionsEnd
            && Edited(lines, lines', i, i + 1, i + 1)
  {
    hide Passes, Positions, IsBlockHeader, IsAnyTableHeader, PlatformsIn;
    var s, lines' := ProjectAt(lines, start, end), lines[i := line];
    TableBody(lines, start, end);
    PlainLine(line);
    PlainLine(lines[i]);
    LastBeforeIs(lines', start, end + 1, AGENT_OPTIONS, s.agentOptionsStart);
    FindFinds(lines, s.agentOptionsStart + 1, end + 1, AnyTable);
    FindIs(lines', s.agentOptionsStart + 1, end + 1, AnyTable, s.agentOptionsEnd + 1);
  }

  lemma InsertedLines(lines: seq<string>, at: int, line: string)
    requires 0 <= at <= |lines|
    ensures var lines' := InsertLines(lines, at, [line]);
            && |lines'| == |lines| + 1 && lines'[at] == line
            && (forall j :: 0 <= j < at ==> lines'[j] == lines[j])
            && (forall j :: at < j < |lines'| ==> lines'[j] == lines[j - 1])
  {
  }

  lemma TableFoundAfterInsert(lines: seq<string>, start: int, end: int, r: int, at: int, line: string)
    requires 0 <= start <= end < |lines| && IsLast(lines, start, end + 1, AGENT_OPTIONS, r) && start < r < at <= end + 1
    requires !Passes(line, Table(AGENT_OPTIONS))
    ensures |InsertLines(lines, at, [line])| == |lines| + 1
    ensures LastBefore(InsertLines(lines, at, [line]), start, end + 2, AGENT_OPTIONS) == r
  {
    hide Passes, Positions, InsertLines, LastBefore;
    var lines' := InsertLines(lines, at, [line]);
    InsertedLines(lines, at, line);
    LastBeforeIs(lines', start, end + 2, AGENT_OPTIONS, r);
  }

  lemma TableEndAfterInsert(lines: seq<string>, r: int, end: int, line: string)
    requires 0 <= r <= end < |lines| && !Passes(line, AnyTable)
    ensures var at := Find(lines, r + 1, end + 1, AnyTable);
            && |InsertLines(lines, at, [line])| == |lines| + 1
            && Find(InsertLines(lines, at, [line]), r + 1, end + 2, AnyTable) == at + 1
  {
    hide Passes, InsertLines;
    var at := Find(lines, r + 1, end + 1, AnyTable);
    InsertedLines(lines, at, line);
    FindFinds(lines, r + 1, end + 1, AnyTable);
    FindIs(InsertLines(lines, at, [line]), r + 1, end + 2, AnyTable, at + 1);
  }

  /** Inserting a line behind the table: it becomes the table's last line. */
  lemma TableLineInserted(lines: seq<string>, start: int, end: int, line: string)
    requires 0 <= start <= end < |lines| && ProjectAt(lines, start, end).agentOptionsStart >= 0
    requires !IsAnyTableHeader(line)
    ensures var s := ProjectAt(lines, start, end);
            var at := s.agentOptionsEnd + 1;
            var lines' := InsertLines(lines, at, [line]);
            && start < at <= end + 1 && |lines'| == |lines| + 1
            && var s' := ProjectAt(lines', start, end + 1);
               && s'.agentOptionsStart == s.agentOptionsStart && s'.agentOptionsEnd == at
               && Edited(lines, lines', at, at, at + 1)
  {
    hide Passes, IsBlockHeader, IsAnyTableHeader, PlatformsIn, InsertLines, LastBefore, Edited, IsLast;
    var s := ProjectAt(lines, start, end);
    var at := s.agentOptionsEnd + 1;
    TableBody(lines, start, end);
    PlainLine(line);
    InsertIsEdit(lines, at, [line]);
    TableFoundAfterInsert(lines, start, end, s.agentOptionsStart, at, line);
    TableEndAfterInsert(lines, s.agentOptionsStart, end, line);
  }

  lemma UpsertStage(lines: seq<string>, q: nat, key: string, rendered: string)
    requires HasTable(lines, q) && IsBareKey(key)
    ensures var lines', s := UpsertAgentOption(lines, q, key, rendered), ProjectSpans(lines)[q];
            && OthersKept(lines, lines', q) && HasTable(lines', q)
            && ProjectSpans(lines')[q].agentOptionsStart == s.agentOptionsStart
            && ProjectSpans(lines')[q].agentOptionsEnd ==
               EndAfter(lines, s.agentOptionsStart + 1, s.agentOptionsEnd, key)
  {
    hide Passes, Positions, ProjectSpans, ProjectAt, IsBlockHeader, IsAnyTableHeader, Edited, FindKey,
         ReplaceKeyLine, KeyLine, OthersKept, MatchKey;
    var s := ProjectSpans(lines)[q];
    var lo, hi := s.agentOptionsStart + 1, s.agentOptionsEnd;
    var i := FindKey(lines, lo, hi, key);
    UpsertIs(lines, lo, hi, key, rendered);
    if i <= hi {
      var line := ReplaceKeyLine(lines[i], key, rendered);
      ReplacedLineMatches(lines[i], key, rendered);
      TableLineReplaced(lines, s.start, s.end, i, line);
      EditInProject(lines, lines[i := line], q, i, i + 1, i + 1);
      TableIsThere(lines[i := line], q);
    } else {
      KeyLineFacts(key, rendered);
      TableLineInserted(lines, s.start, s.end, KeyLine(key, rendered));
      EditInProject(lines, InsertLines(lines, hi + 1, [KeyLine(key, rendered)]), q, hi + 1, hi + 1, hi + 2);
      TableIsThere(InsertLines(lines, hi + 1, [KeyLine(key, rendered)]), q);
    }
  }

  /** The chain succeeds exactly for the projects of the file; the project's agent options then read
      the new value under the key, and no other project changes. */
  lemma AgentOptionSet(lines: seq<string>, q: nat, key: string, rendered: string)
    requires IsBareKey(key) && CleanValue(rendered)
    ensures Patch(lines, q, key, rendered).Patched? <==> q < |ProjectSpans(lines)|
    ensures q < |ProjectSpans(lines)| ==>
            var lines' := Patch(lines, q, key, rendered).lines;
            ReadsOption(lines', q, key, Found(rendered)) && OthersKept(lines, lines', q)
  {
    hide ProjectSpans, ProjectAt, OthersKept, UpsertKey, Lookup, IsBareKey, CleanValue, WithTable;
    if q < |ProjectSpans(lines)| {
      TableAdded(lines, q);
      var mid := WithTable(lines, ProjectSpans(lines)[q]);
      UpsertStage(mid, q, key, rendered);
      OthersKeptCompose(lines, mid, UpsertAgentOption(mid, q, key, rendered), q);
      PutGet(mid, ProjectSpans(mid)[q].agentOptionsStart + 1, ProjectSpans(mid)[q].agentOptionsEnd, key, rendered);
    }
  }

  /** Every other option of a table that was there reads as before. */
  lemma OtherAgentOptionKept(lines: seq<string>, q: nat, key: string, rendered: string, other: string, found: Found)
    requires ReadsOption(lines, q, other, found) && IsBareKey(key) && IsBareKey(other) && other != key
    ensures Patch(lines, q, key, rendered).Patched?
    ensures ReadsOption(Patch(lines, q, key, rendered).lines, q, other, found)
  {
    hide ProjectSpans, ProjectAt, OthersKept, UpsertKey, Lookup, IsBareKey;
    UpsertStage(lines, q, key, rendered);
    OtherKeysUnchanged(lines, ProjectSpans(lines)[q].agentOptionsStart + 1, ProjectSpans(lines)[q].agentOptionsEnd,
      key, rendered, other);
  }

  // ---- As the editor runs it ----

  method ScanInsertPoint(lines: seq<string>, s: ProjectSpan) returns (insertAt: int)
    requires 0 <= s.start <= s.end < |lines|
    ensures insertAt == InsertPoint(lines, s)
  {
    hide IsAnyTableHeader;
    insertAt := s.agentEnd + 1;
    if s.agentStart < 0 {
      insertAt := s.start + 1;
      for ln := s.start + 1 to s.end + 1
        invariant insertAt == ln
        invariant forall j :: s.start < j < ln ==> !Passes(lines[j], AnyTable)
      {
        if IsAnyTableHeader(lines[ln]) {
          insertAt := ln;
          FindIs(lines, s.start + 1, s.end + 1, AnyTable, ln);
          return;
        }
        insertAt := ln + 1;
      }
      FindIs(lines, s.start + 1, s.end + 1, AnyTable, s.end + 1);
    }
  }

  method AddTable(lines: array<string>, s: ProjectSpan) returns (out: array<string>)
    requires 0 <= s.start <= s.end < lines.Length && s.agentOptionsStart < 0
    ensures out[..] == WithTable(lines[..], s) && fresh(out)
  {
    hide InsertPoint, InsertLines;
    var insertAt := ScanInsertPoint(lines[..], s);
    out := InsertLinesArray(lines, insertAt, if s.agentStart < 0 then FULL_BLOCK else SHORT_BLOCK);
  }

  lemma TableIndex(lines: seq<string>, q: nat) returns (mid: seq<string>)
    requires q < |ProjectSpans(lines)|
    ensures 0 <= ProjectSpans(lines)[q].start <= ProjectSpans(lines)[q].end < |lines|
    ensures mid == WithTable(lines, ProjectSpans(lines)[q]) && q < |ProjectSpans(mid)|
    ensures ProjectSpans(lines)[q].agentOptionsStart >= 0 ==> mid == lines
  {
    hide ProjectSpans, OthersKept, InsertPoint, InsertLines;
    TableAdded(lines, q);
    mid := WithTable(lines, ProjectSpans(lines)[q]);
  }

  method PatchProjectAgentOption(file: array<string>, q: nat, key: string, value: string, printable: Printable)
    returns (result: Outcome)
    modifies file
    ensures result == Patch(old(file[..]), q, key, QuoteString(value, printable))
    ensures result == NoProject ==> file[..] == old(file[..])
  {
    hide ProjectSpans, QuoteString, UpsertKey, OthersKept, ProjectAt, HasTable, WithTable;
    ghost var before := file[..];
    var lines := file;
    var spans := BuildRawProjectSpans(lines[..]);
    if q >= |spans| {
      return NoProject;
    }
    var projSpan := spans[q];
    ProjectSpanAt(before, q);
    ghost var mid := TableIndex(before, q);
    if projSpan.agentOptionsStart < 0 {
      lines := AddTable(lines, projSpan);
      spans := BuildRawProjectSpans(lines[..]);
      projSpan := spans[q];
    }
    assert lines[..] == mid && projSpan == ProjectSpans(mid)[q];
    lines := UpsertTomlKey(lines, projSpan.agentOptionsStart + 1, projSpan.agentOptionsEnd, key,
      QuoteString(value, printable));
    result := Patched(lines[..]);
  }
}
