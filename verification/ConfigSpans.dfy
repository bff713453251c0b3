/** The nested spans of projects and platforms in a configuration file, found by line. */
module ConfigSpans {
  import opened ConfigLines
  import opened LineSearch

  const PROJECTS := "[[projects]]"
  const PLATFORMS := "[[projects.platforms]]"
  const PLATFORM_OPTIONS := "[projects.platforms.options]"
  const AGENT := "[projects.agent]"
  const AGENT_OPTIONS := "[projects.agent.options]"
  const AGENT_PROVIDERS := "[[projects.agent.providers]]"

  /** Line numbers; `end` is the last line of the block, and -1 marks what is absent. */
  datatype PlatformSpan = PlatformSpan(start: int, end: int, typeLine: int, optionsStart: int, optionsEnd: int)

  datatype ProviderSpan = ProviderSpan(start: int, end: int, nameLine: int)

  datatype ProjectSpan = ProjectSpan(
    start: int, end: int, platforms: seq<PlatformSpan>,
    agentStart: int, agentEnd: int, agentOptionsStart: int, agentOptionsEnd: int,
    agentProviders: seq<ProviderSpan>)

  /** The last line of the table whose header is on line `ln`, at most `end`. */
  function SectionEnd(lines: seq<string>, ln: int, end: int): (r: int)
    requires 0 <= ln <= end < |lines|
  {
    Find(lines, ln + 1, end + 1, AnyTable) - 1
  }

  function PlatformAt(lines: seq<string>, start: int, end: int): (r: PlatformSpan)
    requires 0 <= start <= end < |lines|
    ensures r.start == start && r.end == end
  {
    var mainEnd := Find(lines, start + 1, end + 1, AnyTable);
    var typeLine := Find(lines, start + 1, mainEnd, Key("type"));
    var options := Find(lines, start + 1, end + 1, Table(PLATFORM_OPTIONS));
    PlatformSpan(start, end,
      if typeLine < mainEnd then typeLine else -1,
      if options <= end then options else -1,
      if options <= end then SectionEnd(lines, options, end) else -1)
  }

  /** Blocks that begin at the given lines reach to the line before the next one, the last to `end`. */
  function BlockEnd(starts: seq<int>, k: nat, end: int): int
    requires k < |starts|
  {
    if k + 1 < |starts| then starts[k + 1] - 1 else end
  }

  function PlatformsIn(lines: seq<string>, start: int, end: int): (r: seq<PlatformSpan>)
    requires 0 <= start <= end < |lines|
  {
    var at := Positions(lines, start + 1, end + 1, Table(PLATFORMS));
    PositionsAscend(lines, start + 1, end + 1, Table(PLATFORMS));
    seq(|at|, k requires 0 <= k < |at| => PlatformAt(lines, at[k], BlockEnd(at, k, end)))
  }

  function LastOf(at: seq<int>): int {
    if at == [] then -1 else at[|at| - 1]
  }

  /** The last table with this header on a line after `start` and before `hi`, or -1. */
  function LastBefore(lines: seq<string>, start: int, hi: int, header: string): (r: int)
    requires 0 <= start < hi <= |lines|
    ensures r == -1 || start < r < hi
  {
    LastOf(Positions(lines, start + 1, hi, Table(header)))
  }

  /** The scan keeps the last matching table of the project. */
  function LastTable(lines: seq<string>, start: int, end: int, header: string): (r: int)
    requires 0 <= start <= end < |lines|
    ensures r == -1 || start < r <= end
  {
    LastBefore(lines, start, end + 1, header)
  }

  lemma LastBeforeSnoc(lines: seq<string>, start: int, ln: int, header: string)
    requires 0 <= start < ln < |lines|
    ensures LastBefore(lines, start, ln + 1, header)
         == if MatchTableHeader(lines[ln], header) then ln else LastBefore(lines, start, ln, header)
  {
    hide MatchTableHeader;
    PositionsSnoc(lines, start + 1, ln, Table(header));
  }

  function TableEnd(lines: seq<string>, ln: int, end: int): int
    requires -1 <= ln <= end < |lines|
  {
    if ln < 0 then -1 else SectionEnd(lines, ln, end)
  }

  function ProviderAt(lines: seq<string>, ln: int, end: int): ProviderSpan
    requires 0 <= ln <= end < |lines|
  {
    var last := SectionEnd(lines, ln, end);
    var name := Find(lines, ln + 1, last + 1, Key("name"));
    ProviderSpan(ln, last, if name <= last then name else -1)
  }

  function ProvidersAt(lines: seq<string>, at: seq<int>, end: int): (r: seq<ProviderSpan>)
    requires 0 <= end < |lines| && forall k :: 0 <= k < |at| ==> 0 <= at[k] <= end
  {
    seq(|at|, k requires 0 <= k < |at| => ProviderAt(lines, at[k], end))
  }

  function ProvidersIn(lines: seq<string>, start: int, end: int): (r: seq<ProviderSpan>)
    requires 0 <= start <= end < |lines|
  {
    ProvidersAt(lines, Positions(lines, start + 1, end + 1, Table(AGENT_PROVIDERS)), end)
  }

  function ProjectAt(lines: seq<string>, start: int, end: int): (r: ProjectSpan)
    requires 0 <= start <= end < |lines|
    ensures r.start == start && r.end == end && r.platforms == PlatformsIn(lines, start, end)
  {
    var agent := LastTable(lines, start, end, AGENT);
    var options := LastTable(lines, start, end, AGENT_OPTIONS);
    ProjectSpan(start, end, PlatformsIn(lines, start, end),
      agent, TableEnd(lines, agent, end), options, TableEnd(lines, options, end),
      ProvidersIn(lines, start, end))
  }

  /** buildRawProjectSpans */
  function ProjectSpans(lines: seq<string>): (spans: seq<ProjectSpan>) {
    var at := Positions(lines, 0, |lines|, Table(PROJECTS));
    PositionsAscend(lines, 0, |lines|, Table(PROJECTS));
    seq(|at|, k requires 0 <= k < |at| => ProjectAt(lines, at[k], BlockEnd(at, k, |lines| - 1)))
  }

  method TableLines(lines: seq<string>, lo: int, hi: int, header: string) returns (at: seq<int>)
    requires 0 <= lo <= hi <= |lines|
    ensures at == Positions(lines, lo, hi, Table(header))
  {
    hide MatchTableHeader;
    at := [];
    for ln := lo to hi
      invariant at == Positions(lines, lo, ln, Table(header))
    {
      PositionsSnoc(lines, lo, ln, Table(header));
      if MatchTableHeader(lines[ln], header) {
        at := at + [ln];
      }
    }
  }

  method ScanSectionEnd(lines: seq<string>, ln: int, end: int) returns (r: int)
    requires 0 <= ln <= end < |lines|
    ensures r == SectionEnd(lines, ln, end)
  {
    hide IsAnyTableHeader;
    for j := ln + 1 to end + 1
      invariant forall k :: ln < k < j ==> !Passes(lines[k], AnyTable)
    {
      if IsAnyTableHeader(lines[j]) {
        FindIs(lines, ln + 1, end + 1, AnyTable, j);
        return j - 1;
      }
    }
    FindIs(lines, ln + 1, end + 1, AnyTable, end + 1);
    return end;
  }

  method ScanPlatform(lines: seq<string>, start: int, end: int) returns (span: PlatformSpan)
    requires 0 <= start <= end < |lines|
    ensures span == PlatformAt(lines, start, end)
  {
    hide IsAnyTableHeader, MatchKey, MatchTableHeader;
    var typeLine, optionsStart, optionsEnd := -1, -1, -1;
    var inMainTable := true;
    ghost var mainEnd := Find(lines, start + 1, end + 1, AnyTable);
    ghost var firstType := Find(lines, start + 1, mainEnd, Key("type"));
    ghost var options := Find(lines, start + 1, end + 1, Table(PLATFORM_OPTIONS));
    FindFinds(lines, start + 1, end + 1, AnyTable);
    FindFinds(lines, start + 1, mainEnd, Key("type"));
    FindFinds(lines, start + 1, end + 1, Table(PLATFORM_OPTIONS));
    for ln := start + 1 to end + 1
      invariant inMainTable <==> ln <= mainEnd
      invariant typeLine == if firstType < ln && firstType < mainEnd then firstType else -1
      invariant optionsStart == if options < ln then options else -1
      invariant optionsEnd == if options < ln then SectionEnd(lines, options, end) else -1
    {
      if IsAnyTableHeader(lines[ln]) {
        inMainTable := false;
      }
      if inMainTable && typeLine < 0 && MatchKey(lines[ln], "type") {
        typeLine := ln;
      }
      if optionsStart < 0 && MatchTableHeader(lines[ln], PLATFORM_OPTIONS) {
        optionsStart := ln;
        optionsEnd := ScanSectionEnd(lines, ln, end);
      }
    }
    span := PlatformSpan(start, end, typeLine, optionsStart, optionsEnd);
  }

  lemma HeadersDiffer(line: string)
    ensures !(MatchTableHeader(line, AGENT) && MatchTableHeader(line, AGENT_OPTIONS))
    ensures !(MatchTableHeader(line, AGENT) && MatchTableHeader(line, AGENT_PROVIDERS))
    ensures !(MatchTableHeader(line, PROJECTS) && MatchTableHeader(line, PLATFORMS))
  {
    var t := Text.TrimSpace(line);
    assert AGENT[15] == ']' && AGENT_OPTIONS[15] == '.' && AGENT[1] == 'p' && AGENT_PROVIDERS[1] == '[';
    assert PROJECTS[10] == ']' && PLATFORMS[10] == '.';
  }

  method ScanProvider(lines: seq<string>, ln: int, end: int) returns (span: ProviderSpan)
    requires 0 <= ln <= end < |lines|
    ensures span == ProviderAt(lines, ln, end)
  {
    hide MatchKey, SectionEnd;
    var last := ScanSectionEnd(lines, ln, end);
    SectionEndBounds(lines, ln, end);
    for j := ln + 1 to last + 1
      invariant forall k :: ln < k < j ==> !Passes(lines[k], Key("name"))
    {
      if MatchKey(lines[j], "name") {
        FindIs(lines, ln + 1, last + 1, Key("name"), j);
        return ProviderSpan(ln, last, j);
      }
    }
    FindIs(lines, ln + 1, last + 1, Key("name"), last + 1);
    span := ProviderSpan(ln, last, -1);
  }

  lemma SectionEndBounds(lines: seq<string>, ln: int, end: int)
    requires 0 <= ln <= end < |lines|
    ensures ln <= SectionEnd(lines, ln, end) <= end
  {
  }

  lemma ProvidersSnoc(lines: seq<string>, at: seq<int>, ln: int, end: int)
    requires 0 <= end < |lines| && 0 <= ln <= end && forall k :: 0 <= k < |at| ==> 0 <= at[k] <= end
    ensures ProvidersAt(lines, at + [ln], end) == ProvidersAt(lines, at, end) + [ProviderAt(lines, ln, end)]
  {
    hide ProviderAt;
  }

  method ScanAgent(lines: seq<string>, start: int, end: int)
    returns (agentStart: int, agentEnd: int, optionsStart: int, optionsEnd: int, providers: seq<ProviderSpan>)
    requires 0 <= start <= end < |lines|
    ensures agentStart == LastTable(lines, start, end, AGENT)
    ensures agentEnd == TableEnd(lines, agentStart, end)
    ensures optionsStart == LastTable(lines, start, end, AGENT_OPTIONS)
    ensures optionsEnd == TableEnd(lines, optionsStart, end)
    ensures providers == ProvidersIn(lines, start, end)
  {
    hide MatchTableHeader, SectionEnd, LastBefore, ProvidersAt, ProviderAt, Positions;
    NoneYet(lines, start, end);
    agentStart, agentEnd, optionsStart, optionsEnd, providers := -1, -1, -1, -1, [];
    for ln := start + 1 to end + 1
      invariant agentStart == LastBefore(lines, start, ln, AGENT)
      invariant optionsStart == LastBefore(lines, start, ln, AGENT_OPTIONS)
      invariant agentEnd == TableEnd(lines, agentStart, end)
      invariant optionsEnd == TableEnd(lines, optionsStart, end)
      invariant providers == ProvidersAt(lines, Positions(lines, start + 1, ln, Table(AGENT_PROVIDERS)), end)
    {
      HeadersDiffer(lines[ln]);
      LastBeforeSnoc(lines, start, ln, AGENT);
      LastBeforeSnoc(lines, start, ln, AGENT_OPTIONS);
      PositionsSnoc(lines, start + 1, ln, Table(AGENT_PROVIDERS));
      if MatchTableHeader(lines[ln], AGENT) && !MatchTableHeader(lines[ln], AGENT_OPTIONS)
         && !MatchTableHeader(lines[ln], AGENT_PROVIDERS)
      {
        agentStart := ln;
        agentEnd := ScanSectionEnd(lines, ln, end);
      }
      if MatchTableHeader(lines[ln], AGENT_OPTIONS) {
        optionsStart := ln;
        optionsEnd := ScanSectionEnd(lines, ln, end);
      }
      var before := Positions(lines, start + 1, ln, Table(AGENT_PROVIDERS));
      if MatchTableHeader(lines[ln], AGENT_PROVIDERS) {
        var provider := ScanProvider(lines, ln, end);
        ProvidersSnoc(lines, before, ln, end);
        providers := providers + [provider];
      } else {
        assert before + [] == before;
      }
    }
  }

  lemma NoneYet(lines: seq<string>, start: int, end: int)
    requires 0 <= start <= end < |lines|
    ensures LastBefore(lines, start, start + 1, AGENT) == LastBefore(lines, start, start + 1, AGENT_OPTIONS) == -1
    ensures ProvidersAt(lines, Positions(lines, start + 1, start + 1, Table(AGENT_PROVIDERS)), end) == []
  {
  }

  method ScanProject(lines: seq<string>, start: int, end: int) returns (span: ProjectSpan)
    requires 0 <= start <= end < |lines|
    ensures span == ProjectAt(lines, start, end)
  {
    hide Passes, PlatformAt, LastTable, TableEnd, ProvidersIn, PlatformsIn, Positions;
    var agentStart, agentEnd, optionsStart, optionsEnd, providers := ScanAgent(lines, start, end);
    var at := TableLines(lines, start + 1, end + 1, PLATFORMS);
    PlatformSpanCount(lines, start, end);
    var platforms: seq<PlatformSpan> := [];
    for p := 0 to |at|
      invariant platforms == PlatformsIn(lines, start, end)[..p]
    {
      PlatformSpanAt(lines, start, end, p);
      var platform := ScanPlatform(lines, at[p], if p + 1 < |at| then at[p + 1] - 1 else end);
      platforms := platforms + [platform];
    }
    span := ProjectSpan(start, end, platforms, agentStart, agentEnd, optionsStart, optionsEnd, providers);
  }

  method BuildRawProjectSpans(lines: seq<string>) returns (spans: seq<ProjectSpan>)
    ensures spans == ProjectSpans(lines)
  {
    hide Passes, ProjectAt, ProjectSpans, Positions;
    var at := TableLines(lines, 0, |lines|, PROJECTS);
    ProjectSpanCount(lines);
    spans := [];
    for i := 0 to |at|
      invariant spans == ProjectSpans(lines)[..i]
    {
      ProjectSpanAt(lines, i);
      var span := ScanProject(lines, at[i], if i + 1 < |at| then at[i + 1] - 1 else |lines| - 1);
      spans := spans + [span];
    }
  }

  /** Spans tile lo..hi: each begins where the one before it ended. */
  predicate Tiles(starts: seq<int>, ends: seq<int>, hi: int) {
    && |starts| == |ends|
    && (forall k :: 0 <= k < |starts| ==> starts[k] <= ends[k])
    && (forall k :: 0 <= k < |starts| - 1 ==> ends[k] + 1 == starts[k + 1])
    && (starts != [] ==> ends[|ends| - 1] == hi)
  }

  function ProjectStarts(spans: seq<ProjectSpan>): seq<int> {
    seq(|spans|, k requires 0 <= k < |spans| => spans[k].start)
  }

  function ProjectEnds(spans: seq<ProjectSpan>): seq<int> {
    seq(|spans|, k requires 0 <= k < |spans| => spans[k].end)
  }

  function PlatformStarts(spans: seq<PlatformSpan>): seq<int> {
    seq(|spans|, k requires 0 <= k < |spans| => spans[k].start)
  }

  function PlatformEnds(spans: seq<PlatformSpan>): seq<int> {
    seq(|spans|, k requires 0 <= k < |spans| => spans[k].end)
  }

  /** A platform span is well placed: its header opens it, its type line is in its main table,
      and its options range starts with the options header and holds no other header. */
  predicate PlatformWellPlaced(lines: seq<string>, p: PlatformSpan) {
    && 0 <= p.start <= p.end < |lines|
    && Passes(lines[p.start], Table(PLATFORMS))
    && (p.typeLine >= 0 ==>
          && p.start < p.typeLine <= p.end && Passes(lines[p.typeLine], Key("type"))
          && (forall j :: p.start < j <= p.typeLine ==> !Passes(lines[j], AnyTable)))
    && (p.optionsStart >= 0 ==>
          && p.start < p.optionsStart <= p.optionsEnd <= p.end
          && Passes(lines[p.optionsStart], Table(PLATFORM_OPTIONS))
          && (forall j :: p.optionsStart < j <= p.optionsEnd ==> !Passes(lines[j], AnyTable))
          && (p.optionsEnd < p.end ==> Passes(lines[p.optionsEnd + 1], AnyTable)))
    && (p.optionsStart < 0 ==>
          && p.optionsStart == -1
          && (forall j :: p.start < j <= p.end ==> !Passes(lines[j], Table(PLATFORM_OPTIONS))))
    && (p.typeLine < 0 ==> p.typeLine == -1)
  }

  lemma NoTableNoHeader(line: string, header: string)
    requires !IsAnyTableHeader(line) && "[" <= header
    ensures !MatchTableHeader(line, header)
  {
    var t := Text.TrimSpace(line);
    assert t != "" ==> ("[" <= t <==> t[0] == '[');
    assert header[0] == '[';
  }

  lemma PlatformPlaced(lines: seq<string>, start: int, end: int)
    requires 0 <= start <= end < |lines| && Passes(lines[start], Table(PLATFORMS))
    ensures PlatformWellPlaced(lines, PlatformAt(lines, start, end))
  {
    hide Passes;
    FindFinds(lines, start + 1, end + 1, AnyTable);
    FindFinds(lines, start + 1, Find(lines, start + 1, end + 1, AnyTable), Key("type"));
    FindFinds(lines, start + 1, end + 1, Table(PLATFORM_OPTIONS));
    var options := Find(lines, start + 1, end + 1, Table(PLATFORM_OPTIONS));
    if options <= end {
      FindFinds(lines, options + 1, end + 1, AnyTable);
    }
  }

  lemma ProjectSpanAt(lines: seq<string>, q: nat)
    requires q < |ProjectSpans(lines)|
    ensures var at, project := Positions(lines, 0, |lines|, Table(PROJECTS)), ProjectSpans(lines)[q];
            && |at| == |ProjectSpans(lines)|
            && 0 <= project.start <= project.end < |lines|
            && project.start == at[q] && project.end == BlockEnd(at, q, |lines| - 1)
            && project == ProjectAt(lines, project.start, project.end)
  {
    hide Passes, ProjectAt;
    PositionsAscend(lines, 0, |lines|, Table(PROJECTS));
  }

  lemma BlocksTile(starts: seq<int>, ends: seq<int>, hi: int)
    requires |starts| == |ends| && Ascending(starts)
    requires forall k :: 0 <= k < |starts| ==> starts[k] <= hi && ends[k] == BlockEnd(starts, k, hi)
    ensures Tiles(starts, ends, hi)
  {
  }

  /** One span per project header, and the spans tile the file from the first header to its end. */
  lemma ProjectsTile(lines: seq<string>)
    ensures var spans := ProjectSpans(lines);
            && ProjectStarts(spans) == Positions(lines, 0, |lines|, Table(PROJECTS))
            && Tiles(ProjectStarts(spans), ProjectEnds(spans), |lines| - 1)
  {
    hide Passes, ProjectAt, Positions, ProjectSpans, Tiles, BlockEnd, Ascending;
    var at, spans := Positions(lines, 0, |lines|, Table(PROJECTS)), ProjectSpans(lines);
    PositionsAscend(lines, 0, |lines|, Table(PROJECTS));
    ProjectSpanCount(lines);
    forall q | 0 <= q < |spans|
      ensures spans[q].start == at[q] <= |lines| - 1 && spans[q].end == BlockEnd(at, q, |lines| - 1)
    {
      ProjectSpanAt(lines, q);
    }
    assert ProjectStarts(spans) == at;
    BlocksTile(at, ProjectEnds(spans), |lines| - 1);
  }

  lemma ProjectSpanCount(lines: seq<string>)
    ensures |ProjectSpans(lines)| == |Positions(lines, 0, |lines|, Table(PROJECTS))|
  {
    hide Passes, ProjectAt, Positions;
  }

  /** No project header is missed: each is the start of a span. */
  lemma EveryProjectHasSpan(lines: seq<string>, i: nat)
    requires i < |lines| && MatchTableHeader(lines[i], PROJECTS)
    ensures exists q :: 0 <= q < |ProjectSpans(lines)| && ProjectSpans(lines)[q].start == i
  {
    hide MatchTableHeader;
    ProjectsTile(lines);
    PositionsComplete(lines, 0, |lines|, Table(PROJECTS), i);
    var at := Positions(lines, 0, |lines|, Table(PROJECTS));
    var q :| 0 <= q < |at| && at[q] == i;
    assert ProjectStarts(ProjectSpans(lines))[q] == i;
  }

  lemma PlatformSpanAt(lines: seq<string>, start: int, end: int, b: nat)
    requires 0 <= start <= end < |lines| && b < |PlatformsIn(lines, start, end)|
    ensures var at, p := Positions(lines, start + 1, end + 1, Table(PLATFORMS)), PlatformsIn(lines, start, end)[b];
            && |at| == |PlatformsIn(lines, start, end)|
            && start < p.start <= p.end <= end
            && p.start == at[b] && p.end == BlockEnd(at, b, end)
            && p == PlatformAt(lines, p.start, p.end)
            && Passes(lines[p.start], Table(PLATFORMS))
  {
    hide Passes, PlatformAt;
    PositionsAscend(lines, start + 1, end + 1, Table(PLATFORMS));
    PositionsPass(lines, start + 1, end + 1, Table(PLATFORMS), b);
  }

  lemma PlatformSpanCount(lines: seq<string>, start: int, end: int)
    requires 0 <= start <= end < |lines|
    ensures |PlatformsIn(lines, start, end)| == |Positions(lines, start + 1, end + 1, Table(PLATFORMS))|
  {
    hide Passes, PlatformAt, Positions;
  }

  lemma PlatformsOfProjectTile(lines: seq<string>, start: int, end: int)
    requires 0 <= start <= end < |lines|
    ensures var platforms := PlatformsIn(lines, start, end);
            && PlatformStarts(platforms) == Positions(lines, start + 1, end + 1, Table(PLATFORMS))
            && Tiles(PlatformStarts(platforms), PlatformEnds(platforms), end)
  {
    hide Passes, PlatformAt, Positions, PlatformsIn, Tiles, BlockEnd, Ascending;
    var at, platforms := Positions(lines, start + 1, end + 1, Table(PLATFORMS)), PlatformsIn(lines, start, end);
    PositionsAscend(lines, start + 1, end + 1, Table(PLATFORMS));
    PlatformSpanCount(lines, start, end);
    forall b | 0 <= b < |platforms|
      ensures platforms[b].start == at[b] <= end && platforms[b].end == BlockEnd(at, b, end)
    {
      PlatformSpanAt(lines, start, end, b);
    }
    assert PlatformStarts(platforms) == at;
    BlocksTile(at, PlatformEnds(platforms), end);
  }

  /** The platforms of a project tile it from the first platform header to the project's end,
      one per header. */
  lemma PlatformsTile(lines: seq<string>, q: nat)
    requires q < |ProjectSpans(lines)|
    ensures var project := ProjectSpans(lines)[q];
            && 0 <= project.start <= project.end < |lines|
            && PlatformStarts(project.platforms) ==
               Positions(lines, project.start + 1, project.end + 1, Table(PLATFORMS))
            && Tiles(PlatformStarts(project.platforms), PlatformEnds(project.platforms), project.end)
  {
    hide Passes, PlatformStarts, PlatformEnds, Positions, ProjectSpans, PlatformsIn, Tiles;
    ProjectSpanAt(lines, q);
    PlatformsOfProjectTile(lines, ProjectSpans(lines)[q].start, ProjectSpans(lines)[q].end);
  }

  /** Every platform span of every project is well placed. */
  lemma EveryPlatformPlaced(lines: seq<string>, q: nat, b: nat)
    requires q < |ProjectSpans(lines)| && b < |ProjectSpans(lines)[q].platforms|
    ensures PlatformWellPlaced(lines, ProjectSpans(lines)[q].platforms[b])
  {
    hide Passes, Positions, ProjectSpans, PlatformsIn, PlatformAt, PlatformWellPlaced;
    ProjectSpanAt(lines, q);
    var project := ProjectSpans(lines)[q];
    PlatformSpanAt(lines, project.start, project.end, b);
    PlatformPlaced(lines, project.platforms[b].start, project.platforms[b].end);
  }

  /** A provider span begins with its header, holds no other one, and its name line, if it has one,
      is the first in it. */
  predicate ProviderWellPlaced(lines: seq<string>, p: ProviderSpan) {
    && 0 <= p.start <= p.end < |lines|
    && Passes(lines[p.start], Table(AGENT_PROVIDERS))
    && (forall j :: p.start < j <= p.end ==> !Passes(lines[j], AnyTable))
    && p.nameLine <= p.end
    && (if p.nameLine > p.start then Passes(lines[p.nameLine], Key("name")) else p.nameLine == -1)
    && (forall j :: p.start < j <= p.end && (p.nameLine < 0 || j < p.nameLine) ==> !Passes(lines[j], Key("name")))
  }

  lemma ProviderPlaced(lines: seq<string>, ln: int, end: int)
    requires 0 <= ln <= end < |lines| && Passes(lines[ln], Table(AGENT_PROVIDERS))
    ensures ProviderWellPlaced(lines, ProviderAt(lines, ln, end)) && ProviderAt(lines, ln, end).end <= end
  {
    hide Passes;
    FindFinds(lines, ln + 1, end + 1, AnyTable);
    FindFinds(lines, ln + 1, SectionEnd(lines, ln, end) + 1, Key("name"));
  }

  predicate ProvidersPlaced(lines: seq<string>, start: int, end: int, providers: seq<ProviderSpan>)
    requires 0 <= start <= end < |lines|
  {
    var at := Positions(lines, start + 1, end + 1, Table(AGENT_PROVIDERS));
    && |providers| == |at|
    && forall k :: 0 <= k < |at| ==>
         providers[k].start == at[k] && providers[k].end <= end && ProviderWellPlaced(lines, providers[k])
  }

  /** One provider span per provider header of the project, in order, each well placed. */
  lemma EveryProviderPlaced(lines: seq<string>, q: nat)
    requires q < |ProjectSpans(lines)|
    ensures var project := ProjectSpans(lines)[q];
            && 0 <= project.start <= project.end < |lines|
            && ProvidersPlaced(lines, project.start, project.end, project.agentProviders)
  {
    hide Passes, ProjectSpans, Positions, ProviderAt, ProviderWellPlaced;
    ProjectSpanAt(lines, q);
    var project := ProjectSpans(lines)[q];
    var at := Positions(lines, project.start + 1, project.end + 1, Table(AGENT_PROVIDERS));
    var providers := project.agentProviders;
    forall k | 0 <= k < |at|
      ensures providers[k].start == at[k] && providers[k].end <= project.end && ProviderWellPlaced(lines, providers[k])
    {
      PositionsPass(lines, project.start + 1, project.end + 1, Table(AGENT_PROVIDERS), k);
      ProviderPlaced(lines, at[k], project.end);
      ProviderStart(lines, at[k], project.end);
    }
  }

  lemma ProviderStart(lines: seq<string>, ln: int, end: int)
    requires 0 <= ln <= end < |lines|
    ensures ProviderAt(lines, ln, end).start == ln
  {
  }
}
