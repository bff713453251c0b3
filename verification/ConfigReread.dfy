/** What is found again in a formatted file under the indices it had before. */
module ConfigReread {
  import opened Text
  import opened ConfigLines
  import opened LineSearch
  import opened Upsert
  import opened ConfigSpans
  import opened ConfigFormat
  import opened ConfigBlocks
  import opened Credentials
  import Agent = AgentOption

  // ---- Spans and blocks ----

  function Projects(lines: seq<string>): seq<seq<string>> {
    Cut(lines, Table(PROJECTS)).blocks
  }

  function Platforms(project: seq<string>): seq<seq<string>> {
    Cut(project, Table(PLATFORMS)).blocks
  }

  /** The block is the lines from its position up to the next one. */
  predicate IsBlock(lines: seq<string>, hi: int, at: seq<int>, k: nat, block: seq<string>)
    requires 0 <= hi <= |lines| && k < |at| && 0 <= at[k] < hi
  {
    var end := BlockEnd(at, k, hi - 1);
    at[k] <= end < hi && block == lines[at[k]..end + 1]
  }

  predicate CutsAt(lines: seq<string>, lo: int, hi: int, at: seq<int>, r: Parts)
    requires 0 <= lo <= hi <= |lines|
    requires forall k :: 0 <= k < |at| ==> lo <= at[k] < hi
  {
    && |r.blocks| == |at|
    && r.head == lines[lo..if at == [] then hi else at[0]]
    && forall k :: 0 <= k < |at| ==> IsBlock(lines, hi, at, k, r.blocks[k])
  }

  lemma {:induction false} CutSlice(lines: seq<string>, lo: int, hi: int, test: LineTest)
    requires 0 <= lo <= hi <= |lines|
    ensures CutsAt(lines, lo, hi, Positions(lines, lo, hi, test), Cut(lines[lo..hi], test))
    decreases hi - lo
  {
    hide Passes, Cut, CutsAt;
    if lo == hi {
      CutNothing(test);
      assert lines[lo..hi] == [];
      NothingCut(lines, lo);
    } else {
      var at := Positions(lines, lo + 1, hi, test);
      var rest := lines[lo + 1..hi];
      assert lines[lo..hi] == [lines[lo]] + rest;
      CutSlice(lines, lo + 1, hi, test);
      CutCons(lines[lo], rest, test);
      if Passes(lines[lo], test) {
        CutShift(lines, lo, hi, at, Cut(rest, test));
      } else {
        assert [] + at == at;
        CutLonger(lines, lo, hi, at, Cut(rest, test));
      }
    }
  }

  lemma NothingCut(lines: seq<string>, lo: int)
    requires 0 <= lo <= |lines|
    ensures CutsAt(lines, lo, lo, [], Parts([], []))
  {
  }

  lemma CutLonger(lines: seq<string>, lo: int, hi: int, at: seq<int>, r: Parts)
    requires 0 <= lo < hi <= |lines| && forall k :: 0 <= k < |at| ==> lo + 1 <= at[k] < hi
    requires CutsAt(lines, lo + 1, hi, at, r)
    ensures CutsAt(lines, lo, hi, at, Parts([lines[lo]] + r.head, r.blocks))
  {
    hide IsBlock;
    var end := if at == [] then hi else at[0];
    assert [lines[lo]] + lines[lo + 1..end] == lines[lo..end];
  }

  lemma CutNothing(test: LineTest)
    ensures Cut([], test) == Parts([], [])
  {
  }

  lemma CutShift(lines: seq<string>, lo: int, hi: int, at: seq<int>, r: Parts)
    requires 0 <= lo < hi <= |lines| && forall k :: 0 <= k < |at| ==> lo + 1 <= at[k] < hi
    requires CutsAt(lines, lo + 1, hi, at, r)
    ensures CutsAt(lines, lo, hi, [lo] + at, Parts([], [[lines[lo]] + r.head] + r.blocks))
  {
    hide IsBlock;
    var all, blocks := [lo] + at, [[lines[lo]] + r.head] + r.blocks;
    assert lines[lo..lo] == [];
    FirstBlock(lines, lo, hi, at);
    forall k | 0 < k < |all| ensures IsBlock(lines, hi, all, k, blocks[k]) {
      assert blocks[k] == r.blocks[k - 1];
      LaterBlock(lines, lo, hi, at, k, blocks[k]);
    }
  }

  lemma LaterBlock(lines: seq<string>, lo: int, hi: int, at: seq<int>, k: nat, block: seq<string>)
    requires 0 <= lo < hi <= |lines| && 0 < k <= |at| && 0 <= at[k - 1] < hi
    requires IsBlock(lines, hi, at, k - 1, block)
    ensures IsBlock(lines, hi, [lo] + at, k, block)
  {
    assert ([lo] + at)[k] == at[k - 1] && (k < |at| ==> ([lo] + at)[k + 1] == at[k]);
  }

  lemma FirstBlock(lines: seq<string>, lo: int, hi: int, at: seq<int>)
    requires 0 <= lo < hi <= |lines| && forall k :: 0 <= k < |at| ==> lo + 1 <= at[k] < hi
    ensures IsBlock(lines, hi, [lo] + at, 0, [lines[lo]] + lines[lo + 1..if at == [] then hi else at[0]])
  {
    var next := if at == [] then hi else at[0];
    assert at != [] ==> ([lo] + at)[1] == at[0];
    assert [lines[lo]] + lines[lo + 1..next] == lines[lo..next];
  }

  lemma ProjectBlocks(lines: seq<string>)
    ensures |Projects(lines)| == |ProjectSpans(lines)|
    ensures forall q :: 0 <= q < |ProjectSpans(lines)| ==> Projects(lines)[q] == Agent.ProjectText(lines, q)
  {
    hide Passes, Positions, ProjectSpans, Cut, ProjectAt;
    CutSlice(lines, 0, |lines|, Table(PROJECTS));
    assert lines[0..|lines|] == lines;
    ProjectSpanCount(lines);
    forall q | 0 <= q < |ProjectSpans(lines)| ensures Projects(lines)[q] == Agent.ProjectText(lines, q) {
      ProjectSpanAt(lines, q);
    }
  }

  function PlatformText(lines: seq<string>, q: nat, p: nat): seq<string>
    requires HasPlatform(lines, q, p)
  {
    SpanFacts(lines, q, p);
    lines[SpanOf(lines, q, p).start..SpanOf(lines, q, p).end + 1]
  }

  lemma PlatformCut(lines: seq<string>, q: nat)
    requires q < |ProjectSpans(lines)|
    ensures var s := ProjectSpans(lines)[q];
            && 0 <= s.start <= s.end < |lines| && s.platforms == PlatformsIn(lines, s.start, s.end)
            && q < |Projects(lines)|
            && CutsAt(lines, s.start, s.end + 1, Positions(lines, s.start + 1, s.end + 1, Table(PLATFORMS)),
                      Cut(Projects(lines)[q], Table(PLATFORMS)))
  {
    hide Passes, Positions, ProjectSpans, Cut, PlatformsIn, CutsAt, LastTable, TableEnd, ProvidersIn;
    ProjectBlocks(lines);
    ProjectSpanAt(lines, q);
    NotAPlatform(lines, q);
    var s := ProjectSpans(lines)[q];
    CutSlice(lines, s.start, s.end + 1, Table(PLATFORMS));
  }

  lemma PlatformBlock(lines: seq<string>, q: nat, p: nat)
    requires HasPlatform(lines, q, p)
    ensures q < |Projects(lines)| && p < |Platforms(Projects(lines)[q])|
    ensures Platforms(Projects(lines)[q])[p] == PlatformText(lines, q, p)
  {
    hide Passes, Positions, ProjectSpans, Cut, PlatformsIn, PlatformAt, PlatformWellPlaced, BlockEnd;
    PlatformCut(lines, q);
    var s := ProjectSpans(lines)[q];
    PlatformSpanCount(lines, s.start, s.end);
    PlatformSpanAt(lines, s.start, s.end, p);
  }

  lemma PlatformBlocks(lines: seq<string>, q: nat)
    requires q < |ProjectSpans(lines)|
    ensures q < |Projects(lines)| && |Platforms(Projects(lines)[q])| == |ProjectSpans(lines)[q].platforms|
    ensures forall p :: 0 <= p < |ProjectSpans(lines)[q].platforms| ==>
              Platforms(Projects(lines)[q])[p] == PlatformText(lines, q, p)
  {
    hide Passes, Positions, ProjectSpans, Cut, PlatformsIn, BlockEnd, PlatformText;
    PlatformCut(lines, q);
    var s := ProjectSpans(lines)[q];
    PlatformSpanCount(lines, s.start, s.end);
    forall p | 0 <= p < |s.platforms| ensures Platforms(Projects(lines)[q])[p] == PlatformText(lines, q, p) {
      PlatformBlock(lines, q, p);
    }
  }

  lemma NotAPlatform(lines: seq<string>, q: nat)
    requires q < |ProjectSpans(lines)|
    ensures var s := ProjectSpans(lines)[q];
            && 0 <= s.start <= s.end < |lines|
            && Positions(lines, s.start, s.end + 1, Table(PLATFORMS)) ==
               Positions(lines, s.start + 1, s.end + 1, Table(PLATFORMS))
            && !MatchTableHeader(lines[s.start], AGENT_OPTIONS)
  {
    hide MatchTableHeader, ProjectSpans;
    ProjectSpanAt(lines, q);
    PositionsPass(lines, 0, |lines|, Table(PROJECTS), q);
    var s := ProjectSpans(lines)[q];
    HeadersDiffer(lines[s.start]);
    DoubleIsNotSingle(lines[s.start]);
    assert [] + Positions(lines, s.start + 1, s.end + 1, Table(PLATFORMS))
        == Positions(lines, s.start + 1, s.end + 1, Table(PLATFORMS));
  }

  lemma DoubleIsNotSingle(line: string)
    ensures MatchTableHeader(line, PROJECTS) ==> !MatchTableHeader(line, AGENT_OPTIONS)
    ensures MatchTableHeader(line, PLATFORMS) ==> !MatchTableHeader(line, PLATFORM_OPTIONS)
  {
    hide TrimSpace;
    var t := TrimSpace(line);
    assert PROJECTS[1] == '[' && PLATFORMS[1] == '[' && AGENT_OPTIONS[1] == 'p' && PLATFORM_OPTIONS[1] == 'p';
  }

  // ---- Reading by span is reading the block ----

  lemma NothingRead(lines: seq<string>, lo: int, key: string)
    requires 0 <= lo <= |lines|
    ensures Body([]) == [] && FirstKey([], key) == Lookup(lines, lo, lo - 1, key) == Missing
  {
    hide MatchKey;
  }

  lemma FirstKeyCons(x: string, rest: seq<string>, key: string)
    ensures FirstKey([x] + rest, key) == if MatchKey(x, key) then Found(ValueOf(x, key)) else FirstKey(rest, key)
  {
    hide MatchKey, ValueOf;
    assert ([x] + rest)[1..] == rest;
  }

  lemma LookupStep(lines: seq<string>, lo: int, end: int, key: string)
    requires 0 <= lo <= end < |lines|
    ensures Lookup(lines, lo, end, key) ==
            if MatchKey(lines[lo], key) then Found(ValueOf(lines[lo], key)) else Lookup(lines, lo + 1, end, key)
  {
    hide MatchKey, ValueOf;
  }

  lemma {:induction false} BodySlice(lines: seq<string>, lo: int, hi: int, key: string)
    requires 0 <= lo <= hi <= |lines|
    ensures FirstKey(Body(lines[lo..hi]), key) == Lookup(lines, lo, Find(lines, lo, hi, AnyTable) - 1, key)
    decreases hi - lo
  {
    hide MatchKey, ValueOf, IsAnyTableHeader, Body, FirstKey, Lookup;
    NothingRead(lines, lo, key);
    if lo == hi {
      assert lines[lo..hi] == [];
    } else {
      var rest := lines[lo + 1..hi];
      assert lines[lo..hi] == [lines[lo]] + rest;
      BodyCons(lines[lo], rest);
      if !IsAnyTableHeader(lines[lo]) {
        BodySlice(lines, lo + 1, hi, key);
        FirstKeyCons(lines[lo], Body(rest), key);
        LookupStep(lines, lo, Find(lines, lo, hi, AnyTable) - 1, key);
      }
    }
  }

  lemma {:induction false} FirstSlice(lines: seq<string>, lo: int, hi: int, header: string, key: string)
    requires 0 <= lo <= hi <= |lines|
    ensures InFirst(lines[lo..hi], header, key) ==
            var o := Find(lines, lo, hi, Table(header));
            if o == hi then Missing else Lookup(lines, o + 1, Find(lines, o + 1, hi, AnyTable) - 1, key)
    decreases hi - lo
  {
    hide MatchTableHeader, IsAnyTableHeader, Lookup, FirstKey, Body;
    if lo < hi {
      var rest := lines[lo + 1..hi];
      assert lines[lo..hi] == [lines[lo]] + rest;
      InFirstCons(lines[lo], rest, header, key);
      if MatchTableHeader(lines[lo], header) {
        BodySlice(lines, lo + 1, hi, key);
      } else {
        FirstSlice(lines, lo + 1, hi, header, key);
      }
    }
  }

  lemma {:induction false} HasTableSlice(lines: seq<string>, lo: int, hi: int, header: string)
    requires 0 <= lo <= hi <= |lines|
    ensures HasTableIn(lines[lo..hi], header) <==> Positions(lines, lo, hi, Table(header)) != []
    decreases hi - lo
  {
    hide MatchTableHeader;
    if lo < hi {
      var rest := lines[lo + 1..hi];
      assert lines[lo..hi] == [lines[lo]] + rest;
      HasTableCons(lines[lo], rest, header);
      HasTableSlice(lines, lo + 1, hi, header);
    }
  }

  lemma LastPosition(lines: seq<string>, lo: int, hi: int, test: LineTest)
    requires 0 <= lo < hi <= |lines|
    ensures var at := Positions(lines, lo + 1, hi, test);
            LastOf(Positions(lines, lo, hi, test)) ==
            if at != [] then LastOf(at) else if Passes(lines[lo], test) then lo else -1
  {
    hide Passes;
  }

  function ReadAt(lines: seq<string>, o: int, hi: int, key: string): Found
    requires -1 <= o < hi <= |lines|
  {
    if o < 0 then Missing else Lookup(lines, o + 1, Find(lines, o + 1, hi, AnyTable) - 1, key)
  }

  lemma {:induction false} LastSlice(lines: seq<string>, lo: int, hi: int, header: string, key: string)
    requires 0 <= lo <= hi <= |lines|
    ensures InLast(lines[lo..hi], header, key) ==
            ReadAt(lines, LastOf(Positions(lines, lo, hi, Table(header))), hi, key)
    decreases hi - lo
  {
    hide MatchTableHeader, IsAnyTableHeader, Lookup, FirstKey, Body, HasTableIn, Find, Positions, InLast;
    if lo == hi {
      NothingLast(lines, lo, header, key);
    } else {
      var rest := lines[lo + 1..hi];
      assert lines[lo..hi] == [lines[lo]] + rest;
      InLastCons(lines[lo], rest, header, key);
      HasTableSlice(lines, lo + 1, hi, header);
      LastPosition(lines, lo, hi, Table(header));
      if HasTableIn(rest, header) {
        LastSlice(lines, lo + 1, hi, header, key);
      } else {
        BodySlice(lines, lo + 1, hi, key);
      }
    }
  }

  lemma NothingLast(lines: seq<string>, lo: int, header: string, key: string)
    requires 0 <= lo <= |lines|
    ensures InLast(lines[lo..lo], header, key) == Missing && LastOf(Positions(lines, lo, lo, Table(header))) == -1
  {
  }

  lemma OptionIsInFirst(lines: seq<string>, q: nat, p: nat, key: string, value: string)
    requires HasPlatform(lines, q, p)
    ensures HasOption(lines, q, p, key, value) <==>
            InFirst(PlatformText(lines, q, p), PLATFORM_OPTIONS, key) == Found(value)
  {
    hide Passes, ProjectSpans, Lookup, InFirst, Positions;
    SpanFacts(lines, q, p);
    var span := SpanOf(lines, q, p);
    HeaderOfPlatform(lines, q, p);
    FirstSlice(lines, span.start, span.end + 1, PLATFORM_OPTIONS, key);
  }

  lemma HeaderOfPlatform(lines: seq<string>, q: nat, p: nat)
    requires HasPlatform(lines, q, p)
    ensures var span := SpanOf(lines, q, p);
            && 0 <= span.start < |lines| && MatchTableHeader(lines[span.start], PLATFORMS)
            && !Passes(lines[span.start], Table(PLATFORM_OPTIONS))
  {
    hide MatchTableHeader, ProjectSpans, PlatformAt;
    SpanFacts(lines, q, p);
    DoubleIsNotSingle(lines[SpanOf(lines, q, p).start]);
  }

  lemma TypeIsInBody(lines: seq<string>, q: nat, p: nat, value: string)
    requires HasPlatform(lines, q, p)
    ensures PlatformText(lines, q, p) != []
    ensures HasType(lines, q, p, value) <==> FirstKey(Body(PlatformText(lines, q, p)[1..]), "type") == Found(value)
  {
    hide Passes, ProjectSpans, ValueOf, FirstKey, Body;
    SpanFacts(lines, q, p);
    var span := SpanOf(lines, q, p);
    assert PlatformText(lines, q, p)[1..] == lines[span.start + 1..span.end + 1];
    BodySlice(lines, span.start + 1, span.end + 1, "type");
  }

  lemma AgentOptionIsInLast(lines: seq<string>, q: nat, key: string, value: string)
    requires q < |ProjectSpans(lines)|
    ensures Agent.ReadsOption(lines, q, key, Found(value)) <==>
            InLast(Agent.ProjectText(lines, q), AGENT_OPTIONS, key) == Found(value)
  {
    hide MatchTableHeader, IsAnyTableHeader, ProjectSpans, Lookup, InLast, Positions;
    ProjectSpanAt(lines, q);
    var s := ProjectSpans(lines)[q];
    NotAPlatform(lines, q);
    LastSlice(lines, s.start, s.end + 1, AGENT_OPTIONS, key);
    SkipFirst(lines, s.start, s.end + 1, AGENT_OPTIONS);
    if s.agentOptionsStart >= 0 {
      Agent.TableIsThere(lines, q);
    }
  }

  lemma SkipFirst(lines: seq<string>, lo: int, hi: int, header: string)
    requires 0 <= lo < hi <= |lines| && !MatchTableHeader(lines[lo], header)
    ensures Positions(lines, lo, hi, Table(header)) == Positions(lines, lo + 1, hi, Table(header))
  {
    hide MatchTableHeader;
    assert [] + Positions(lines, lo + 1, hi, Table(header)) == Positions(lines, lo + 1, hi, Table(header));
  }

  // ---- After formatting ----

  /** Every header that begins a project or a platform has content before the next header. */
  predicate BlockHeadersFed(lines: seq<string>) {
    FedAll(lines, Table(PROJECTS)) && FedAll(lines, Table(PLATFORMS))
  }

  lemma FedForAny(lines: seq<string>, header: string)
    requires FedAll(lines, AnyTable) && "[" <= header
    ensures FedAll(lines, Table(header))
  {
    hide MatchTableHeader, IsAnyTableHeader, IsBlank;
    if lines != [] {
      HeaderPasses(lines[0], Table(header));
      FedForAny(lines[1..], header);
    }
  }

  lemma BothAreHeaders()
    ensures IsHeaderTest(Table(PROJECTS)) && IsHeaderTest(Table(PLATFORMS))
    ensures "[" <= AGENT_OPTIONS && "[" <= PLATFORM_OPTIONS
  {
  }

  /** The structure of the formatted file is that of the file, block by block, up to what
      formatting does inside a block. */
  predicate SameBlocks(lines: seq<string>, f: seq<string>) {
    && |Projects(f)| == |Projects(lines)|
    && forall q :: 0 <= q < |Projects(lines)| ==> SameProject(Projects(lines)[q], Projects(f)[q])
  }

  predicate SameProject(project: seq<string>, f: seq<string>) {
    && Compact(f) == Compact(project)
    && |Platforms(f)| == |Platforms(project)|
    && forall p :: 0 <= p < |Platforms(project)| ==> Compact(Platforms(f)[p]) == Compact(Platforms(project)[p])
  }

  lemma SameProjects(project: seq<string>, f: seq<string>)
    requires Compact(f) == Compact(project) && FedAll(project, Table(PLATFORMS)) && FedAll(f, Table(PLATFORMS))
    ensures SameProject(project, f)
  {
    hide Cut, Compact, FedAll;
    BothAreHeaders();
    CutCompact(project, Table(PLATFORMS));
    CutCompact(f, Table(PLATFORMS));
    forall p | 0 <= p < |Platforms(project)| ensures Compact(Platforms(f)[p]) == Compact(Platforms(project)[p]) {
      assert CompactAll(Platforms(f))[p] == CompactAll(Platforms(project))[p];
    }
  }

  lemma FormattedBlocks(lines: seq<string>)
    requires NewlineFree(lines) && BlockHeadersFed(lines)
    ensures SameBlocks(lines, FormatLines(lines))
  {
    hide Cut, Compact, FedAll, FormatLines, NewlineFree, SameProject;
    var f := FormatLines(lines);
    BothAreHeaders();
    FormattedCompact(lines);
    FedForAny(f, PROJECTS);
    FedForAny(f, PLATFORMS);
    CutCompact(lines, Table(PROJECTS));
    CutCompact(f, Table(PROJECTS));
    BlocksFed(lines, Table(PROJECTS), Table(PLATFORMS));
    BlocksFed(f, Table(PROJECTS), Table(PLATFORMS));
    forall q | 0 <= q < |Projects(lines)| ensures SameProject(Projects(lines)[q], Projects(f)[q]) {
      assert CompactAll(Projects(f))[q] == CompactAll(Projects(lines))[q];
      SameProjects(Projects(lines)[q], Projects(f)[q]);
    }
  }

  /** The same in terms of spans. */
  lemma FormattedSpans(lines: seq<string>)
    requires NewlineFree(lines) && BlockHeadersFed(lines)
    ensures var f := FormatLines(lines);
            && |ProjectSpans(f)| == |ProjectSpans(lines)|
            && (forall q :: 0 <= q < |ProjectSpans(lines)| ==>
                  && |ProjectSpans(f)[q].platforms| == |ProjectSpans(lines)[q].platforms|
                  && SameProject(Agent.ProjectText(lines, q), Agent.ProjectText(f, q)))
  {
    hide Cut, FedAll, FormatLines, NewlineFree, ProjectSpans, Agent.ProjectText, SpanOf;
    var f := FormatLines(lines);
    FormattedBlocks(lines);
    ProjectBlocks(lines);
    ProjectBlocks(f);
    forall q | 0 <= q < |ProjectSpans(lines)|
      ensures |ProjectSpans(f)[q].platforms| == |ProjectSpans(lines)[q].platforms|
      ensures SameProject(Agent.ProjectText(lines, q), Agent.ProjectText(f, q))
    {
      PlatformBlocks(lines, q);
      PlatformBlocks(f, q);
      assert SameProject(Projects(lines)[q], Projects(f)[q]);
    }
  }

  lemma FormattedPlatform(lines: seq<string>, q: nat, p: nat)
    requires NewlineFree(lines) && BlockHeadersFed(lines) && HasPlatform(lines, q, p)
    ensures var f := FormatLines(lines);
            && HasPlatform(f, q, p) && Compact(PlatformText(f, q, p)) == Compact(PlatformText(lines, q, p))
            && FedAll(PlatformText(f, q, p), AnyTable)
  {
    hide Cut, FedAll, FormatLines, NewlineFree, ProjectSpans, SpanOf, Compact, PlatformText, Agent.ProjectText;
    var f := FormatLines(lines);
    BothAreHeaders();
    FormattedCompact(lines);
    FormattedSpans(lines);
    ProjectBlocks(lines);
    ProjectBlocks(f);
    PlatformBlocks(lines, q);
    PlatformBlocks(f, q);
    assert SameProject(Projects(lines)[q], Projects(f)[q]);
    BlocksFed(f, Table(PROJECTS), AnyTable);
    BlocksFed(Projects(f)[q], Table(PLATFORMS), AnyTable);
  }

  /** An option that reads a value reads it in the formatted file, under the same indices. */
  lemma OptionReread(lines: seq<string>, q: nat, p: nat, key: string, value: string)
    requires NewlineFree(lines) && BlockHeadersFed(lines) && HasOption(lines, q, p, key, value)
    ensures HasOption(FormatLines(lines), q, p, key, value)
  {
    hide BlockHeadersFed, FedAll, FormatLines, NewlineFree, ProjectSpans, SpanOf, Compact, PlatformText, InFirst,
         HasPlatform;
    var f := FormatLines(lines);
    BothAreHeaders();
    OptionHasPlatform(lines, q, p, key, value);
    FormattedPlatform(lines, q, p);
    OptionIsInFirst(lines, q, p, key, value);
    OptionIsInFirst(f, q, p, key, value);
    InFirstCompact(PlatformText(lines, q, p), PLATFORM_OPTIONS, key);
    InFirstCompact(PlatformText(f, q, p), PLATFORM_OPTIONS, key);
  }

  lemma OptionHasPlatform(lines: seq<string>, q: nat, p: nat, key: string, value: string)
    requires HasOption(lines, q, p, key, value)
    ensures HasPlatform(lines, q, p)
  {
    hide ProjectSpans, Lookup;
  }

  lemma TypeReread(lines: seq<string>, q: nat, p: nat, value: string)
    requires NewlineFree(lines) && BlockHeadersFed(lines) && HasType(lines, q, p, value)
    ensures HasType(FormatLines(lines), q, p, value)
  {
    hide BlockHeadersFed, FedAll, FormatLines, NewlineFree, ProjectSpans, SpanOf, PlatformText, FirstKey, Body,
         Compact, ValueOf;
    var f := FormatLines(lines);
    FormattedPlatform(lines, q, p);
    TypeIsInBody(lines, q, p, value);
    TypeIsInBody(f, q, p, value);
    HeaderStays(lines, q, p);
    HeaderStays(f, q, p);
    var t, tf := PlatformText(lines, q, p), PlatformText(f, q, p);
    FoundHasContent(t[1..], "type");
    FedHead(tf);
    CompactOfText(t);
    CompactOfText(tf);
    assert Compact(t)[1..] == Compact(t[1..]) && Compact(tf)[1..] == Compact(tf[1..]);
    BodyReads(t[1..], "type");
    BodyReads(tf[1..], "type");
  }

  lemma HeaderStays(lines: seq<string>, q: nat, p: nat)
    requires HasPlatform(lines, q, p)
    ensures PlatformText(lines, q, p) != [] && IsAnyTableHeader(PlatformText(lines, q, p)[0])
  {
    hide MatchTableHeader, ProjectSpans, IsAnyTableHeader;
    SpanFacts(lines, q, p);
    HeaderOfPlatform(lines, q, p);
    BothAreHeaders();
    HeaderPasses(lines[SpanOf(lines, q, p).start], Table(PLATFORMS));
  }

  lemma CompactOfText(t: seq<string>)
    requires t != [] && IsAnyTableHeader(t[0]) && ContentFrom(t[1..], 0)
    ensures Compact(t) == [TrimRightBlanks(t[0])] + Compact(t[1..])
  {
    hide IsAnyTableHeader, IsBlank, TrimRightBlanks, Compact;
    assert t == [t[0]] + t[1..];
    CompactCons(t[0], t[1..]);
    HeaderPasses(t[0], AnyTable);
  }

  lemma FedHead(t: seq<string>)
    requires t != [] && IsAnyTableHeader(t[0]) && FedAll(t, AnyTable)
    ensures ContentFrom(t[1..], 0)
  {
    hide IsAnyTableHeader;
    assert t == [t[0]] + t[1..];
    FedCons(t[0], t[1..], AnyTable);
  }

  lemma AgentOptionReread(lines: seq<string>, q: nat, key: string, value: string)
    requires NewlineFree(lines) && BlockHeadersFed(lines) && Agent.ReadsOption(lines, q, key, Found(value))
    ensures Agent.ReadsOption(FormatLines(lines), q, key, Found(value))
  {
    hide BlockHeadersFed, FedAll, FormatLines, NewlineFree, ProjectSpans, Compact, Agent.ProjectText, InLast, Lookup,
         ProjectAt, Cut;
    var f := FormatLines(lines);
    BothAreHeaders();
    FormattedCompact(lines);
    FormattedSpans(lines);
    ProjectBlocks(f);
    BlocksFed(f, Table(PROJECTS), AnyTable);
    AgentOptionIsInLast(lines, q, key, value);
    AgentOptionIsInLast(f, q, key, value);
    InLastCompact(Agent.ProjectText(lines, q), AGENT_OPTIONS, key);
    InLastCompact(Agent.ProjectText(f, q), AGENT_OPTIONS, key);
  }

  // ---- Exactly when the indices survive ----

  /** Headers of platforms that come before the first project do not count. */
  predicate IndexedHeadersFed(lines: seq<string>) {
    && FedAll(lines, Table(PROJECTS))
    && forall q :: 0 <= q < |Projects(lines)| ==> FedAll(Projects(lines)[q], Table(PLATFORMS))
  }

  predicate SameCounts(lines: seq<string>, f: seq<string>) {
    && |ProjectSpans(f)| == |ProjectSpans(lines)|
    && forall q :: 0 <= q < |ProjectSpans(lines)| ==>
         |ProjectSpans(f)[q].platforms| == |ProjectSpans(lines)[q].platforms|
  }

  /** Formatting leaves every project and every platform of it under its index if and only if all
      their headers have content before the next header. */
  lemma IndicesSurviveIff(lines: seq<string>)
    requires NewlineFree(lines)
    ensures SameCounts(lines, FormatLines(lines)) <==> IndexedHeadersFed(lines)
  {
    hide FedAll, FormatLines, NewlineFree, ProjectSpans, Compact, Cut, Agent.ProjectText, SpanOf;
    var f := FormatLines(lines);
    BothAreHeaders();
    FormattedCompact(lines);
    FedForAny(f, PROJECTS);
    FedForAny(f, PLATFORMS);
    ProjectBlocks(lines);
    ProjectBlocks(f);
    CutCompactCount(lines, Table(PROJECTS));
    CutCompactCount(f, Table(PROJECTS));
    BlocksFed(f, Table(PROJECTS), Table(PLATFORMS));
    if FedAll(lines, Table(PROJECTS)) {
      CutCompact(lines, Table(PROJECTS));
      CutCompact(f, Table(PROJECTS));
      forall q | 0 <= q < |Projects(lines)|
        ensures |ProjectSpans(f)[q].platforms| == |ProjectSpans(lines)[q].platforms| <==>
                FedAll(Projects(lines)[q], Table(PLATFORMS))
      {
        assert CompactAll(Projects(f))[q] == CompactAll(Projects(lines))[q];
        PlatformBlocks(lines, q);
        PlatformBlocks(f, q);
        CutCompactCount(Projects(lines)[q], Table(PLATFORMS));
        CutCompactCount(Projects(f)[q], Table(PLATFORMS));
      }
    }
  }
}
