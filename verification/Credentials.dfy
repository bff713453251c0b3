/** The edit chain of SaveFeishuPlatformCredentials: set the platform type, add the options table,
    then upsert the credentials, finding the spans again after every edit. */
module Credentials {
  import opened Text
  import opened ConfigLines
  import opened LineSearch
  import opened Upsert
  import opened Quote
  import opened ConfigSpans
  import opened BlockFrame

  /** The requested values; "" asks for no type change, `setAllow` for the third key. */
  datatype Request = Request(platformType: string, appId: string, appSecret: string, setAllow: bool, allowFrom: string)

  datatype Outcome = Saved(lines: seq<string>) | NoProject | NoPlatform

  predicate HasPlatform(lines: seq<string>, q: nat, p: nat) {
    q < |ProjectSpans(lines)| && p < |ProjectSpans(lines)[q].platforms|
  }

  function SpanOf(lines: seq<string>, q: nat, p: nat): PlatformSpan
    requires HasPlatform(lines, q, p)
  {
    ProjectSpans(lines)[q].platforms[p]
  }

  function SetType(lines: seq<string>, span: PlatformSpan, rendered: string): seq<string>
    requires span.typeLine < |lines|
  {
    if span.typeLine >= 0 then
      lines[span.typeLine := ReplaceKeyLine(lines[span.typeLine], "type", rendered)]
    else
      InsertLines(lines, span.start + 1, [KeyLine("type", rendered)])
  }

  /** The options table, with a blank line on each side where the neighbour is not blank. */
  function OptionsBlock(lines: seq<string>, at: nat): seq<string>
    requires at <= |lines|
  {
    (if at > 0 && TrimSpace(lines[at - 1]) != "" then [""] else [])
    + [PLATFORM_OPTIONS]
    + (if at < |lines| && TrimSpace(lines[at]) != "" then [""] else [])
  }

  function AddOptions(lines: seq<string>, span: PlatformSpan): seq<string>
    requires 0 <= span.end < |lines|
  {
    InsertLines(lines, span.end + 1, OptionsBlock(lines, span.end + 1))
  }

  /** What the editor needs of a span it has just found. */
  lemma SpanFacts(lines: seq<string>, q: nat, p: nat)
    requires HasPlatform(lines, q, p)
    ensures var span := SpanOf(lines, q, p);
            && 0 <= span.start <= span.end < |lines| && span.typeLine < |lines|
            && PlatformWellPlaced(lines, span)
            && span == PlatformAt(lines, span.start, span.end)
  {
    hide Passes, Positions, ProjectSpans, PlatformsIn, PlatformAt;
    EveryPlatformPlaced(lines, q, p);
    ProjectSpanAt(lines, q);
    PlatformSpanAt(lines, ProjectSpans(lines)[q].start, ProjectSpans(lines)[q].end, p);
  }

  /** `lines'` differs from `lines` only inside the body of the block start..end, now start..end'. */
  predicate EditsBody(lines: seq<string>, lines': seq<string>, start: int, end: int, end': int) {
    && 0 <= start <= end < |lines| && start <= end' < |lines'|
    && Edited(lines, lines', start + 1, end + 1, end' + 1)
  }

  lemma BlockHoldsNoOther(lines: seq<string>, lo: int, hi: int, header: string, k: nat, i: int)
    requires 0 <= lo <= hi <= |lines|
    requires var at := Positions(lines, lo, hi, Table(header));
             k < |at| && at[k] < i <= BlockEnd(at, k, hi - 1) && i < hi
    ensures !Passes(lines[i], Table(header))
  {
    hide Passes, Positions;
    var at := Positions(lines, lo, hi, Table(header));
    PositionsAscend(lines, lo, hi, Table(header));
    forall j | 0 <= j < |at| ensures at[j] != i {
      assert k < j ==> at[k + 1] <= at[j];
    }
    if Passes(lines[i], Table(header)) {
      PositionsComplete(lines, lo, hi, Table(header), i);
    }
  }

  /** The body of a platform block holds no block header. */
  lemma BodyIsPlain(lines: seq<string>, q: nat, p: nat)
    requires HasPlatform(lines, q, p)
    ensures var span := SpanOf(lines, q, p); EditsBody(lines, lines, span.start, span.end, span.end)
  {
    hide Passes, Positions, ProjectSpans, PlatformsIn, PlatformAt;
    ProjectSpanAt(lines, q);
    var project := ProjectSpans(lines)[q];
    PlatformSpanAt(lines, project.start, project.end, p);
    PlatformSpanCount(lines, project.start, project.end);
    var span := SpanOf(lines, q, p);
    forall i | span.start + 1 <= i < span.end + 1 ensures !IsBlockHeader(lines[i]) {
      BlockHoldsNoOther(lines, 0, |lines|, PROJECTS, q, i);
      BlockHoldsNoOther(lines, project.start + 1, project.end + 1, PLATFORMS, p, i);
    }
  }

  lemma ReplaceInBody(lines: seq<string>, start: int, end: int, i: int, line: string)
    requires EditsBody(lines, lines, start, end, end) && start < i <= end && !IsBlockHeader(line)
    ensures EditsBody(lines, lines[i := line], start, end, end)
  {
    hide IsBlockHeader;
  }

  lemma InsertInBody(lines: seq<string>, start: int, end: int, at: int, block: seq<string>)
    requires EditsBody(lines, lines, start, end, end) && start < at <= end + 1
    requires forall k :: 0 <= k < |block| ==> !IsBlockHeader(block[k])
    ensures EditsBody(lines, InsertLines(lines, at, block), start, end, end + |block|)
  {
    hide IsBlockHeader;
    var lines', n := InsertLines(lines, at, block), |block|;
    assert forall i :: at <= i < |lines| ==> lines'[i + n] == lines[i];
    forall i | start + 1 <= i < end + n + 1 ensures !IsBlockHeader(lines'[i]) {
      if at + n <= i {
        assert lines'[i] == lines[i - n];
      } else if at <= i {
        assert lines'[i] == block[i - at];
      }
    }
  }

  lemma EditsCompose(lines: seq<string>, mid: seq<string>, lines': seq<string>, start: int, end: int, midEnd: int,
          end': int)
    requires EditsBody(lines, mid, start, end, midEnd) && EditsBody(mid, lines', start, midEnd, end')
    ensures EditsBody(lines, lines', start, end, end')
  {
    hide IsBlockHeader;
    forall i | end + 1 <= i < |lines| ensures lines'[i + (end' - end)] == lines[i] {
      assert mid[i + (midEnd - end)] == lines[i];
      assert lines'[(i + (midEnd - end)) + (end' - midEnd)] == mid[i + (midEnd - end)];
    }
  }

  /** After an edit of its body the platform is found again under the same indices,
      at the same header, and its body is plain again. */
  lemma FoundAgain(lines: seq<string>, lines': seq<string>, q: nat, p: nat, end': int)
    requires HasPlatform(lines, q, p)
    requires var span := SpanOf(lines, q, p); EditsBody(lines, lines', span.start, span.end, end')
    ensures HasPlatform(lines', q, p)
    ensures SpanOf(lines', q, p) == PlatformAt(lines', SpanOf(lines, q, p).start, end')
  {
    hide Passes, Positions, ProjectSpans, PlatformAt, IsBlockHeader, Edited;
    var span := SpanOf(lines, q, p);
    ProjectsKeepIndex(lines, lines', span.start + 1, span.end + 1, end' + 1);
    PlatformsKeepIndex(lines, lines', span.start + 1, span.end + 1, end' + 1, q);
    SpanFacts(lines', q, p);
  }

  lemma FindReplaced(lines: seq<string>, i: int, line: string, lo: int, hi: int, test: LineTest)
    requires 0 <= lo <= hi <= |lines| && 0 <= i < |lines|
    requires !Passes(lines[i], test) && !Passes(line, test)
    ensures Find(lines[i := line], lo, hi, test) == Find(lines, lo, hi, test)
  {
    hide Passes;
    FindFinds(lines, lo, hi, test);
    FindIs(lines[i := line], lo, hi, test, Find(lines, lo, hi, test));
  }

  lemma FindInserted(lines: seq<string>, at: int, block: seq<string>, lo: int, hi: int, test: LineTest)
    requires 0 <= lo <= at <= hi <= |lines|
    requires forall k :: 0 <= k < |block| ==> !Passes(block[k], test)
    ensures Find(InsertLines(lines, at, block), lo, hi + |block|, test)
         == var f := Find(lines, lo, hi, test); if f < at then f else f + |block|
  {
    hide Passes;
    var f, lines', n := Find(lines, lo, hi, test), InsertLines(lines, at, block), |block|;
    FindFinds(lines, lo, hi, test);
    var f' := if f < at then f else f + n;
    forall j | lo <= j < f' ensures !Passes(lines'[j], test) {
      if at + n <= j {
        assert lines'[j] == lines[j - n];
      } else if at <= j {
        assert lines'[j] == block[j - at];
      }
    }
    FindIs(lines', lo, hi + n, test, f');
  }

  lemma KeyLinePassesNothing(line: string)
    requires !IsAnyTableHeader(line)
    ensures !IsBlockHeader(line) && !Passes(line, AnyTable) && !Passes(line, Table(PLATFORM_OPTIONS))
  {
    assert "[" <= PROJECTS && "[" <= PLATFORMS && "[" <= PLATFORM_OPTIONS;
    NoTableNoHeader(line, PROJECTS);
    NoTableNoHeader(line, PLATFORMS);
    NoTableNoHeader(line, PLATFORM_OPTIONS);
  }

  lemma OptionsHeaderFacts()
    ensures !IsBlockHeader(PLATFORM_OPTIONS) && !IsBlockHeader("")
    ensures Passes(PLATFORM_OPTIONS, AnyTable) && Passes(PLATFORM_OPTIONS, Table(PLATFORM_OPTIONS))
    ensures !Passes("", AnyTable) && !Passes("", Table(PLATFORM_OPTIONS)) && forall k :: !Passes("", Key(k))
  {
    var h := PLATFORM_OPTIONS;
    TrimSpaceOfPadded("", h, "");
    assert "" + h + "" == h;
    assert TrimSpace(h) == h && "[" <= h && h[1] == 'p' && PROJECTS[1] == '[' && PLATFORMS[1] == '[';
  }

  predicate TypeIs(lines: seq<string>, start: int, end: int, rendered: string)
    requires 0 <= start <= end < |lines|
  {
    var typeLine := PlatformAt(lines, start, end).typeLine;
    0 <= typeLine < |lines| && ValueOf(lines[typeLine], "type") == rendered
  }

  /** The platform's options table reads `rendered` under `key`. */
  predicate OptionIs(lines: seq<string>, start: int, end: int, key: string, rendered: string)
    requires 0 <= start <= end < |lines|
  {
    var span := PlatformAt(lines, start, end);
    && 0 <= span.optionsStart <= span.optionsEnd < |lines|
    && Lookup(lines, span.optionsStart + 1, span.optionsEnd, key) == Found(rendered)
  }

  lemma PlainPassesNothing(line: string)
    requires !Passes(line, AnyTable)
    ensures !Passes(line, Table(PLATFORM_OPTIONS))
  {
    KeyLinePassesNothing(line);
  }

  /** The platform has an options table before if and only if it has one after. */
  predicate SameOptions(lines: seq<string>, start: int, end: int, lines': seq<string>, end': int)
    requires 0 <= start <= end < |lines| && start <= end' < |lines'|
  {
    PlatformAt(lines, start, end).optionsStart < 0 <==> PlatformAt(lines', start, end').optionsStart < 0
  }

  /** Setting the type: only the body is edited, and the type reads back. */
  lemma TypeReplaced(lines: seq<string>, start: int, end: int, rendered: string)
    requires EditsBody(lines, lines, start, end, end) && CleanValue(rendered)
    requires PlatformAt(lines, start, end).typeLine >= 0
    ensures var lines' := SetType(lines, PlatformAt(lines, start, end), rendered);
            && EditsBody(lines, lines', start, end, end)
            && TypeIs(lines', start, end, rendered) && SameOptions(lines, start, end, lines', end)
  {
    hide Passes, ReplaceKeyLine, ValueOf, Edited, IsAnyTableHeader, MatchKey, SectionEnd, IsBlockHeader;
    var mainEnd := Find(lines, start + 1, end + 1, AnyTable);
    var i := PlatformAt(lines, start, end).typeLine;
    var line := ReplaceKeyLine(lines[i], "type", rendered);
    FindFinds(lines, start + 1, end + 1, AnyTable);
    FindFinds(lines, start + 1, mainEnd, Key("type"));
    ReplacedTypeLine(lines[i], rendered);
    ReplaceInBody(lines, start, end, i, line);
    FindReplaced(lines, i, line, start + 1, end + 1, AnyTable);
    PlainPassesNothing(line);
    PlainPassesNothing(lines[i]);
    FindReplaced(lines, i, line, start + 1, end + 1, Table(PLATFORM_OPTIONS));
    FindIs(lines[i := line], start + 1, mainEnd, Key("type"), i);
  }

  lemma ReplacedTypeLine(line: string, rendered: string)
    requires CleanValue(rendered)
    ensures var line' := ReplaceKeyLine(line, "type", rendered);
            && Passes(line', Key("type")) && !Passes(line', AnyTable) && !IsBlockHeader(line')
            && ValueOf(line', "type") == rendered
  {
    hide MatchKey, IsAnyTableHeader, MatchTableHeader, ReplaceKeyLine, ValueOf;
    ReplacedLineMatches(line, "type", rendered);
    ReplacedLineKeepsComment(line, "type", rendered);
    KeyLinePassesNothing(ReplaceKeyLine(line, "type", rendered));
  }

  lemma TypeInserted(lines: seq<string>, start: int, end: int, rendered: string)
    requires EditsBody(lines, lines, start, end, end) && CleanValue(rendered)
    requires PlatformAt(lines, start, end).typeLine < 0
    ensures var lines' := SetType(lines, PlatformAt(lines, start, end), rendered);
            && EditsBody(lines, lines', start, end, end + 1)
            && TypeIs(lines', start, end + 1, rendered) && SameOptions(lines, start, end, lines', end + 1)
  {
    hide MatchTableHeader, IsAnyTableHeader, MatchKey, KeyLine, ValueOf, Edited;
    var line := KeyLine("type", rendered);
    var lines' := InsertLines(lines, start + 1, [line]);
    KeyLineFacts("type", rendered);
    KeyLinePassesNothing(line);
    InsertInBody(lines, start, end, start + 1, [line]);
    FindInserted(lines, start + 1, [line], start + 1, end + 1, AnyTable);
    FindInserted(lines, start + 1, [line], start + 1, end + 1, Table(PLATFORM_OPTIONS));
    var mainEnd := Find(lines', start + 1, end + 2, AnyTable);
    assert lines'[start + 1] == line;
    FindIs(lines', start + 1, mainEnd, Key("type"), start + 1);
  }

  lemma OptionsBlockShape(lines: seq<string>, at: nat) returns (k: nat)
    requires at <= |lines|
    ensures var block := OptionsBlock(lines, at);
            && k < |block| && block[k] == PLATFORM_OPTIONS
            && forall j :: 0 <= j < |block| && j != k ==> block[j] == ""
  {
    k := if at > 0 && TrimSpace(lines[at - 1]) != "" then 1 else 0;
  }

  lemma OptionsAddedInBody(lines: seq<string>, start: int, end: int)
    requires EditsBody(lines, lines, start, end, end)
    ensures EditsBody(lines, AddOptions(lines, PlatformAt(lines, start, end)), start, end,
            end + |OptionsBlock(lines, end + 1)|)
  {
    hide Passes, Edited, OptionsBlock, IsBlockHeader, InsertLines;
    var k := OptionsBlockShape(lines, end + 1);
    OptionsHeaderFacts();
    InsertInBody(lines, start, end, end + 1, OptionsBlock(lines, end + 1));
  }

  /** Adding a missing options table puts it behind the block's last line and keeps the type. */
  lemma OptionsAdded(lines: seq<string>, start: int, end: int)
    requires 0 <= start <= end < |lines| && PlatformAt(lines, start, end).optionsStart < 0
    ensures var lines' := AddOptions(lines, PlatformAt(lines, start, end));
            var end' := end + |OptionsBlock(lines, end + 1)|;
            && PlatformAt(lines', start, end').optionsStart > end
            && PlatformAt(lines', start, end').typeLine == PlatformAt(lines, start, end).typeLine
            && forall i :: 0 <= i <= end ==> lines'[i] == lines[i]
  {
    hide Passes, OptionsBlock, IsBlockHeader, SectionEnd;
    var block := OptionsBlock(lines, end + 1);
    var k := OptionsBlockShape(lines, end + 1);
    OptionsHeaderFacts();
    AppendedTableIsFound(lines, start, end, block, k, Table(PLATFORM_OPTIONS));
    TypeKeptByAppend(lines, start, end, block, k);
  }

  lemma TypeKeptByAppend(lines: seq<string>, start: int, end: int, block: seq<string>, k: nat)
    requires 0 <= start <= end < |lines| && k < |block| && Passes(block[k], AnyTable)
    requires forall j :: 0 <= j < k ==> block[j] == ""
    ensures PlatformAt(InsertLines(lines, end + 1, block), start, end + |block|).typeLine
         == PlatformAt(lines, start, end).typeLine
  {
    hide Passes, SectionEnd;
    var lines', n := InsertLines(lines, end + 1, block), |block|;
    OptionsHeaderFacts();
    AppendedTableIsFound(lines, start, end, block, k, AnyTable);
    var mainEnd, mainEnd' := Find(lines, start + 1, end + 1, AnyTable), Find(lines', start + 1, end + n + 1, AnyTable);
    forall i | end < i < mainEnd' ensures lines'[i] == "" {
      assert lines'[i] == block[i - (end + 1)];
    }
    FirstTypeKept(lines, lines', start, end, mainEnd, mainEnd');
  }

  lemma AppendedTableIsFound(lines: seq<string>, start: int, end: int, block: seq<string>, k: nat, test: LineTest)
    requires 0 <= start <= end < |lines| && k < |block| && Passes(block[k], test)
    requires forall j :: 0 <= j < k ==> !Passes(block[j], test)
    ensures Find(InsertLines(lines, end + 1, block), start + 1, end + |block| + 1, test)
         == var f := Find(lines, start + 1, end + 1, test); if f <= end then f else end + 1 + k
  {
    hide Passes;
    var lines', f := InsertLines(lines, end + 1, block), Find(lines, start + 1, end + 1, test);
    FindFinds(lines, start + 1, end + 1, test);
    var f' := if f <= end then f else end + 1 + k;
    forall j | start + 1 <= j < f' ensures !Passes(lines'[j], test) {
      if end < j {
        assert lines'[j] == block[j - (end + 1)];
      }
    }
    assert lines'[end + 1 + k] == block[k];
    FindIs(lines', start + 1, end + |block| + 1, test, f');
  }

  /** The first type line of the main table, when only lines after `end` were added. */
  lemma FirstTypeKept(lines: seq<string>, lines': seq<string>, start: int, end: int, mainEnd: int, mainEnd': int)
    requires 0 <= start <= end < |lines| && start < mainEnd <= end + 1 && mainEnd <= mainEnd' <= |lines'|
             && end < |lines'|
    requires mainEnd <= end ==> mainEnd' == mainEnd
    requires forall i :: start < i <= end ==> lines'[i] == lines[i]
    requires forall i :: end < i < mainEnd' ==> lines'[i] == ""
    ensures var t, t' := Find(lines, start + 1, mainEnd, Key("type")), Find(lines', start + 1, mainEnd', Key("type"));
            if t < mainEnd then t' == t else t' == mainEnd'
  {
    hide Passes;
    FindFinds(lines, start + 1, mainEnd, Key("type"));
    OptionsHeaderFacts();
    var t := Find(lines, start + 1, mainEnd, Key("type"));
    FindIs(lines', start + 1, mainEnd', Key("type"), if t < mainEnd then t else mainEnd');
  }

  lemma OptionsAreBehindMainTable(lines: seq<string>, start: int, end: int)
    requires 0 <= start <= end < |lines| && PlatformAt(lines, start, end).optionsStart >= 0
    ensures var span := PlatformAt(lines, start, end);
            && Find(lines, start + 1, end + 1, AnyTable) <= span.optionsStart <= span.optionsEnd <= end
            && span.optionsStart == Find(lines, start + 1, end + 1, Table(PLATFORM_OPTIONS))
            && span.optionsEnd + 1 == Find(lines, span.optionsStart + 1, end + 1, AnyTable)
            && span.typeLine < span.optionsStart
            && forall i :: span.optionsStart < i <= span.optionsEnd ==> !IsAnyTableHeader(lines[i])
  {
    hide MatchTableHeader, IsAnyTableHeader, MatchKey;
    var span := PlatformAt(lines, start, end);
    FindFinds(lines, start + 1, end + 1, AnyTable);
    FindFinds(lines, start + 1, end + 1, Table(PLATFORM_OPTIONS));
    FindFinds(lines, span.optionsStart + 1, end + 1, AnyTable);
    if !IsAnyTableHeader(lines[span.optionsStart]) {
      NoTableNoHeader(lines[span.optionsStart], PLATFORM_OPTIONS);
    }
  }

  lemma FirstTypeUntouched(lines: seq<string>, lines': seq<string>, lo: int, hi: int)
    requires 0 <= lo <= hi <= |lines| && hi <= |lines'|
    requires forall i :: lo <= i < hi ==> lines'[i] == lines[i]
    ensures Find(lines', lo, hi, Key("type")) == Find(lines, lo, hi, Key("type"))
  {
    hide Passes;
    FindFinds(lines, lo, hi, Key("type"));
    FindIs(lines', lo, hi, Key("type"), Find(lines, lo, hi, Key("type")));
  }

  /** Where the span ends up when an option line was replaced or inserted. */
  predicate OptionEdited(lines: seq<string>, lines': seq<string>, start: int, end: int, end': int, hi': int) {
    && EditsBody(lines, lines', start, end, end')
    && PlatformAt(lines', start, end')
       == PlatformAt(lines, start, end).(end := end', optionsEnd := hi')
    && (forall i :: 0 <= i <= PlatformAt(lines, start, end).optionsStart ==> i < |lines'| && lines'[i] == lines[i])
  }

  lemma OptionLineReplaced(lines: seq<string>, start: int, end: int, i: int, line: string)
    requires EditsBody(lines, lines, start, end, end) && PlatformAt(lines, start, end).optionsStart >= 0
    requires PlatformAt(lines, start, end).optionsStart < i <= PlatformAt(lines, start, end).optionsEnd
    requires !IsAnyTableHeader(line)
    ensures OptionEdited(lines, lines[i := line], start, end, end, PlatformAt(lines, start, end).optionsEnd)
  {
    hide MatchTableHeader, IsAnyTableHeader, MatchKey, Edited, IsBlockHeader;
    var span, lines' := PlatformAt(lines, start, end), lines[i := line];
    OptionsAreBehindMainTable(lines, start, end);
    KeyLinePassesNothing(line);
    KeyLinePassesNothing(lines[i]);
    ReplaceInBody(lines, start, end, i, line);
    FindReplaced(lines, i, line, start + 1, end + 1, AnyTable);
    FindReplaced(lines, i, line, start + 1, end + 1, Table(PLATFORM_OPTIONS));
    FindReplaced(lines, i, line, span.optionsStart + 1, end + 1, AnyTable);
    FirstTypeUntouched(lines, lines', start + 1, Find(lines, start + 1, end + 1, AnyTable));
  }

  lemma OptionSpanAfterInsert(lines: seq<string>, start: int, end: int, line: string)
    requires 0 <= start <= end < |lines| && PlatformAt(lines, start, end).optionsStart >= 0 && !IsAnyTableHeader(line)
    ensures var span := PlatformAt(lines, start, end);
            var at := span.optionsEnd + 1;
            var lines' := InsertLines(lines, at, [line]);
            && start < span.optionsStart < at <= end + 1 && |lines'| == |lines| + 1
            && PlatformAt(lines', start, end + 1) == span.(end := end + 1, optionsEnd := at)
  {
    hide Passes, IsAnyTableHeader, InsertLines, Find;
    OptionsAreBehindMainTable(lines, start, end);
    var span := PlatformAt(lines, start, end);
    var at := span.optionsEnd + 1;
    var lines' := InsertLines(lines, at, [line]);
    InsertedLength(lines, at, [line]);
    KeyLinePassesNothing(line);
    FindInserted(lines, at, [line], start + 1, end + 1, AnyTable);
    FindInserted(lines, at, [line], start + 1, end + 1, Table(PLATFORM_OPTIONS));
    FindInserted(lines, at, [line], span.optionsStart + 1, end + 1, AnyTable);
    FirstTypeUntouched(lines, lines', start + 1, Find(lines, start + 1, end + 1, AnyTable));
  }

  lemma InsertedLength(lines: seq<string>, at: int, block: seq<string>)
    requires 0 <= at <= |lines|
    ensures |InsertLines(lines, at, block)| == |lines| + |block|
    ensures forall i :: 0 <= i < at ==> InsertLines(lines, at, block)[i] == lines[i]
  {
  }

  lemma OptionLineInserted(lines: seq<string>, start: int, end: int, line: string)
    requires EditsBody(lines, lines, start, end, end) && PlatformAt(lines, start, end).optionsStart >= 0
    requires !IsAnyTableHeader(line)
    ensures var hi := PlatformAt(lines, start, end).optionsEnd;
            0 <= hi <= end && OptionEdited(lines, InsertLines(lines, hi + 1, [line]), start, end, end + 1, hi + 1)
  {
    hide Passes, IsAnyTableHeader, Edited, IsBlockHeader, InsertLines, PlatformAt;
    OptionSpanAfterInsert(lines, start, end, line);
    var at := PlatformAt(lines, start, end).optionsEnd + 1;
    InsertedLength(lines, at, [line]);
    KeyLinePassesNothing(line);
    InsertInBody(lines, start, end, at, [line]);
  }

  function UpsertOption(lines: seq<string>, span: PlatformSpan, key: string, rendered: string): seq<string> {
    UpsertKey(lines, span.optionsStart + 1, span.optionsEnd, key, rendered)
  }

  /** One upsert in the options table: only the body is edited, and the span is found again
      where the edit left it. */
  lemma OptionUpserted(lines: seq<string>, start: int, end: int, key: string, rendered: string)
    requires EditsBody(lines, lines, start, end, end) && PlatformAt(lines, start, end).optionsStart >= 0
    requires IsBareKey(key)
    ensures var span := PlatformAt(lines, start, end);
            && 0 <= span.optionsStart <= span.optionsEnd < |lines|
            && var hi' := EndAfter(lines, span.optionsStart + 1, span.optionsEnd, key);
               OptionEdited(lines, UpsertOption(lines, span, key, rendered), start, end, end + hi' - span.optionsEnd,
                 hi')
  {
    hide Passes, Edited, PlatformAt, OptionEdited, ReplaceKeyLine, KeyLine, IsAnyTableHeader, FindKey, Find;
    OptionsAreBehindMainTable(lines, start, end);
    var span := PlatformAt(lines, start, end);
    var lo, hi := span.optionsStart + 1, span.optionsEnd;
    var i := FindKey(lines, lo, hi, key);
    UpsertIs(lines, lo, hi, key, rendered);
    if i <= hi {
      ReplacedLineMatches(lines[i], key, rendered);
      OptionLineReplaced(lines, start, end, i, ReplaceKeyLine(lines[i], key, rendered));
    } else {
      KeyLineFacts(key, rendered);
      OptionLineInserted(lines, start, end, KeyLine(key, rendered));
    }
  }

  function EndAfterUpsert(lines: seq<string>, start: int, end: int, key: string): int
    requires 0 <= start <= end < |lines|
    requires 0 <= PlatformAt(lines, start, end).optionsStart <= PlatformAt(lines, start, end).optionsEnd < |lines|
  {
    var span := PlatformAt(lines, start, end);
    end + EndAfter(lines, span.optionsStart + 1, span.optionsEnd, key) - span.optionsEnd
  }

  /** The upserted option reads back. */
  lemma UpsertedOptionReads(lines: seq<string>, start: int, end: int, key: string, rendered: string)
    requires EditsBody(lines, lines, start, end, end) && PlatformAt(lines, start, end).optionsStart >= 0
    requires IsBareKey(key) && CleanValue(rendered)
    ensures 0 <= PlatformAt(lines, start, end).optionsStart <= PlatformAt(lines, start, end).optionsEnd < |lines|
    ensures var lines', end' := UpsertOption(lines, PlatformAt(lines, start, end), key, rendered),
            EndAfterUpsert(lines, start, end, key);
            EditsBody(lines, lines', start, end, end') && OptionIs(lines', start, end', key, rendered)
  {
    hide Passes, Edited, PlatformAt, FindKey, UpsertKey, Lookup, CleanValue;
    OptionUpserted(lines, start, end, key, rendered);
    OptionsAreBehindMainTable(lines, start, end);
    var span := PlatformAt(lines, start, end);
    PutGet(lines, span.optionsStart + 1, span.optionsEnd, key, rendered);
  }

  /** Every other option, and the type, read as before. */
  lemma OtherOptionReads(lines: seq<string>, start: int, end: int, key: string, rendered: string, other: string,
          value: string)
    requires EditsBody(lines, lines, start, end, end) && PlatformAt(lines, start, end).optionsStart >= 0
    requires IsBareKey(key) && IsBareKey(other) && other != key && OptionIs(lines, start, end, other, value)
    ensures var lines', end' := UpsertOption(lines, PlatformAt(lines, start, end), key, rendered),
            EndAfterUpsert(lines, start, end, key);
            EditsBody(lines, lines', start, end, end') && OptionIs(lines', start, end', other, value)
  {
    hide Passes, Edited, PlatformAt, FindKey, UpsertKey, Lookup;
    OptionUpserted(lines, start, end, key, rendered);
    OptionsAreBehindMainTable(lines, start, end);
    var span := PlatformAt(lines, start, end);
    OtherKeysUnchanged(lines, span.optionsStart + 1, span.optionsEnd, key, rendered, other);
  }

  lemma TypeReadsAfterUpsert(lines: seq<string>, start: int, end: int, key: string, rendered: string, value: string)
    requires EditsBody(lines, lines, start, end, end) && PlatformAt(lines, start, end).optionsStart >= 0
    requires IsBareKey(key) && TypeIs(lines, start, end, value)
    ensures 0 <= PlatformAt(lines, start, end).optionsStart <= PlatformAt(lines, start, end).optionsEnd < |lines|
    ensures var lines', end' := UpsertOption(lines, PlatformAt(lines, start, end), key, rendered),
            EndAfterUpsert(lines, start, end, key);
            EditsBody(lines, lines', start, end, end') && TypeIs(lines', start, end', value)
  {
    hide Passes, Edited, PlatformAt, FindKey, UpsertKey, ValueOf;
    OptionUpserted(lines, start, end, key, rendered);
    OptionsAreBehindMainTable(lines, start, end);
  }

  /** The same platform, edited in its body only, is found under the same indices. */
  predicate Follows(lines: seq<string>, lines': seq<string>, q: nat, p: nat) {
    && HasPlatform(lines, q, p) && HasPlatform(lines', q, p)
    && SpanOf(lines', q, p).start == SpanOf(lines, q, p).start
    && EditsBody(lines, lines', SpanOf(lines, q, p).start, SpanOf(lines, q, p).end, SpanOf(lines', q, p).end)
  }

  lemma FollowsIfEdited(lines: seq<string>, lines': seq<string>, q: nat, p: nat, end': int)
    requires HasPlatform(lines, q, p)
    requires EditsBody(lines, lines', SpanOf(lines, q, p).start, SpanOf(lines, q, p).end, end')
    ensures Follows(lines, lines', q, p)
    ensures SpanOf(lines', q, p) == PlatformAt(lines', SpanOf(lines, q, p).start, end')
  {
    hide ProjectSpans, Edited, PlatformAt;
    FoundAgain(lines, lines', q, p, end');
  }

  lemma FollowsCompose(lines: seq<string>, mid: seq<string>, lines': seq<string>, q: nat, p: nat)
    requires Follows(lines, mid, q, p) && Follows(mid, lines', q, p)
    ensures Follows(lines, lines', q, p)
  {
    hide ProjectSpans, Edited;
    EditsCompose(lines, mid, lines', SpanOf(lines, q, p).start, SpanOf(lines, q, p).end,
      SpanOf(mid, q, p).end, SpanOf(lines', q, p).end);
  }

  /** The platform's own reading of its type and options. */
  predicate HasType(lines: seq<string>, q: nat, p: nat, rendered: string) {
    && HasPlatform(lines, q, p)
    && var span := SpanOf(lines, q, p);
       0 <= span.typeLine < |lines| && ValueOf(lines[span.typeLine], "type") == rendered
  }

  predicate HasOptions(lines: seq<string>, q: nat, p: nat) {
    && HasPlatform(lines, q, p)
    && 0 <= SpanOf(lines, q, p).optionsStart <= SpanOf(lines, q, p).optionsEnd < |lines|
  }

  predicate HasOption(lines: seq<string>, q: nat, p: nat, key: string, rendered: string) {
    && HasOptions(lines, q, p)
    && var span := SpanOf(lines, q, p);
       Lookup(lines, span.optionsStart + 1, span.optionsEnd, key) == Found(rendered)
  }

  lemma TypeStage(lines: seq<string>, q: nat, p: nat, rendered: string)
    requires HasPlatform(lines, q, p) && CleanValue(rendered)
    ensures SpanOf(lines, q, p).typeLine < |lines|
    ensures var lines' := SetType(lines, SpanOf(lines, q, p), rendered);
            && Follows(lines, lines', q, p) && HasType(lines', q, p, rendered)
            && (SpanOf(lines', q, p).optionsStart < 0 <==> SpanOf(lines, q, p).optionsStart < 0)
  {
    hide ProjectSpans, Edited, PlatformAt, ValueOf, SetType, CleanValue, PlatformWellPlaced;
    SpanFacts(lines, q, p);
    BodyIsPlain(lines, q, p);
    var span := SpanOf(lines, q, p);
    var lines' := SetType(lines, span, rendered);
    if span.typeLine >= 0 {
      TypeReplaced(lines, span.start, span.end, rendered);
      FollowsIfEdited(lines, lines', q, p, span.end);
    } else {
      TypeInserted(lines, span.start, span.end, rendered);
      FollowsIfEdited(lines, lines', q, p, span.end + 1);
    }
  }

  lemma OptionsStage(lines: seq<string>, q: nat, p: nat)
    requires HasPlatform(lines, q, p) && SpanOf(lines, q, p).optionsStart < 0
    ensures 0 <= SpanOf(lines, q, p).end < |lines|
    ensures var lines' := AddOptions(lines, SpanOf(lines, q, p));
            && Follows(lines, lines', q, p) && HasOptions(lines', q, p)
            && forall v :: HasType(lines, q, p, v) ==> HasType(lines', q, p, v)
  {
    hide ProjectSpans, Edited, PlatformAt, ValueOf, AddOptions, OptionsBlock, Passes;
    SpanFacts(lines, q, p);
    BodyIsPlain(lines, q, p);
    var span := SpanOf(lines, q, p);
    var lines' := AddOptions(lines, span);
    OptionsAddedInBody(lines, span.start, span.end);
    OptionsAdded(lines, span.start, span.end);
    FollowsIfEdited(lines, lines', q, p, span.end + |OptionsBlock(lines, span.end + 1)|);
    SpanFacts(lines', q, p);
  }

  lemma OptionStage(lines: seq<string>, q: nat, p: nat, key: string, rendered: string)
    requires HasOptions(lines, q, p) && IsBareKey(key) && CleanValue(rendered)
    ensures var lines' := UpsertOption(lines, SpanOf(lines, q, p), key, rendered);
            Follows(lines, lines', q, p) && HasOption(lines', q, p, key, rendered)
  {
    hide ProjectSpans, Edited, PlatformAt, Lookup, UpsertOption, Passes, IsBareKey, CleanValue, PlatformWellPlaced;
    SpanFacts(lines, q, p);
    BodyIsPlain(lines, q, p);
    var span := SpanOf(lines, q, p);
    UpsertedOptionReads(lines, span.start, span.end, key, rendered);
    FollowsIfEdited(lines, UpsertOption(lines, span, key, rendered), q, p,
      EndAfterUpsert(lines, span.start, span.end, key));
  }

  lemma OptionStageKeeps(lines: seq<string>, q: nat, p: nat, key: string, rendered: string, other: string,
          value: string)
    requires HasOption(lines, q, p, other, value) && IsBareKey(key) && IsBareKey(other) && other != key
    ensures HasOption(UpsertOption(lines, SpanOf(lines, q, p), key, rendered), q, p, other, value)
  {
    hide ProjectSpans, Edited, PlatformAt, Lookup, UpsertOption, Passes, IsBareKey, PlatformWellPlaced;
    SpanFacts(lines, q, p);
    BodyIsPlain(lines, q, p);
    var span := SpanOf(lines, q, p);
    OtherOptionReads(lines, span.start, span.end, key, rendered, other, value);
    FollowsIfEdited(lines, UpsertOption(lines, span, key, rendered), q, p,
      EndAfterUpsert(lines, span.start, span.end, key));
  }

  lemma OptionStageKeepsType(lines: seq<string>, q: nat, p: nat, key: string, rendered: string, value: string)
    requires HasOptions(lines, q, p) && HasType(lines, q, p, value) && IsBareKey(key)
    ensures HasType(UpsertOption(lines, SpanOf(lines, q, p), key, rendered), q, p, value)
  {
    hide ProjectSpans, Edited, PlatformAt, ValueOf, UpsertOption, Passes, IsBareKey, PlatformWellPlaced;
    SpanFacts(lines, q, p);
    BodyIsPlain(lines, q, p);
    var span := SpanOf(lines, q, p);
    TypeReadsAfterUpsert(lines, span.start, span.end, key, rendered, value);
    FollowsIfEdited(lines, UpsertOption(lines, span, key, rendered), q, p,
      EndAfterUpsert(lines, span.start, span.end, key));
  }

  function WithType(lines: seq<string>, q: nat, p: nat, r: Request, printable: Printable): (lines': seq<string>)
    requires HasPlatform(lines, q, p)
    ensures Follows(lines, lines', q, p)
    ensures SpanOf(lines', q, p).optionsStart < 0 <==> SpanOf(lines, q, p).optionsStart < 0
    ensures r.platformType != "" ==> HasType(lines', q, p, QuoteString(r.platformType, printable))
  {
    if r.platformType != "" then
      QuotedIsClean(r.platformType, printable);
      TypeStage(lines, q, p, QuoteString(r.platformType, printable));
      SetType(lines, SpanOf(lines, q, p), QuoteString(r.platformType, printable))
    else
      BodyIsPlain(lines, q, p);
      lines
  }

  function WithOptions(lines: seq<string>, q: nat, p: nat): (lines': seq<string>)
    requires HasPlatform(lines, q, p)
    ensures Follows(lines, lines', q, p) && HasOptions(lines', q, p)
    ensures forall v :: HasType(lines, q, p, v) ==> HasType(lines', q, p, v)
  {
    SpanFacts(lines, q, p);
    if SpanOf(lines, q, p).optionsStart < 0 then
      OptionsStage(lines, q, p);
      AddOptions(lines, SpanOf(lines, q, p))
    else
      BodyIsPlain(lines, q, p);
      lines
  }

  function WithKey(lines: seq<string>, q: nat, p: nat, key: string, value: string,
          printable: Printable): (lines': seq<string>)
    requires HasOptions(lines, q, p) && IsBareKey(key)
    ensures Follows(lines, lines', q, p) && HasOptions(lines', q, p)
    ensures HasOption(lines', q, p, key, QuoteString(value, printable))
  {
    QuotedIsClean(value, printable);
    OptionStage(lines, q, p, key, QuoteString(value, printable));
    UpsertOption(lines, SpanOf(lines, q, p), key, QuoteString(value, printable))
  }

  lemma KeysAreBare()
    ensures IsBareKey("app_id") && IsBareKey("app_secret") && IsBareKey("allow_from")
  {
  }

  function WithCredentials(lines: seq<string>, q: nat, p: nat, r: Request, printable: Printable): (lines': seq<string>)
    requires HasOptions(lines, q, p)
  {
    KeysAreBare();
    var withId := WithKey(lines, q, p, "app_id", TrimSpace(r.appId), printable);
    var withSecret := WithKey(withId, q, p, "app_secret", TrimSpace(r.appSecret), printable);
    if r.setAllow then WithKey(withSecret, q, p, "allow_from", r.allowFrom, printable) else withSecret
  }

  /** The whole chain, from the two index checks to the last upsert. */
  function Save(lines: seq<string>, q: nat, p: nat, r: Request, printable: Printable): Outcome {
    if q >= |ProjectSpans(lines)| then NoProject
    else if p >= |ProjectSpans(lines)[q].platforms| then NoPlatform
    else
      Saved(WithCredentials(WithOptions(WithType(lines, q, p, r, printable), q, p), q, p, r, printable))
  }

  /** The chain as the editor runs it, on a slice of lines that some edits write into
      and others replace by a longer one. */
  method SaveFeishuPlatformCredentials(file: array<string>, q: nat, p: nat, r: Request, printable: Printable)
    returns (result: Outcome)
    modifies file
    ensures result == Save(old(file[..]), q, p, r, printable)
    ensures !result.Saved? ==> file[..] == old(file[..])
  {
    hide ProjectSpans, EditsBody, QuoteString, TrimSpace, IsBareKey, HasOption, HasType, UpsertKey, ReplaceKeyLine,
         KeyLine;
    var spans := BuildRawProjectSpans(file[..]);
    if q >= |spans| {
      return NoProject;
    }
    if p >= |spans[q].platforms| {
      return NoPlatform;
    }
    KeysAreBare();
    var lines := ApplyType(file, q, p, spans[q].platforms[p], r, printable);
    lines := ApplyOptions(lines, q, p);
    lines := ApplyKey(lines, q, p, "app_id", TrimSpace(r.appId), printable);
    lines := ApplyKey(lines, q, p, "app_secret", TrimSpace(r.appSecret), printable);
    if r.setAllow {
      lines := ApplyKey(lines, q, p, "allow_from", r.allowFrom, printable);
    }
    result := Saved(lines[..]);
  }

  method ReloadSpan(lines: seq<string>, q: nat, p: nat) returns (span: PlatformSpan)
    requires HasPlatform(lines, q, p)
    ensures span == SpanOf(lines, q, p)
  {
    var spans := BuildRawProjectSpans(lines);
    span := spans[q].platforms[p];
  }

  method ApplyType(lines: array<string>, q: nat, p: nat, span: PlatformSpan, r: Request, printable: Printable)
    returns (out: array<string>)
    requires HasPlatform(lines[..], q, p) && span == SpanOf(lines[..], q, p)
    modifies lines
    ensures out[..] == WithType(old(lines[..]), q, p, r, printable)
    ensures out == lines || fresh(out)
  {
    hide ProjectSpans, Follows, QuoteString, ReplaceKeyLine, KeyLine, HasType;
    out := lines;
    if r.platformType != "" {
      SpanFacts(lines[..], q, p);
      if span.typeLine >= 0 {
        lines[span.typeLine] := ReplaceKeyLine(lines[span.typeLine], "type", QuoteString(r.platformType, printable));
      } else {
        out := InsertLinesArray(lines, span.start + 1, [KeyLine("type", QuoteString(r.platformType, printable))]);
      }
    }
  }

  method ApplyOptions(lines: array<string>, q: nat, p: nat) returns (out: array<string>)
    requires HasPlatform(lines[..], q, p)
    ensures out[..] == WithOptions(lines[..], q, p)
    ensures out == lines || fresh(out)
  {
    hide ProjectSpans, Follows, OptionsBlock, HasOptions, HasType, InsertLines, Find, PlatformAt;
    var span := ReloadSpan(lines[..], q, p);
    SpanFacts(lines[..], q, p);
    out := lines;
    if span.optionsStart < 0 {
      out := InsertLinesArray(lines, span.end + 1, OptionsBlock(lines[..], span.end + 1));
    }
  }

  method ApplyKey(lines: array<string>, q: nat, p: nat, key: string, value: string, printable: Printable)
    returns (out: array<string>)
    requires HasOptions(lines[..], q, p) && IsBareKey(key)
    modifies lines
    ensures out[..] == WithKey(old(lines[..]), q, p, key, value, printable)
    ensures out == lines || fresh(out)
  {
    hide ProjectSpans, Follows, QuoteString, UpsertKey, IsBareKey, HasOption;
    var span := ReloadSpan(lines[..], q, p);
    out := UpsertTomlKey(lines, span.optionsStart + 1, span.optionsEnd, key, QuoteString(value, printable));
  }

  lemma CredentialsStage(lines: seq<string>, q: nat, p: nat, r: Request, printable: Printable)
    requires HasOptions(lines, q, p)
    ensures var lines' := WithCredentials(lines, q, p, r, printable);
            && Follows(lines, lines', q, p)
            && HasOption(lines', q, p, "app_id", QuoteString(TrimSpace(r.appId), printable))
            && HasOption(lines', q, p, "app_secret", QuoteString(TrimSpace(r.appSecret), printable))
            && (r.setAllow ==> HasOption(lines', q, p, "allow_from", QuoteString(r.allowFrom, printable)))
            && forall v :: HasType(lines, q, p, v) ==> HasType(lines', q, p, v)
  {
    hide ProjectSpans, EditsBody, Lookup, ValueOf, UpsertOption, IsBareKey, QuoteString, TrimSpace, Follows,
         HasOption, HasType, HasOptions;
    KeysAreBare();
    var id, secret, allow := TrimSpace(r.appId), TrimSpace(r.appSecret), r.allowFrom;
    var one := WithKey(lines, q, p, "app_id", id, printable);
    var two := WithKey(one, q, p, "app_secret", secret, printable);
    FollowsCompose(lines, one, two, q, p);
    KeepsAll(lines, q, p, "app_id", id, printable, "", "");
    KeepsAll(one, q, p, "app_secret", secret, printable, "app_id", QuoteString(id, printable));
    if r.setAllow {
      var three := WithKey(two, q, p, "allow_from", allow, printable);
      FollowsCompose(lines, two, three, q, p);
      KeepsAll(two, q, p, "allow_from", allow, printable, "app_id", QuoteString(id, printable));
      KeepsAll(two, q, p, "allow_from", allow, printable, "app_secret", QuoteString(secret, printable));
    }
  }

  /** One more key keeps what another key and the type read. */
  lemma KeepsAll(lines: seq<string>, q: nat, p: nat, key: string, value: string, printable: Printable, other: string,
          otherValue: string)
    requires HasOptions(lines, q, p) && IsBareKey(key)
    ensures var lines' := WithKey(lines, q, p, key, value, printable);
            && (IsBareKey(other) && other != key && HasOption(lines, q, p, other, otherValue) ==>
               HasOption(lines', q, p, other, otherValue))
            && forall v :: HasType(lines, q, p, v) ==> HasType(lines', q, p, v)
  {
    hide ProjectSpans, EditsBody, Lookup, ValueOf, UpsertOption, IsBareKey, QuoteString;
    if IsBareKey(other) && other != key && HasOption(lines, q, p, other, otherValue) {
      OptionStageKeeps(lines, q, p, key, QuoteString(value, printable), other, otherValue);
    }
    forall v | HasType(lines, q, p, v) ensures HasType(WithKey(lines, q, p, key, value, printable), q, p, v) {
      OptionStageKeepsType(lines, q, p, key, QuoteString(value, printable), v);
    }
  }

  /** Multi-edit theorem. The chain succeeds exactly for the platforms of the file; it then edits
      only the body of that platform, finds it again at the end under the same indices and the
      same header, and leaves every requested value readable in it. */
  lemma CredentialsSaved(lines: seq<string>, q: nat, p: nat, r: Request, printable: Printable)
    ensures Save(lines, q, p, r, printable).Saved? <==> HasPlatform(lines, q, p)
    ensures HasPlatform(lines, q, p) ==>
            var lines' := Save(lines, q, p, r, printable).lines;
            && Follows(lines, lines', q, p)
            && HasOption(lines', q, p, "app_id", QuoteString(TrimSpace(r.appId), printable))
            && HasOption(lines', q, p, "app_secret", QuoteString(TrimSpace(r.appSecret), printable))
            && (r.setAllow ==> HasOption(lines', q, p, "allow_from", QuoteString(r.allowFrom, printable)))
            && (r.platformType != "" ==> HasType(lines', q, p, QuoteString(r.platformType, printable)))
  {
    hide ProjectSpans, EditsBody, QuoteString, TrimSpace, WithCredentials, HasOption, HasType, WithType, WithOptions,
         SpanOf;
    if HasPlatform(lines, q, p) {
      var one := WithType(lines, q, p, r, printable);
      var two := WithOptions(one, q, p);
      CredentialsStage(two, q, p, r, printable);
      FollowsCompose(lines, one, two, q, p);
      FollowsCompose(lines, two, WithCredentials(two, q, p, r, printable), q, p);
    }
  }

  /** The frame, spelled out: all text before and after the platform's body is the same, and every
      other platform of every project is found under the same indices with the same text. */
  lemma OtherTextKept(lines: seq<string>, lines': seq<string>, q: nat, p: nat)
    requires Follows(lines, lines', q, p)
    ensures var span, span' := SpanOf(lines, q, p), SpanOf(lines', q, p);
            && 0 <= span.start <= span.end < |lines| && span.start <= span'.end < |lines'|
            && lines'[..span.start + 1] == lines[..span.start + 1]
            && lines'[span'.end + 1..] == lines[span.end + 1..]
    ensures |ProjectSpans(lines')| == |ProjectSpans(lines)|
    ensures forall q2 :: 0 <= q2 < |ProjectSpans(lines)| ==>
              |ProjectSpans(lines')[q2].platforms| == |ProjectSpans(lines)[q2].platforms|
  {
    hide ProjectSpans, IsBlockHeader;
    var span, span' := SpanOf(lines, q, p), SpanOf(lines', q, p);
    var d := span'.end - span.end;
    var rest, rest' := lines[span.end + 1..], lines'[span'.end + 1..];
    forall i | 0 <= i < |rest| ensures rest'[i] == rest[i] {
      assert lines'[(span.end + 1 + i) + d] == lines[span.end + 1 + i];
    }
    ProjectsKeepIndex(lines, lines', span.start + 1, span.end + 1, span'.end + 1);
    forall q2: nat | q2 < |ProjectSpans(lines)|
      ensures |ProjectSpans(lines')[q2].platforms| == |ProjectSpans(lines)[q2].platforms|
    {
      PlatformsKeepIndex(lines, lines', span.start + 1, span.end + 1, span'.end + 1, q2);
    }
  }

  lemma OtherPlatformKept(lines: seq<string>, lines': seq<string>, q: nat, p: nat, q2: nat, p2: nat)
    requires Follows(lines, lines', q, p) && HasPlatform(lines, q2, p2) && (q2, p2) != (q, p)
    ensures HasPlatform(lines', q2, p2)
    ensures var s, s' := SpanOf(lines, q2, p2), SpanOf(lines', q2, p2);
            && 0 <= s.start <= s.end < |lines| && 0 <= s'.start <= s'.end < |lines'|
            && lines'[s'.start..s'.end + 1] == lines[s.start..s.end + 1]
  {
    hide ProjectSpans, Edited, PlatformWellPlaced, PlatformAt;
    var span, span' := SpanOf(lines, q, p), SpanOf(lines', q, p);
    ProjectsKeepIndex(lines, lines', span.start + 1, span.end + 1, span'.end + 1);
    PlatformsKeepIndex(lines, lines', span.start + 1, span.end + 1, span'.end + 1, q2);
    SpanFacts(lines, q2, p2);
    PlatformsApart(lines, q, p, q2, p2);
    var s, s' := SpanOf(lines, q2, p2), SpanOf(lines', q2, p2);
    BlockTextKept(lines, lines', span.start + 1, span.end + 1, span'.end + 1, s.start, s.end, s'.start, s'.end);
  }

  /** Different platforms occupy different lines. */
  lemma PlatformsApart(lines: seq<string>, q: nat, p: nat, q2: nat, p2: nat)
    requires HasPlatform(lines, q, p) && HasPlatform(lines, q2, p2) && (q2, p2) != (q, p)
    ensures var s, t := SpanOf(lines, q, p), SpanOf(lines, q2, p2);
            s.end < t.start || t.end < s.start
  {
    hide Passes, Positions, ProjectSpans, PlatformsIn, PlatformAt;
    ProjectSpanAt(lines, q);
    ProjectSpanAt(lines, q2);
    var a, b := ProjectSpans(lines)[q], ProjectSpans(lines)[q2];
    PlatformSpanAt(lines, a.start, a.end, p);
    PlatformSpanAt(lines, b.start, b.end, p2);
    if q != q2 {
      PositionsAscend(lines, 0, |lines|, Table(PROJECTS));
      BlocksApart(Positions(lines, 0, |lines|, Table(PROJECTS)), q, q2, |lines| - 1);
    } else {
      PositionsAscend(lines, a.start + 1, a.end + 1, Table(PLATFORMS));
      BlocksApart(Positions(lines, a.start + 1, a.end + 1, Table(PLATFORMS)), p, p2, a.end);
    }
  }

  lemma BlocksApart(at: seq<int>, j: nat, k: nat, end: int)
    requires Ascending(at) && j < |at| && k < |at| && j != k
    ensures BlockEnd(at, j, end) < at[k] || BlockEnd(at, k, end) < at[j]
  {
    if j < k {
      assert at[j + 1] <= at[k];
    } else {
      assert at[k + 1] <= at[j];
    }
  }
}
