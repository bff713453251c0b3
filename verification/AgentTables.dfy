/** What an agent option update does to the tables of its project: it adds the missing ones, no other,
    and the agent's type reads as before, or as the default where there was no agent table. */
module AgentTables {
  import opened Text
  import opened ConfigLines
  import opened LineSearch
  import opened Upsert
  import opened ConfigSpans
  import opened BlockFrame
  import opened ConfigBlocks
  import opened ConfigReread
  import opened AgentOption

  // ---- Tables of a list of lines ----

  /** The table headers among the lines, in order. */
  function TableLines(lines: seq<string>): seq<string> {
    if lines == [] then []
    else (if IsAnyTableHeader(lines[0]) then [lines[0]] else []) + TableLines(lines[1..])
  }

  lemma TableLinesCons(x: string, rest: seq<string>)
    ensures TableLines([x] + rest) == (if IsAnyTableHeader(x) then [x] else []) + TableLines(rest)
  {
    hide IsAnyTableHeader;
    assert ([x] + rest)[1..] == rest;
  }

  lemma {:induction false} TableLinesAppend(a: seq<string>, b: seq<string>)
    ensures TableLines(a + b) == TableLines(a) + TableLines(b)
  {
    hide IsAnyTableHeader, TableLines;
    if a == [] {
      assert a + b == b;
      NoTableLines();
      assert [] + TableLines(b) == TableLines(b);
    } else {
      var x, rest := a[0], a[1..];
      assert a == [x] + rest && a + b == [x] + (rest + b);
      TableLinesAppend(rest, b);
      TableLinesCons(x, rest);
      TableLinesCons(x, rest + b);
    }
  }

  lemma NoTableLines()
    ensures TableLines([]) == []
  {
  }

  lemma {:induction false} HasTableAppend(a: seq<string>, b: seq<string>, header: string)
    ensures HasTableIn(a + b, header) <==> HasTableIn(a, header) || HasTableIn(b, header)
  {
    hide MatchTableHeader;
    if a == [] {
      assert a + b == b;
    } else {
      assert (a + b)[1..] == a[1..] + b;
      HasTableAppend(a[1..], b, header);
    }
  }

  /** A later table with the header hides what is in front of it. */
  lemma {:induction false} LastIsBehind(p: seq<string>, r: seq<string>, header: string, key: string)
    requires HasTableIn(r, header)
    ensures InLast(p + r, header, key) == InLast(r, header, key)
  {
    hide MatchTableHeader, HasTableIn, InLast;
    if p == [] {
      assert p + r == r;
    } else {
      var x, rest := p[0], p[1..];
      assert p + r == [x] + (rest + r);
      HasTableAppend(rest, r, header);
      InLastCons(x, rest + r, header, key);
      LastIsBehind(rest, r, header, key);
    }
  }

  predicate StartsTable(r: seq<string>) {
    r == [] || IsAnyTableHeader(r[0])
  }

  lemma {:induction false} BodyEnds(p: seq<string>, r: seq<string>)
    requires StartsTable(r)
    ensures Body(p + r) == Body(p)
  {
    hide IsAnyTableHeader;
    if p == [] {
      assert p + r == r;
    } else {
      assert (p + r)[1..] == p[1..] + r;
      BodyEnds(p[1..], r);
    }
  }

  /** Other tables behind do not matter. */
  lemma {:induction false} LastIsInFront(p: seq<string>, r: seq<string>, header: string, key: string)
    requires !HasTableIn(r, header) && StartsTable(r)
    ensures InLast(p + r, header, key) == InLast(p, header, key)
  {
    hide MatchTableHeader, HasTableIn, InLast, FirstKey, Body, StartsTable;
    if p == [] {
      assert p + r == r;
      NoTableNothing(r, header, key);
      NothingInNothing(header, key);
    } else {
      var x, rest := p[0], p[1..];
      assert p == [x] + rest && p + r == [x] + (rest + r);
      HasTableAppend(rest, r, header);
      InLastCons(x, rest, header, key);
      InLastCons(x, rest + r, header, key);
      BodyEnds(rest, r);
      LastIsInFront(rest, r, header, key);
    }
  }

  lemma NothingInNothing(header: string, key: string)
    ensures InLast([], header, key) == Missing && !HasTableIn([], header)
  {
  }

  lemma {:induction false} BodySnoc(p: seq<string>, x: string)
    requires !IsAnyTableHeader(x)
    ensures Body(p + [x]) == Body(p) || Body(p + [x]) == Body(p) + [x]
  {
    hide IsAnyTableHeader;
    if p == [] {
      assert p + [x] == [x] && [x][1..] == [];
    } else {
      assert (p + [x])[1..] == p[1..] + [x];
      BodySnoc(p[1..], x);
    }
  }

  lemma {:induction false} FirstKeySnoc(body: seq<string>, x: string, key: string)
    requires !MatchKey(x, key)
    ensures FirstKey(body + [x], key) == FirstKey(body, key)
  {
    hide MatchKey, ValueOf;
    if body == [] {
      assert body + [x] == [x] && [x][1..] == [];
    } else {
      assert (body + [x])[1..] == body[1..] + [x];
      FirstKeySnoc(body[1..], x, key);
    }
  }

  /** A line behind that neither starts a table nor carries the key does not matter. */
  lemma {:induction false} LastSnoc(p: seq<string>, x: string, header: string, key: string)
    requires !IsAnyTableHeader(x) && !MatchKey(x, key) && !MatchTableHeader(x, header)
    ensures InLast(p + [x], header, key) == InLast(p, header, key)
  {
    hide MatchTableHeader, HasTableIn, InLast, FirstKey, Body, MatchKey, IsAnyTableHeader;
    NothingInNothing(header, key);
    if p == [] {
      assert p + [x] == [x] + [];
      InLastCons(x, [], header, key);
    } else {
      var y, rest := p[0], p[1..];
      assert p == [y] + rest && p + [x] == [y] + (rest + [x]);
      HasTableAppend(rest, [x], header);
      OneLine(x, header);
      InLastCons(y, rest, header, key);
      InLastCons(y, rest + [x], header, key);
      BodySnoc(rest, x);
      FirstKeySnoc(Body(rest), x, key);
      LastSnoc(rest, x, header, key);
    }
  }

  lemma OneLine(x: string, header: string)
    ensures HasTableIn([x], header) <==> MatchTableHeader(x, header)
  {
    hide MatchTableHeader;
    assert [x][1..] == [];
  }

  /** Lines in the body of some other table do not matter. */
  lemma LastElsewhere(p: seq<string>, w: seq<string>, w': seq<string>, r: seq<string>, header: string, key: string)
    requires StartsTable(w) && w != [] && !HasTableIn(w, header)
    requires StartsTable(w') && w' != [] && !HasTableIn(w', header)
    requires StartsTable(r)
    ensures InLast(p + w + r, header, key) == InLast(p + w' + r, header, key)
  {
    hide InLast, StartsTable, HasTableIn, IsAnyTableHeader;
    if HasTableIn(r, header) {
      LastIsBehind(p + w, r, header, key);
      LastIsBehind(p + w', r, header, key);
    } else {
      LastIsInFront(p + w, r, header, key);
      LastIsInFront(p + w', r, header, key);
      LastIsInFront(p, w, header, key);
      LastIsInFront(p, w', header, key);
    }
  }

  // ---- The upsert ----

  predicate NoTables(body: seq<string>) {
    forall i :: 0 <= i < |body| ==> !IsAnyTableHeader(body[i])
  }

  lemma {:induction false} NoTablesFacts(body: seq<string>, header: string)
    requires NoTables(body) && "[" <= header
    ensures TableLines(body) == [] && !HasTableIn(body, header)
  {
    hide MatchTableHeader, IsAnyTableHeader;
    if body != [] {
      assert !IsAnyTableHeader(body[0]);
      NoTableNoHeader(body[0], header);
      assert NoTables(body[1..]);
      NoTablesFacts(body[1..], header);
    }
  }

  lemma OneTable(h: string, body: seq<string>, header: string)
    requires IsAnyTableHeader(h) && !MatchTableHeader(h, header) && NoTables(body) && "[" <= header
    ensures TableLines([h] + body) == [h] && StartsTable([h] + body) && !HasTableIn([h] + body, header)
  {
    hide MatchTableHeader, IsAnyTableHeader, TableLines, HasTableIn, NoTables;
    NoTablesFacts(body, header);
    TableLinesCons(h, body);
    HasTableCons(h, body, header);
  }

  lemma OptionsAreNoAgent(h: string)
    requires Passes(h, Table(AGENT_OPTIONS))
    ensures IsAnyTableHeader(h) && !MatchTableHeader(h, AGENT)
  {
    hide TrimSpace;
    if !IsAnyTableHeader(h) {
      NoTableNoHeader(h, AGENT_OPTIONS);
    }
    assert AGENT[15] == ']' && AGENT_OPTIONS[15] == '.';
  }

  /** A table that stays a table of the same header, in the middle of a project. */
  lemma SameTables(p: seq<string>, h: string, body: seq<string>, body': seq<string>, r: seq<string>)
    requires Passes(h, Table(AGENT_OPTIONS)) && NoTables(body) && NoTables(body') && StartsTable(r)
    ensures TableLines(p + ([h] + body') + r) == TableLines(p + ([h] + body) + r)
    ensures InLast(p + ([h] + body') + r, AGENT, "type") == InLast(p + ([h] + body) + r, AGENT, "type")
  {
    hide Passes, TableLines, InLast, NoTables, StartsTable, HasTableIn;
    OptionsAreNoAgent(h);
    OneTable(h, body, AGENT);
    OneTable(h, body', AGENT);
    TableLinesAppend(p + ([h] + body), r);
    TableLinesAppend(p, [h] + body);
    TableLinesAppend(p + ([h] + body'), r);
    TableLinesAppend(p, [h] + body');
    LastElsewhere(p, [h] + body, [h] + body', r, AGENT, "type");
  }

  lemma EditedText(lines: seq<string>, lines': seq<string>, q: nat, a: int, b: int, b': int)
    requires q < |ProjectSpans(lines)| && Edited(lines, lines', a, b, b')
    requires var s := ProjectSpans(lines)[q]; s.start < a && b <= s.end + 1
    ensures var s := ProjectSpans(lines)[q];
            && 0 <= s.start <= s.end < |lines| && s.start <= s.end + (b' - b) < |lines'|
            && q < |ProjectSpans(lines')|
            && ProjectText(lines', q) == lines'[s.start..s.end + (b' - b) + 1]
  {
    hide Passes, Positions, ProjectSpans, ProjectAt, IsBlockHeader, Edited, OthersKept;
    EditInProject(lines, lines', q, a, b, b');
  }

  lemma ReplacedSlice(lines: seq<string>, start: int, lo: int, i: int, hi: int, end: int, line: string)
    requires 0 <= start < lo <= i <= hi <= end < |lines|
    ensures lines[i := line][start..end + 1] ==
            lines[start..lo - 1] + ([lines[lo - 1]] + (lines[lo..i] + [line] + lines[i + 1..hi + 1]))
            + lines[hi + 1..end + 1]
  {
    var lines' := lines[i := line];
    assert lines'[start..lo - 1] == lines[start..lo - 1] && lines'[hi + 1..end + 1] == lines[hi + 1..end + 1];
    assert lines'[lo - 1..hi + 1] == [lines[lo - 1]] + (lines[lo..i] + [line] + lines[i + 1..hi + 1]);
    assert lines'[start..end + 1] == lines'[start..lo - 1] + lines'[lo - 1..hi + 1] + lines'[hi + 1..end + 1];
  }

  lemma InsertedSlice(lines: seq<string>, start: int, lo: int, hi: int, end: int, line: string)
    requires 0 <= start < lo <= hi + 1 <= end + 1 <= |lines|
    ensures |InsertLines(lines, hi + 1, [line])| == |lines| + 1
    ensures InsertLines(lines, hi + 1, [line])[start..end + 2] ==
            lines[start..lo - 1] + ([lines[lo - 1]] + (lines[lo..hi + 1] + [line])) + lines[hi + 1..end + 1]
  {
    var lines' := InsertLines(lines, hi + 1, [line]);
    InsertIsCut(lines, hi + 1, [line]);
    assert lines'[start..lo - 1] == lines[start..lo - 1] && lines'[hi + 2..end + 2] == lines[hi + 1..end + 1];
    assert lines'[lo - 1..hi + 2] == [lines[lo - 1]] + (lines[lo..hi + 1] + [line]);
    assert lines'[start..end + 2] == lines'[start..lo - 1] + lines'[lo - 1..hi + 2] + lines'[hi + 2..end + 2];
  }

  /** The project's text, with its options table, and with another body in that table. */
  function WithBody(lines: seq<string>, s: ProjectSpan, body: seq<string>): seq<string>
    requires 0 <= s.start < s.agentOptionsStart <= s.agentOptionsEnd <= s.end < |lines|
  {
    lines[s.start..s.agentOptionsStart] + ([lines[s.agentOptionsStart]] + body)
    + lines[s.agentOptionsEnd + 1..s.end + 1]
  }

  lemma ReplacedText(lines: seq<string>, q: nat, i: int, line: string) returns (body': seq<string>)
    requires HasTable(lines, q) && !IsAnyTableHeader(line)
    requires ProjectSpans(lines)[q].agentOptionsStart < i <= ProjectSpans(lines)[q].agentOptionsEnd
    ensures q < |ProjectSpans(lines[i := line])| && NoTables(body')
    ensures ProjectText(lines[i := line], q) == WithBody(lines, ProjectSpans(lines)[q], body')
  {
    hide Passes, ProjectSpans, ProjectAt, IsBlockHeader, IsAnyTableHeader, Edited, ProjectText, IsLast;
    var s := ProjectSpans(lines)[q];
    var lo, hi := s.agentOptionsStart + 1, s.agentOptionsEnd;
    TableBody(lines, s.start, s.end);
    PlainLine(line);
    PlainLine(lines[i]);
    ReplaceIsEdit(lines, i, line);
    EditedText(lines, lines[i := line], q, i, i + 1, i + 1);
    body' := lines[lo..i] + [line] + lines[i + 1..hi + 1];
    ReplacedSlice(lines, s.start, lo, i, hi, s.end, line);
  }

  lemma InsertedText(lines: seq<string>, q: nat, s: ProjectSpan, lines': seq<string>, line: string)
    returns (body': seq<string>)
    requires 0 <= s.start < s.agentOptionsStart <= s.agentOptionsEnd <= s.end < |lines|
    requires HasTable(lines, q) && s == ProjectSpans(lines)[q] && !IsAnyTableHeader(line)
    requires lines' == InsertLines(lines, s.agentOptionsEnd + 1, [line])
    ensures q < |ProjectSpans(lines')| && NoTables(body') && ProjectText(lines', q) == WithBody(lines, s, body')
  {
    hide Passes, ProjectSpans, ProjectAt, IsBlockHeader, IsAnyTableHeader, Edited, ProjectText, IsLast, InsertLines;
    var lo, hi := s.agentOptionsStart + 1, s.agentOptionsEnd;
    TableBody(lines, s.start, s.end);
    PlainLine(line);
    InsertIsEdit(lines, hi + 1, [line]);
    InsertedSlice(lines, s.start, lo, hi, s.end, line);
    EditedText(lines, lines', q, hi + 1, hi + 1, hi + 2);
    body' := lines[lo..hi + 1] + [line];
  }

  lemma UpsertText(lines: seq<string>, q: nat, key: string, rendered: string) returns (body': seq<string>)
    requires HasTable(lines, q) && IsBareKey(key)
    ensures var s, lines' := ProjectSpans(lines)[q], UpsertAgentOption(lines, q, key, rendered);
            && q < |ProjectSpans(lines')| && NoTables(body') && ProjectText(lines', q) == WithBody(lines, s, body')
  {
    hide Passes, ProjectSpans, ProjectAt, IsAnyTableHeader, FindKey, MatchKey, InsertLines, WithBody, NoTables,
         ReplaceKeyLine, KeyLine, ProjectText, LeadingBlanks, ValueOf, LineComment, CleanValue;
    var s := ProjectSpans(lines)[q];
    var lo, hi := s.agentOptionsStart + 1, s.agentOptionsEnd;
    var i := FindKey(lines, lo, hi, key);
    UpsertIs(lines, lo, hi, key, rendered);
    if i <= hi {
      ReplacedLineMatches(lines[i], key, rendered);
      body' := ReplacedText(lines, q, i, ReplaceKeyLine(lines[i], key, rendered));
    } else {
      KeyLineFacts(key, rendered);
      InsertIsCut(lines, hi + 1, [KeyLine(key, rendered)]);
      body' := InsertedText(lines, q, s, InsertLines(lines, hi + 1, [KeyLine(key, rendered)]), KeyLine(key, rendered));
    }
  }

  lemma SameBody(lines: seq<string>, s: ProjectSpan)
    requires 0 <= s.start < s.agentOptionsStart <= s.agentOptionsEnd <= s.end < |lines|
    ensures WithBody(lines, s, lines[s.agentOptionsStart + 1..s.agentOptionsEnd + 1]) == lines[s.start..s.end + 1]
  {
    var o, oe := s.agentOptionsStart, s.agentOptionsEnd;
    assert lines[o..oe + 1] == [lines[o]] + lines[o + 1..oe + 1];
    assert lines[s.start..s.end + 1] == lines[s.start..o] + lines[o..oe + 1] + lines[oe + 1..s.end + 1];
  }

  lemma TextIs(lines: seq<string>, q: nat) returns (body: seq<string>)
    requires HasTable(lines, q)
    ensures var s := ProjectSpans(lines)[q];
            && NoTables(body) && ProjectText(lines, q) == WithBody(lines, s, body)
            && Passes(lines[s.agentOptionsStart], Table(AGENT_OPTIONS))
            && StartsTable(lines[s.agentOptionsEnd + 1..s.end + 1])
  {
    hide Passes, ProjectSpans, ProjectAt, IsAnyTableHeader;
    var s := ProjectSpans(lines)[q];
    TableBody(lines, s.start, s.end);
    FindFinds(lines, s.agentOptionsStart + 1, s.end + 1, AnyTable);
    body := lines[s.agentOptionsStart + 1..s.agentOptionsEnd + 1];
    SameBody(lines, s);
    if s.agentOptionsEnd < s.end {
      PassesAny(lines[s.agentOptionsEnd + 1]);
    }
  }

  lemma PassesAny(line: string)
    requires Passes(line, AnyTable)
    ensures IsAnyTableHeader(line)
  {
  }

  lemma UpsertKeepsTables(lines: seq<string>, q: nat, key: string, rendered: string)
    requires HasTable(lines, q) && IsBareKey(key)
    ensures var lines' := UpsertAgentOption(lines, q, key, rendered);
            && q < |ProjectSpans(lines')|
            && TableLines(ProjectText(lines', q)) == TableLines(ProjectText(lines, q))
            && InLast(ProjectText(lines', q), AGENT, "type") == InLast(ProjectText(lines, q), AGENT, "type")
  {
    hide Passes, ProjectSpans, ProjectAt, UpsertAgentOption, ProjectText, NoTables, InLast, TableLines, StartsTable;
    var s := ProjectSpans(lines)[q];
    var body := TextIs(lines, q);
    var body' := UpsertText(lines, q, key, rendered);
    SameTables(lines[s.start..s.agentOptionsStart], lines[s.agentOptionsStart], body, body',
      lines[s.agentOptionsEnd + 1..s.end + 1]);
  }

  lemma InsertIsCut(lines: seq<string>, at: int, block: seq<string>)
    requires 0 <= at <= |lines|
    ensures InsertLines(lines, at, block) == lines[..at] + block + lines[at..]
  {
  }

  lemma ReplaceIsEdit(lines: seq<string>, i: int, line: string)
    requires 0 <= i < |lines| && !IsBlockHeader(line) && !IsBlockHeader(lines[i])
    ensures Edited(lines, lines[i := line], i, i + 1, i + 1)
  {
    hide IsBlockHeader;
  }

  // ---- Adding the tables ----

  const DEFAULT_TYPE := "\"claudecode\""
  const TYPE_LINE := "type = \"claudecode\""

  /** The tables a project lacks for its agent's options. */
  function MissingTables(text: seq<string>): seq<string> {
    if HasTableIn(text, AGENT_OPTIONS) then []
    else if HasTableIn(text, AGENT) then [AGENT_OPTIONS]
    else [AGENT, AGENT_OPTIONS]
  }

  lemma TypeLineReads()
    ensures MatchKey(TYPE_LINE, "type") && ValueOf(TYPE_LINE, "type") == DEFAULT_TYPE && !IsAnyTableHeader(TYPE_LINE)
  {
    hide TrimSpace, CommentStart, ScanAll, MatchKey, ValueOf, IsAnyTableHeader, LineComment;
    QuotedWord("claudecode");
    assert "\"" + "claudecode" + "\"" == DEFAULT_TYPE;
    KeyLineFacts("type", DEFAULT_TYPE);
    assert KeyLine("type", DEFAULT_TYPE) == TYPE_LINE;
  }

  lemma QuotedWord(w: string)
    requires forall i :: 0 <= i < |w| ==> IsPlain(w[i])
    ensures CleanValue("\"" + w + "\"")
  {
    hide TrimSpace;
    var q := "\"" + w + "\"";
    ScanPlain(w, Inside);
    ScanAppend(w, "\"", Inside);
    assert q == ['"'] + (w + "\"") && q[0] == '"' && q[|q| - 1] == '"';
    TrimOfTrimmed(q);
  }

  lemma HeadersAre()
    ensures IsAnyTableHeader(AGENT) && MatchTableHeader(AGENT, AGENT) && !MatchTableHeader(AGENT, AGENT_OPTIONS)
    ensures IsAnyTableHeader(AGENT_OPTIONS) && MatchTableHeader(AGENT_OPTIONS, AGENT_OPTIONS)
    ensures !MatchTableHeader(AGENT_OPTIONS, AGENT)
    ensures !IsAnyTableHeader("") && !MatchKey("", "type") && !MatchTableHeader("", AGENT)
  {
    hide TrimSpace;
    PlainTable(AGENT);
    PlainTable(AGENT_OPTIONS);
    OptionsAreNoAgent(AGENT_OPTIONS);
    assert TrimSpace("") == "";
    assert AGENT[15] == ']' && AGENT_OPTIONS[15] == '.' && |AGENT| == 16;
    TrimOfTrimmed(AGENT);
    if !IsAnyTableHeader(AGENT) {
      NoTableNoHeader(AGENT, AGENT);
    }
  }

  lemma ProjectHeader(line: string)
    requires Passes(line, Table(PROJECTS))
    ensures !MatchTableHeader(line, AGENT) && !MatchTableHeader(line, AGENT_OPTIONS)
  {
    hide TrimSpace;
    assert PROJECTS[1] == '[' && AGENT[1] == 'p' && AGENT_OPTIONS[1] == 'p';
  }

  /** Whether the project's text has the table is whether the span says so. */
  lemma TextHasTable(lines: seq<string>, q: nat, header: string)
    requires q < |ProjectSpans(lines)| && (header == AGENT || header == AGENT_OPTIONS)
    ensures var s := ProjectSpans(lines)[q];
            HasTableIn(ProjectText(lines, q), header) <==>
            0 <= if header == AGENT then s.agentStart else s.agentOptionsStart
  {
    hide Passes, Positions, ProjectSpans, MatchTableHeader, PlatformsIn, ProvidersIn, HasTableIn;
    ProjectSpanAt(lines, q);
    PositionsPass(lines, 0, |lines|, Table(PROJECTS), q);
    var s := ProjectSpans(lines)[q];
    ProjectHeader(lines[s.start]);
    HasTableSlice(lines, s.start, s.end + 1, header);
    SkipFirst(lines, s.start, s.end + 1, header);
  }

  lemma InsertPointStarts(lines: seq<string>, q: nat)
    requires q < |ProjectSpans(lines)|
    ensures var s := ProjectSpans(lines)[q];
            && 0 <= s.start <= s.end < |lines| && s.start < InsertPoint(lines, s) <= s.end + 1
            && StartsTable(lines[InsertPoint(lines, s)..s.end + 1])
  {
    hide Passes, Positions, ProjectSpans, IsAnyTableHeader, PlatformsIn, ProvidersIn;
    InsertPointInProject(lines, q);
    ProjectSpanAt(lines, q);
    var s := ProjectSpans(lines)[q];
    var lo := if s.agentStart < 0 then s.start + 1 else s.agentStart + 1;
    FindFinds(lines, lo, s.end + 1, AnyTable);
    var at := InsertPoint(lines, s);
    if at <= s.end {
      PassesAny(lines[at]);
    }
  }

  /** Behind the last agent table, or behind the first header if there is none. */
  predicate BehindAgent(tables: seq<string>, k: nat) {
    && 0 < k <= |tables|
    && (MatchTableHeader(tables[k - 1], AGENT) || k == 1)
    && forall j :: k <= j < |tables| ==> !MatchTableHeader(tables[j], AGENT)
  }

  lemma {:induction false} TablesHave(lines: seq<string>, header: string)
    requires !HasTableIn(lines, header)
    ensures forall j :: 0 <= j < |TableLines(lines)| ==> !MatchTableHeader(TableLines(lines)[j], header)
  {
    hide MatchTableHeader, IsAnyTableHeader;
    if lines != [] {
      TablesHave(lines[1..], header);
    }
  }

  lemma {:induction false} NoTableHere(lines: seq<string>, header: string)
    requires forall j :: 0 <= j < |lines| ==> !MatchTableHeader(lines[j], header)
    ensures !HasTableIn(lines, header)
  {
    hide MatchTableHeader;
    if lines != [] {
      NoTableHere(lines[1..], header);
    }
  }

  /** A stretch of lines whose last table starts at line o. */
  lemma LastTableOf(lines: seq<string>, start: int, o: int, at: int)
    requires 0 <= start <= o < at <= |lines| && IsAnyTableHeader(lines[o])
    requires forall j :: o < j < at ==> !IsAnyTableHeader(lines[j])
    ensures TableLines(lines[start..at]) == TableLines(lines[start..o]) + [lines[o]]
  {
    hide IsAnyTableHeader, TableLines;
    var body := lines[o + 1..at];
    assert lines[start..at] == lines[start..o] + ([lines[o]] + body);
    assert forall i :: 0 <= i < |body| ==> body[i] == lines[o + 1 + i];
    NoTablesFacts(body, AGENT);
    TableLinesCons(lines[o], body);
    TableLinesAppend(lines[start..o], [lines[o]] + body);
    assert [lines[o]] + [] == [lines[o]];
  }

  /** The lines in front of the insertion point: up to the agent table's end, or the project's main table. */
  lemma FrontTables(lines: seq<string>, q: nat)
    requires q < |ProjectSpans(lines)|
    ensures var s := ProjectSpans(lines)[q];
            && 0 <= s.start <= s.end < |lines| && s.start < InsertPoint(lines, s) <= s.end + 1
            && var p := lines[s.start..InsertPoint(lines, s)];
               && TableLines(p) != []
               && (if s.agentStart < 0 then |TableLines(p)| == 1
                   else MatchTableHeader(TableLines(p)[|TableLines(p)| - 1], AGENT))
  {
    hide Positions, ProjectSpans, IsAnyTableHeader, PlatformsIn, ProvidersIn, MatchTableHeader, MatchKey, TableLines;
    InsertPointInProject(lines, q);
    ProjectSpanAt(lines, q);
    PositionsPass(lines, 0, |lines|, Table(PROJECTS), q);
    var s := ProjectSpans(lines)[q];
    LastTableIsLast(lines, s.start, s.end + 1, AGENT);
    var o := if s.agentStart < 0 then s.start else s.agentStart;
    FindFinds(lines, o + 1, s.end + 1, AnyTable);
    HeaderPassesAny(lines[o], if s.agentStart < 0 then PROJECTS else AGENT);
    LastTableOf(lines, s.start, o, InsertPoint(lines, s));
    assert s.agentStart < 0 ==> lines[s.start..o] == [];
    NoTableLines();
  }

  lemma HeaderPassesAny(line: string, header: string)
    requires MatchTableHeader(line, header) && "[" <= header
    ensures IsAnyTableHeader(line)
  {
    hide MatchTableHeader, IsAnyTableHeader;
    if !IsAnyTableHeader(line) {
      NoTableNoHeader(line, header);
    }
  }

  lemma NoAgentBehind(lines: seq<string>, q: nat)
    requires q < |ProjectSpans(lines)|
    ensures var s := ProjectSpans(lines)[q];
            && 0 <= s.start <= s.end < |lines| && s.start < InsertPoint(lines, s) <= s.end + 1
            && !HasTableIn(lines[InsertPoint(lines, s)..s.end + 1], AGENT)
  {
    hide Positions, ProjectSpans, IsAnyTableHeader, PlatformsIn, ProvidersIn, MatchTableHeader, MatchKey;
    InsertPointInProject(lines, q);
    ProjectSpanAt(lines, q);
    var s := ProjectSpans(lines)[q];
    LastTableIsLast(lines, s.start, s.end + 1, AGENT);
    var r := lines[InsertPoint(lines, s)..s.end + 1];
    assert forall j :: 0 <= j < |r| ==> r[j] == lines[InsertPoint(lines, s) + j];
    NoTableHere(r, AGENT);
  }

  lemma AddedSlice(lines: seq<string>, start: int, at: int, end: int, block: seq<string>)
    requires 0 <= start < at <= end + 1 <= |lines|
    ensures |InsertLines(lines, at, block)| == |lines| + |block|
    ensures InsertLines(lines, at, block)[start..end + |block| + 1] == lines[start..at] + block + lines[at..end + 1]
    ensures lines[start..end + 1] == lines[start..at] + lines[at..end + 1]
  {
    var lines', n := InsertLines(lines, at, block), |block|;
    InsertIsCut(lines, at, block);
    assert lines'[start..at] == lines[start..at] && lines'[at + n..end + n + 1] == lines[at..end + 1];
    assert lines'[at..at + n] == block;
    assert lines'[start..end + n + 1] == lines'[start..at] + lines'[at..at + n] + lines'[at + n..end + n + 1];
  }

  lemma AddedText(lines: seq<string>, q: nat) returns (p: seq<string>, r: seq<string>)
    requires q < |ProjectSpans(lines)| && ProjectSpans(lines)[q].agentOptionsStart < 0
    ensures 0 <= ProjectSpans(lines)[q].start <= ProjectSpans(lines)[q].end < |lines|
    ensures var mid := WithTable(lines, ProjectSpans(lines)[q]);
            && ProjectText(lines, q) == p + r && StartsTable(r) && !HasTableIn(r, AGENT)
            && TableLines(p) != []
            && (if ProjectSpans(lines)[q].agentStart < 0 then |TableLines(p)| == 1
                else MatchTableHeader(TableLines(p)[|TableLines(p)| - 1], AGENT))
            && q < |ProjectSpans(mid)| && ProjectText(mid, q) == p + Block(ProjectSpans(lines)[q]) + r
  {
    hide Passes, Positions, ProjectSpans, ProjectAt, IsBlockHeader, Edited, Block, InsertPoint, InsertLines,
         StartsTable, TableLines, HasTableIn, MatchTableHeader;
    ProjectSpanAt(lines, q);
    FrontTables(lines, q);
    NoAgentBehind(lines, q);
    var s := ProjectSpans(lines)[q];
    InsertPointStarts(lines, q);
    var at, block := InsertPoint(lines, s), Block(s);
    BlockFacts(s);
    InsertIsEdit(lines, at, block);
    EditedText(lines, InsertLines(lines, at, block), q, at, at, at + |block|);
    AddedSlice(lines, s.start, at, s.end, block);
    p, r := lines[s.start..at], lines[at..s.end + 1];
  }

  lemma ShortBlock(p: seq<string>, r: seq<string>)
    requires StartsTable(r)
    ensures TableLines(p + SHORT_BLOCK + r) == TableLines(p) + [AGENT_OPTIONS] + TableLines(r)
    ensures InLast(p + SHORT_BLOCK + r, AGENT, "type") == InLast(p + r, AGENT, "type")
  {
    hide InLast, TableLines, HasTableIn, IsAnyTableHeader, MatchTableHeader, MatchKey, TableLines;
    HeadersAre();
    assert SHORT_BLOCK == [""] + ([AGENT_OPTIONS] + []);
    OneTable(AGENT_OPTIONS, [], AGENT);
    TableLinesCons("", [AGENT_OPTIONS] + []);
    assert [] + [AGENT_OPTIONS] == [AGENT_OPTIONS] == [AGENT_OPTIONS] + [];
    TableLinesAppend(p + SHORT_BLOCK, r);
    TableLinesAppend(p, SHORT_BLOCK);
    if HasTableIn(r, AGENT) {
      LastIsBehind(p + SHORT_BLOCK, r, AGENT, "type");
      LastIsBehind(p, r, AGENT, "type");
    } else {
      LastIsInFront(p + SHORT_BLOCK, r, AGENT, "type");
      LastIsInFront(p, r, AGENT, "type");
      assert p + SHORT_BLOCK == (p + [""]) + [AGENT_OPTIONS];
      LastIsInFront(p + [""], [AGENT_OPTIONS], AGENT, "type");
      LastSnoc(p, "", AGENT, "type");
    }
  }

  lemma FullBlock(p: seq<string>, r: seq<string>)
    requires StartsTable(r) && !HasTableIn(r, AGENT)
    ensures TableLines(p + FULL_BLOCK + r) == TableLines(p) + [AGENT, AGENT_OPTIONS] + TableLines(r)
    ensures InLast(p + FULL_BLOCK + r, AGENT, "type") == Found(DEFAULT_TYPE)
  {
    hide InLast, TableLines, HasTableIn, IsAnyTableHeader, MatchTableHeader, MatchKey, ValueOf, Body, FirstKey;
    HeadersAre();
    TypeLineReads();
    var t1 := [""] + ([AGENT_OPTIONS] + []);
    var t2 := [TYPE_LINE] + t1;
    var t3 := [AGENT] + t2;
    assert FULL_BLOCK == [""] + t3;
    OneTable(AGENT_OPTIONS, [], AGENT);
    TableLinesCons("", [AGENT_OPTIONS] + []);
    TableLinesCons(TYPE_LINE, t1);
    TableLinesCons(AGENT, t2);
    TableLinesCons("", t3);
    assert [] + [AGENT_OPTIONS] == [AGENT_OPTIONS] && [] + [AGENT, AGENT_OPTIONS] == [AGENT] + [AGENT_OPTIONS];
    TableLinesAppend(p + FULL_BLOCK, r);
    TableLinesAppend(p, FULL_BLOCK);
    LastIsInFront(p + FULL_BLOCK, r, AGENT, "type");
    HasTableCons("", [AGENT_OPTIONS] + [], AGENT);
    HasTableCons(TYPE_LINE, t1, AGENT);
    NoTableNoHeader(TYPE_LINE, AGENT);
    HasTableCons(AGENT, t2, AGENT);
    HasTableCons("", t3, AGENT);
    LastIsBehind(p, FULL_BLOCK, AGENT, "type");
    InLastCons("", t3, AGENT, "type");
    InLastCons(AGENT, t2, AGENT, "type");
    BodyCons(TYPE_LINE, t1);
    FirstKeyCons(TYPE_LINE, Body(t1), "type");
  }

  /** The chain adds the tables that are missing, together and in order, and no other: behind the last
      agent table, or behind the project's own header if there is none. The last agent table then reads
      the type it read before, or the default if there was neither table. */
  lemma OnlyMissingTablesAdded(lines: seq<string>, q: nat, key: string, rendered: string) returns (k: nat)
    requires q < |ProjectSpans(lines)| && IsBareKey(key)
    ensures Patch(lines, q, key, rendered).Patched? && q < |ProjectSpans(Patch(lines, q, key, rendered).lines)|
    ensures var t, t' := ProjectText(lines, q), ProjectText(Patch(lines, q, key, rendered).lines, q);
            && k <= |TableLines(t)| && (MissingTables(t) != [] ==> BehindAgent(TableLines(t), k))
            && TableLines(t') == TableLines(t)[..k] + MissingTables(t) + TableLines(t)[k..]
            && InLast(t', AGENT, "type") ==
               if HasTableIn(t, AGENT) || HasTableIn(t, AGENT_OPTIONS) then InLast(t, AGENT, "type")
               else Found(DEFAULT_TYPE)
  {
    hide ProjectSpans, ProjectAt, UpsertAgentOption, ProjectText, InLast, TableLines, HasTableIn, HasTable,
         OthersKept, InsertPoint, InsertLines, StartsTable;
    TableAdded(lines, q);
    var s := ProjectSpans(lines)[q];
    var mid := WithTable(lines, s);
    UpsertKeepsTables(mid, q, key, rendered);
    TextHasTable(lines, q, AGENT);
    TextHasTable(lines, q, AGENT_OPTIONS);
    var t := ProjectText(lines, q);
    if s.agentOptionsStart >= 0 {
      k := 0;
      assert TableLines(t)[..0] + [] + TableLines(t)[0..] == TableLines(t);
    } else {
      var p, r := AddedText(lines, q);
      k := |TableLines(p)|;
      TableLinesAppend(p, r);
      TablesHave(r, AGENT);
      HasTableAppend(p, r, AGENT);
      if s.agentStart < 0 {
        FullBlock(p, r);
      } else {
        ShortBlock(p, r);
      }
    }
  }
}
