/** Between the configuration file and its lines: reading, joining, and what is found again in a
    file that an edit chain has written. */
module ConfigText {
  import opened Text
  import opened ConfigLines
  import opened Quote
  import opened LineSearch
  import opened Upsert
  import opened ConfigSpans
  import opened BlockFrame
  import opened ConfigFormat
  import opened ConfigBlocks
  import opened ConfigReread
  import opened EditScript
  import opened Credentials
  import Agent = AgentOption

  predicate EndsInNewline(raw: string) {
    raw != "" && raw[|raw| - 1] == '\n'
  }

  function SplitConfigLines(raw: string): (seq<string>, bool) {
    if raw == "" then ([], false)
    else
      var body := if EndsInNewline(raw) then raw[..|raw| - 1] else raw;
      if body == "" then ([], EndsInNewline(raw)) else (Split(body), EndsInNewline(raw))
  }

  function JoinConfigLines(lines: seq<string>, hadTrailing: bool): string {
    Join(lines) + if hadTrailing || |lines| > 0 then "\n" else ""
  }

  /** Reading a file and writing it back adds at most the final newline. */
  lemma ReadThenWrite(raw: string)
    ensures var (lines, hadTrailing) := SplitConfigLines(raw);
            JoinConfigLines(lines, hadTrailing) == if raw == "" || EndsInNewline(raw) then raw else raw + "\n"
  {
    hide Join, Split;
    var body := if EndsInNewline(raw) then raw[..|raw| - 1] else raw;
    JoinOfSplit(body);
    JoinNothing();
    if EndsInNewline(raw) {
      assert raw == body + "\n";
    }
  }

  lemma JoinNothing()
    ensures Join([]) == ""
  {
  }

  /** Lines that are written are read back, with one exception: a single empty line is lost. */
  lemma WriteThenReadIff(lines: seq<string>, hadTrailing: bool)
    requires NewlineFree(lines)
    ensures SplitConfigLines(JoinConfigLines(lines, hadTrailing)).0 == lines <==> lines != [""]
  {
    hide Split, NewlineFree;
    if lines != [] {
      var raw := JoinConfigLines(lines, hadTrailing);
      assert raw == Join(lines) + "\n" && raw[..|raw| - 1] == Join(lines);
      SplitOfJoin(lines);
      EmptyJoin(lines);
    }
  }

  lemma EmptyJoin(lines: seq<string>)
    requires lines != []
    ensures Join(lines) == "" <==> lines == [""]
  {
  }

  /** writeRawConfig formats whatever it writes. */
  function Written(lines: seq<string>, hadTrailing: bool): string {
    FormatToml(JoinConfigLines(lines, hadTrailing))
  }

  /** What is in the file after a write: the content of the lines, section by section. */
  lemma WrittenContent(lines: seq<string>, hadTrailing: bool)
    requires NewlineFree(lines)
    ensures Outline(Split(Written(lines, hadTrailing))) == Outline(lines)
  {
    hide Split, Outline, FormatToml, Join;
    var raw := JoinConfigLines(lines, hadTrailing);
    FormatKeepsContent(raw);
    NoContentInBlank();
    JoinNothing();
    if lines != [] {
      assert raw == Join(lines) + "\n";
      SplitOfJoin(lines);
      OutlineOfBlankTail(lines);
    } else {
      assert raw == if hadTrailing then "\n" else "";
    }
  }

  lemma NoContentInBlank()
    ensures Outline(Split("")) == Outline([]) && Outline(Split("\n")) == Outline([])
  {
    assert Split("") == [""] && Split("\n") == ["", ""];
    OutlineOfBlankTail([]);
    OutlineOfBlankTail([""]);
    assert [] + [""] == [""] && [""] + [""] == ["", ""];
  }

  lemma OutlineOfBlankTail(lines: seq<string>)
    ensures Outline(lines + [""]) == Outline(lines)
  {
    ReadBlankTail(lines, "");
  }

  // ---- Reading a written file ----

  lemma {:induction false} PassBlankTail(lines: seq<string>, k: nat)
    requires k <= |lines|
    ensures SecondPass(lines + [""], k) == SecondPass(lines, k)
  {
    hide IsAnyTableHeader, TrimSpace, FormatStep;
    if k > 0 {
      PassBlankTail(lines, k - 1);
      EmptyLineFacts();
      assert (lines + [""])[..|lines|] == lines;
      ContentFromInit(lines + [""], k);
    }
  }

  lemma {:induction false} DropHeadBlank(out: seq<string>)
    ensures DropBlankHead(out + [""]) == if DropBlankHead(out) == [] then [] else DropBlankHead(out) + [""]
  {
    hide TrimSpace;
    EmptyLineFacts();
    if out != [] {
      assert (out + [""])[1..] == out[1..] + [""];
      DropHeadBlank(out[1..]);
    } else {
      assert ([] + [""])[1..] == [];
    }
  }

  lemma DropTailBlank(out: seq<string>)
    ensures DropBlankTail(out + [""]) == DropBlankTail(out)
  {
    hide TrimSpace;
    EmptyLineFacts();
    assert (out + [""])[..|out|] == out;
  }

  /** A final empty line makes no difference. */
  lemma FormatBlankTail(lines: seq<string>)
    ensures FormatLines(lines + [""]) == FormatLines(lines)
  {
    hide IsAnyTableHeader, TrimSpace, SecondPass, DropBlankHead, DropBlankTail;
    var st := SecondPass(lines, |lines|);
    PassBlankTail(lines, |lines|);
    EmptyLineFacts();
    LastBlank(lines);
    DropHeadBlank(st.out);
    DropTailBlank(DropBlankHead(st.out));
  }

  lemma LastBlank(lines: seq<string>)
    ensures var st := SecondPass(lines + [""], |lines|);
            SecondPass(lines + [""], |lines| + 1).out == if st.prevBlank then st.out else st.out + [""]
  {
    hide TrimSpace;
    EmptyLineFacts();
    BlankIsNoHeader("");
  }

  /** The lines that are read from a written file. */
  function Reread(lines: seq<string>, hadTrailing: bool): seq<string> {
    SplitConfigLines(Written(lines, hadTrailing)).0
  }

  lemma RereadIsFormatted(lines: seq<string>, hadTrailing: bool)
    requires NewlineFree(lines)
    ensures Reread(lines, hadTrailing) == FormatLines(lines)
  {
    hide Split, FormatLines, Join, SplitConfigLines, IsAnyTableHeader, IsBlank, TrimRightBlanks;
    var raw, f := JoinConfigLines(lines, hadTrailing), FormatLines(lines);
    SplitOfJoined(lines, hadTrailing);
    FormatBlankTail([]);
    FormatBlankTail([""]);
    assert [] + [""] == [""] && [""] + [""] == ["", ""];
    FormatBlankTail(lines);
    assert FormatLines(Split(raw)) == f;
    FormattedIsCanonical(lines);
    CanonicalReads(f);
    assert Written(lines, hadTrailing) == JoinConfigLines(f, true);
    WriteThenReadIff(f, true);
  }

  lemma SplitOfJoined(lines: seq<string>, hadTrailing: bool)
    requires NewlineFree(lines)
    ensures lines != [] ==> Split(JoinConfigLines(lines, hadTrailing)) == lines + [""]
    ensures lines == [] ==> Split(JoinConfigLines(lines, hadTrailing)) == if hadTrailing then ["", ""] else [""]
  {
    hide Join;
    JoinNothing();
    if lines != [] {
      SplitOfJoin(lines);
    } else {
      SplitOfLine("", "");
      assert "" + "\n" + "" == "\n" && "" + "" == "";
      assert JoinConfigLines(lines, hadTrailing) == if hadTrailing then "\n" else "";
      assert [""] + [""] == ["", ""];
    }
  }

  lemma CanonicalReads(f: seq<string>)
    requires Canonical(f)
    ensures NewlineFree(f) && f != [""]
  {
    hide IsAnyTableHeader, TrimRightBlanks, TrimSpace;
    EmptyLineFacts();
    forall i | 0 <= i < |f| ensures '\n' !in f[i] {
      assert CanonicalLine(f[i]);
    }
  }

  /** Exactly when a write keeps the indices: every project and every platform is found under its
      index in the file if and only if their headers have content before the next header. */
  lemma WrittenIndicesIff(lines: seq<string>, hadTrailing: bool)
    requires NewlineFree(lines)
    ensures SameCounts(lines, Reread(lines, hadTrailing)) <==> IndexedHeadersFed(lines)
  {
    hide SameCounts, IndexedHeadersFed, FormatLines, Reread, NewlineFree;
    RereadIsFormatted(lines, hadTrailing);
    IndicesSurviveIff(lines);
  }

  const LOSES_PLATFORM := [PROJECTS, "name = 1", PLATFORMS, PLATFORM_OPTIONS, "app_id = 1"]

  lemma LosesPlatformBlocks()
    ensures Projects(LOSES_PLATFORM) == [LOSES_PLATFORM]
    ensures |Platforms(LOSES_PLATFORM)| == 1
    ensures !FedAll(LOSES_PLATFORM, Table(PLATFORMS))
  {
    hide Cut, TrimSpace, FedAll, MatchTableHeader;
    LostFile();
    var t4 := ["app_id = 1"];
    var t3 := [PLATFORM_OPTIONS] + t4;
    var t2 := [PLATFORMS] + t3;
    var t1 := ["name = 1"] + t2;
    assert LOSES_PLATFORM == [PROJECTS] + t1 && t4 == ["app_id = 1"] + [];
    CutLost(Table(PROJECTS), t1, t2, t3, t4);
    CutCons(PROJECTS, t1, Table(PROJECTS));
    CutLost(Table(PLATFORMS), t1, t2, t3, t4);
    CutCons(PROJECTS, t1, Table(PLATFORMS));
    StarvedHeader();
  }

  lemma StarvedHeader()
    ensures !FedAll(LOSES_PLATFORM, Table(PLATFORMS))
  {
    hide TrimSpace, FedAll, MatchTableHeader;
    LostFile();
    FedAtIff(LOSES_PLATFORM, Table(PLATFORMS));
    assert !ContentFrom(LOSES_PLATFORM, 3) && Passes(LOSES_PLATFORM[2], Table(PLATFORMS));
  }

  /** A file whose platform is lost by a write: its header is followed by its options table, so the
      formatter takes it for an empty section. */
  lemma IndicesCanBeLost(hadTrailing: bool)
    ensures NewlineFree(LOSES_PLATFORM) && HasPlatform(LOSES_PLATFORM, 0, 0)
    ensures !SameCounts(LOSES_PLATFORM, Reread(LOSES_PLATFORM, hadTrailing))
  {
    hide Projects, Platforms, Reread, SameCounts, FedAll, HasPlatform;
    LosesPlatformBlocks();
    StarvedIsLost(LOSES_PLATFORM, hadTrailing);
  }

  lemma StarvedIsLost(lines: seq<string>, hadTrailing: bool)
    requires NewlineFree(lines)
    requires Projects(lines) == [lines] && |Platforms(lines)| == 1 && !FedAll(lines, Table(PLATFORMS))
    ensures HasPlatform(lines, 0, 0) && !SameCounts(lines, Reread(lines, hadTrailing))
  {
    hide Projects, Platforms, Reread, SameCounts, ProjectSpans, FedAll, NewlineFree;
    WrittenIndicesIff(lines, hadTrailing);
    ProjectBlocks(lines);
    PlatformBlocks(lines, 0);
    assert Projects(lines)[0] == lines;
  }

  lemma LostFile()
    ensures Passes(PROJECTS, Table(PROJECTS)) && !Passes(PROJECTS, Table(PLATFORMS))
    ensures Passes(PLATFORMS, Table(PLATFORMS)) && !Passes(PLATFORMS, Table(PROJECTS))
    ensures !Passes(PLATFORM_OPTIONS, Table(PLATFORMS)) && !Passes(PLATFORM_OPTIONS, Table(PROJECTS))
    ensures IsAnyTableHeader(PLATFORM_OPTIONS)
    ensures forall l :: l in {"name = 1", "app_id = 1"} ==> !Passes(l, Table(PROJECTS)) && !Passes(l, Table(PLATFORMS))
  {
    hide TrimSpace;
    Agent.TrimOfTrimmed(PROJECTS);
    Agent.TrimOfTrimmed(PLATFORMS);
    Agent.TrimOfTrimmed(PLATFORM_OPTIONS);
    Agent.TrimOfTrimmed("name = 1");
    Agent.TrimOfTrimmed("app_id = 1");
    assert PROJECTS[0] == '[' && PROJECTS[1] == '[' && PROJECTS[10] == ']';
    assert PLATFORMS[0] == '[' && PLATFORMS[1] == '[' && PLATFORMS[10] == '.';
    assert PLATFORM_OPTIONS[0] == '[' && PLATFORM_OPTIONS[1] == 'p';
  }

  lemma CutLost(test: LineTest, t1: seq<string>, t2: seq<string>, t3: seq<string>, t4: seq<string>)
    requires test == Table(PROJECTS) || test == Table(PLATFORMS)
    requires t4 == ["app_id = 1"] + [] && t3 == [PLATFORM_OPTIONS] + t4 && t2 == [PLATFORMS] + t3
             && t1 == ["name = 1"] + t2
    ensures Cut(t1, test) == if test == Table(PROJECTS) then Parts(t1, []) else Parts(["name = 1"], [t2])
  {
    hide Cut, MatchTableHeader;
    LostFile();
    CutNothing(test);
    CutCons("app_id = 1", [], test);
    CutCons(PLATFORM_OPTIONS, t4, test);
    CutCons(PLATFORMS, t3, test);
    CutCons("name = 1", t2, test);
  }

  lemma LinesAreNewlineFree(raw: string)
    ensures NewlineFree(SplitConfigLines(raw).0)
  {
    hide Split;
    SplitParts(if EndsInNewline(raw) then raw[..|raw| - 1] else raw);
  }

  // ---- The chains as scripts ----

  /** The keys of a script, in order, its tables aside. */
  function KeysOf(es: seq<Edit>): seq<string> {
    if es == [] then [] else (if es[0].AddTable? then [] else [es[0].key]) + KeysOf(es[1..])
  }

  /** What the added tables consist of, blank lines aside. */
  function TablesOf(es: seq<Edit>): seq<seq<string>> {
    if es == [] then [] else (if es[0].AddTable? then [Visible(es[0].block)] else []) + TablesOf(es[1..])
  }

  lemma {:induction false} KeysOfAppend(a: seq<Edit>, b: seq<Edit>)
    ensures KeysOf(a + b) == KeysOf(a) + KeysOf(b) && TablesOf(a + b) == TablesOf(a) + TablesOf(b)
  {
    if a == [] {
      assert a + b == b;
    } else {
      assert (a + b)[0] == a[0] && (a + b)[1..] == a[1..] + b;
      KeysOfAppend(a[1..], b);
    }
  }

  type Tables = seq<seq<string>>

  /** `es` leads from lines to lines', with one edit for each of the keys, and adds these tables. */
  predicate Script(lines: seq<string>, es: seq<Edit>, lines': seq<string>, keys: seq<string>, tables: Tables) {
    && AllApply(lines, es) && ApplyAll(lines, es) == lines'
    && KeysOf(es) == keys && TablesOf(es) == tables
    && forall k :: 0 <= k < |es| ==> OneLiner(es[k])
  }

  lemma ScriptNothing(lines: seq<string>)
    ensures Script(lines, [], lines, [], [])
  {
  }

  lemma ScriptOne(lines: seq<string>, e: Edit)
    requires Applies(lines, e) && OneLiner(e)
    ensures Script(lines, [e], Apply(lines, e), if e.AddTable? then [] else [e.key],
                   if e.AddTable? then [Visible(e.block)] else [])
  {
    hide Applies, Apply, Visible;
    ApplyOne(lines, e);
    var es := [e];
    assert es[1..] == [] && KeysOf(es[1..]) == [] && TablesOf(es[1..]) == [];
    assert !e.AddTable? ==> [e.key] + [] == [e.key];
    assert e.AddTable? ==> [Visible(e.block)] + [] == [Visible(e.block)];
  }

  lemma ScriptMore(lines: seq<string>, a: seq<Edit>, mid: seq<string>, ka: seq<string>, ta: Tables,
      b: seq<Edit>, lines': seq<string>, kb: seq<string>, tb: Tables)
    requires Script(lines, a, mid, ka, ta) && Script(mid, b, lines', kb, tb)
    ensures Script(lines, a + b, lines', ka + kb, ta + tb)
  {
    hide AllApply, ApplyAll, KeysOf, TablesOf, OneLiner;
    ApplyMore(lines, a, b);
    KeysOfAppend(a, b);
  }

  lemma QuotedIsNewlineFree(value: string, printable: Printable)
    ensures '\n' !in QuoteString(value, printable)
  {
    QuotedHasNoNewline(value, printable);
  }

  lemma TypeScript(lines: seq<string>, q: nat, p: nat, r: Request, printable: Printable) returns (es: seq<Edit>)
    requires HasPlatform(lines, q, p)
    ensures Script(lines, es, WithType(lines, q, p, r, printable), if r.platformType != "" then ["type"] else [], [])
  {
    hide ProjectSpans, Follows, HasType, QuoteString, MatchKey, ReplaceKeyLine, KeyLine, InsertLines,
         PlatformAt, Script, MatchTableHeader;
    if r.platformType != "" {
      SpanFacts(lines, q, p);
      QuotedIsNewlineFree(r.platformType, printable);
      var span, rendered := SpanOf(lines, q, p), QuoteString(r.platformType, printable);
      TypeIsBare();
      var e := if span.typeLine >= 0 then Replace(span.typeLine, "type", rendered)
        else Insert(span.start + 1, "type", rendered);
      ScriptOne(lines, e);
      es := [e];
    } else {
      ScriptNothing(lines);
      es := [];
    }
  }

  lemma TypeIsBare()
    ensures IsBareKey("type")
  {
  }

  /** Behind a platform comes another block or nothing. */
  lemma PlatformEdge(lines: seq<string>, q: nat, p: nat)
    requires HasPlatform(lines, q, p)
    ensures var end := SpanOf(lines, q, p).end;
            0 <= end < |lines| && (end + 1 == |lines| || IsAnyTableHeader(lines[end + 1]))
  {
    hide Passes, ProjectSpans, PlatformAt, Positions, IsAnyTableHeader, PlatformsIn;
    ProjectSpanAt(lines, q);
    var s := ProjectSpans(lines)[q];
    PlatformSpanAt(lines, s.start, s.end, p);
    ProjectEdges(lines, q);
    var at := Positions(lines, s.start + 1, s.end + 1, Table(PLATFORMS));
    if p + 1 < |at| {
      PositionsPass(lines, s.start + 1, s.end + 1, Table(PLATFORMS), p + 1);
    }
    if SpanOf(lines, q, p).end + 1 < |lines| {
      BlockHeaderIsHeader(lines[SpanOf(lines, q, p).end + 1]);
    }
  }

  lemma BlockHeaderIsHeader(line: string)
    ensures IsBlockHeader(line) ==> IsAnyTableHeader(line)
  {
    hide MatchTableHeader, IsAnyTableHeader;
    BothAreHeaders();
    HeaderPasses(line, Table(PROJECTS));
    HeaderPasses(line, Table(PLATFORMS));
  }

  lemma OptionsBlockIsPlain(lines: seq<string>, at: nat)
    requires at <= |lines|
    ensures NewlineFree(OptionsBlock(lines, at))
    ensures forall k :: 0 <= k < |OptionsBlock(lines, at)| ==> !IsBlockHeader(OptionsBlock(lines, at)[k])
  {
    hide TrimSpace, IsBlockHeader, Passes;
    OptionsHeaderFacts();
    assert '\n' !in PLATFORM_OPTIONS;
  }

  /** The table the chain adds to a platform that has none. */
  function OptionsTables(lines: seq<string>, q: nat, p: nat): Tables
    requires HasPlatform(lines, q, p)
  {
    if SpanOf(lines, q, p).optionsStart < 0 then [[PLATFORM_OPTIONS]] else []
  }

  lemma OptionsBlockSays(lines: seq<string>, at: nat)
    requires at <= |lines|
    ensures Visible(OptionsBlock(lines, at)) == [PLATFORM_OPTIONS]
  {
    hide TrimSpace, TrimRightBlanks;
    VisibleTable(PLATFORM_OPTIONS);
    var before := if at > 0 && TrimSpace(lines[at - 1]) != "" then [""] else [];
    var after := if at < |lines| && TrimSpace(lines[at]) != "" then [""] else [];
    VisibleBlanks();
    VisibleAppend(before + [PLATFORM_OPTIONS], after);
    VisibleAppend(before, [PLATFORM_OPTIONS]);
    assert [] + [PLATFORM_OPTIONS] + [] == [PLATFORM_OPTIONS];
  }

  lemma VisibleBlanks()
    ensures Visible([""]) == [] && Visible([]) == []
  {
    hide TrimRightBlanks;
    assert TrimSpace("") == "" && [""][1..] == [];
  }

  /** A line that ends in neither space nor tab, and starts with no space, is visible as it is. */
  lemma VisibleTable(line: string)
    requires line != "" && !IsSpace(line[0]) && !IsSpace(line[|line| - 1])
    ensures Visible([line]) == [line]
  {
    hide TrimSpace;
    Agent.TrimOfTrimmed(line);
    assert [line][1..] == [] && [line] + [] == [line];
  }

  lemma OptionsScript(lines: seq<string>, q: nat, p: nat) returns (es: seq<Edit>)
    requires HasPlatform(lines, q, p)
    ensures Script(lines, es, WithOptions(lines, q, p), [], OptionsTables(lines, q, p))
  {
    hide ProjectSpans, Follows, HasType, HasOptions, InsertLines, PlatformAt, Script, OptionsBlock,
         IsBlockHeader, IsAnyTableHeader, NewlineFree;
    SpanFacts(lines, q, p);
    var span := SpanOf(lines, q, p);
    if span.optionsStart < 0 {
      PlatformEdge(lines, q, p);
      OptionsBlockIsPlain(lines, span.end + 1);
      OptionsBlockSays(lines, span.end + 1);
      var e := AddTable(span.end + 1, OptionsBlock(lines, span.end + 1));
      ScriptOne(lines, e);
      es := [e];
    } else {
      ScriptNothing(lines);
      es := [];
    }
  }

  lemma KeyScript(lines: seq<string>, q: nat, p: nat, key: string, value: string, printable: Printable)
    returns (es: seq<Edit>)
    requires HasOptions(lines, q, p) && IsBareKey(key)
    ensures Script(lines, es, WithKey(lines, q, p, key, value, printable), [key], [])
  {
    hide ProjectSpans, Follows, HasOption, QuoteString, UpsertKey, Script, Applies, Apply, IsBareKey;
    QuotedIsNewlineFree(value, printable);
    var span := SpanOf(lines, q, p);
    var e := UpsertEdit(lines, span.optionsStart + 1, span.optionsEnd, key, QuoteString(value, printable));
    ScriptOne(lines, e);
    es := [e];
  }

  lemma KeysScript(lines: seq<string>, q: nat, p: nat, r: Request, printable: Printable) returns (es: seq<Edit>)
    requires HasOptions(lines, q, p)
    ensures Script(lines, es, WithCredentials(lines, q, p, r, printable),
                   ["app_id", "app_secret"] + if r.setAllow then ["allow_from"] else [], [])
  {
    hide ProjectSpans, EditsBody, SpanOf, HasOption, QuoteString, TrimSpace, IsBareKey, WithKey, HasOptions, Script;
    KeysAreBare();
    var withId := WithKey(lines, q, p, "app_id", TrimSpace(r.appId), printable);
    var withSecret := WithKey(withId, q, p, "app_secret", TrimSpace(r.appSecret), printable);
    var a := KeyScript(lines, q, p, "app_id", TrimSpace(r.appId), printable);
    var b := KeyScript(withId, q, p, "app_secret", TrimSpace(r.appSecret), printable);
    ScriptMore(lines, a, withId, ["app_id"], [], b, withSecret, ["app_secret"], []);
    es := a + b;
    assert ["app_id"] + ["app_secret"] == ["app_id", "app_secret"];
    var none: Tables := [];
    assert none + none == none;
    if r.setAllow {
      var c := KeyScript(withSecret, q, p, "allow_from", r.allowFrom, printable);
      ScriptMore(lines, es, withSecret, ["app_id", "app_secret"], [], c,
        WithKey(withSecret, q, p, "allow_from", r.allowFrom, printable), ["allow_from"], []);
      es := es + c;
    } else {
      assert ["app_id", "app_secret"] + [] == ["app_id", "app_secret"];
    }
  }

  function RequestedKeys(r: Request): seq<string> {
    (if r.platformType != "" then ["type"] else [])
    + (["app_id", "app_secret"] + if r.setAllow then ["allow_from"] else [])
  }

  /** The credentials chain is a script with one edit for each requested key, and with the options
      table if the platform has none: every other line of the file is kept, in order (RestIsKept, OrderIsKept). */
  lemma CredentialsScript(lines: seq<string>, q: nat, p: nat, r: Request, printable: Printable)
    returns (es: seq<Edit>)
    requires HasPlatform(lines, q, p)
    ensures Save(lines, q, p, r, printable).Saved?
    ensures Script(lines, es, Save(lines, q, p, r, printable).lines, RequestedKeys(r), OptionsTables(lines, q, p))
  {
    hide ProjectSpans, EditsBody, SpanOf, QuoteString, TrimSpace, WithCredentials, HasType, WithType,
         WithOptions, HasOptions, Script;
    var typed := WithType(lines, q, p, r, printable);
    var ready := WithOptions(typed, q, p);
    var a := TypeScript(lines, q, p, r, printable);
    var b := OptionsScript(typed, q, p);
    var c := KeysScript(ready, q, p, r, printable);
    var tables := OptionsTables(lines, q, p);
    assert OptionsTables(typed, q, p) == tables;
    var ka := if r.platformType != "" then ["type"] else [];
    var kc := ["app_id", "app_secret"] + if r.setAllow then ["allow_from"] else [];
    ScriptMore(lines, a, typed, ka, [], b, ready, [], tables);
    assert ka + [] == ka && [] + tables == tables == tables + [];
    ScriptMore(lines, a + b, ready, ka, tables, c, WithCredentials(ready, q, p, r, printable), kc, []);
    es := a + b + c;
  }

  lemma AgentBlockIsPlain(s: ProjectSpan)
    ensures NewlineFree(Agent.Block(s))
    ensures forall k :: 0 <= k < |Agent.Block(s)| ==> !IsBlockHeader(Agent.Block(s)[k])
  {
    hide MatchTableHeader, IsBlockHeader;
    Agent.BlockFacts(s);
    assert '\n' !in AGENT && '\n' !in AGENT_OPTIONS && '\n' !in "type = \"claudecode\"";
  }

  lemma InsertPointEdge(lines: seq<string>, q: nat)
    requires q < |ProjectSpans(lines)|
    ensures var s := ProjectSpans(lines)[q];
            && 0 <= s.start <= s.end < |lines| && s.start < Agent.InsertPoint(lines, s) <= s.end + 1
            && (Agent.InsertPoint(lines, s) == |lines| || IsAnyTableHeader(lines[Agent.InsertPoint(lines, s)]))
  {
    hide MatchTableHeader, MatchKey, IsAnyTableHeader, ProjectSpans, Positions;
    ProjectSpanAt(lines, q);
    ProjectEdges(lines, q);
    Agent.InsertPointInProject(lines, q);
    var s := ProjectSpans(lines)[q];
    FindFinds(lines, s.start + 1, s.end + 1, AnyTable);
    if s.agentStart >= 0 {
      FindFinds(lines, s.agentStart + 1, s.end + 1, AnyTable);
    }
    if s.end + 1 < |lines| {
      BlockHeaderIsHeader(lines[s.end + 1]);
    }
  }

  /** What the chain adds for a project without an agent options table. */
  function AddedTables(lines: seq<string>, q: nat): Tables
    requires q < |ProjectSpans(lines)|
  {
    var s := ProjectSpans(lines)[q];
    if s.agentOptionsStart >= 0 then []
    else if s.agentStart >= 0 then [[AGENT_OPTIONS]]
    else [[AGENT, "type = \"claudecode\"", AGENT_OPTIONS]]
  }

  lemma AgentBlockSays(s: ProjectSpan)
    ensures Visible(Agent.Block(s)) == if s.agentStart >= 0 then [AGENT_OPTIONS]
                                       else [AGENT, "type = \"claudecode\"", AGENT_OPTIONS]
  {
    hide TrimSpace, TrimRightBlanks, Visible;
    var t := "type = \"claudecode\"";
    VisibleBlanks();
    assert AGENT[0] == '[' && AGENT[|AGENT| - 1] == ']' && t[0] == 't' && t[|t| - 1] == '"';
    VisibleTable(AGENT);
    VisibleTable(AGENT_OPTIONS);
    VisibleTable(t);
    VisibleAppend([""], [AGENT_OPTIONS]);
    assert [""] + [AGENT_OPTIONS] == Agent.SHORT_BLOCK && [] + [AGENT_OPTIONS] == [AGENT_OPTIONS];
    VisibleAppend([""], [AGENT]);
    VisibleAppend([""] + [AGENT], [t]);
    VisibleAppend([""] + [AGENT] + [t], [""] + [AGENT_OPTIONS]);
    assert [""] + [AGENT] + [t] + ([""] + [AGENT_OPTIONS]) == Agent.FULL_BLOCK;
    assert [] + [AGENT] + [t] + ([] + [AGENT_OPTIONS]) == [AGENT, t, AGENT_OPTIONS];
  }

  lemma TableScript(lines: seq<string>, q: nat) returns (es: seq<Edit>)
    requires q < |ProjectSpans(lines)|
    ensures 0 <= ProjectSpans(lines)[q].start <= ProjectSpans(lines)[q].end < |lines|
    ensures Script(lines, es, Agent.WithTable(lines, ProjectSpans(lines)[q]), [],
                   AddedTables(lines, q))
  {
    hide ProjectSpans, InsertLines, Agent.InsertPoint, Agent.Block, Script, IsAnyTableHeader, IsBlockHeader,
         NewlineFree;
    InsertPointEdge(lines, q);
    var s := ProjectSpans(lines)[q];
    if s.agentOptionsStart < 0 {
      AgentBlockIsPlain(s);
      AgentBlockSays(s);
      var e := AddTable(Agent.InsertPoint(lines, s), Agent.Block(s));
      ScriptOne(lines, e);
      es := [e];
    } else {
      ScriptNothing(lines);
      es := [];
    }
  }

  /** The agent option chain is a script with one edit for its key, and with the tables that are missing. */
  lemma AgentOptionScript(lines: seq<string>, q: nat, key: string, rendered: string)
    returns (es: seq<Edit>)
    requires q < |ProjectSpans(lines)| && IsBareKey(key) && '\n' !in rendered
    ensures Agent.Patch(lines, q, key, rendered).Patched?
    ensures Script(lines, es, Agent.Patch(lines, q, key, rendered).lines, [key], AddedTables(lines, q))
  {
    hide ProjectSpans, Agent.WithTable, UpsertKey, Script, Applies, Apply, IsBareKey, Agent.OthersKept, ProjectAt;
    var s := ProjectSpans(lines)[q];
    var a := TableScript(lines, q);
    var tables := AddedTables(lines, q);
    Agent.TableAdded(lines, q);
    var mid := Agent.WithTable(lines, s);
    var t := ProjectSpans(mid)[q];
    var e := UpsertEdit(mid, t.agentOptionsStart + 1, t.agentOptionsEnd, key, rendered);
    ScriptOne(mid, e);
    ScriptMore(lines, a, mid, [], tables, [e], Agent.UpsertAgentOption(mid, q, key, rendered), [key], []);
    assert [] + [key] == [key] && tables + [] == tables;
    es := a + [e];
  }

  // ---- End to end ----

  lemma ScriptFeeds(lines: seq<string>, es: seq<Edit>, lines': seq<string>, keys: seq<string>, tables: Tables)
    requires Script(lines, es, lines', keys, tables) && NewlineFree(lines)
    ensures NewlineFree(lines') && (BlockHeadersFed(lines) ==> BlockHeadersFed(lines'))
  {
    hide AllApply, ApplyAll, KeysOf, TablesOf, OneLiner, NewlineFree, FedAt;
    ScriptKeeps(lines, es);
    FedAtIff(lines, Table(PROJECTS));
    FedAtIff(lines, Table(PLATFORMS));
    FedAtIff(lines', Table(PROJECTS));
    FedAtIff(lines', Table(PLATFORMS));
  }

  /** What the reader of the written file finds for the platform. */
  predicate FoundInFile(f: seq<string>, q: nat, p: nat, r: Request, printable: Printable) {
    && HasPlatform(f, q, p)
    && HasOption(f, q, p, "app_id", QuoteString(TrimSpace(r.appId), printable))
    && HasOption(f, q, p, "app_secret", QuoteString(TrimSpace(r.appSecret), printable))
    && (r.setAllow ==> HasOption(f, q, p, "allow_from", QuoteString(r.allowFrom, printable)))
    && (r.platformType != "" ==> HasType(f, q, p, QuoteString(r.platformType, printable)))
  }

  lemma FoundAfterFormat(lines: seq<string>, q: nat, p: nat, r: Request, printable: Printable)
    requires NewlineFree(lines) && BlockHeadersFed(lines) && FoundInFile(lines, q, p, r, printable)
    ensures FoundInFile(FormatLines(lines), q, p, r, printable)
  {
    hide NewlineFree, BlockHeadersFed, HasOption, HasType, HasPlatform, FormatLines, QuoteString, TrimSpace;
    FormattedPlatform(lines, q, p);
    OptionReread(lines, q, p, "app_id", QuoteString(TrimSpace(r.appId), printable));
    OptionReread(lines, q, p, "app_secret", QuoteString(TrimSpace(r.appSecret), printable));
    if r.setAllow {
      OptionReread(lines, q, p, "allow_from", QuoteString(r.allowFrom, printable));
    }
    if r.platformType != "" {
      TypeReread(lines, q, p, QuoteString(r.platformType, printable));
    }
  }

  /** End to end. The file that the credentials chain writes has the content of the lines it
      produced, section by section; and if every project and platform header of the old file has
      content before the next header, then in the new file the platform is found under the same
      indices, and all requested values are read there. */
  lemma CredentialsWritten(raw: string, q: nat, p: nat, r: Request, printable: Printable)
    requires HasPlatform(SplitConfigLines(raw).0, q, p)
    ensures var (lines, hadTrailing) := SplitConfigLines(raw);
            var result := Save(lines, q, p, r, printable);
            && result.Saved? && Outline(Split(Written(result.lines, hadTrailing))) == Outline(result.lines)
            && (BlockHeadersFed(lines) ==> FoundInFile(Reread(result.lines, hadTrailing), q, p, r, printable))
  {
    hide ProjectSpans, NewlineFree, Outline, Split, Written, Save, BlockHeadersFed, Reread, FormatLines, Script,
         SplitConfigLines, Follows, HasOption, HasType, QuoteString, TrimSpace;
    LinesAreNewlineFree(raw);
    var (lines, hadTrailing) := SplitConfigLines(raw);
    var es := CredentialsScript(lines, q, p, r, printable);
    var lines' := Save(lines, q, p, r, printable).lines;
    ScriptFeeds(lines, es, lines', RequestedKeys(r), OptionsTables(lines, q, p));
    WrittenContent(lines', hadTrailing);
    RereadIsFormatted(lines', hadTrailing);
    CredentialsSaved(lines, q, p, r, printable);
    if BlockHeadersFed(lines) {
      OptionHasPlatform(lines', q, p, "app_id", QuoteString(TrimSpace(r.appId), printable));
      FoundAfterFormat(lines', q, p, r, printable);
    }
  }

  /** The same for the agent option chain. */
  lemma AgentOptionWritten(raw: string, q: nat, key: string, value: string, printable: Printable)
    requires q < |ProjectSpans(SplitConfigLines(raw).0)| && IsBareKey(key)
    ensures var (lines, hadTrailing) := SplitConfigLines(raw);
            var result := Agent.Patch(lines, q, key, QuoteString(value, printable));
            && result.Patched? && Outline(Split(Written(result.lines, hadTrailing))) == Outline(result.lines)
            && (BlockHeadersFed(lines) ==>
                  Agent.ReadsOption(Reread(result.lines, hadTrailing), q, key, Found(QuoteString(value, printable))))
  {
    hide ProjectSpans, NewlineFree, Outline, Split, Written, QuoteString, SplitConfigLines, Agent.Patch,
         BlockHeadersFed, Reread, FormatLines, Script, Agent.ReadsOption, Agent.OthersKept, CleanValue;
    LinesAreNewlineFree(raw);
    var (lines, hadTrailing) := SplitConfigLines(raw);
    var rendered := QuoteString(value, printable);
    QuotedIsNewlineFree(value, printable);
    QuotedIsClean(value, printable);
    var es := AgentOptionScript(lines, q, key, rendered);
    var lines' := Agent.Patch(lines, q, key, rendered).lines;
    ScriptFeeds(lines, es, lines', [key], AddedTables(lines, q));
    WrittenContent(lines', hadTrailing);
    RereadIsFormatted(lines', hadTrailing);
    Agent.AgentOptionSet(lines, q, key, rendered);
    if BlockHeadersFed(lines) {
      AgentOptionReread(lines', q, key, rendered);
    }
  }
}
