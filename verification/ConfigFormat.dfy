/** formatTOML: the two-pass formatter that every write of the configuration goes through. */
module ConfigFormat {
  import opened Text
  import opened ConfigLines

  predicate IsBlank(line: string) {
    TrimSpace(line) == ""
  }

  /** A line with a key, a value or a comment: neither blank nor a table header. */
  predicate IsContent(line: string) {
    !IsBlank(line) && !IsAnyTableHeader(line)
  }

  /** From line j on, a content line comes before the next header. */
  predicate ContentFrom(lines: seq<string>, j: nat)
    requires j <= |lines|
    decreases |lines| - j
  {
    j < |lines| && !IsAnyTableHeader(lines[j]) && (!IsBlank(lines[j]) || ContentFrom(lines, j + 1))
  }

  predicate Skipped(lines: seq<string>, i: nat)
    requires i < |lines|
  {
    IsAnyTableHeader(lines[i]) && !ContentFrom(lines, i + 1)
  }

  datatype Pass = Pass(out: seq<string>, prevBlank: bool)

  function FormatStep(st: Pass, line: string): Pass {
    var l := TrimRightBlanks(line);
    if IsBlank(l) then
      if st.prevBlank then st else Pass(st.out + [""], true)
    else
      var gap := IsAnyTableHeader(l) && st.out != [] && !IsBlank(st.out[|st.out| - 1]);
      Pass((if gap then st.out + [""] else st.out) + [l], false)
  }

  /** The second pass over the first k lines. */
  function SecondPass(lines: seq<string>, k: nat): Pass
    requires k <= |lines|
  {
    if k == 0 then Pass([], false)
    else if Skipped(lines, k - 1) then SecondPass(lines, k - 1)
    else FormatStep(SecondPass(lines, k - 1), lines[k - 1])
  }

  function DropBlankHead(lines: seq<string>): seq<string> {
    if lines != [] && IsBlank(lines[0]) then DropBlankHead(lines[1..]) else lines
  }

  function DropBlankTail(lines: seq<string>): seq<string> {
    if lines != [] && IsBlank(lines[|lines| - 1]) then DropBlankTail(lines[..|lines| - 1]) else lines
  }

  function FormatLines(lines: seq<string>): seq<string> {
    DropBlankTail(DropBlankHead(SecondPass(lines, |lines|).out))
  }

  /** formatTOML */
  function FormatToml(raw: string): string {
    Join(FormatLines(Split(raw))) + "\n"
  }

  method FirstPass(lines: seq<string>) returns (skip: set<int>)
    ensures forall i :: 0 <= i < |lines| ==> (i in skip <==> Skipped(lines, i))
  {
    hide IsAnyTableHeader, IsBlank;
    skip := {};
    for i := 0 to |lines|
      invariant forall k :: k in skip ==> 0 <= k < i
      invariant forall k :: 0 <= k < i ==> (k in skip <==> Skipped(lines, k))
    {
      if IsAnyTableHeader(lines[i]) {
        var hasContent := false;
        var j := i + 1;
        while j < |lines| && !hasContent && !IsAnyTableHeader(lines[j])
          invariant i < j <= |lines|
          invariant hasContent ==> ContentFrom(lines, i + 1)
          invariant !hasContent ==> ContentFrom(lines, i + 1) == ContentFrom(lines, j)
          decreases |lines| - j, !hasContent
        {
          if !IsBlank(lines[j]) {
            hasContent := true;
          } else {
            j := j + 1;
          }
        }
        if !hasContent {
          skip := skip + {i};
        }
      }
    }
  }

  method FormatTomlText(raw: string) returns (text: string)
    ensures text == FormatToml(raw)
  {
    hide IsAnyTableHeader, IsBlank, TrimRightBlanks, Skipped;
    var lines := Split(raw);
    var skip := FirstPass(lines);
    var out: seq<string> := [];
    var prevBlank := false;
    for i := 0 to |lines|
      invariant Pass(out, prevBlank) == SecondPass(lines, i)
    {
      if i !in skip {
        var line := TrimRightBlanks(lines[i]);
        if IsBlank(line) {
          if !prevBlank {
            prevBlank := true;
            out := out + [""];
          }
        } else {
          prevBlank := false;
          if IsAnyTableHeader(line) && |out| > 0 && !IsBlank(out[|out| - 1]) {
            out := out + [""];
          }
          out := out + [line];
        }
      }
    }
    while |out| > 0 && IsBlank(out[0])
      invariant DropBlankHead(out) == DropBlankHead(SecondPass(lines, |lines|).out)
      decreases |out|
    {
      out := out[1..];
    }
    while |out| > 0 && IsBlank(out[|out| - 1])
      invariant DropBlankTail(out) == DropBlankTail(DropBlankHead(SecondPass(lines, |lines|).out))
      decreases |out|
    {
      out := out[..|out| - 1];
    }
    text := Join(out) + "\n";
  }

  // ---- Idempotence ----

  predicate CanonicalLine(line: string) {
    TrimRightBlanks(line) == line && (IsBlank(line) ==> line == "") && '\n' !in line
  }

  /** Trimmed lines, no two blank lines in a row, a blank line before every later header. */
  predicate WellSpaced(out: seq<string>) {
    && (forall i :: 0 <= i < |out| ==> CanonicalLine(out[i]))
    && (forall i :: 0 < i < |out| ==> !(IsBlank(out[i - 1]) && IsBlank(out[i])))
    && (forall i :: 0 < i < |out| && IsAnyTableHeader(out[i]) ==> IsBlank(out[i - 1]))
  }

  /** The fixed points of the formatter. */
  predicate Canonical(out: seq<string>) {
    && WellSpaced(out)
    && (forall i :: 0 <= i < |out| && IsAnyTableHeader(out[i]) ==> ContentFrom(out, i + 1))
    && (out != [] ==> !IsBlank(out[0]) && !IsBlank(out[|out| - 1]))
  }

  lemma TrimRightBlanksFacts(line: string)
    requires '\n' !in line
    ensures var l := TrimRightBlanks(line);
            && TrimRightBlanks(l) == l && '\n' !in l
            && (TrimSpace(l) == "" <==> TrimSpace(line) == "")
            && IsAnyTableHeader(l) == IsAnyTableHeader(line)
  {
    var l := TrimRightBlanks(line);
    TrimSpaceIgnoresBlanks(line);
    if l != "" {
      assert TrimRightBlanks(l) == l;
    }
  }

  lemma {:induction false} TrimSpaceIgnoresBlanks(line: string)
    ensures TrimSpace(TrimRightBlanks(line)) == TrimSpace(line)
  {
    if line != "" && IsBlankChar(line[|line| - 1]) {
      TrimSpaceIgnoresBlanks(line[..|line| - 1]);
      TrimSpaceSnoc(line[..|line| - 1], line[|line| - 1]);
      assert line == line[..|line| - 1] + [line[|line| - 1]];
    }
  }

  lemma {:induction false} TrimSpaceSnoc(s: string, c: char)
    requires IsSpace(c)
    ensures TrimSpace(s + [c]) == TrimSpace(s)
  {
    if s == "" {
      assert (s + [c])[1..] == "";
    } else if IsSpace(s[0]) {
      assert (s + [c])[1..] == s[1..] + [c];
      TrimSpaceSnoc(s[1..], c);
    } else {
      assert (s + [c])[..|s + [c]| - 1] == s;
    }
  }

  lemma ContentFromAppend(out: seq<string>, more: seq<string>, i: nat)
    requires i <= |out| && ContentFrom(out, i)
    ensures ContentFrom(out + more, i)
    decreases |out| - i
  {
    hide IsAnyTableHeader, IsBlank;
    if IsBlank(out[i]) {
      ContentFromAppend(out, more, i + 1);
    }
  }

  lemma {:induction false} ContentFromBlanks(out: seq<string>, i: nat, j: nat)
    requires i <= j < |out| && IsContent(out[j]) && forall k :: i <= k < j ==> IsBlank(out[k])
    ensures ContentFrom(out, i)
    decreases j - i
  {
    hide TrimSpace;
    if i < j {
      ContentFromBlanks(out, i + 1, j);
    }
  }

  /** A header of the output either already has content below it, or only blank lines,
      and then the content is still to come. */
  predicate HeadersFed(out: seq<string>, more: bool) {
    forall i :: 0 <= i < |out| && IsAnyTableHeader(out[i]) ==>
      ContentFrom(out, i + 1) || (more && forall k :: i < k < |out| ==> IsBlank(out[k]))
  }

  predicate PassInvariant(lines: seq<string>, k: nat)
    requires k <= |lines|
  {
    var st := SecondPass(lines, k);
    && WellSpaced(st.out)
    && (st.prevBlank <==> st.out != [] && IsBlank(st.out[|st.out| - 1]))
    && HeadersFed(st.out, ContentFrom(lines, k))
  }

  lemma HeadersFedAppend(out: seq<string>, line: string, more: bool, more': bool)
    requires HeadersFed(out, more)
    requires IsContent(line) || (IsBlank(line) && (more ==> more')) || !more
    requires IsAnyTableHeader(line) ==> more'
    ensures HeadersFed(out + [line], more')
  {
    hide IsAnyTableHeader, IsBlank;
    var out' := out + [line];
    forall i | 0 <= i < |out'| && IsAnyTableHeader(out'[i])
      ensures ContentFrom(out', i + 1) || (more' && forall k :: i < k < |out'| ==> IsBlank(out'[k]))
    {
      if i < |out| {
        if ContentFrom(out, i + 1) {
          ContentFromAppend(out, [line], i + 1);
        } else if IsContent(line) {
          ContentFromBlanks(out', i + 1, |out|);
        }
      }
    }
  }

  lemma BlankIsNoHeader(line: string)
    requires IsBlank(line)
    ensures !IsAnyTableHeader(line)
  {
  }

  lemma WellSpacedAppend(out: seq<string>, line: string)
    requires WellSpaced(out) && CanonicalLine(line)
    requires out != [] ==> !(IsBlank(out[|out| - 1]) && IsBlank(line))
    requires out != [] && IsAnyTableHeader(line) ==> IsBlank(out[|out| - 1])
    ensures WellSpaced(out + [line])
  {
    hide IsAnyTableHeader, IsBlank, CanonicalLine;
  }

  lemma {:induction false} PassInvariantHolds(lines: seq<string>, k: nat)
    requires k <= |lines| && NewlineFree(lines)
    ensures PassInvariant(lines, k)
  {
    hide IsAnyTableHeader, IsBlank, TrimRightBlanks, WellSpaced, HeadersFed, CanonicalLine;
    if k == 0 {
      EmptyIsFine();
    } else {
      PassInvariantHolds(lines, k - 1);
      if Skipped(lines, k - 1) {
        MoreIrrelevant(SecondPass(lines, k).out, ContentFrom(lines, k));
      } else {
        StepKeepsInvariant(SecondPass(lines, k - 1), lines[k - 1], ContentFrom(lines, k - 1), ContentFrom(lines, k));
      }
    }
  }

  lemma EmptyIsFine()
    ensures WellSpaced([]) && forall more :: HeadersFed([], more)
  {
  }

  lemma MoreIrrelevant(out: seq<string>, more: bool)
    requires HeadersFed(out, false)
    ensures HeadersFed(out, more)
  {
    hide IsAnyTableHeader, IsBlank;
  }

  lemma StepKeepsInvariant(st: Pass, line: string, more: bool, more': bool)
    requires WellSpaced(st.out) && (st.prevBlank <==> st.out != [] && IsBlank(st.out[|st.out| - 1]))
    requires HeadersFed(st.out, more) && '\n' !in line
    requires more <==> !IsAnyTableHeader(line) && (!IsBlank(line) || more')
    requires IsAnyTableHeader(line) ==> more'
    ensures var st' := FormatStep(st, line);
            && WellSpaced(st'.out) && HeadersFed(st'.out, more')
            && (st'.prevBlank <==> st'.out != [] && IsBlank(st'.out[|st'.out| - 1]))
  {
    hide IsAnyTableHeader, TrimSpace, TrimRightBlanks, WellSpaced, HeadersFed;
    TrimRightBlanksFacts(line);
    EmptyLineFacts();
    var l := TrimRightBlanks(line);
    if IsBlank(l) {
      BlankIsNoHeader(l);
      BlankIsNoHeader("");
      if !st.prevBlank {
        WellSpacedAppend(st.out, "");
        HeadersFedAppend(st.out, "", more, more');
      }
    } else {
      var gap := IsAnyTableHeader(l) && st.out != [] && !IsBlank(st.out[|st.out| - 1]);
      if gap {
        BlankIsNoHeader("");
        WellSpacedAppend(st.out, "");
        HeadersFedAppend(st.out, "", more, false);
        WellSpacedAppend(st.out + [""], l);
        HeadersFedAppend(st.out + [""], l, false, more');
      } else {
        WellSpacedAppend(st.out, l);
        HeadersFedAppend(st.out, l, more, more');
      }
    }
  }

  lemma EmptyLineFacts()
    ensures IsBlank("") && TrimRightBlanks("") == "" && CanonicalLine("")
  {
  }

  lemma ContentFromTail(out: seq<string>, i: nat)
    requires out != [] && i < |out|
    ensures ContentFrom(out[1..], i) == ContentFrom(out, i + 1)
    decreases |out| - i
  {
    hide IsAnyTableHeader, IsBlank;
    if i + 1 < |out| {
      ContentFromTail(out, i + 1);
    }
  }

  lemma ContentFromInit(out: seq<string>, i: nat)
    requires out != [] && i < |out| && IsBlank(out[|out| - 1])
    ensures ContentFrom(out[..|out| - 1], i) == ContentFrom(out, i)
    decreases |out| - i
  {
    hide TrimSpace;
    if i + 1 < |out| {
      ContentFromInit(out, i + 1);
    }
  }

  predicate Fed(out: seq<string>) {
    forall i :: 0 <= i < |out| && IsAnyTableHeader(out[i]) ==> ContentFrom(out, i + 1)
  }

  lemma {:induction false} DropHeadKeeps(out: seq<string>)
    requires WellSpaced(out) && Fed(out)
    ensures var r := DropBlankHead(out);
            WellSpaced(r) && Fed(r) && (r != [] ==> !IsBlank(r[0]))
  {
    hide IsAnyTableHeader, IsBlank, CanonicalLine;
    if out != [] && IsBlank(out[0]) {
      forall i | 0 <= i < |out[1..]| && IsAnyTableHeader(out[1..][i]) ensures ContentFrom(out[1..], i + 1) {
        ContentFromTail(out, i + 1);
      }
      DropHeadKeeps(out[1..]);
    }
  }

  lemma {:induction false} DropTailKeeps(out: seq<string>)
    requires WellSpaced(out) && Fed(out) && (out != [] ==> !IsBlank(out[0]))
    ensures Canonical(DropBlankTail(out))
  {
    hide IsAnyTableHeader, IsBlank, CanonicalLine;
    if out != [] && IsBlank(out[|out| - 1]) {
      var init := out[..|out| - 1];
      forall i | 0 <= i < |init| && IsAnyTableHeader(init[i]) ensures ContentFrom(init, i + 1) {
        ContentFromInit(out, i + 1);
      }
      DropTailKeeps(init);
    }
  }

  /** Whatever goes in, what comes out is canonical. */
  lemma FormattedIsCanonical(lines: seq<string>)
    requires NewlineFree(lines)
    ensures Canonical(FormatLines(lines))
  {
    hide IsAnyTableHeader, IsBlank, WellSpaced, SecondPass, Canonical;
    PassInvariantHolds(lines, |lines|);
    var out := SecondPass(lines, |lines|).out;
    DropHeadKeeps(out);
    DropTailKeeps(DropBlankHead(out));
  }

  lemma {:induction false} CanonicalPass(out: seq<string>, k: nat)
    requires Canonical(out) && k <= |out|
    ensures SecondPass(out + [""], k) == Pass(out[..k], k > 0 && IsBlank(out[k - 1]))
  {
    hide IsAnyTableHeader, TrimSpace, TrimRightBlanks;
    if k > 0 {
      CanonicalPass(out, k - 1);
      var ls, line := out + [""], out[k - 1];
      assert ls[k - 1] == line && out[..k] == out[..k - 1] + [line];
      assert CanonicalLine(line);
      if IsAnyTableHeader(line) {
        ContentFromAppend(out, [""], k);
      }
      if IsBlank(line) {
        BlankIsNoHeader(line);
      }
    }
  }

  lemma CanonicalIsFixed(out: seq<string>)
    requires Canonical(out)
    ensures FormatLines(out + [""]) == out
  {
    hide IsAnyTableHeader, TrimSpace, TrimRightBlanks;
    var ls, n := out + [""], |out|;
    CanonicalPass(out, n);
    EmptyLineFacts();
    BlankIsNoHeader("");
    assert out[..n] == out && ls[n] == "";
    assert SecondPass(ls, n + 1) == FormatStep(SecondPass(ls, n), "") == Pass(ls, true);
    assert ls[..n] == out;
    if out == [] {
      assert DropBlankHead(ls) == DropBlankHead(ls[1..]) == ls[1..] == [];
    } else {
      assert ls[0] == out[0];
      assert DropBlankHead(ls) == ls;
      assert DropBlankTail(ls) == DropBlankTail(out) == out;
    }
  }

  /** Formatting twice is formatting once. */
  lemma FormatIsIdempotent(raw: string)
    ensures FormatToml(FormatToml(raw)) == FormatToml(raw)
  {
    hide IsAnyTableHeader, IsBlank, FormatLines, TrimRightBlanks;
    var out := FormatLines(Split(raw));
    SplitParts(raw);
    FormattedIsCanonical(Split(raw));
    CanonicalIsFixed(out);
    TwoBlankLines();
    SplitOfFormatted(out);
    assert FormatLines(Split(FormatToml(raw))) == out;
  }

  lemma SplitOfFormatted(out: seq<string>)
    requires WellSpaced(out)
    ensures Split(Join(out) + "\n") == if out == [] then ["", ""] else out + [""]
  {
    hide IsAnyTableHeader, IsBlank, TrimRightBlanks;
    if out != [] {
      SplitOfJoin(out);
    } else {
      SplitOfLine("", "");
      assert "" + "\n" + "" == Join(out) + "\n";
    }
  }

  lemma TwoBlankLines()
    ensures FormatLines(["", ""]) == []
  {
    EmptyLineFacts();
    BlankIsNoHeader("");
    var ls := ["", ""];
    assert SecondPass(ls, 1) == Pass([""], true);
    assert SecondPass(ls, 2) == Pass([""], true);
    assert [""][1..] == [];
  }

  // ---- What formatting preserves ----

  /** A header line, "" before the first one, and the content lines under it. */
  datatype Section = Section(header: string, body: seq<string>)

  /** The sections read so far that have content, and the one being read. */
  datatype Reading = Reading(done: seq<Section>, current: Section)

  function Finish(r: Reading): seq<Section> {
    if r.current.body == [] then r.done else r.done + [r.current]
  }

  /** A reader that ignores blank lines and trailing blanks. */
  function ReadLine(r: Reading, line: string): Reading {
    var l := TrimRightBlanks(line);
    if IsBlank(line) then r
    else if IsAnyTableHeader(line) then Reading(Finish(r), Section(l, []))
    else r.(current := r.current.(body := r.current.body + [l]))
  }

  function ReadAll(lines: seq<string>, k: nat): Reading
    requires k <= |lines|
  {
    if k == 0 then Reading([], Section("", [])) else ReadLine(ReadAll(lines, k - 1), lines[k - 1])
  }

  /** Every header occurrence that has content, with its content lines in order. */
  function Outline(lines: seq<string>): seq<Section> {
    Finish(ReadAll(lines, |lines|))
  }

  lemma {:induction false} ReadAllPrefix(lines: seq<string>, more: seq<string>, k: nat)
    requires k <= |lines|
    ensures ReadAll(lines + more, k) == ReadAll(lines, k)
  {
    if k > 0 {
      ReadAllPrefix(lines, more, k - 1);
    }
  }

  lemma ReadSnoc(lines: seq<string>, line: string)
    ensures ReadAll(lines + [line], |lines| + 1) == ReadLine(ReadAll(lines, |lines|), line)
  {
    ReadAllPrefix(lines, [line], |lines|);
  }

  lemma ReadBlankTail(lines: seq<string>, line: string)
    requires IsBlank(line)
    ensures ReadAll(lines + [line], |lines| + 1) == ReadAll(lines, |lines|)
  {
    ReadSnoc(lines, line);
  }

  lemma {:induction false} ReadBlankHead(lines: seq<string>, k: nat)
    requires lines != [] && IsBlank(lines[0]) && 0 < k <= |lines|
    ensures ReadAll(lines, k) == ReadAll(lines[1..], k - 1)
  {
    if k > 1 {
      ReadBlankHead(lines, k - 1);
      assert lines[1..][k - 2] == lines[k - 1];
    }
  }

  lemma {:induction false} DropHeadReads(out: seq<string>)
    ensures Outline(DropBlankHead(out)) == Outline(out)
  {
    if out != [] && IsBlank(out[0]) {
      ReadBlankHead(out, |out|);
      DropHeadReads(out[1..]);
    }
  }

  lemma {:induction false} DropTailReads(out: seq<string>)
    ensures Outline(DropBlankTail(out)) == Outline(out)
  {
    if out != [] && IsBlank(out[|out| - 1]) {
      ReadBlankTail(out[..|out| - 1], out[|out| - 1]);
      assert out[..|out| - 1] + [out[|out| - 1]] == out;
      DropTailReads(out[..|out| - 1]);
    }
  }

  /** The reader of the output is where the reader of the input is, or the input is under a
      header that was dropped and that no content follows. */
  predicate InStep(out: Reading, in_: Reading, more: bool) {
    out == in_ || (in_.current.body == [] && Finish(out) == Finish(in_) && !more)
  }

  lemma StepInStep(st: Pass, in_: Reading, line: string, more: bool, more': bool)
    requires InStep(ReadAll(st.out, |st.out|), in_, more) && '\n' !in line
    requires more <==> !IsAnyTableHeader(line) && (!IsBlank(line) || more')
    ensures var out' := FormatStep(st, line).out;
            InStep(ReadAll(out', |out'|), ReadLine(in_, line), more')
  {
    hide IsAnyTableHeader, TrimSpace, TrimRightBlanks;
    TrimRightBlanksFacts(line);
    EmptyLineFacts();
    var l := TrimRightBlanks(line);
    if IsBlank(l) {
      BlankIsNoHeader(l);
      ReadBlankTail(st.out, "");
    } else {
      ReadBlankTail(st.out, "");
      ReadSnoc(st.out, l);
      ReadSnoc(st.out + [""], l);
    }
  }

  lemma {:induction false} PassInStep(lines: seq<string>, k: nat)
    requires k <= |lines| && NewlineFree(lines)
    ensures var out := SecondPass(lines, k).out;
            InStep(ReadAll(out, |out|), ReadAll(lines, k), ContentFrom(lines, k))
  {
    hide IsAnyTableHeader, TrimSpace, TrimRightBlanks;
    if k > 0 {
      PassInStep(lines, k - 1);
      if !Skipped(lines, k - 1) {
        StepInStep(SecondPass(lines, k - 1), ReadAll(lines, k - 1), lines[k - 1], ContentFrom(lines, k - 1),
          ContentFrom(lines, k));
      } else {
        HeaderIsNotBlank(lines[k - 1]);
      }
    }
  }

  lemma HeaderIsNotBlank(line: string)
    requires IsAnyTableHeader(line)
    ensures !IsBlank(line)
  {
  }

  /** Formatting loses no content: every content line survives, trimmed only on the right, in
      order, under the same occurrence of the same header; no content line is added. */
  lemma FormatKeepsContent(raw: string)
    ensures Outline(Split(FormatToml(raw))) == Outline(Split(raw))
  {
    hide IsAnyTableHeader, IsBlank, TrimRightBlanks, SecondPass, ReadAll;
    var lines := Split(raw);
    SplitParts(raw);
    PassInStep(lines, |lines|);
    var out := SecondPass(lines, |lines|).out;
    DropHeadReads(out);
    DropTailReads(DropBlankHead(out));
    FormattedIsCanonical(lines);
    FormattedSplits(FormatLines(lines));
  }

  lemma FormattedSplits(out: seq<string>)
    requires Canonical(out)
    ensures Outline(Split(Join(out) + "\n")) == Outline(out)
  {
    hide IsAnyTableHeader, TrimRightBlanks;
    EmptyLineFacts();
    SplitOfFormatted(out);
    if out != [] {
      ReadBlankTail(out, "");
    } else {
      ReadBlankTail([""], "");
      ReadBlankTail([], "");
      assert [] + [""] == [""] && [""] + [""] == ["", ""];
    }
  }
}
