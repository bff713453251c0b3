/** Where the formatter leaves and makes blank lines. */
module ConfigSpacing {
  import opened Text
  import opened ConfigLines
  import opened ConfigFormat

  /** A visible line, trimmed on the right, and whether it has a blank line in front. */
  datatype Spaced = Spaced(line: string, gap: bool)

  /** The visible lines with their gaps, and whether a blank line is at the end. */
  datatype Spacing = Spacing(lines: seq<Spaced>, blank: bool)

  function SpacingOf(lines: seq<string>): Spacing {
    if lines == [] then Spacing([], false)
    else
      var s := SpacingOf(lines[..|lines| - 1]);
      var last := lines[|lines| - 1];
      if IsBlank(last) then s.(blank := true) else Spacing(s.lines + [Spaced(TrimRightBlanks(last), s.blank)], false)
  }

  lemma SpacingSnoc(lines: seq<string>, x: string)
    ensures SpacingOf(lines + [x]) ==
            var s := SpacingOf(lines);
            if IsBlank(x) then s.(blank := true) else Spacing(s.lines + [Spaced(TrimRightBlanks(x), s.blank)], false)
  {
    hide IsBlank, TrimRightBlanks;
    assert (lines + [x])[..|lines|] == lines;
  }

  /** The lines without the headers of empty sections. */
  function Unskipped(lines: seq<string>, k: nat): seq<string>
    requires k <= |lines|
  {
    if k == 0 then [] else Unskipped(lines, k - 1) + if Skipped(lines, k - 1) then [] else [lines[k - 1]]
  }

  /** A gap in front of every header but a first line, beside the gaps that were there. */
  function GapHeaders(lines: seq<Spaced>): (r: seq<Spaced>)
    ensures |r| == |lines|
  {
    if lines == [] then []
    else
      var x := lines[|lines| - 1];
      GapHeaders(lines[..|lines| - 1]) + [Spaced(x.line, x.gap || (|lines| > 1 && IsAnyTableHeader(x.line)))]
  }

  lemma GapHeadersSnoc(lines: seq<Spaced>, x: Spaced)
    ensures GapHeaders(lines + [x]) ==
            GapHeaders(lines) + [Spaced(x.line, x.gap || (lines != [] && IsAnyTableHeader(x.line)))]
  {
    hide IsAnyTableHeader;
    assert (lines + [x])[..|lines|] == lines;
  }

  lemma StepSpacing(st: Pass, line: string, s: Spacing)
    requires '\n' !in line
    requires SpacingOf(st.out) == Spacing(GapHeaders(s.lines), s.blank) && st.prevBlank == s.blank
    requires st.out != [] ==> IsBlank(st.out[|st.out| - 1]) == s.blank
    requires st.out == [] <==> s.lines == [] && !s.blank
    ensures var st' := FormatStep(st, line);
            var s' := if IsBlank(line) then s.(blank := true)
                      else Spacing(s.lines + [Spaced(TrimRightBlanks(line), s.blank)], false);
            && SpacingOf(st'.out) == Spacing(GapHeaders(s'.lines), s'.blank) && st'.prevBlank == s'.blank
            && (st'.out != [] ==> IsBlank(st'.out[|st'.out| - 1]) == s'.blank)
            && (st'.out == [] <==> s'.lines == [] && !s'.blank)
  {
    hide TrimRightBlanks, TrimSpace, SpacingOf, GapHeaders;
    TrimRightBlanksFacts(line);
    var l := TrimRightBlanks(line);
    EmptyIsBlank();
    SpacingSnoc(st.out, "");
    SpacingSnoc(st.out, l);
    SpacingSnoc(st.out + [""], l);
    GapHeadersSnoc(s.lines, Spaced(l, s.blank));
  }

  lemma EmptyIsBlank()
    ensures IsBlank("")
  {
  }

  lemma {:induction false} PassSpacing(lines: seq<string>, k: nat)
    requires k <= |lines| && NewlineFree(lines)
    ensures var (st, s) := (SecondPass(lines, k), SpacingOf(Unskipped(lines, k)));
            && SpacingOf(st.out) == Spacing(GapHeaders(s.lines), s.blank) && st.prevBlank == s.blank
            && (st.out != [] ==> IsBlank(st.out[|st.out| - 1]) == s.blank)
            && (st.out == [] <==> s.lines == [] && !s.blank)
  {
    hide IsBlank, IsAnyTableHeader, FormatStep, SpacingOf, GapHeaders, Skipped;
    if k == 0 {
      NothingSpaced();
    } else {
      PassSpacing(lines, k - 1);
      var kept := Unskipped(lines, k - 1);
      if Skipped(lines, k - 1) {
        assert kept + [] == kept;
      } else {
        StepSpacing(SecondPass(lines, k - 1), lines[k - 1], SpacingOf(kept));
        SpacingSnoc(kept, lines[k - 1]);
      }
    }
  }

  lemma NothingSpaced()
    ensures SpacingOf([]) == Spacing([], false) && GapHeaders([]) == []
  {
  }

  /** No gap in front of the first line. */
  function NoGapFirst(lines: seq<Spaced>): seq<Spaced> {
    if lines == [] then [] else [Spaced(lines[0].line, false)] + lines[1..]
  }

  lemma {:induction false} DropTailSpacing(out: seq<string>)
    ensures SpacingOf(DropBlankTail(out)) == Spacing(SpacingOf(out).lines, false)
  {
    hide IsBlank, TrimRightBlanks;
    if out != [] && IsBlank(out[|out| - 1]) {
      DropTailSpacing(out[..|out| - 1]);
    }
  }

  /** What a blank line in front changes. */
  lemma {:induction false} BlankInFront(x: string, out: seq<string>)
    requires IsBlank(x)
    ensures var (s, t) := (SpacingOf(out), SpacingOf([x] + out));
            if s.lines == [] then t == Spacing([], true)
            else t == Spacing([Spaced(s.lines[0].line, true)] + s.lines[1..], s.blank)
  {
    hide IsBlank, TrimRightBlanks, SpacingOf;
    if out == [] {
      assert [x] + out == [] + [x];
      NothingSpaced();
      SpacingSnoc([], x);
    } else {
      var init, last := out[..|out| - 1], out[|out| - 1];
      assert out == init + [last] && [x] + out == ([x] + init) + [last];
      BlankInFront(x, init);
      SpacingSnoc(init, last);
      SpacingSnoc([x] + init, last);
    }
  }

  lemma {:induction false} DropHeadSpacing(out: seq<string>)
    ensures NoGapFirst(SpacingOf(DropBlankHead(out)).lines) == NoGapFirst(SpacingOf(out).lines)
    ensures DropBlankHead(out) != [] ==> !IsBlank(DropBlankHead(out)[0])
  {
    hide IsBlank, TrimRightBlanks, SpacingOf;
    if out != [] && IsBlank(out[0]) {
      DropHeadSpacing(out[1..]);
      assert out == [out[0]] + out[1..];
      BlankInFront(out[0], out[1..]);
    }
  }

  lemma {:induction false} FirstHasNoGap(out: seq<string>)
    requires out != [] && !IsBlank(out[0])
    ensures SpacingOf(out).lines != [] && !SpacingOf(out).lines[0].gap
  {
    hide IsBlank, TrimRightBlanks, SpacingOf;
    var init, last := out[..|out| - 1], out[|out| - 1];
    assert out == init + [last];
    SpacingSnoc(init, last);
    if init == [] {
      NothingSpaced();
    } else {
      FirstHasNoGap(init);
    }
  }

  /** For every file: the formatted lines are the visible ones, trimmed on the right and in order,
      without the headers of empty sections; a line has a blank line in front if it had one or is a
      header, but for the first; and no blank line ends the file. */
  lemma FormattedSpacing(lines: seq<string>)
    requires NewlineFree(lines)
    ensures SpacingOf(FormatLines(lines)) ==
            Spacing(NoGapFirst(GapHeaders(SpacingOf(Unskipped(lines, |lines|)).lines)), false)
  {
    hide IsBlank, SpacingOf, GapHeaders, Unskipped, SecondPass, DropBlankHead, DropBlankTail;
    var out := SecondPass(lines, |lines|).out;
    PassSpacing(lines, |lines|);
    DropHeadSpacing(out);
    DropTailSpacing(DropBlankHead(out));
    var dropped := DropBlankHead(out);
    if dropped != [] {
      FirstHasNoGap(dropped);
      var first := SpacingOf(dropped).lines;
      assert first == [Spaced(first[0].line, false)] + first[1..];
    } else {
      NothingSpaced();
    }
  }
}
