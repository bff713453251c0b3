/** The blocks of a file, what a reader finds in them, and what formatting leaves of both. */
module ConfigBlocks {
  import opened Text
  import opened ConfigLines
  import opened LineSearch
  import opened Upsert
  import opened ConfigFormat

  /** What formatting keeps of the lines, blank lines aside: headers without content go, and
      trailing blanks do. */
  function Compact(lines: seq<string>): seq<string> {
    if lines == [] then []
    else (if IsBlank(lines[0]) || Skipped(lines, 0) then [] else [TrimRightBlanks(lines[0])]) + Compact(lines[1..])
  }

  function Visible(lines: seq<string>): seq<string> {
    if lines == [] then []
    else (if IsBlank(lines[0]) then [] else [TrimRightBlanks(lines[0])]) + Visible(lines[1..])
  }

  /** Every header that passes the test has content before the next header. */
  predicate FedAll(lines: seq<string>, test: LineTest) {
    lines == [] || ((Passes(lines[0], test) ==> ContentFrom(lines, 1)) && FedAll(lines[1..], test))
  }

  /** The lines before the first header that passes, and the blocks that such headers begin. */
  datatype Parts = Parts(head: seq<string>, blocks: seq<seq<string>>)

  function Cut(lines: seq<string>, test: LineTest): Parts {
    if lines == [] then Parts([], [])
    else
      var rest := Cut(lines[1..], test);
      if Passes(lines[0], test) then Parts([], [[lines[0]] + rest.head] + rest.blocks)
      else Parts([lines[0]] + rest.head, rest.blocks)
  }

  predicate IsHeaderTest(test: LineTest) {
    test.AnyTable? || (test.Table? && "[" <= test.header)
  }

  lemma HeaderPasses(line: string, test: LineTest)
    requires IsHeaderTest(test)
    ensures Passes(line, test) ==> IsAnyTableHeader(line) && !IsBlank(line)
    ensures Passes(TrimRightBlanks(line), test) <==> Passes(line, test)
  {
    TrimSpaceIgnoresBlanks(line);
    if test.Table? && Passes(line, test) {
      assert test.header[0] == '[' == TrimSpace(line)[0];
    }
  }

  // ---- Blocks of the compact lines ----

  lemma {:induction false} ContentOfHead(lines: seq<string>, test: LineTest)
    requires IsHeaderTest(test)
    ensures ContentFrom(lines, 0) == ContentFrom(Cut(lines, test).head, 0)
  {
    hide Passes, IsAnyTableHeader, IsBlank;
    if lines != [] {
      var x, rest := lines[0], lines[1..];
      HeaderPasses(x, test);
      ContentOfHead(rest, test);
      ContentCons(x, rest);
      ContentCons(x, Cut(rest, test).head);
      assert lines == [x] + rest;
    }
  }

  lemma ContentCons(x: string, rest: seq<string>)
    ensures ContentFrom([x] + rest, 0) == (!IsAnyTableHeader(x) && (!IsBlank(x) || ContentFrom(rest, 0)))
    ensures ContentFrom([x] + rest, 1) == ContentFrom(rest, 0)
  {
    hide IsAnyTableHeader, IsBlank;
    assert ([x] + rest)[1..] == rest;
    if rest != [] {
      ContentFromTail([x] + rest, 0);
    }
  }

  lemma CompactCons(x: string, rest: seq<string>)
    ensures Compact([x] + rest) ==
            (if IsBlank(x) || (IsAnyTableHeader(x) && !ContentFrom(rest, 0)) then []
              else [TrimRightBlanks(x)]) + Compact(rest)
  {
    hide IsAnyTableHeader, IsBlank, TrimRightBlanks;
    assert ([x] + rest)[1..] == rest;
    ContentCons(x, rest);
  }

  lemma FedCons(x: string, rest: seq<string>, test: LineTest)
    ensures FedAll([x] + rest, test) <==> (Passes(x, test) ==> ContentFrom(rest, 0)) && FedAll(rest, test)
  {
    hide Passes;
    assert ([x] + rest)[1..] == rest;
    ContentCons(x, rest);
  }

  lemma CutCons(x: string, rest: seq<string>, test: LineTest)
    ensures Cut([x] + rest, test) ==
            var r := Cut(rest, test);
            if Passes(x, test) then Parts([], [[x] + r.head] + r.blocks) else Parts([x] + r.head, r.blocks)
  {
    hide Passes;
    assert ([x] + rest)[1..] == rest;
  }

  function CompactAll(blocks: seq<seq<string>>): (r: seq<seq<string>>)
    ensures |r| == |blocks|
    ensures forall k :: 0 <= k < |blocks| ==> r[k] == Compact(blocks[k])
  {
    if blocks == [] then [] else [Compact(blocks[0])] + CompactAll(blocks[1..])
  }

  /** Where the headers of a test are fed, the blocks of the compact lines are the compact blocks. */
  lemma {:induction false} CutCompact(lines: seq<string>, test: LineTest)
    requires IsHeaderTest(test) && FedAll(lines, test)
    ensures var r := Cut(lines, test); Cut(Compact(lines), test) == Parts(Compact(r.head), CompactAll(r.blocks))
  {
    hide Passes, IsAnyTableHeader, IsBlank, Compact, TrimRightBlanks;
    CompactNothing();
    if lines != [] {
      var x, rest := lines[0], lines[1..];
      var r := Cut(rest, test);
      assert lines == [x] + rest;
      FedCons(x, rest, test);
      CutCompact(rest, test);
      ContentOfHead(rest, test);
      HeaderPasses(x, test);
      CompactCons(x, rest);
      CompactCons(x, r.head);
      if Passes(x, test) {
        CutCons(TrimRightBlanks(x), Compact(rest), test);
        assert ([[x] + r.head] + r.blocks)[1..] == r.blocks;
      } else if IsBlank(x) || (IsAnyTableHeader(x) && !ContentFrom(rest, 0)) {
        assert [] + Compact(rest) == Compact(rest) && [] + Compact(r.head) == Compact(r.head);
      } else {
        CutCons(TrimRightBlanks(x), Compact(rest), test);
      }
    }
  }

  lemma CompactNothing()
    ensures Compact([]) == []
  {
  }

  /** In general only fed headers still begin a block. */
  lemma {:induction false} CutCompactCount(lines: seq<string>, test: LineTest)
    requires IsHeaderTest(test)
    ensures |Cut(Compact(lines), test).blocks| <= |Cut(lines, test).blocks|
    ensures |Cut(Compact(lines), test).blocks| == |Cut(lines, test).blocks| <==> FedAll(lines, test)
  {
    hide Passes, IsAnyTableHeader, IsBlank, Compact, TrimRightBlanks;
    CompactNothing();
    if lines != [] {
      var x, rest := lines[0], lines[1..];
      assert lines == [x] + rest;
      FedCons(x, rest, test);
      CutCompactCount(rest, test);
      HeaderPasses(x, test);
      CompactCons(x, rest);
      CutCons(TrimRightBlanks(x), Compact(rest), test);
      assert [] + Compact(rest) == Compact(rest);
    }
  }

  /** A block inherits what its file is fed. */
  lemma {:induction false} BlocksFed(lines: seq<string>, test: LineTest, other: LineTest)
    requires IsHeaderTest(test) && FedAll(lines, other)
    ensures FedAll(Cut(lines, test).head, other)
    ensures forall k :: 0 <= k < |Cut(lines, test).blocks| ==> FedAll(Cut(lines, test).blocks[k], other)
  {
    hide Passes;
    if lines != [] {
      var x, rest := lines[0], lines[1..];
      var r := Cut(rest, test);
      assert lines == [x] + rest;
      FedCons(x, rest, other);
      BlocksFed(rest, test, other);
      ContentOfHead(rest, test);
      FedCons(x, r.head, other);
    }
  }

  // ---- Formatting keeps the compact lines ----

  function KeptUpTo(lines: seq<string>, k: nat): seq<string>
    requires k <= |lines|
  {
    if k == 0 then []
    else
      KeptUpTo(lines, k - 1)
      + if IsBlank(lines[k - 1]) || Skipped(lines, k - 1) then [] else [TrimRightBlanks(lines[k - 1])]
  }

  lemma {:induction false} ContentOfSuffix(lines: seq<string>, k: nat)
    requires k <= |lines|
    ensures ContentFrom(lines[k..], 0) == ContentFrom(lines, k)
    decreases |lines| - k
  {
    hide IsAnyTableHeader, IsBlank;
    if k < |lines| {
      ContentOfSuffix(lines, k + 1);
      ContentCons(lines[k], lines[k + 1..]);
      assert lines[k..] == [lines[k]] + lines[k + 1..];
    }
  }

  lemma {:induction false} KeptIsCompact(lines: seq<string>, k: nat)
    requires k <= |lines|
    ensures KeptUpTo(lines, k) + Compact(lines[k..]) == Compact(lines)
  {
    hide IsAnyTableHeader, IsBlank, Compact, TrimRightBlanks;
    if k == 0 {
      assert lines[0..] == lines && [] + Compact(lines) == Compact(lines);
    } else {
      KeptIsCompact(lines, k - 1);
      ContentOfSuffix(lines, k);
      CompactCons(lines[k - 1], lines[k..]);
      assert lines[k - 1..] == [lines[k - 1]] + lines[k..];
      var here := if IsBlank(lines[k - 1]) || Skipped(lines, k - 1) then [] else [TrimRightBlanks(lines[k - 1])];
      assert KeptUpTo(lines, k - 1) + (here + Compact(lines[k..])) == KeptUpTo(lines, k) + Compact(lines[k..]);
    }
  }

  lemma VisibleCons(x: string, rest: seq<string>)
    ensures Visible([x] + rest) == (if IsBlank(x) then [] else [TrimRightBlanks(x)]) + Visible(rest)
  {
    hide IsBlank, TrimRightBlanks;
    assert ([x] + rest)[1..] == rest;
  }

  lemma {:induction false} VisibleAppend(a: seq<string>, b: seq<string>)
    ensures Visible(a + b) == Visible(a) + Visible(b)
  {
    hide IsBlank, TrimRightBlanks, Visible;
    if a == [] {
      assert a + b == b;
      VisibleNothing();
      assert [] + Visible(b) == Visible(b);
    } else {
      var x, rest := a[0], a[1..];
      assert a == [x] + rest && a + b == [x] + (rest + b);
      VisibleAppend(rest, b);
      VisibleCons(x, rest);
      VisibleCons(x, rest + b);
    }
  }

  lemma VisibleNothing()
    ensures Visible([]) == []
  {
  }

  lemma VisibleOne(line: string)
    ensures Visible([line]) == if IsBlank(line) then [] else [TrimRightBlanks(line)]
  {
    hide IsBlank, TrimRightBlanks;
    assert [line][1..] == [];
  }

  lemma StepVisible(st: Pass, line: string)
    requires '\n' !in line
    ensures Visible(FormatStep(st, line).out) == Visible(st.out) + if IsBlank(line) then [] else [TrimRightBlanks(line)]
  {
    hide Visible, IsAnyTableHeader, TrimSpace, TrimRightBlanks;
    TrimRightBlanksFacts(line);
    EmptyLineFacts();
    var l := TrimRightBlanks(line);
    VisibleAppend(st.out, [""]);
    VisibleAppend(st.out, [l]);
    VisibleAppend(st.out + [""], [l]);
    VisibleOne("");
    VisibleOne(l);
    assert Visible(st.out) + [] == Visible(st.out);
  }

  lemma {:induction false} PassVisible(lines: seq<string>, k: nat)
    requires k <= |lines| && NewlineFree(lines)
    ensures Visible(SecondPass(lines, k).out) == KeptUpTo(lines, k)
  {
    hide IsAnyTableHeader, IsBlank, TrimRightBlanks, FormatStep;
    if k > 0 {
      PassVisible(lines, k - 1);
      StepVisible(SecondPass(lines, k - 1), lines[k - 1]);
      assert KeptUpTo(lines, k - 1) + [] == KeptUpTo(lines, k - 1);
    }
  }

  lemma {:induction false} DropHeadVisible(out: seq<string>)
    ensures Visible(DropBlankHead(out)) == Visible(out)
  {
    hide IsBlank, TrimRightBlanks;
    if out != [] && IsBlank(out[0]) {
      DropHeadVisible(out[1..]);
    }
  }

  lemma {:induction false} DropTailVisible(out: seq<string>)
    ensures Visible(DropBlankTail(out)) == Visible(out)
  {
    hide IsBlank, TrimRightBlanks, Visible;
    if out != [] && IsBlank(out[|out| - 1]) {
      var init, last := out[..|out| - 1], out[|out| - 1];
      DropTailVisible(init);
      assert out == init + [last];
      VisibleAppend(init, [last]);
      VisibleOne(last);
    }
  }

  lemma {:induction false} FedIsVisible(lines: seq<string>)
    requires FedAll(lines, AnyTable)
    ensures Compact(lines) == Visible(lines)
  {
    hide IsAnyTableHeader, IsBlank, TrimRightBlanks;
    if lines != [] {
      FedIsVisible(lines[1..]);
    }
  }

  lemma {:induction false} FedFrom(lines: seq<string>, k: nat)
    requires k <= |lines| && forall i :: 0 <= i < |lines| && IsAnyTableHeader(lines[i]) ==> ContentFrom(lines, i + 1)
    ensures FedAll(lines[k..], AnyTable)
    decreases |lines| - k
  {
    hide IsAnyTableHeader, IsBlank;
    if k < |lines| {
      FedFrom(lines, k + 1);
      ContentOfSuffix(lines, k + 1);
      FedCons(lines[k], lines[k + 1..], AnyTable);
      assert lines[k..] == [lines[k]] + lines[k + 1..];
    }
  }

  /** Formatting feeds every header and keeps the compact lines. */
  lemma FormattedCompact(lines: seq<string>)
    requires NewlineFree(lines)
    ensures FedAll(FormatLines(lines), AnyTable) && Compact(FormatLines(lines)) == Compact(lines)
  {
    hide IsAnyTableHeader, IsBlank, TrimRightBlanks, SecondPass, WellSpaced, Compact, Visible, KeptUpTo,
         DropBlankHead, DropBlankTail;
    var out, f := SecondPass(lines, |lines|).out, FormatLines(lines);
    FormattedIsCanonical(lines);
    FedFrom(f, 0);
    assert f[0..] == f;
    FedIsVisible(f);
    DropTailVisible(DropBlankHead(out));
    DropHeadVisible(out);
    PassVisible(lines, |lines|);
    KeptIsCompact(lines, |lines|);
    CompactNothing();
    assert lines[|lines|..] == [] && KeptUpTo(lines, |lines|) + [] == KeptUpTo(lines, |lines|);
  }

  // ---- What a reader finds ----

  /** The lines up to the next header. */
  function Body(lines: seq<string>): seq<string> {
    if lines == [] || IsAnyTableHeader(lines[0]) then [] else [lines[0]] + Body(lines[1..])
  }

  function FirstKey(body: seq<string>, key: string): Found {
    if body == [] then Missing
    else if MatchKey(body[0], key) then Found(ValueOf(body[0], key))
    else FirstKey(body[1..], key)
  }

  /** The key in the first table with this header. */
  function InFirst(lines: seq<string>, header: string, key: string): Found {
    if lines == [] then Missing
    else if MatchTableHeader(lines[0], header) then FirstKey(Body(lines[1..]), key)
    else InFirst(lines[1..], header, key)
  }

  predicate HasTableIn(lines: seq<string>, header: string) {
    lines != [] && (MatchTableHeader(lines[0], header) || HasTableIn(lines[1..], header))
  }

  /** The key in the last table with this header. */
  function InLast(lines: seq<string>, header: string, key: string): Found {
    if lines == [] then Missing
    else if HasTableIn(lines[1..], header) then InLast(lines[1..], header, key)
    else if MatchTableHeader(lines[0], header) then FirstKey(Body(lines[1..]), key)
    else Missing
  }

  lemma {:induction false} NoContentNoBody(lines: seq<string>)
    requires !ContentFrom(lines, 0)
    ensures Body(Compact(lines)) == [] && Visible(Body(lines)) == []
  {
    hide IsAnyTableHeader, IsBlank, TrimRightBlanks, Compact;
    CompactNothing();
    if lines != [] {
      var x, rest := lines[0], lines[1..];
      assert lines == [x] + rest;
      ContentCons(x, rest);
      CompactCons(x, rest);
      assert [] + Compact(rest) == Compact(rest);
      if IsAnyTableHeader(x) {
        if ContentFrom(rest, 0) {
          HeaderPasses(x, AnyTable);
        } else {
          NoContentNoBody(rest);
        }
      } else {
        NoContentNoBody(rest);
      }
    }
  }

  lemma {:induction false} BodyCompact(lines: seq<string>)
    ensures Body(Compact(lines)) == Visible(Body(lines))
  {
    hide IsAnyTableHeader, IsBlank, TrimRightBlanks, Compact;
    CompactNothing();
    if lines != [] {
      var x, rest := lines[0], lines[1..];
      assert lines == [x] + rest;
      CompactCons(x, rest);
      HeaderPasses(x, AnyTable);
      assert [] + Compact(rest) == Compact(rest);
      if IsAnyTableHeader(x) {
        if !ContentFrom(rest, 0) {
          NoContentNoBody(rest);
        }
      } else {
        BodyCompact(rest);
        BodyCons(TrimRightBlanks(x), Compact(rest));
        VisibleCons(x, Body(rest));
      }
    }
  }

  lemma BodyCons(x: string, rest: seq<string>)
    ensures Body([x] + rest) == if IsAnyTableHeader(x) then [] else [x] + Body(rest)
  {
    hide IsAnyTableHeader;
    assert ([x] + rest)[1..] == rest;
  }

  lemma {:induction false} TrimRightBlanksParts(line: string) returns (pad: string)
    ensures line == TrimRightBlanks(line) + pad && AllBlank(pad)
  {
    if line != "" && IsBlankChar(line[|line| - 1]) {
      var rest := TrimRightBlanksParts(line[..|line| - 1]);
      pad := rest + [line[|line| - 1]];
      assert line == line[..|line| - 1] + [line[|line| - 1]];
    } else {
      pad := "";
    }
  }

  lemma TrimmedComment(line: string)
    ensures var l := TrimRightBlanks(line);
            && TrimSpace(l[..CommentStart(l, Outside)]) == TrimSpace(line[..CommentStart(line, Outside)])
  {
    hide TrimSpace, TrimRightBlanks, CommentStart, ScanAll;
    var l := TrimRightBlanks(line);
    var pad := TrimRightBlanksParts(line);
    ScanAppend(l, pad, Outside);
    if CommentStart(l, Outside) < |l| {
      assert (l + pad)[..CommentStart(l, Outside)] == l[..CommentStart(l, Outside)];
    } else {
      NoHashInBlanks(pad, ScanAll(l, Outside));
      assert line[..|line|] == line && l[..|l|] == l;
      TrimSpaceIgnoresBlanks(line);
    }
  }

  lemma {:induction false} NoHashInBlanks(pad: string, st: Scan)
    requires AllBlank(pad)
    ensures CommentStart(pad, st) == |pad|
  {
    if pad != "" {
      NoHashInBlanks(pad[1..], ScanChar(st, pad[0]));
    }
  }

  /** Trimming a line on the right changes nothing a reader sees. */
  lemma TrimmedReads(line: string, key: string)
    ensures MatchKey(TrimRightBlanks(line), key) <==> MatchKey(line, key)
    ensures ValueOf(TrimRightBlanks(line), key) == ValueOf(line, key)
    ensures MatchKey(line, key) ==> !IsBlank(line) && !IsAnyTableHeader(line)
  {
    hide TrimSpace, CommentStart, TrimRightBlanks;
    TrimSpaceIgnoresBlanks(line);
    TrimmedComment(line);
  }

  lemma {:induction false} VisibleReads(body: seq<string>, key: string)
    ensures FirstKey(Visible(body), key) == FirstKey(body, key)
  {
    hide MatchKey, ValueOf, IsBlank, TrimRightBlanks, IsAnyTableHeader;
    if body != [] {
      VisibleReads(body[1..], key);
      TrimmedReads(body[0], key);
      if !IsBlank(body[0]) {
        var l, rest := TrimRightBlanks(body[0]), Visible(body[1..]);
        assert Visible(body) == [l] + rest && ([l] + rest)[1..] == rest;
      } else {
        assert [] + Visible(body[1..]) == Visible(body[1..]);
      }
    }
  }

  lemma {:induction false} FoundHasContent(lines: seq<string>, key: string)
    requires FirstKey(Body(lines), key).Found?
    ensures ContentFrom(lines, 0)
  {
    hide MatchKey, ValueOf, IsBlank, IsAnyTableHeader;
    if lines != [] {
      var x, rest := lines[0], lines[1..];
      assert lines == [x] + rest;
      ContentCons(x, rest);
      TrimmedReads(x, key);
      if !MatchKey(x, key) && !IsAnyTableHeader(x) {
        assert Body(lines)[1..] == Body(rest);
        FoundHasContent(rest, key);
      }
    }
  }

  lemma BodyReads(lines: seq<string>, key: string)
    ensures FirstKey(Body(Compact(lines)), key) == FirstKey(Body(lines), key)
  {
    hide Body, Compact, FirstKey, Visible;
    BodyCompact(lines);
    VisibleReads(Body(lines), key);
  }

  lemma InFirstCons(x: string, rest: seq<string>, header: string, key: string)
    ensures InFirst([x] + rest, header, key) ==
            if MatchTableHeader(x, header) then FirstKey(Body(rest), key) else InFirst(rest, header, key)
  {
    hide MatchTableHeader, FirstKey, Body;
    assert ([x] + rest)[1..] == rest;
  }

  /** A value found in the first table is found there after compacting; where all headers are fed,
      compacting changes nothing about the table. */
  lemma {:induction false} InFirstCompact(lines: seq<string>, header: string, key: string)
    requires "[" <= header
    ensures InFirst(lines, header, key).Found? || FedAll(lines, AnyTable) ==>
      InFirst(Compact(lines), header, key) == InFirst(lines, header, key)
  {
    hide MatchTableHeader, IsAnyTableHeader, IsBlank, TrimRightBlanks, Compact, FirstKey, Body;
    CompactNothing();
    if lines != [] {
      var x, rest := lines[0], lines[1..];
      assert lines == [x] + rest;
      CompactCons(x, rest);
      HeaderPasses(x, Table(header));
      HeaderPasses(x, AnyTable);
      FedCons(x, rest, AnyTable);
      InFirstCons(TrimRightBlanks(x), Compact(rest), header, key);
      assert [] + Compact(rest) == Compact(rest);
      if MatchTableHeader(x, header) {
        if FirstKey(Body(rest), key).Found? {
          FoundHasContent(rest, key);
        }
        BodyReads(rest, key);
      } else {
        InFirstCompact(rest, header, key);
      }
    }
  }

  lemma {:induction false} NoTableCompact(lines: seq<string>, header: string)
    requires "[" <= header
    ensures HasTableIn(Compact(lines), header) ==> HasTableIn(lines, header)
    ensures FedAll(lines, AnyTable) && HasTableIn(lines, header) ==> HasTableIn(Compact(lines), header)
  {
    hide MatchTableHeader, IsAnyTableHeader, IsBlank, TrimRightBlanks, Compact;
    CompactNothing();
    if lines != [] {
      var x, rest := lines[0], lines[1..];
      assert lines == [x] + rest;
      CompactCons(x, rest);
      HeaderPasses(x, Table(header));
      HeaderPasses(x, AnyTable);
      FedCons(x, rest, AnyTable);
      NoTableCompact(rest, header);
      HasTableCons(TrimRightBlanks(x), Compact(rest), header);
      assert [] + Compact(rest) == Compact(rest);
    }
  }

  lemma HasTableCons(x: string, rest: seq<string>, header: string)
    ensures HasTableIn([x] + rest, header) <==> MatchTableHeader(x, header) || HasTableIn(rest, header)
  {
    hide MatchTableHeader;
    assert ([x] + rest)[1..] == rest;
  }

  lemma InLastCons(x: string, rest: seq<string>, header: string, key: string)
    ensures InLast([x] + rest, header, key) ==
            if HasTableIn(rest, header) then InLast(rest, header, key)
            else if MatchTableHeader(x, header) then FirstKey(Body(rest), key) else Missing
  {
    hide MatchTableHeader, FirstKey, Body, HasTableIn;
    assert ([x] + rest)[1..] == rest;
  }

  lemma {:induction false} NoTableNothing(lines: seq<string>, header: string, key: string)
    requires !HasTableIn(lines, header)
    ensures InLast(lines, header, key) == Missing
  {
    hide MatchTableHeader;
    if lines != [] {
      NoTableNothing(lines[1..], header, key);
    }
  }

  lemma {:induction false} InLastCompact(lines: seq<string>, header: string, key: string)
    requires "[" <= header
    ensures InLast(lines, header, key).Found? || FedAll(lines, AnyTable) ==>
      InLast(Compact(lines), header, key) == InLast(lines, header, key)
    ensures InLast(lines, header, key).Found? ==> HasTableIn(Compact(lines), header)
  {
    hide MatchTableHeader, IsAnyTableHeader, IsBlank, TrimRightBlanks, Compact, FirstKey, Body;
    CompactNothing();
    if lines != [] {
      var x, rest := lines[0], lines[1..];
      assert lines == [x] + rest;
      CompactCons(x, rest);
      HeaderPasses(x, Table(header));
      HeaderPasses(x, AnyTable);
      FedCons(x, rest, AnyTable);
      InLastCons(TrimRightBlanks(x), Compact(rest), header, key);
      HasTableCons(TrimRightBlanks(x), Compact(rest), header);
      NoTableCompact(rest, header);
      if !HasTableIn(Compact(rest), header) {
        NoTableNothing(Compact(rest), header, key);
      }
      assert [] + Compact(rest) == Compact(rest);
      if HasTableIn(rest, header) {
        InLastCompact(rest, header, key);
      } else if MatchTableHeader(x, header) {
        if FirstKey(Body(rest), key).Found? {
          FoundHasContent(rest, key);
        }
        BodyReads(rest, key);
      }
    }
  }
}
