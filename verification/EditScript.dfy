/** Edit chains as scripts: what one edit after the other leaves of the lines. */
module EditScript {
  import opened Text
  import opened ConfigLines
  import opened LineSearch
  import opened Upsert
  import opened ConfigSpans
  import opened ConfigFormat
  import opened ConfigBlocks
  import opened BlockFrame

  /** A line that carries the key is replaced, a line for the key is inserted, or a table is added
      in front of another table or at the end. */
  datatype Edit =
    | Replace(at: nat, key: string, rendered: string)
    | Insert(at: nat, key: string, rendered: string)
    | AddTable(at: nat, block: seq<string>)

  predicate Applies(lines: seq<string>, e: Edit) {
    match e
    case Replace(at, key, _) => at < |lines| && IsBareKey(key) && MatchKey(lines[at], key)
    case Insert(at, key, _) => at <= |lines| && IsBareKey(key)
    case AddTable(at, block) =>
      && at <= |lines| && (at == |lines| || IsAnyTableHeader(lines[at]))
      && NewlineFree(block) && forall k :: 0 <= k < |block| ==> !IsBlockHeader(block[k])
  }

  function Added(e: Edit): seq<string>
    requires !e.Replace?
  {
    if e.Insert? then [KeyLine(e.key, e.rendered)] else e.block
  }

  function Apply(lines: seq<string>, e: Edit): seq<string>
    requires Applies(lines, e)
  {
    if e.Replace? then lines[e.at := ReplaceKeyLine(lines[e.at], e.key, e.rendered)]
    else InsertLines(lines, e.at, Added(e))
  }

  predicate AllApply(lines: seq<string>, es: seq<Edit>)
    decreases |es|
  {
    es == [] || (Applies(lines, es[0]) && AllApply(Apply(lines, es[0]), es[1..]))
  }

  function ApplyAll(lines: seq<string>, es: seq<Edit>): seq<string>
    requires AllApply(lines, es)
    decreases |es|
  {
    if es == [] then lines else ApplyAll(Apply(lines, es[0]), es[1..])
  }

  lemma {:induction false} ApplyMore(lines: seq<string>, a: seq<Edit>, b: seq<Edit>)
    requires AllApply(lines, a) && AllApply(ApplyAll(lines, a), b)
    ensures AllApply(lines, a + b) && ApplyAll(lines, a + b) == ApplyAll(ApplyAll(lines, a), b)
    decreases |a|
  {
    hide Applies, Apply;
    if a == [] {
      assert a + b == b;
    } else {
      assert (a + b)[0] == a[0] && (a + b)[1..] == a[1..] + b;
      ApplyMore(Apply(lines, a[0]), a[1..], b);
    }
  }

  lemma ApplyOne(lines: seq<string>, e: Edit)
    requires Applies(lines, e)
    ensures AllApply(lines, [e]) && ApplyAll(lines, [e]) == Apply(lines, e)
  {
    hide Applies, Apply;
    assert [e][1..] == [];
  }

  // ---- The remaining lines ----

  function MovedBy(e: Edit, i: nat): nat {
    if e.Replace? || i < e.at then i else i + |Added(e)|
  }

  /** Where line i ends up. */
  function Track(es: seq<Edit>, i: nat): nat
    decreases |es|
  {
    if es == [] then i else Track(es[1..], MovedBy(es[0], i))
  }

  /** Line i is the one that some edit replaces. */
  predicate IsReplaced(es: seq<Edit>, i: nat)
    decreases |es|
  {
    es != [] && ((es[0].Replace? && es[0].at == i) || IsReplaced(es[1..], MovedBy(es[0], i)))
  }

  lemma OneKeeps(lines: seq<string>, e: Edit, i: nat)
    requires Applies(lines, e) && i < |lines|
    ensures MovedBy(e, i) < |Apply(lines, e)|
    ensures !(e.Replace? && e.at == i) ==> Apply(lines, e)[MovedBy(e, i)] == lines[i]
  {
    hide ReplaceKeyLine, KeyLine, MatchKey, IsAnyTableHeader, IsBlockHeader;
  }

  /** A line that no edit replaces is still there, unchanged. */
  lemma {:induction false} RestIsKept(lines: seq<string>, es: seq<Edit>, i: nat)
    requires AllApply(lines, es) && i < |lines|
    ensures Track(es, i) < |ApplyAll(lines, es)|
    ensures !IsReplaced(es, i) ==> ApplyAll(lines, es)[Track(es, i)] == lines[i]
    decreases |es|
  {
    hide Applies, Apply, MovedBy;
    if es != [] {
      OneKeeps(lines, es[0], i);
      RestIsKept(Apply(lines, es[0]), es[1..], MovedBy(es[0], i));
    }
  }

  /** The lines stay in order. */
  lemma {:induction false} OrderIsKept(es: seq<Edit>, i: nat, j: nat)
    requires i < j
    ensures Track(es, i) < Track(es, j)
    decreases |es|
  {
    if es != [] {
      OrderIsKept(es[1..], MovedBy(es[0], i), MovedBy(es[0], j));
    }
  }

  /** A replaced line carried a key that an edit of the script is for. */
  lemma {:induction false} ReplacedCarriesKey(lines: seq<string>, es: seq<Edit>, i: nat) returns (k: nat)
    requires AllApply(lines, es) && i < |lines| && IsReplaced(es, i)
    ensures k < |es| && es[k].Replace? && MatchKey(lines[i], es[k].key)
    decreases |es|
  {
    hide Apply, Applies, MatchKey, MovedBy;
    if es[0].Replace? && es[0].at == i {
      MatchesKey(lines, es[0]);
      k := 0;
    } else {
      OneKeeps(lines, es[0], i);
      var rest := ReplacedCarriesKey(Apply(lines, es[0]), es[1..], MovedBy(es[0], i));
      k := rest + 1;
    }
  }

  lemma MatchesKey(lines: seq<string>, e: Edit)
    requires Applies(lines, e) && e.Replace?
    ensures e.at < |lines| && MatchKey(lines[e.at], e.key)
  {
  }

  // ---- Lines stay lines, and headers stay fed ----

  lemma {:induction false} TrimLeftIsPart(s: string)
    ensures forall c :: c in TrimLeft(s) ==> c in s
  {
    if s != "" && IsSpace(s[0]) {
      TrimLeftIsPart(s[1..]);
    }
  }

  lemma TrimIsPart(s: string)
    ensures forall c :: c in TrimSpace(s) ==> c in s
  {
    TrimLeftIsPart(s);
    assert forall c :: c in TrimRight(TrimLeft(s)) ==> c in TrimLeft(s);
  }

  lemma ReplacedIsNewlineFree(line: string, key: string, rendered: string)
    requires '\n' !in line && IsBareKey(key) && '\n' !in rendered
    ensures '\n' !in ReplaceKeyLine(line, key, rendered)
  {
    var rest := line[CommentStart(line, Outside)..];
    assert forall c :: c in rest ==> c in line;
    TrimIsPart(rest);
    assert forall c :: c in LeadingBlanks(line) ==> c in line;
    assert '\n' !in key;
  }

  predicate OneLiner(e: Edit) {
    e.AddTable? || '\n' !in e.rendered
  }

  lemma EditIsNewlineFree(lines: seq<string>, e: Edit)
    requires Applies(lines, e) && NewlineFree(lines) && OneLiner(e)
    ensures NewlineFree(Apply(lines, e))
  {
    hide ReplaceKeyLine, MatchKey, IsAnyTableHeader, IsBlockHeader;
    match e
    case Replace(at, key, rendered) => ReplacedIsNewlineFree(lines[at], key, rendered);
    case Insert(at, key, rendered) =>
      assert '\n' !in key;
      assert '\n' !in KeyLine(key, rendered);
    case AddTable(at, block) =>
  }

  lemma KeyLinesAreContent(line: string, key: string)
    requires MatchKey(line, key)
    ensures IsContent(line)
  {
    hide TrimSpace;
  }

  lemma ContentIsNoBlockHeader(line: string, test: LineTest)
    requires IsHeaderTest(test) && IsContent(line)
    ensures !Passes(line, test)
  {
    HeaderPasses(line, test);
  }

  /** The first content line in front of the next header. */
  lemma {:induction false} ContentWitness(lines: seq<string>, i: nat) returns (j: nat)
    requires i <= |lines| && ContentFrom(lines, i)
    ensures i <= j < |lines| && IsContent(lines[j]) && forall k :: i <= k < j ==> IsBlank(lines[k])
    decreases |lines| - i
  {
    hide IsAnyTableHeader, IsBlank;
    if !IsBlank(lines[i]) {
      j := i;
    } else {
      j := ContentWitness(lines, i + 1);
    }
  }

  /** FedAll, line by line. */
  predicate FedAt(lines: seq<string>, test: LineTest) {
    forall i :: 0 <= i < |lines| && Passes(lines[i], test) ==> ContentFrom(lines, i + 1)
  }

  lemma {:induction false} FedAtSuffix(lines: seq<string>, k: nat, test: LineTest)
    requires k <= |lines|
    ensures (forall i :: k <= i < |lines| && Passes(lines[i], test) ==> ContentFrom(lines, i + 1)) <==>
            FedAll(lines[k..], test)
    decreases |lines| - k
  {
    hide Passes, IsAnyTableHeader, IsBlank;
    if k < |lines| {
      FedAtSuffix(lines, k + 1, test);
      ContentOfSuffix(lines, k + 1);
      assert lines[k..] == [lines[k]] + lines[k + 1..];
      FedCons(lines[k], lines[k + 1..], test);
    }
  }

  lemma FedAtIff(lines: seq<string>, test: LineTest)
    ensures FedAt(lines, test) <==> FedAll(lines, test)
  {
    hide Passes, IsAnyTableHeader, IsBlank;
    FedAtSuffix(lines, 0, test);
    assert lines[0..] == lines;
  }

  lemma ReplaceFeeds(lines: seq<string>, at: nat, line: string, test: LineTest)
    requires IsHeaderTest(test) && FedAt(lines, test) && at < |lines| && IsContent(lines[at]) && IsContent(line)
    ensures FedAt(lines[at := line], test)
  {
    hide Passes, IsAnyTableHeader, IsBlank;
    var lines' := lines[at := line];
    ContentIsNoBlockHeader(line, test);
    forall i | 0 <= i < |lines'| && Passes(lines'[i], test) ensures ContentFrom(lines', i + 1) {
      var j := ContentWitness(lines, i + 1);
      ContentFromBlanks(lines', i + 1, j);
    }
  }

  lemma InsertedShape(lines: seq<string>, at: nat, block: seq<string>)
    requires at <= |lines|
    ensures var lines', n := InsertLines(lines, at, block), |block|;
            && |lines'| == |lines| + n
            && (forall i :: 0 <= i < at ==> lines'[i] == lines[i])
            && (forall i :: at <= i < at + n ==> lines'[i] == block[i - at])
            && (forall i :: at + n <= i < |lines'| ==> lines'[i] == lines[i - n])
  {
  }

  lemma InsertFeeds(lines: seq<string>, at: nat, line: string, test: LineTest)
    requires IsHeaderTest(test) && FedAt(lines, test) && at <= |lines| && IsContent(line)
    ensures FedAt(InsertLines(lines, at, [line]), test)
  {
    hide Passes, IsAnyTableHeader, IsBlank, InsertLines;
    var lines' := InsertLines(lines, at, [line]);
    ContentIsNoBlockHeader(line, test);
    InsertedShape(lines, at, [line]);
    forall i: nat | i < |lines'| && Passes(lines'[i], test) ensures ContentFrom(lines', i + 1) {
      if i < at {
        var j := ContentWitness(lines, i + 1);
        ContentFromBlanks(lines', i + 1, if j < at then j else at);
      } else if i > at {
        var j := ContentWitness(lines, i);
        ContentFromBlanks(lines', i + 1, j + 1);
      }
    }
  }

  lemma AddTableFeeds(lines: seq<string>, at: nat, block: seq<string>, test: LineTest)
    requires IsHeaderTest(test) && FedAt(lines, test) && at <= |lines| && (at == |lines| || IsAnyTableHeader(lines[at]))
    requires forall k :: 0 <= k < |block| ==> !Passes(block[k], test)
    ensures FedAt(InsertLines(lines, at, block), test)
  {
    hide Passes, IsAnyTableHeader, IsBlank, InsertLines;
    var lines', n := InsertLines(lines, at, block), |block|;
    InsertedShape(lines, at, block);
    if at < |lines| && IsBlank(lines[at]) {
      BlankIsNoHeader(lines[at]);
    }
    forall i: nat | i < |lines'| && Passes(lines'[i], test) ensures ContentFrom(lines', i + 1) {
      if i < at {
        var j := ContentWitness(lines, i + 1);
        ContentFromBlanks(lines', i + 1, j);
      } else if i >= at + n {
        var j := ContentWitness(lines, i - n + 1);
        ContentFromBlanks(lines', i + 1, j + n);
      }
    }
  }

  lemma EditFeeds(lines: seq<string>, e: Edit, test: LineTest)
    requires Applies(lines, e) && (test == Table(PROJECTS) || test == Table(PLATFORMS)) && FedAt(lines, test)
    ensures FedAt(Apply(lines, e), test)
  {
    hide MatchKey, IsAnyTableHeader, ReplaceKeyLine, KeyLine, InsertLines, FedAt, IsBlank, MatchTableHeader;
    match e
    case Replace(at, key, rendered) =>
      ReplacedLineMatches(lines[at], key, rendered);
      KeyLinesAreContent(lines[at], key);
      KeyLinesAreContent(ReplaceKeyLine(lines[at], key, rendered), key);
      ReplaceFeeds(lines, at, ReplaceKeyLine(lines[at], key, rendered), test);
    case Insert(at, key, rendered) =>
      KeyLineFacts(key, rendered);
      KeyLinesAreContent(KeyLine(key, rendered), key);
      InsertFeeds(lines, at, KeyLine(key, rendered), test);
    case AddTable(at, block) => AddTableFeeds(lines, at, block, test);
  }

  /** A script of whole lines keeps lines whole, and every project and platform header fed. */
  lemma {:induction false} ScriptKeeps(lines: seq<string>, es: seq<Edit>)
    requires AllApply(lines, es) && NewlineFree(lines) && forall k :: 0 <= k < |es| ==> OneLiner(es[k])
    ensures NewlineFree(ApplyAll(lines, es))
    ensures FedAt(lines, Table(PROJECTS)) ==> FedAt(ApplyAll(lines, es), Table(PROJECTS))
    ensures FedAt(lines, Table(PLATFORMS)) ==> FedAt(ApplyAll(lines, es), Table(PLATFORMS))
    decreases |es|
  {
    hide Applies, Apply, NewlineFree, FedAt, OneLiner;
    if es != [] {
      EditIsNewlineFree(lines, es[0]);
      if FedAt(lines, Table(PROJECTS)) {
        EditFeeds(lines, es[0], Table(PROJECTS));
      }
      if FedAt(lines, Table(PLATFORMS)) {
        EditFeeds(lines, es[0], Table(PLATFORMS));
      }
      ScriptKeeps(Apply(lines, es[0]), es[1..]);
    }
  }

  /** An upsert is one edit. */
  lemma UpsertEdit(lines: seq<string>, lo: int, hi: int, key: string, rendered: string) returns (e: Edit)
    requires 0 <= lo <= hi + 1 <= |lines| && IsBareKey(key)
    ensures Applies(lines, e) && Apply(lines, e) == UpsertKey(lines, lo, hi, key, rendered)
    ensures !e.AddTable? && e.key == key && e.rendered == rendered && lo <= e.at <= hi + 1
  {
    hide MatchKey, ReplaceKeyLine, KeyLine;
    var i := FindKey(lines, lo, hi, key);
    FindFinds(lines, lo, hi + 1, Key(key));
    UpsertIs(lines, lo, hi, key, rendered);
    e := if i <= hi then Replace(i, key, rendered) else Insert(i, key, rendered);
  }
}
