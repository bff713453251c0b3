/** Inserting or replacing one key in a range of lines, as a lens over the file. */
module Upsert {
  import opened ConfigLines
  import opened LineSearch

  function Min(a: int, b: int): int { if a < b then a else b }

  function Max(a: int, b: int): int { if a < b then b else a }

  /** insertLines: an index outside the file is moved to its nearest end. */
  function InsertLines(lines: seq<string>, at: int, block: seq<string>): seq<string> {
    var k := Min(Max(at, 0), |lines|);
    lines[..k] + block + lines[k..]
  }

  /** The first line in lo..hi (both included) that carries the key, or hi + 1. */
  function FindKey(lines: seq<string>, lo: int, hi: int, key: string): (i: int)
    requires 0 <= lo <= hi + 1 <= |lines|
    ensures lo <= i <= hi + 1
  {
    Find(lines, lo, hi + 1, Key(key))
  }

  function KeyLine(key: string, rendered: string): string {
    key + " = " + rendered
  }

  /** upsertTomlStringKey with `rendered` the quoted value, upsertTomlRawKey with the literal. */
  function UpsertKey(lines: seq<string>, start: int, end: int, key: string, rendered: string): seq<string> {
    var lo, hi := Max(start, 0), Min(end, |lines| - 1);
    if lo <= hi && FindKey(lines, lo, hi, key) <= hi then
      var i := FindKey(lines, lo, hi, key);
      lines[i := ReplaceKeyLine(lines[i], key, rendered)]
    else
      InsertLines(lines, Max(hi + 1, lo), [KeyLine(key, rendered)])
  }

  lemma UpsertFound(lines: seq<string>, start: int, end: int, key: string, rendered: string, i: int)
    requires 0 <= Max(start, 0) <= i < |lines| && i <= end && Passes(lines[i], Key(key))
    requires forall j :: Max(start, 0) <= j < i ==> !Passes(lines[j], Key(key))
    ensures UpsertKey(lines, start, end, key, rendered) == lines[i := ReplaceKeyLine(lines[i], key, rendered)]
  {
    hide Passes, ReplaceKeyLine, KeyLine;
    FindIs(lines, Max(start, 0), Min(end, |lines| - 1) + 1, Key(key), i);
  }

  lemma UpsertMissing(lines: seq<string>, start: int, end: int, key: string, rendered: string)
    requires forall j :: Max(start, 0) <= j < |lines| && j <= end ==> !Passes(lines[j], Key(key))
    ensures var lo, hi := Max(start, 0), Min(end, |lines| - 1);
            UpsertKey(lines, start, end, key, rendered) == InsertLines(lines, Max(hi + 1, lo), [KeyLine(key, rendered)])
  {
    hide Passes, ReplaceKeyLine, KeyLine, InsertLines;
    var lo, hi := Max(start, 0), Min(end, |lines| - 1);
    if lo <= hi {
      FindIs(lines, lo, hi + 1, Key(key), hi + 1);
    }
  }

  /** The line list is a Go slice: a replacement writes into it, an insertion returns a new one. */
  method UpsertTomlKey(lines: array<string>, start: int, end: int, key: string, rendered: string)
    returns (out: array<string>)
    modifies lines
    ensures out[..] == UpsertKey(old(lines[..]), start, end, key, rendered)
    ensures out == lines || (fresh(out) && lines[..] == old(lines[..]))
  {
    hide Passes, ReplaceKeyLine, KeyLine, UpsertKey, InsertLines;
    ghost var text := lines[..];
    var lo := if start < 0 then 0 else start;
    var hi := if end >= lines.Length then lines.Length - 1 else end;
    var i := lo;
    while i <= hi && i < lines.Length
      invariant lo <= i && lines[..] == text
      invariant forall j :: lo <= j < i && j < |text| ==> !Passes(text[j], Key(key))
    {
      if Passes(lines[i], Key(key)) {
        UpsertFound(text, start, end, key, rendered, i);
        lines[i] := ReplaceKeyLine(lines[i], key, rendered);
        assert lines[..] == text[i := ReplaceKeyLine(text[i], key, rendered)];
        return lines;
      }
      i := i + 1;
    }
    UpsertMissing(text, start, end, key, rendered);
    var insertAt := if hi + 1 < lo then lo else hi + 1;
    out := InsertLinesArray(lines, insertAt, [KeyLine(key, rendered)]);
  }

  method InsertLinesArray(lines: array<string>, at: int, block: seq<string>) returns (out: array<string>)
    ensures fresh(out) && out[..] == InsertLines(lines[..], at, block)
  {
    var k := at;
    if k < 0 {
      k := 0;
    }
    if k > lines.Length {
      k := lines.Length;
    }
    var text := lines[..k] + block + lines[k..];
    out := new string[|text|](i requires 0 <= i < |text| => text[i]);
    assert out[..] == text;
  }

  /** What a reader of the range sees for a key. */
  datatype Found = Missing | Found(value: string)

  function Lookup(lines: seq<string>, lo: int, hi: int, key: string): Found
    requires 0 <= lo <= hi + 1 <= |lines|
  {
    var i := FindKey(lines, lo, hi, key);
    if i <= hi then Found(ValueOf(lines[i], key)) else Missing
  }

  /** The end of a range after a key was upserted in it. */
  function EndAfter(lines: seq<string>, lo: int, hi: int, key: string): int
    requires 0 <= lo <= hi + 1 <= |lines|
  {
    if FindKey(lines, lo, hi, key) <= hi then hi else hi + 1
  }

  lemma UpsertIs(lines: seq<string>, lo: int, hi: int, key: string, rendered: string)
    requires 0 <= lo <= hi + 1 <= |lines|
    ensures var i := FindKey(lines, lo, hi, key);
            var lines' := UpsertKey(lines, lo, hi, key, rendered);
            if i <= hi then lines' == lines[i := ReplaceKeyLine(lines[i], key, rendered)]
            else lines' == lines[..hi + 1] + [KeyLine(key, rendered)] + lines[hi + 1..]
  {
  }

  lemma KeyLineFacts(key: string, rendered: string)
    requires IsBareKey(key)
    ensures LeadingBlanks(KeyLine(key, rendered)) == "" && !IsAnyTableHeader(KeyLine(key, rendered))
    ensures MatchKey(KeyLine(key, rendered), key)
    ensures forall k :: IsBareKey(k) && k != key ==> !MatchKey(KeyLine(key, rendered), k)
    ensures CleanValue(rendered) ==>
            LineComment(KeyLine(key, rendered)) == "" && ValueOf(KeyLine(key, rendered), key) == rendered
  {
    var line := KeyLine(key, rendered);
    assert line == "" + key + " = " + rendered == "" + line;
    KeyLineMatches("", key, rendered);
    LeadingBlanksIs("", line);
    if CleanValue(rendered) {
      KeyLineReadsBack("", key, rendered, "", "");
      assert "" + key + " = " + rendered + ("" + "") == line;
    }
  }

  /** Exactly one line is replaced, the first of the range that carries the key, or else one is
      inserted right behind the range; either way that line carries the key now. */
  lemma UpsertChangesOneLine(lines: seq<string>, lo: int, hi: int, key: string, rendered: string) returns (i: int)
    requires 0 <= lo <= hi + 1 <= |lines| && IsBareKey(key)
    ensures lo <= i <= hi + 1 && forall j :: lo <= j < i ==> !MatchKey(lines[j], key)
    ensures var lines' := UpsertKey(lines, lo, hi, key, rendered);
            && i < |lines'| && MatchKey(lines'[i], key) && lines'[..i] == lines[..i]
            && (if i <= hi then MatchKey(lines[i], key) && lines'[i + 1..] == lines[i + 1..]
               else lines'[i + 1..] == lines[i..])
  {
    hide MatchKey, ReplaceKeyLine, KeyLine, IsAnyTableHeader, LeadingBlanks;
    i := FindKey(lines, lo, hi, key);
    FindFinds(lines, lo, hi + 1, Key(key));
    forall j | lo <= j < i ensures !MatchKey(lines[j], key) {
      assert !Passes(lines[j], Key(key));
    }
    UpsertIs(lines, lo, hi, key, rendered);
    if i <= hi {
      ReplacedLineMatches(lines[i], key, rendered);
    } else {
      KeyLineFacts(key, rendered);
    }
  }

  /** Put–get: after an upsert the key reads as the new value. */
  lemma PutGet(lines: seq<string>, lo: int, hi: int, key: string, rendered: string)
    requires 0 <= lo <= hi + 1 <= |lines| && IsBareKey(key) && CleanValue(rendered)
    ensures Lookup(UpsertKey(lines, lo, hi, key, rendered), lo, EndAfter(lines, lo, hi, key), key) == Found(rendered)
  {
    hide MatchKey, ValueOf, ReplaceKeyLine, LineComment, IsAnyTableHeader, KeyLine, LeadingBlanks;
    var i := FindKey(lines, lo, hi, key);
    FindFinds(lines, lo, hi + 1, Key(key));
    if i <= hi {
      ReplacedLineKeepsComment(lines[i], key, rendered);
      ReplacedLineMatches(lines[i], key, rendered);
    } else {
      KeyLineFacts(key, rendered);
    }
    FindIs(UpsertKey(lines, lo, hi, key, rendered), lo, EndAfter(lines, lo, hi, key) + 1, Key(key), i);
  }

  lemma OtherAfterReplace(lines: seq<string>, lo: int, hi: int, key: string, rendered: string, other: string)
    requires 0 <= lo <= hi + 1 <= |lines| && IsBareKey(key) && IsBareKey(other) && other != key
    requires FindKey(lines, lo, hi, key) <= hi
    ensures var i := FindKey(lines, lo, hi, key);
            Lookup(lines[i := ReplaceKeyLine(lines[i], key, rendered)], lo, hi, other) == Lookup(lines, lo, hi, other)
  {
    hide MatchKey, ValueOf, ReplaceKeyLine, LineComment, IsAnyTableHeader, LeadingBlanks;
    var i, j := FindKey(lines, lo, hi, key), FindKey(lines, lo, hi, other);
    FindFinds(lines, lo, hi + 1, Key(key));
    FindFinds(lines, lo, hi + 1, Key(other));
    ReplacedLineMatches(lines[i], key, rendered);
    if i == j {
      BareKeyIsUnique(lines[i], key, other);
    }
    FindIs(lines[i := ReplaceKeyLine(lines[i], key, rendered)], lo, hi + 1, Key(other), j);
  }

  lemma OtherAfterInsert(lines: seq<string>, lo: int, hi: int, line: string, other: string)
    requires 0 <= lo <= hi + 1 <= |lines| && !MatchKey(line, other)
    ensures var lines' := lines[..hi + 1] + [line] + lines[hi + 1..];
            Lookup(lines', lo, hi + 1, other) == Lookup(lines, lo, hi, other)
  {
    hide MatchKey, ValueOf;
    var j, lines' := FindKey(lines, lo, hi, other), lines[..hi + 1] + [line] + lines[hi + 1..];
    FindFinds(lines, lo, hi + 1, Key(other));
    FindIs(lines', lo, hi + 2, Key(other), if j <= hi then j else hi + 2);
  }

  /** Every other bare key of the range reads as before. */
  lemma OtherKeysUnchanged(lines: seq<string>, lo: int, hi: int, key: string, rendered: string, other: string)
    requires 0 <= lo <= hi + 1 <= |lines| && IsBareKey(key) && IsBareKey(other) && other != key
    ensures Lookup(UpsertKey(lines, lo, hi, key, rendered), lo, EndAfter(lines, lo, hi, key), other)
         == Lookup(lines, lo, hi, other)
  {
    hide MatchKey, ReplaceKeyLine, KeyLine, FindKey, Lookup, UpsertKey, IsAnyTableHeader, LeadingBlanks;
    UpsertIs(lines, lo, hi, key, rendered);
    if FindKey(lines, lo, hi, key) <= hi {
      OtherAfterReplace(lines, lo, hi, key, rendered, other);
    } else {
      KeyLineFacts(key, rendered);
      OtherAfterInsert(lines, lo, hi, KeyLine(key, rendered), other);
    }
  }

  /** Put–put: the second of two upserts wins and leaves no trace of the first,
      comments and indentation included. */
  lemma PutPut(lines: seq<string>, lo: int, hi: int, key: string, first: string, second: string)
    requires 0 <= lo <= hi + 1 <= |lines| && IsBareKey(key) && CleanValue(first)
    ensures UpsertKey(UpsertKey(lines, lo, hi, key, first), lo, EndAfter(lines, lo, hi, key), key, second)
         == UpsertKey(lines, lo, hi, key, second)
  {
    hide Passes, ReplaceKeyLine, KeyLine, UpsertKey, CleanValue, LineComment, LeadingBlanks, IsAnyTableHeader,
         MatchKey, ValueOf;
    FindFinds(lines, lo, hi + 1, Key(key));
    UpsertIs(lines, lo, hi, key, second);
    UpsertIs(lines, lo, hi, key, first);
    var i := FindKey(lines, lo, hi, key);
    if i <= hi {
      ReplacedLineMatches(lines[i], key, first);
      ReplaceTwice(lines[i], key, first, second);
      PutOnFound(lines[i := ReplaceKeyLine(lines[i], key, first)], lo, hi, key, i, second);
    } else {
      KeyLineFacts(key, first);
      ReplaceFreshLine(key, first, second);
      PutOnFound(lines[..i] + [KeyLine(key, first)] + lines[i..], lo, hi + 1, key, i, second);
    }
  }

  lemma PutOnFound(lines: seq<string>, lo: int, hi: int, key: string, i: int, rendered: string)
    requires 0 <= lo <= i <= hi < |lines| && MatchKey(lines[i], key)
    requires forall j :: lo <= j < i ==> !Passes(lines[j], Key(key))
    ensures UpsertKey(lines, lo, hi, key, rendered) == lines[i := ReplaceKeyLine(lines[i], key, rendered)]
  {
    hide MatchKey, ReplaceKeyLine, KeyLine;
    FindIs(lines, lo, hi + 1, Key(key), i);
  }

  lemma ReplaceTwice(line: string, key: string, first: string, second: string)
    requires IsBareKey(key) && CleanValue(first)
    ensures ReplaceKeyLine(ReplaceKeyLine(line, key, first), key, second) == ReplaceKeyLine(line, key, second)
  {
    ReplacedLineKeepsComment(line, key, first);
    ReplacedLineMatches(line, key, first);
  }

  lemma ReplaceFreshLine(key: string, first: string, second: string)
    requires IsBareKey(key) && CleanValue(first)
    ensures ReplaceKeyLine(KeyLine(key, first), key, second) == KeyLine(key, second)
  {
    hide MatchKey, LeadingBlanks, LineComment, CleanValue, ValueOf, IsAnyTableHeader;
    KeyLineFacts(key, first);
    assert "" + key + " = " + second + "" == KeyLine(key, second);
  }
}
