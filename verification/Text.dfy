/** The string operations of Go's standard library that the modelled code calls.
    A string is a sequence of Unicode characters; invalid UTF-8 is not represented. */
module Text {

  /** Go's unicode.IsSpace. */
  predicate IsSpace(c: char) {
    || '\U{0009}' <= c <= '\U{000D}' || c == ' ' || c == '\U{0085}' || c == '\U{00A0}'
    || c == '\U{1680}' || '\U{2000}' <= c <= '\U{200A}' || c == '\U{2028}' || c == '\U{2029}'
    || c == '\U{202F}' || c == '\U{205F}' || c == '\U{3000}'
  }

  predicate IsBlankChar(c: char) {
    c == ' ' || c == '\t'
  }

  function TrimLeft(s: string): (r: string)
    ensures |r| <= |s|
    ensures r != "" ==> !IsSpace(r[0])
  {
    if s != "" && IsSpace(s[0]) then TrimLeft(s[1..]) else s
  }

  function TrimRight(s: string): (r: string)
    ensures r <= s
    ensures r != "" ==> !IsSpace(r[|r| - 1])
  {
    if s != "" && IsSpace(s[|s| - 1]) then TrimRight(s[..|s| - 1]) else s
  }

  predicate AllSpace(s: string) {
    forall i :: 0 <= i < |s| ==> IsSpace(s[i])
  }

  /** strings.TrimSpace */
  function TrimSpace(s: string): (r: string)
    ensures r != "" ==> !IsSpace(r[0]) && !IsSpace(r[|r| - 1])
    ensures |r| <= |s|
  {
    TrimRight(TrimLeft(s))
  }

  /** strings.TrimRight(s, " \t") */
  function TrimRightBlanks(s: string): (r: string)
    ensures r <= s
    ensures r != "" ==> !IsBlankChar(r[|r| - 1])
  {
    if s != "" && IsBlankChar(s[|s| - 1]) then TrimRightBlanks(s[..|s| - 1]) else s
  }

  /** strings.Join(lines, "\n") */
  function Join(lines: seq<string>): string {
    if |lines| == 0 then ""
    else if |lines| == 1 then lines[0]
    else lines[0] + "\n" + Join(lines[1..])
  }

  /** strings.Split(s, "\n") */
  function Split(s: string): (lines: seq<string>)
    ensures |lines| >= 1
  {
    if s == "" then [""]
    else if s[0] == '\n' then [""] + Split(s[1..])
    else
      var rest := Split(s[1..]);
      [[s[0]] + rest[0]] + rest[1..]
  }

  predicate NewlineFree(lines: seq<string>) {
    forall i :: 0 <= i < |lines| ==> '\n' !in lines[i]
  }

  lemma {:induction false} SplitParts(s: string)
    ensures NewlineFree(Split(s))
  {
    if s != "" {
      SplitParts(s[1..]);
    }
  }

  lemma {:induction false} TrimLeftIs(pad: string, s: string)
    requires AllSpace(pad)
    requires s != "" ==> !IsSpace(s[0])
    ensures TrimLeft(pad + s) == s
  {
    if pad == "" {
      assert pad + s == s;
    } else {
      assert (pad + s)[1..] == pad[1..] + s;
      TrimLeftIs(pad[1..], s);
    }
  }

  /** Trimming on the right never goes past a visible character. */
  lemma {:induction false} TrimRightKeeps(a: string, b: string)
    requires a != "" && !IsSpace(a[|a| - 1])
    ensures TrimRight(a + b) == a + TrimRight(b)
  {
    if b == "" {
      assert a + b == a;
    } else {
      assert (a + b)[..|a + b| - 1] == a + b[..|b| - 1];
      if IsSpace(b[|b| - 1]) {
        TrimRightKeeps(a, b[..|b| - 1]);
      }
    }
  }

  lemma {:induction false} TrimRightOfSpace(s: string)
    requires AllSpace(s)
    ensures TrimRight(s) == ""
  {
    if s != "" {
      TrimRightOfSpace(s[..|s| - 1]);
    }
  }

  lemma TrimSpaceOfPadded(left: string, core: string, right: string)
    requires core != "" && !IsSpace(core[0]) && !IsSpace(core[|core| - 1])
    requires AllSpace(left) && AllSpace(right)
    ensures TrimSpace(left + core + right) == core
  {
    assert left + core + right == left + (core + right);
    TrimLeftIs(left, core + right);
    TrimRightKeeps(core, right);
    TrimRightOfSpace(right);
  }

  lemma TrimSpaceTwice(s: string)
    ensures TrimSpace(TrimSpace(s)) == TrimSpace(s)
  {
    var t := TrimSpace(s);
    if t != "" {
      TrimSpaceOfPadded("", t, "");
      assert "" + t + "" == t;
    }
  }

  lemma {:induction false} TrimLeftParts(s: string) returns (left: string)
    ensures AllSpace(left) && s == left + TrimLeft(s)
  {
    if s != "" && IsSpace(s[0]) {
      var rest := TrimLeftParts(s[1..]);
      left := [s[0]] + rest;
      assert s == [s[0]] + (rest + TrimLeft(s[1..]));
    } else {
      left := "";
    }
  }

  lemma {:induction false} TrimRightParts(s: string) returns (right: string)
    ensures AllSpace(right) && s == TrimRight(s) + right
  {
    if s != "" && IsSpace(s[|s| - 1]) {
      var rest := TrimRightParts(s[..|s| - 1]);
      right := rest + [s[|s| - 1]];
      assert s == (TrimRight(s[..|s| - 1]) + rest) + [s[|s| - 1]];
    } else {
      right := "";
    }
  }

  lemma TrimParts(s: string) returns (left: string, right: string)
    ensures AllSpace(left) && AllSpace(right) && s == left + TrimSpace(s) + right
  {
    left := TrimLeftParts(s);
    right := TrimRightParts(TrimLeft(s));
  }

  /** The first visible character survives a trim. */
  lemma TrimSpaceHead(c: char, s: string)
    requires !IsSpace(c)
    ensures TrimSpace([c] + s) == [c] + TrimRight(s)
  {
    TrimRightKeeps([c], s);
  }

  lemma {:induction false} SplitOfLine(l: string, rest: string)
    requires '\n' !in l
    ensures Split(l) == [l]
    ensures Split(l + "\n" + rest) == [l] + Split(rest)
  {
    if l == "" {
      assert ("" + "\n" + rest)[1..] == rest;
    } else {
      SplitOfLine(l[1..], rest);
      assert l[0] in l && [l[0]] + l[1..] == l;
      assert (l + "\n" + rest)[1..] == l[1..] + "\n" + rest;
    }
  }

  /** Splitting undoes joining. */
  lemma {:induction false} SplitOfJoin(lines: seq<string>)
    requires lines != [] && NewlineFree(lines)
    ensures Split(Join(lines)) == lines
    ensures Split(Join(lines) + "\n") == lines + [""]
  {
    if |lines| == 1 {
      SplitOfLine(lines[0], "");
      assert lines[0] + "\n" == lines[0] + "\n" + "";
    } else {
      SplitOfJoin(lines[1..]);
      SplitOfLine(lines[0], Join(lines[1..]));
      SplitOfLine(lines[0], Join(lines[1..]) + "\n");
      assert Join(lines) + "\n" == lines[0] + "\n" + (Join(lines[1..]) + "\n");
      assert [lines[0]] + lines[1..] == lines;
    }
  }

  lemma {:induction false} JoinOfSplit(s: string)
    ensures Join(Split(s)) == s
  {
    if s != "" {
      var rest := Split(s[1..]);
      JoinOfSplit(s[1..]);
      assert s == [s[0]] + s[1..];
      if s[0] == '\n' {
        assert ([""] + rest)[1..] == rest;
      } else {
        assert ([[s[0]] + rest[0]] + rest[1..])[1..] == rest[1..];
      }
    }
  }

  // ---- Joining parts ----

  function Concat(parts: seq<string>): string {
    if parts == [] then "" else parts[0] + Concat(parts[1..])
  }

  lemma {:induction false} ConcatAppend(parts: seq<string>, last: string)
    ensures Concat(parts + [last]) == Concat(parts) + last
  {
    if parts == [] {
      assert [] + [last] == [last] && [last][1..] == [];
    } else {
      assert (parts + [last])[1..] == parts[1..] + [last];
      ConcatAppend(parts[1..], last);
    }
  }
}
