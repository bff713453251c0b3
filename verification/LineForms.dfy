/** Which lines the editor takes for a key line or a table header: their forms, spelled out. */
module LineForms {
  import opened Text
  import opened ConfigLines

  ghost predicate HasKeyForm(line: string, key: string) {
    exists pad, gap, rest :: AllSpace(pad) && AllSpace(gap) && KeyForm(line, pad, key, gap, rest)
  }

  predicate KeyForm(line: string, pad: string, key: string, gap: string, rest: string) {
    line == pad + key + gap + "=" + rest
  }

  lemma BareIsNoSpace(key: string)
    requires IsBareKey(key)
    ensures !IsSpace(key[0]) && key[0] != '#' && key[0] != '['
  {
  }

  /** A text that starts with a visible character, trimmed, is a beginning of it with that character. */
  lemma TrimOfPadded(pad: string, core: string)
    requires AllSpace(pad) && core != "" && !IsSpace(core[0])
    ensures TrimSpace(pad + core) == TrimRight(core) && TrimRight(core) != "" && TrimRight(core)[0] == core[0]
  {
    TrimLeftIs(pad, core);
    TrimRightKeeps([core[0]], core[1..]);
    assert [core[0]] + core[1..] == core;
  }

  /** A key line is the key, an equals sign, and space around the key or not; what follows is free. */
  lemma KeyLineIff(line: string, key: string)
    requires IsBareKey(key)
    ensures MatchKey(line, key) <==> HasKeyForm(line, key)
  {
    hide TrimSpace, TrimRight;
    BareIsNoSpace(key);
    if MatchKey(line, key) {
      MatchedKeyForm(line, key);
    }
    if HasKeyForm(line, key) {
      var pad, gap, rest :| AllSpace(pad) && AllSpace(gap) && KeyForm(line, pad, key, gap, rest);
      KeyFormMatches(pad, key, gap, rest);
    }
  }

  lemma MatchedKeyForm(line: string, key: string)
    requires MatchKey(line, key)
    ensures HasKeyForm(line, key)
  {
    hide TrimSpace;
    var pad, end := TrimParts(line);
    var t := TrimSpace(line);
    var gap, tail := TrimParts(t[|key|..]);
    var u := TrimSpace(t[|key|..]);
    var rest := u[1..] + tail + end;
    assert u == "=" + u[1..] && t == key + t[|key|..];
    assert line == pad + (key + (gap + ("=" + u[1..]) + tail)) + end;
    assert line == pad + key + gap + "=" + rest;
    assert KeyForm(line, pad, key, gap, rest);
  }

  lemma KeyFormMatches(pad: string, key: string, gap: string, rest: string)
    requires IsBareKey(key) && AllSpace(pad) && AllSpace(gap)
    ensures MatchKey(pad + key + gap + "=" + rest, key)
  {
    hide TrimSpace, TrimRight;
    BareIsNoSpace(key);
    var line := pad + key + gap + "=" + rest;
    var front := key + gap + "=";
    assert line == pad + (front + rest);
    assert (front + rest)[0] == key[0];
    TrimOfPadded(pad, front + rest);
    assert front[|front| - 1] == '=';
    TrimRightKeeps(front, rest);
    var t := TrimSpace(line);
    assert t == key + (gap + ("=" + TrimRight(rest)));
    assert t[|key|..] == gap + ("=" + TrimRight(rest));
    TrimOfPadded(gap, "=" + TrimRight(rest));
  }

  /** What may stand behind a header. */
  predicate HeaderTail(tail: string) {
    AllSpace(tail) || tail[0] in {' ', '\t', '#'}
  }

  predicate HeaderForm(line: string, pad: string, header: string, tail: string) {
    line == pad + header + tail
  }

  ghost predicate HasHeaderForm(line: string, header: string) {
    exists pad, tail :: AllSpace(pad) && HeaderTail(tail) && HeaderForm(line, pad, header, tail)
  }

  /** A line is the header of a table if it is that header, with space around it or a comment behind. */
  lemma HeaderLineIff(line: string, header: string)
    requires header != "" && !IsSpace(header[0]) && !IsSpace(header[|header| - 1])
    ensures MatchTableHeader(line, header) <==> HasHeaderForm(line, header)
  {
    hide TrimSpace, TrimRight;
    if MatchTableHeader(line, header) {
      MatchedHeaderForm(line, header);
    }
    if HasHeaderForm(line, header) {
      var pad, tail :| AllSpace(pad) && HeaderTail(tail) && HeaderForm(line, pad, header, tail);
      HeaderFormMatches(pad, header, tail);
    }
  }

  lemma MatchedHeaderForm(line: string, header: string)
    requires MatchTableHeader(line, header)
    ensures HasHeaderForm(line, header)
  {
    hide TrimSpace;
    var pad, end := TrimParts(line);
    var t := TrimSpace(line);
    var tail := t[|header|..] + end;
    assert t == header + t[|header|..];
    assert line == pad + header + tail;
    assert HeaderForm(line, pad, header, tail) && HeaderTail(tail);
  }

  lemma HeaderFormMatches(pad: string, header: string, tail: string)
    requires header != "" && !IsSpace(header[0]) && !IsSpace(header[|header| - 1])
    requires AllSpace(pad) && HeaderTail(tail)
    ensures MatchTableHeader(pad + header + tail, header)
  {
    hide TrimSpace, TrimRight;
    assert pad + header + tail == pad + (header + tail) && (header + tail)[0] == header[0];
    TrimOfPadded(pad, header + tail);
    TrimRightKeeps(header, tail);
    if AllSpace(tail) {
      TrimRightOfSpace(tail);
    } else {
      TrimRightHead(tail);
    }
  }

  /** Trimming on the right keeps the first character of what is not all space. */
  lemma {:induction false} TrimRightHead(s: string)
    requires !AllSpace(s)
    ensures TrimRight(s) != "" && TrimRight(s)[0] == s[0]
  {
    if IsSpace(s[|s| - 1]) {
      assert !AllSpace(s[..|s| - 1]);
      TrimRightHead(s[..|s| - 1]);
    }
  }

  predicate BracketForm(line: string, pad: string, rest: string) {
    line == pad + "[" + rest
  }

  /** A line starts some table if a bracket is its first visible character. */
  lemma AnyTableIff(line: string)
    ensures IsAnyTableHeader(line) <==> exists pad, rest :: AllSpace(pad) && BracketForm(line, pad, rest)
  {
    hide TrimSpace, TrimRight;
    if IsAnyTableHeader(line) {
      var pad, end := TrimParts(line);
      var t := TrimSpace(line);
      assert t == "[" + t[1..] && line == pad + "[" + (t[1..] + end);
      assert BracketForm(line, pad, t[1..] + end);
    }
    if pad, rest :| AllSpace(pad) && BracketForm(line, pad, rest) {
      assert line == pad + ("[" + rest);
      TrimOfPadded(pad, "[" + rest);
    }
  }

  // ---- Comments ----

  predicate Unquoted(s: string) {
    forall i :: 0 <= i < |s| ==> IsPlain(s[i])
  }

  /** The inside of a quoted value without escapes; it may hold a number sign. */
  predicate QuoteFree(s: string) {
    forall i :: 0 <= i < |s| ==> s[i] != '"' && s[i] != '\\'
  }

  lemma {:induction false} ScanQuoted(body: string)
    requires QuoteFree(body)
    ensures CommentStart(body, Inside) == |body| && ScanAll(body, Inside) == Inside
  {
    if body != "" {
      ScanQuoted(body[1..]);
    }
  }

  lemma ScanValue(plain: string, body: string, behind: string)
    requires Unquoted(plain) && QuoteFree(body) && Unquoted(behind)
    ensures var s := plain + "\"" + body + "\"" + behind;
            CommentStart(s, Outside) == |s| && ScanAll(s, Outside) == Outside
  {
    ScanPlain(plain, Outside);
    ScanPlain(behind, Outside);
    ScanQuoted(body);
    ScanAppend(plain, "\"", Outside);
    ScanAppend(plain + "\"", body, Outside);
    ScanAppend(plain + "\"" + body, "\"", Outside);
    ScanAppend(plain + "\"" + body + "\"", behind, Outside);
  }

  /** A number sign behind text that the scanner leaves outside quotes begins the comment. */
  lemma CommentBehindText(front: string, rest: string)
    requires CommentStart(front, Outside) == |front| && ScanAll(front, Outside) == Outside
    ensures LineComment(front + "#" + rest) == TrimSpace("#" + rest) && LineComment(front) == ""
  {
    hide TrimSpace, CommentStart, ScanAll;
    var tail := "#" + rest;
    var line := front + tail;
    assert front + "#" + rest == line;
    ScanAppend(front, tail, Outside);
    NumberSignStarts(rest);
    assert line[|front|..] == tail;
    assert front[|front|..] == "";
    TrimSpaceOfNothing();
  }

  lemma NumberSignStarts(rest: string)
    ensures CommentStart("#" + rest, Outside) == 0
  {
  }

  lemma TrimSpaceOfNothing()
    ensures TrimSpace("") == ""
  {
  }

  /** What the comment of a line is, whether a quoted value with number signs stands in front or not. */
  lemma CommentIs(plain: string, body: string, behind: string, rest: string)
    requires Unquoted(plain) && QuoteFree(body) && Unquoted(behind)
    ensures LineComment(plain + "#" + rest) == TrimSpace("#" + rest) && LineComment(plain) == ""
    ensures LineComment(plain + "\"" + body + "\"" + behind + "#" + rest) == TrimSpace("#" + rest)
    ensures LineComment(plain + "\"" + body + "\"" + behind) == ""
  {
    hide TrimSpace, LineComment;
    ScanPlain(plain, Outside);
    CommentBehindText(plain, rest);
    ScanValue(plain, body, behind);
    CommentBehindText(plain + "\"" + body + "\"" + behind, rest);
  }
}
