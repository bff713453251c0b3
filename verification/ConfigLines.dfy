/** Single lines of the configuration file: key and table matching, quoting, comments. */
module ConfigLines {
  import opened Text

  /** matchTableHeader */
  predicate MatchTableHeader(line: string, header: string) {
    var t := TrimSpace(line);
    && header <= t
    && (|t| == |header| || t[|header|] in {' ', '\t', '#'})
  }

  predicate IsAnyTableHeader(line: string) {
    "[" <= TrimSpace(line)
  }

  /** matchTomlStringKey */
  predicate MatchKey(line: string, key: string) {
    var t := TrimSpace(line);
    && t != "" && !("#" <= t) && !("[" <= t)
    && key <= t
    && "=" <= TrimSpace(t[|key|..])
  }

  predicate IsBareChar(c: char) {
    'a' <= c <= 'z' || 'A' <= c <= 'Z' || '0' <= c <= '9' || c == '_' || c == '-'
  }

  /** The form of every key the editor is called with. */
  predicate IsBareKey(key: string) {
    key != "" && forall i :: 0 <= i < |key| ==> IsBareChar(key[i])
  }

  predicate AllBlank(s: string) {
    forall i :: 0 <= i < |s| ==> IsBlankChar(s[i])
  }

  /** leadingWhitespace */
  function LeadingBlanks(s: string): (r: string)
    ensures r <= s && AllBlank(r)
    ensures |r| < |s| ==> !IsBlankChar(s[|r|])
  {
    if s != "" && IsBlankChar(s[0]) then [s[0]] + LeadingBlanks(s[1..]) else ""
  }

  /** The state of the quote scanner between two characters. */
  datatype Scan = Scan(inQuote: bool, escaped: bool)

  const Outside := Scan(false, false)
  const Inside := Scan(true, false)

  function ScanChar(st: Scan, c: char): Scan {
    if st.escaped then st.(escaped := false)
    else if c == '\\' && st.inQuote then st.(escaped := true)
    else if c == '"' then Scan(!st.inQuote, false)
    else st
  }

  /** The scanner stops on `c`: a comment begins here. */
  predicate StartsComment(st: Scan, c: char) {
    !st.escaped && !st.inQuote && c == '#'
  }

  /** Offset of the first comment the scanner finds in `s`, or |s|. */
  function CommentStart(s: string, st: Scan): (k: nat)
    ensures k <= |s|
    ensures k < |s| ==> s[k] == '#'
  {
    if s == "" || StartsComment(st, s[0]) then 0 else 1 + CommentStart(s[1..], ScanChar(st, s[0]))
  }

  function ScanAll(s: string, st: Scan): Scan {
    if s == "" then st else ScanAll(s[1..], ScanChar(st, s[0]))
  }

  lemma {:induction false} ScanAppend(a: string, b: string, st: Scan)
    ensures CommentStart(a, st) < |a| ==> CommentStart(a + b, st) == CommentStart(a, st)
    ensures CommentStart(a, st) == |a| ==> CommentStart(a + b, st) == |a| + CommentStart(b, ScanAll(a, st))
    ensures ScanAll(a + b, st) == ScanAll(b, ScanAll(a, st))
  {
    if a == "" {
      assert a + b == b;
    } else {
      assert (a + b)[1..] == a[1..] + b;
      ScanAppend(a[1..], b, ScanChar(st, a[0]));
    }
  }

  predicate IsPlain(c: char) {
    c != '"' && c != '#' && c != '\\'
  }

  /** Text without quotes, comments or backslashes leaves the scanner where it was. */
  lemma {:induction false} ScanPlain(s: string, st: Scan)
    requires forall i :: 0 <= i < |s| ==> IsPlain(s[i])
    requires !st.escaped
    ensures CommentStart(s, st) == |s| && ScanAll(s, st) == st
  {
    if s != "" {
      ScanPlain(s[1..], st);
    }
  }

  /** extractLineComment */
  function LineComment(line: string): string {
    TrimSpace(line[CommentStart(line, Outside)..])
  }

  method ExtractLineComment(line: string) returns (comment: string)
    ensures comment == LineComment(line)
  {
    var inQuote, escaped := false, false;
    for i := 0 to |line|
      invariant CommentStart(line, Outside) == i + CommentStart(line[i..], Scan(inQuote, escaped))
    {
      var ch := line[i];
      assert line[i..][1..] == line[i + 1..];
      if escaped {
        escaped := false;
      } else if ch == '\\' && inQuote {
        escaped := true;
      } else if ch == '"' {
        inQuote := !inQuote;
      } else if ch == '#' && !inQuote {
        return TrimSpace(line[i..]);
      }
    }
    return "";
  }

  /** replaceTomlStringKeyLine, and the same three lines of upsertTomlRawKey:
      `rendered` is the quoted or the literal value. */
  function ReplaceKeyLine(line: string, key: string, rendered: string): string {
    var comment := LineComment(line);
    LeadingBlanks(line) + key + " = " + rendered + if comment != "" then " " + comment else ""
  }

  /** What a reader of the file sees as the value of a line that matches `key`. */
  function ValueOf(line: string, key: string): string {
    var t := TrimSpace(line[..CommentStart(line, Outside)]);
    if |t| < |key| then ""
    else
      var rest := TrimSpace(t[|key|..]);
      if rest == "" then "" else TrimSpace(rest[1..])
  }

  /** A value that the quote scanner enters and leaves outside quotes, without a comment,
      and that has no space at its ends. Every quoted string is one. */
  predicate CleanValue(r: string) {
    && r != "" && TrimSpace(r) == r
    && CommentStart(r, Outside) == |r| && ScanAll(r, Outside) == Outside
  }

  /** No line carries two bare keys. */
  lemma BareKeyIsUnique(line: string, k1: string, k2: string)
    requires IsBareKey(k1) && IsBareKey(k2)
    requires MatchKey(line, k1) && MatchKey(line, k2)
    ensures k1 == k2
  {
    if |k1| < |k2| {
      LongerKeyGoesOn(TrimSpace(line), k1, k2);
    } else if |k2| < |k1| {
      LongerKeyGoesOn(TrimSpace(line), k2, k1);
    }
  }

  lemma LongerKeyGoesOn(t: string, short: string, long: string)
    requires IsBareKey(long) && short <= t && long <= t && |short| < |long|
    ensures !("=" <= TrimSpace(t[|short|..]))
  {
    var rest := t[|short|..];
    assert rest[0] == long[|short|];
    TrimSpaceHead(rest[0], rest[1..]);
    assert [rest[0]] + rest[1..] == rest;
  }

  /** What is left of a line `key = …` once it is trimmed. */
  lemma TrimmedKeyLine(indent: string, key: string, tail: string)
    requires IsBareKey(key) && AllBlank(indent)
    ensures TrimSpace(indent + key + " = " + tail) == key + " =" + TrimRight(" " + tail)
  {
    var a := key + " =";
    assert a + (" " + tail) == key + " = " + tail;
    assert (a + (" " + tail))[0] == key[0];
    assert indent + key + " = " + tail == indent + (a + (" " + tail));
    TrimLeftIs(indent, a + (" " + tail));
    TrimRightKeeps(a, " " + tail);
  }

  lemma TrimmedKeyLineMatches(key: string, rest: string)
    requires IsBareKey(key)
    ensures "=" <= TrimSpace((key + " =" + rest)[|key|..])
  {
    assert (key + " =" + rest)[|key|..] == " " + ("=" + rest);
    TrimLeftIs(" ", "=" + rest);
    TrimRightKeeps("=", rest);
  }

  /** A line `key = …` is no table header and matches that key and no other bare key. */
  lemma KeyLineMatches(indent: string, key: string, tail: string)
    requires IsBareKey(key) && AllBlank(indent)
    ensures !IsAnyTableHeader(indent + key + " = " + tail)
    ensures MatchKey(indent + key + " = " + tail, key)
    ensures forall k :: IsBareKey(k) && k != key ==> !MatchKey(indent + key + " = " + tail, k)
  {
    var line := indent + key + " = " + tail;
    TrimmedKeyLine(indent, key, tail);
    TrimmedKeyLineMatches(key, TrimRight(" " + tail));
    assert TrimSpace(line)[0] == key[0];
    forall k | IsBareKey(k) && k != key ensures !MatchKey(line, k) {
      if MatchKey(line, k) {
        BareKeyIsUnique(line, k, key);
      }
    }
  }

  lemma {:induction false} LeadingBlanksIs(pad: string, s: string)
    requires AllBlank(pad) && s != "" && !IsBlankChar(s[0])
    ensures LeadingBlanks(pad + s) == pad
  {
    if pad == "" {
      assert pad + s == s;
    } else {
      assert (pad + s)[1..] == pad[1..] + s;
      LeadingBlanksIs(pad[1..], s);
    }
  }

  /** The scanner crosses `indent key = rendered` and is outside quotes again. */
  lemma ScanKeyLine(indent: string, key: string, rendered: string, tail: string)
    requires IsBareKey(key) && CleanValue(rendered) && AllBlank(indent)
    ensures var head := indent + key + " = " + rendered;
            CommentStart(head + tail, Outside) == |head| + CommentStart(tail, Outside)
  {
    var plain := indent + key + " = ";
    ScanPlain(plain, Outside);
    ScanAppend(plain, rendered, Outside);
    ScanAppend(plain + rendered, tail, Outside);
  }

  lemma CommentAfterSpace(comment: string)
    requires "#" <= comment
    ensures CommentStart(" " + comment, Outside) == 1
  {
    assert (" " + comment)[1..] == comment;
  }

  lemma LineCommentIsTrimmed(line: string)
    ensures LineComment(line) == "" || "#" <= LineComment(line)
    ensures TrimSpace(LineComment(line)) == LineComment(line)
  {
    var s := line[CommentStart(line, Outside)..];
    TrimSpaceTwice(s);
    if s != "" {
      assert s == ['#'] + s[1..];
      TrimSpaceHead('#', s[1..]);
    }
  }

  /** Comment survival: whatever clean value is written, the line keeps its comment,
      and the value read back is the one written. */
  lemma ReplacedLineKeepsComment(line: string, key: string, rendered: string)
    requires IsBareKey(key) && CleanValue(rendered)
    ensures LineComment(ReplaceKeyLine(line, key, rendered)) == LineComment(line)
    ensures ValueOf(ReplaceKeyLine(line, key, rendered), key) == rendered
  {
    var indent, comment := LeadingBlanks(line), LineComment(line);
    LineCommentIsTrimmed(line);
    if comment != "" {
      CommentAfterSpace(comment);
      KeyLineReadsBack(indent, key, rendered, " ", comment);
    } else {
      KeyLineReadsBack(indent, key, rendered, "", "");
      assert ReplaceKeyLine(line, key, rendered) == indent + key + " = " + rendered + ("" + "");
    }
  }

  lemma KeyLineReadsBack(indent: string, key: string, rendered: string, pad: string, comment: string)
    requires IsBareKey(key) && CleanValue(rendered) && AllBlank(indent) && AllBlank(pad)
    requires CommentStart(pad + comment, Outside) == |pad|
    ensures var line := indent + key + " = " + rendered + (pad + comment);
            LineComment(line) == TrimSpace(comment) && ValueOf(line, key) == rendered
  {
    hide TrimSpace, IsBareKey, CleanValue, AllBlank, CommentStart, ScanAll;
    var head := indent + key + " = " + rendered;
    var line := head + (pad + comment);
    ScanKeyLine(indent, key, rendered, pad + comment);
    SplitAt(head + pad, comment);
    assert head + pad + comment == line;
    ValueOfHead(indent, key, rendered, pad);
  }

  lemma SplitAt(a: string, b: string)
    ensures (a + b)[..|a|] == a && (a + b)[|a|..] == b
  {
  }

  /** The replaced line keeps its indentation, still matches its key, and no other. */
  lemma ReplacedLineMatches(line: string, key: string, rendered: string)
    requires IsBareKey(key)
    ensures LeadingBlanks(ReplaceKeyLine(line, key, rendered)) == LeadingBlanks(line)
    ensures !IsAnyTableHeader(ReplaceKeyLine(line, key, rendered))
    ensures MatchKey(ReplaceKeyLine(line, key, rendered), key)
    ensures forall k :: IsBareKey(k) && k != key ==> !MatchKey(ReplaceKeyLine(line, key, rendered), k)
  {
    var indent, comment := LeadingBlanks(line), LineComment(line);
    var tail := rendered + if comment != "" then " " + comment else "";
    assert ReplaceKeyLine(line, key, rendered) == indent + key + " = " + tail == indent + (key + " = " + tail);
    KeyLineMatches(indent, key, tail);
    LeadingBlanksIs(indent, key + " = " + tail);
  }

  lemma ValueOfHead(indent: string, key: string, rendered: string, pad: string)
    requires IsBareKey(key) && CleanValue(rendered) && AllBlank(indent) && AllBlank(pad)
    ensures var t := TrimSpace(indent + key + " = " + rendered + pad);
            |t| >= |key| && TrimSpace(t[|key|..]) == "= " + rendered
    ensures TrimSpace(("= " + rendered)[1..]) == rendered
  {
    hide TrimSpace;
    var core, eq := key + " = " + rendered, "= " + rendered;
    assert core[0] == key[0] && core[|core| - 1] == rendered[|rendered| - 1] == eq[|eq| - 1];
    assert indent + key + " = " + rendered + pad == indent + core + pad;
    TrimSpaceOfPadded(indent, core, pad);
    TrimSpaceOfPadded(" ", eq, "");
    assert core[|key|..] == " " + eq + "";
    TrimSpaceOfPadded(" ", rendered, "");
    assert eq[1..] == " " + rendered + "";
  }

  /** A literal value written without quoting keeps an existing comment exactly when the
      scanner leaves the value outside quotes without having met a comment in it. */
  lemma CommentKeptIff(line: string, key: string, rendered: string)
    requires IsBareKey(key) && LineComment(line) != ""
    ensures LineComment(ReplaceKeyLine(line, key, rendered)) == LineComment(line)
       <==> CommentStart(rendered, Outside) == |rendered| && ScanAll(rendered, Outside) == Outside
  {
    var comment := LineComment(line);
    LineCommentIsTrimmed(line);
    CommentOfReplaced(LeadingBlanks(line), key, rendered, " " + comment);
    assert ReplaceKeyLine(line, key, rendered) == LeadingBlanks(line) + key + " = " + rendered + (" " + comment);
    CommentAfterValue(rendered, comment);
  }

  lemma CommentAfterValue(rendered: string, comment: string)
    requires "#" <= comment && TrimSpace(comment) == comment
    ensures LineComment(rendered + (" " + comment)) == comment
       <==> CommentStart(rendered, Outside) == |rendered| && ScanAll(rendered, Outside) == Outside
  {
    var k := CommentStart(rendered, Outside);
    if k < |rendered| {
      assert rendered == rendered[..k] + rendered[k..];
      CommentStartsInside(rendered[..k], rendered[k..], " " + comment, comment);
    } else if ScanAll(rendered, Outside) == Outside {
      CommentStartsAfter(rendered, comment);
    } else {
      CommentStaysQuoted(rendered, comment);
    }
  }

  /** The comment of `a + b` when the scanner stops between the two. */
  lemma CommentBetween(a: string, b: string)
    requires CommentStart(a + b, Outside) == |a|
    ensures LineComment(a + b) == TrimSpace(b)
  {
    SplitAt(a, b);
  }

  lemma CommentStartsInside(p: string, q: string, tail: string, comment: string)
    requires CommentStart(p + q, Outside) == |p| && "#" <= q
    requires comment != "" && TrimSpace(comment) == comment && tail == " " + comment
    ensures LineComment(p + q + tail) != comment
  {
    ScanAppend(p + q, tail, Outside);
    assert p + q + tail == p + (q + tail);
    CommentBetween(p, q + tail);
    CommentInsideValue(q, comment);
  }

  lemma CommentStartsAfter(rendered: string, comment: string)
    requires CommentStart(rendered, Outside) == |rendered| && ScanAll(rendered, Outside) == Outside
    requires "#" <= comment && TrimSpace(comment) == comment
    ensures LineComment(rendered + (" " + comment)) == comment
  {
    hide TrimSpace, ScanAll;
    ScanAppend(rendered, " " + comment, Outside);
    CommentAfterSpace(comment);
    assert rendered + (" " + comment) == rendered + " " + comment;
    CommentBetween(rendered + " ", comment);
  }

  lemma CommentStaysQuoted(rendered: string, comment: string)
    requires CommentStart(rendered, Outside) == |rendered| && ScanAll(rendered, Outside) != Outside
    requires "#" <= comment
    ensures LineComment(rendered + (" " + comment)) != comment
  {
    ScanAppend(rendered, " " + comment, Outside);
    NeverEscapedOutside(rendered, Outside);
    QuotedHash(comment, ScanAll(rendered, Outside));
    assert |LineComment(rendered + (" " + comment))| < |comment|;
  }

  lemma CommentOfReplaced(indent: string, key: string, rendered: string, tail: string)
    requires IsBareKey(key) && AllBlank(indent)
    ensures LineComment(indent + key + " = " + rendered + tail) == LineComment(rendered + tail)
  {
    var plain := indent + key + " = ";
    ScanPlain(plain, Outside);
    CommentBehind(plain, rendered + tail);
    assert indent + key + " = " + rendered + tail == plain + (rendered + tail);
  }

  lemma CommentBehind(plain: string, rest: string)
    requires CommentStart(plain, Outside) == |plain| && ScanAll(plain, Outside) == Outside
    ensures LineComment(plain + rest) == LineComment(rest)
  {
    hide TrimSpace, IsPlain, CommentStart, ScanAll, LineComment;
    ScanAppend(plain, rest, Outside);
    var k := CommentStart(rest, Outside);
    var p, q := rest[..k], rest[k..];
    assert rest == p + q && plain + rest == (plain + p) + q;
    CommentBetween(plain + p, q);
    CommentBetween(p, q);
  }

  /** A comment that starts inside the value swallows the old one and grows. */
  lemma CommentInsideValue(found: string, comment: string)
    requires "#" <= found && comment != "" && TrimSpace(comment) == comment
    ensures TrimSpace(found + (" " + comment)) != comment
  {
    var s := found + (" " + comment);
    assert s == "" + s + "" && s[|s| - 1] == comment[|comment| - 1] && s[0] == '#';
    TrimSpaceOfPadded("", s, "");
  }

  /** Inside a quote the old comment's own '#' starts nothing: what is found is shorter. */
  lemma QuotedHash(comment: string, st: Scan)
    requires "#" <= comment && st.inQuote
    ensures CommentStart(" " + comment, st) >= 2
  {
    assert (" " + comment)[1..] == comment;
  }

  lemma {:induction false} NeverEscapedOutside(s: string, st: Scan)
    requires st.escaped ==> st.inQuote
    ensures ScanAll(s, st).escaped ==> ScanAll(s, st).inQuote
  {
    if s != "" {
      NeverEscapedOutside(s[1..], ScanChar(st, s[0]));
    }
  }
}
