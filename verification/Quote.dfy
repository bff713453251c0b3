/** strconv.Quote, the printer of every string value the editor writes, and its inverse.
    Which characters beyond ASCII count as printable is left to a parameter. */
module Quote {
  import opened Text
  import opened ConfigLines

  type Printable = char -> bool

  predicate IsPrint(c: char, p: Printable) {
    if c < '\U{0080}' then ' ' <= c <= '~' else p(c)
  }

  function HexDigit(n: nat): (c: char)
    requires n < 16
    ensures HexValue(c) == n && IsPlain(c) && c != '\n'
  {
    "0123456789abcdef"[n]
  }

  function HexValue(c: char): nat {
    if '0' <= c <= '9' then (c - '0') as int
    else if 'a' <= c <= 'f' then (c - 'a') as int + 10
    else 16
  }

  /** The low `width` hex digits of n, most significant first. */
  function Hex(n: nat, width: nat): (r: string)
    ensures |r| == width
  {
    if width == 0 then "" else Hex(n / 16, width - 1) + [HexDigit(n % 16)]
  }

  function UnHex(s: string): nat {
    if s == "" then 0 else UnHex(s[..|s| - 1]) * 16 + HexValue(s[|s| - 1])
  }

  function Escape(c: char, p: Printable): string {
    if c == '"' || c == '\\' then ['\\', c]
    else if IsPrint(c, p) then [c]
    else if c == '\U{0007}' then "\\a"
    else if c == '\U{0008}' then "\\b"
    else if c == '\U{000C}' then "\\f"
    else if c == '\n' then "\\n"
    else if c == '\r' then "\\r"
    else if c == '\t' then "\\t"
    else if c == '\U{000B}' then "\\v"
    else if c < ' ' || c == '\U{007F}' then "\\x" + Hex(c as int, 2)
    else if c < '\U{10000}' then "\\u" + Hex(c as int, 4)
    else "\\U" + Hex(c as int, 8)
  }

  function QuoteBody(v: string, p: Printable): string {
    if v == "" then "" else Escape(v[0], p) + QuoteBody(v[1..], p)
  }

  /** quoteTomlString */
  function QuoteString(v: string, p: Printable): string {
    "\"" + QuoteBody(v, p) + "\""
  }

  lemma {:induction false} HexIsPlain(n: nat, width: nat)
    ensures forall i :: 0 <= i < width ==> IsPlain(Hex(n, width)[i]) && Hex(n, width)[i] != '\n'
  {
    if width > 0 {
      HexIsPlain(n / 16, width - 1);
    }
  }

  /** The text of one escape keeps the scanner inside the quotes. */
  lemma EscapeStaysInside(c: char, p: Printable)
    ensures CommentStart(Escape(c, p), Inside) == |Escape(c, p)|
    ensures ScanAll(Escape(c, p), Inside) == Inside
  {
    var e := Escape(c, p);
    if |e| >= 2 {
      HexIsPlain(c as int, 2);
      HexIsPlain(c as int, 4);
      HexIsPlain(c as int, 8);
      var tail := e[2..];
      ScanPlain(tail, Inside);
      assert e == [e[0]] + ([e[1]] + tail);
      assert ScanChar(ScanChar(Inside, e[0]), e[1]) == Inside;
    }
  }

  lemma {:induction false} BodyStaysInside(v: string, p: Printable)
    ensures CommentStart(QuoteBody(v, p), Inside) == |QuoteBody(v, p)|
    ensures ScanAll(QuoteBody(v, p), Inside) == Inside
  {
    if v != "" {
      EscapeStaysInside(v[0], p);
      BodyStaysInside(v[1..], p);
      ScanAppend(Escape(v[0], p), QuoteBody(v[1..], p), Inside);
    }
  }

  /** What is printable, but for quotes and backslashes, is written as it is. */
  lemma {:induction false} PrintableIsKept(v: string, p: Printable)
    requires forall i :: 0 <= i < |v| ==> IsPrint(v[i], p) && v[i] != '"' && v[i] != '\\'
    ensures QuoteBody(v, p) == v
  {
    if v != "" {
      PrintableIsKept(v[1..], p);
      assert v == [v[0]] + v[1..];
    }
  }

  /** The printer agrees with the scanner: for every string, the quoted text is crossed from
      outside quotes to outside quotes and no comment starts in it. */
  lemma QuotedIsClean(v: string, p: Printable)
    ensures CleanValue(QuoteString(v, p))
  {
    hide QuoteBody, TrimSpace;
    var body, q := QuoteBody(v, p), QuoteString(v, p);
    BodyStaysInside(v, p);
    ScanAppend(body, "\"", Inside);
    assert q == ['"'] + (body + "\"") && q[0] == '"' && q[|q| - 1] == '"';
    TrimSpaceOfPadded("", q, "");
    assert "" + q + "" == q;
  }

  /** A quoted value never breaks its line. */
  lemma {:induction false} QuotedHasNoNewline(v: string, p: Printable)
    ensures '\n' !in QuoteBody(v, p)
  {
    if v != "" {
      HexIsPlain(v[0] as int, 2);
      HexIsPlain(v[0] as int, 4);
      HexIsPlain(v[0] as int, 8);
      QuotedHasNoNewline(v[1..], p);
    }
  }

  /** One escape read back: the character and how much text it took; None at a lone backslash. */
  datatype Read = Read(c: int, size: nat) | Bad

  function ReadOne(s: string): Read
    requires s != ""
  {
    if s[0] != '\\' then Read(s[0] as int, 1)
    else if |s| < 2 then Bad
    else
      match s[1]
      case '"' => Read('"' as int, 2)
      case '\\' => Read('\\' as int, 2)
      case 'a' => Read(7, 2)
      case 'b' => Read(8, 2)
      case 'f' => Read(12, 2)
      case 'n' => Read(10, 2)
      case 'r' => Read(13, 2)
      case 't' => Read(9, 2)
      case 'v' => Read(11, 2)
      case 'x' => if |s| < 4 then Bad else Read(UnHex(s[2..4]), 4)
      case 'u' => if |s| < 6 then Bad else Read(UnHex(s[2..6]), 6)
      case 'U' => if |s| < 10 then Bad else Read(UnHex(s[2..10]), 10)
      case _ => Bad
  }

  /** The code points a reader of the quoted text recovers. */
  function Unquote(body: string): seq<int>
    decreases |body|
  {
    if body == "" then []
    else
      var r := ReadOne(body);
      if r.Bad? || r.size == 0 || r.size > |body| then [] else [r.c] + Unquote(body[r.size..])
  }

  function CodePoints(v: string): seq<int> {
    seq(|v|, i requires 0 <= i < |v| => v[i] as int)
  }

  function Pow16(w: nat): (r: nat)
    ensures r >= 1
  {
    if w == 0 then 1 else 16 * Pow16(w - 1)
  }

  lemma {:induction false} UnHexOfHex(n: nat, width: nat)
    requires n < Pow16(width)
    ensures UnHex(Hex(n, width)) == n
  {
    if width > 0 {
      var k, d := n / 16, n % 16;
      UnHexOfHex(k, width - 1);
      var h := Hex(n, width);
      assert h[..|h| - 1] == Hex(k, width - 1) && h[|h| - 1] == HexDigit(d);
    }
  }

  lemma ReadsEscape(c: char, p: Printable, rest: string)
    ensures ReadOne(Escape(c, p) + rest) == Read(c as int, |Escape(c, p)|)
  {
    var e := Escape(c, p);
    assert (e + rest)[0] == e[0];
    if |e| >= 2 {
      assert (e + rest)[1] == e[1];
      if |e| > 2 {
        assert (e + rest)[2..|e|] == e[2..];
        assert Pow16(2) == 256 && Pow16(4) == 65536 && Pow16(8) == 65536 * Pow16(4);
        UnHexOfHex(c as int, |e| - 2);
        assert e[2..] == Hex(c as int, |e| - 2);
      }
    }
  }

  /** Round trip: the quoted text reads back as exactly the characters that were quoted. */
  lemma {:induction false} UnquoteOfQuote(v: string, p: Printable)
    ensures Unquote(QuoteBody(v, p)) == CodePoints(v)
  {
    if v != "" {
      ReadsEscape(v[0], p, QuoteBody(v[1..], p));
      UnquoteOfQuote(v[1..], p);
      var body := QuoteBody(v, p);
      assert body[|Escape(v[0], p)|..] == QuoteBody(v[1..], p);
      assert CodePoints(v) == [v[0] as int] + CodePoints(v[1..]);
    }
  }

  // ---- Which values a TOML parser reads back ----

  /** An escape or a character of a basic string by section "String" of the TOML specification: it
      has no escapes for bell and vertical tab, and two-digit ones only since v1.1.0 (`hex`). */
  function TomlReadOne(s: string, hex: bool): Read
    requires s != ""
  {
    if s[0] == '\\' then
      if |s| >= 2 && TomlEscape(s[1], hex) then ReadOne(s) else Bad
    else if s[0] == '"' || (s[0] < ' ' && s[0] != '\t') || s[0] == '\U{007F}' then Bad
    else Read(s[0] as int, 1)
  }

  datatype TomlValue = Invalid | Value(codePoints: seq<int>)

  function TomlUnquote(body: string, hex: bool): TomlValue
    decreases |body|
  {
    if body == "" then Value([])
    else
      var r := TomlReadOne(body, hex);
      if r.Bad? || r.size == 0 || r.size > |body| then Invalid
      else
        match TomlUnquote(body[r.size..], hex)
        case Invalid => Invalid
        case Value(rest) => Value([r.c] + rest)
  }

  predicate TomlEscape(c: char, hex: bool) {
    c in {'"', '\\', 'b', 'f', 'n', 'r', 't', 'u', 'U'} || (hex && c == 'x')
  }

  /** Go writes bell and vertical tab, and most other control characters with two digits, with
      escapes that TOML does not have. */
  predicate TomlSafe(c: char, hex: bool) {
    || (c >= ' ' && c != '\U{007F}') || c in {'\U{0008}', '\t', '\n', '\U{000C}', '\r'}
    || (hex && c != '\U{0007}' && c != '\U{000B}')
  }

  lemma EscapeHead(c: char, p: Printable, hex: bool)
    ensures |Escape(c, p)| == 1 ==> Escape(c, p)[0] == c && c >= ' ' && c != '"' && c != '\\' && c != '\U{007F}'
    ensures |Escape(c, p)| >= 2 ==> Escape(c, p)[0] == '\\'
    ensures |Escape(c, p)| >= 2 ==> (TomlSafe(c, hex) <==> TomlEscape(Escape(c, p)[1], hex))
    ensures |Escape(c, p)| >= 1
  {
    hide Hex;
  }

  lemma TomlReadsEscape(c: char, p: Printable, rest: string, hex: bool)
    ensures TomlReadOne(Escape(c, p) + rest, hex) == if TomlSafe(c, hex) then Read(c as int, |Escape(c, p)|) else Bad
  {
    hide Escape, ReadOne, Hex;
    EscapeHead(c, p, hex);
    ReadsEscape(c, p, rest);
    var e := Escape(c, p);
    assert (e + rest)[0] == e[0] && (|e| >= 2 ==> (e + rest)[1] == e[1]);
  }

  /** A TOML parser reads a written value back if and only if the value has none of those control
      characters; otherwise it rejects the file. */
  lemma {:induction false} TomlReadsQuoted(v: string, p: Printable, hex: bool)
    ensures TomlUnquote(QuoteBody(v, p), hex) ==
            if forall i :: 0 <= i < |v| ==> TomlSafe(v[i], hex) then Value(CodePoints(v)) else Invalid
  {
    hide Escape, TomlReadOne, TomlSafe;
    if v != "" {
      var c, tail := v[0], v[1..];
      var e, body := Escape(c, p), QuoteBody(v, p);
      TomlReadsEscape(c, p, QuoteBody(tail, p), hex);
      EscapeHead(c, p, hex);
      TomlReadsQuoted(tail, p, hex);
      assert body[|e|..] == QuoteBody(tail, p);
      assert CodePoints(v) == [c as int] + CodePoints(tail);
      assert forall i :: 0 < i < |v| ==> v[i] == tail[i - 1];
      assert (forall i :: 0 <= i < |v| ==> TomlSafe(v[i], hex)) <==>
             TomlSafe(c, hex) && forall i :: 0 <= i < |tail| ==> TomlSafe(tail[i], hex) by {
        assert forall i :: 0 <= i < |tail| ==> tail[i] == v[i + 1];
      }
    }
  }
}
