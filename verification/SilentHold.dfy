/** Streaming of one segment of an answer: the preview is held back while the segment could still
    turn out to be a bare NO_REPLY marker. */
module SilentHold {
  import opened Text

  const MARKER := "NO_REPLY"

  /** Upper case as far as the marker goes: no other character has one of its letters as upper case. */
  function UpperChar(c: char): char {
    if 'a' <= c <= 'z' then c - 'a' + 'A' else c
  }

  function Upper(s: string): string {
    seq(|s|, i requires 0 <= i < |s| => UpperChar(s[i]))
  }

  predicate CouldBeSilentPrefix(text: string) {
    var t := TrimSpace(text);
    t == "" || Upper(t) <= MARKER
  }

  predicate IsEllipsisOnly(text: string) {
    var t := TrimSpace(text);
    t == "..." || t == "\U{2026}"
  }

  /** The characters that \s stands for in a Go regular expression. */
  predicate IsPatternSpace(c: char) {
    c == ' ' || c == '\t' || c == '\n' || c == '\U{000C}' || c == '\r'
  }

  predicate AllPatternSpace(s: string) {
    forall i :: 0 <= i < |s| ==> IsPatternSpace(s[i])
  }

  /** The text is the marker, in any case, between characters of pattern space. */
  ghost predicate MarkedBy(text: string, left: string, core: string, right: string) {
    text == left + core + right && Upper(core) == MARKER && AllPatternSpace(left) && AllPatternSpace(right)
  }

  ghost predicate IsSilentReply(text: string) {
    exists left, core, right :: MarkedBy(text, left, core, right)
  }

  predicate SameLetter(c: char, d: char) {
    c == d || ('A' <= d <= 'Z' && c == d - 'A' + 'a')
  }

  predicate WritesMarker(core: string) {
    |core| == |MARKER| && forall i :: 0 <= i < |MARKER| ==> SameLetter(core[i], MARKER[i])
  }

  predicate MarkerForm(text: string, left: string, core: string, right: string) {
    text == left + core + right && WritesMarker(core) && AllPatternSpace(left) && AllPatternSpace(right)
  }

  /** A silent reply is the marker, each letter in either case, between pattern space. */
  lemma SilentReplyIff(text: string)
    ensures IsSilentReply(text) <==> exists left, core, right :: MarkerForm(text, left, core, right)
  {
    if left, core, right :| MarkedBy(text, left, core, right) {
      UpperIsMarker(core);
      assert MarkerForm(text, left, core, right);
    }
    if left, core, right :| MarkerForm(text, left, core, right) {
      UpperIsMarker(core);
      assert MarkedBy(text, left, core, right);
    }
  }

  lemma UpperIsMarker(core: string)
    ensures Upper(core) == MARKER <==> WritesMarker(core)
  {
    if Upper(core) == MARKER {
      forall i | 0 <= i < |MARKER| ensures SameLetter(core[i], MARKER[i]) {
        assert Upper(core)[i] == MARKER[i];
      }
    }
    if WritesMarker(core) {
      forall i | 0 <= i < |MARKER| ensures Upper(core)[i] == MARKER[i] {
        assert SameLetter(core[i], MARKER[i]);
      }
    }
  }

  // ---- What the hold rule means ----

  lemma UpperAppend(a: string, b: string)
    ensures Upper(a + b) == Upper(a) + Upper(b)
  {
  }

  lemma PatternSpaceIsSpace(s: string)
    requires AllPatternSpace(s)
    ensures AllSpace(s)
  {
  }

  /** A trimmed text stays in front when more is appended. */
  lemma {:induction false} TrimSpaceGrows(text: string, more: string)
    requires TrimSpace(text) != ""
    ensures TrimSpace(text) <= TrimSpace(text + more)
    decreases |text|
  {
    if IsSpace(text[0]) {
      assert (text + more)[1..] == text[1..] + more;
      TrimSpaceGrows(text[1..], more);
    } else {
      var t := TrimSpace(text);
      assert text + more == t + (text[|t|..] + more);
      TrimRightKeeps(t, text[|t|..] + more);
    }
  }

  /** Once released, a segment stays released. */
  lemma ReleaseIsFinal(text: string, more: string)
    requires !CouldBeSilentPrefix(text)
    ensures !CouldBeSilentPrefix(text + more)
  {
    var t, u := TrimSpace(text), TrimSpace(text + more);
    TrimSpaceGrows(text, more);
    assert u == t + u[|t|..];
    UpperAppend(t, u[|t|..]);
  }

  lemma SilentIsHeld(text: string)
    requires IsSilentReply(text)
    ensures CouldBeSilentPrefix(text)
  {
    var left, core, right :| MarkedBy(text, left, core, right);
    PatternSpaceIsSpace(left);
    PatternSpaceIsSpace(right);
    assert |Upper(core)| == |core| == 8;
    assert Upper(core)[0] == 'N' && Upper(core)[7] == 'Y';
    TrimSpaceOfPadded(left, core, right);
  }

  /** A released segment never becomes a silent reply. */
  lemma ReleasedIsNeverSilent(text: string, more: string)
    requires !CouldBeSilentPrefix(text)
    ensures !IsSilentReply(text + more)
  {
    ReleaseIsFinal(text, more);
    if IsSilentReply(text + more) {
      SilentIsHeld(text + more);
    }
  }

  // ---- Exactly when the hold is needed ----

  function TrimPattern(s: string): (r: string)
    ensures |r| <= |s|
  {
    if s != "" && IsPatternSpace(s[0]) then TrimPattern(s[1..]) else s
  }

  /** A check of the text alone: behind pattern space it is nothing, a part of the marker, or the
      marker with nothing but pattern space behind it. */
  predicate CanTurnSilent(text: string) {
    var u := TrimPattern(text);
    Upper(u) <= MARKER || (|u| >= 8 && Upper(u[..8]) == MARKER && AllPatternSpace(u[8..]))
  }

  lemma {:induction false} TrimPatternIs(pad: string, s: string)
    requires AllPatternSpace(pad) && (s != "" ==> !IsPatternSpace(s[0]))
    ensures TrimPattern(pad + s) == s
  {
    if pad == "" {
      assert pad + s == s;
    } else {
      assert (pad + s)[1..] == pad[1..] + s;
      TrimPatternIs(pad[1..], s);
    }
  }

  lemma {:induction false} TrimPatternSplits(s: string) returns (pad: string)
    ensures AllPatternSpace(pad) && s == pad + TrimPattern(s)
    ensures TrimPattern(s) != "" ==> !IsPatternSpace(TrimPattern(s)[0])
  {
    if s != "" && IsPatternSpace(s[0]) {
      var rest := TrimPatternSplits(s[1..]);
      pad := [s[0]] + rest;
      assert s == [s[0]] + s[1..];
    } else {
      pad := "";
    }
  }

  lemma MarkerFacts(core: string)
    requires Upper(core) == MARKER
    ensures |core| == 8 && !IsPatternSpace(core[0])
  {
    assert |Upper(core)| == |core|;
    assert Upper(core)[0] == 'N';
  }

  lemma UpperOfStart(core: string, n: nat)
    requires Upper(core) == MARKER && n <= |core|
    ensures Upper(core[..n]) <= MARKER
  {
    assert |Upper(core)| == |core|;
    assert Upper(core[..n]) == Upper(core)[..n];
  }

  lemma SilentStartsRight(text: string, more: string, left: string, core: string, right: string)
    requires MarkedBy(text + more, left, core, right)
    ensures CanTurnSilent(text)
  {
    hide Upper;
    var all := left + core + right;
    MarkerFacts(core);
    assert text == all[..|text|];
    if |text| <= |left| {
      assert text == left[..|text|];
      TrimPatternIs(text, "");
      assert text + "" == text;
      UpperOfStart(core, 0);
      assert core[..0] == "";
    } else {
      var u := text[|left|..];
      assert u == (core + right)[..|u|] && u[0] == core[0];
      assert text == left + u;
      TrimPatternIs(left, u);
      if |u| <= 8 {
        assert u == core[..|u|];
        UpperOfStart(core, |u|);
      } else {
        assert u[..8] == core && u[8..] == right[..|u| - 8];
      }
    }
  }

  lemma MarkerCompleted(u: string)
    requires Upper(u) <= MARKER
    ensures |u| <= 8 && Upper(u + MARKER[|u|..]) == MARKER
  {
    assert |Upper(u)| == |u|;
    var more := MARKER[|u|..];
    assert Upper(more) == more;
    UpperAppend(u, more);
  }

  lemma RightCanTurnSilent(text: string) returns (more: string)
    requires CanTurnSilent(text)
    ensures IsSilentReply(text + more)
  {
    var u := TrimPattern(text);
    var pad := TrimPatternSplits(text);
    hide Upper, TrimPattern;
    if Upper(u) <= MARKER {
      MarkerCompleted(u);
      more := MARKER[|u|..];
      assert text + more == pad + (u + more) + "";
      assert MarkedBy(text + more, pad, u + more, "");
    } else {
      more := "";
      assert text + more == pad + u[..8] + u[8..];
      assert MarkedBy(text + more, pad, u[..8], u[8..]);
    }
  }

  /** For every text: it can still become a silent reply if and only if it passes that check. */
  lemma CanTurnSilentIff(text: string)
    ensures CanTurnSilent(text) <==> exists more :: IsSilentReply(text + more)
  {
    hide CanTurnSilent, MarkedBy;
    if CanTurnSilent(text) {
      var more := RightCanTurnSilent(text);
    }
    if more :| IsSilentReply(text + more) {
      var left, core, right :| MarkedBy(text + more, left, core, right);
      SilentStartsRight(text, more, left, core, right);
    }
  }

  /** What TrimSpace takes off in front and behind. */
  function Lead(text: string): string {
    text[..|text| - |TrimLeft(text)|]
  }

  function Trail(text: string): string {
    TrimLeft(text)[|TrimSpace(text)|..]
  }

  lemma {:induction false} TrimLeftSplits(s: string)
    ensures AllSpace(Lead(s)) && s == Lead(s) + TrimLeft(s)
  {
    if s != "" && IsSpace(s[0]) {
      TrimLeftSplits(s[1..]);
      assert Lead(s) == [s[0]] + Lead(s[1..]);
    }
  }

  lemma {:induction false} TrimRightSplits(s: string)
    ensures AllSpace(s[|TrimRight(s)|..])
  {
    if s != "" && IsSpace(s[|s| - 1]) {
      var init := s[..|s| - 1];
      TrimRightSplits(init);
      assert s[|TrimRight(s)|..] == init[|TrimRight(init)|..] + [s[|s| - 1]];
    }
  }

  lemma NoSpaceInMarker(u: string, i: nat)
    requires Upper(u) <= MARKER && i < |u|
    ensures !IsSpace(u[i])
  {
    assert |Upper(u)| == |u| && Upper(u)[i] == MARKER[i];
    assert forall k :: 0 <= k < 8 ==> MARKER[k] == '_' || 'A' <= MARKER[k] <= 'Z';
    assert UpperChar(u[i]) == '_' || 'A' <= UpperChar(u[i]) <= 'Z';
  }

  lemma NoSpaceInFullMarker(u: string, i: nat)
    requires |u| >= 8 && Upper(u[..8]) == MARKER && i < 8
    ensures !IsSpace(u[i])
  {
    NoSpaceInMarker(u[..8], i);
  }

  /** In front: space that the pattern does not know keeps every text from becoming silent. */
  lemma ForeignLead(text: string)
    requires !AllPatternSpace(Lead(text))
    ensures !CanTurnSilent(text)
  {
    hide Upper;
    TrimLeftSplits(text);
    var lead := Lead(text);
    var pad := TrimPatternSplits(text);
    var u := TrimPattern(text);
    assert forall k :: 0 <= k < |pad| ==> text[k] == pad[k] && IsPatternSpace(text[k]);
    var i :| 0 <= i < |lead| && !IsPatternSpace(lead[i]);
    assert lead[i] == text[i];
    assert u[0] == text[|pad|] == lead[|pad|];
    if Upper(u) <= MARKER {
      NoSpaceInMarker(u, 0);
    } else if |u| >= 8 && Upper(u[..8]) == MARKER {
      NoSpaceInFullMarker(u, 0);
    }
  }

  lemma VisibleIsNoPattern(c: char)
    requires !IsSpace(c)
    ensures !IsPatternSpace(c)
  {
  }

  lemma PlainLead(text: string)
    requires AllPatternSpace(Lead(text))
    ensures TrimPattern(text) == TrimLeft(text) == TrimSpace(text) + Trail(text)
    ensures AllSpace(Trail(text))
  {
    hide IsSpace, IsPatternSpace;
    TrimLeftSplits(text);
    TrimRightSplits(TrimLeft(text));
    var u := TrimLeft(text);
    if u != "" {
      VisibleIsNoPattern(u[0]);
    }
    TrimPatternIs(Lead(text), u);
    assert u == u[..|TrimSpace(text)|] + u[|TrimSpace(text)|..];
  }

  /** Which held texts are held needlessly: those with foreign space in front, and those with
      anything but pattern space behind the whole marker or any space behind a part of it. */
  lemma HeldNeedlesslyIff(text: string)
    requires CouldBeSilentPrefix(text)
    ensures (forall more :: !IsSilentReply(text + more)) <==>
            || !AllPatternSpace(Lead(text))
            || (Trail(text) != "" && (|TrimSpace(text)| < 8 || !AllPatternSpace(Trail(text))))
  {
    hide Upper, TrimSpace, IsSilentReply;
    CanTurnSilentIff(text);
    var t, trail := TrimSpace(text), Trail(text);
    if !AllPatternSpace(Lead(text)) {
      ForeignLead(text);
    } else {
      PlainLead(text);
      HeldTrail(text, t, trail);
    }
  }

  lemma HeldTrail(text: string, t: string, trail: string)
    requires TrimPattern(text) == t + trail && AllSpace(trail) && (t == "" || Upper(t) <= MARKER)
    requires t == "" ==> trail == ""
    ensures CanTurnSilent(text) <==> trail == "" || (|t| == 8 && AllPatternSpace(trail))
    ensures |t| <= 8
  {
    hide Upper, TrimPattern;
    var u := t + trail;
    UpperOfNothing(t);
    if trail == "" {
      assert u == t;
    } else {
      if Upper(u) <= MARKER {
        NoSpaceInMarker(u, |t|);
      }
      if |u| >= 8 && Upper(u[..8]) == MARKER && |t| < 8 {
        NoSpaceInFullMarker(u, |t|);
      }
      if |t| == 8 {
        assert u[..8] == t && u[8..] == trail;
      }
    }
  }

  lemma UpperOfNothing(t: string)
    requires t == "" || Upper(t) <= MARKER
    ensures Upper(t) <= MARKER && |t| <= 8
    ensures |t| == 8 ==> Upper(t) == MARKER
  {
    assert |Upper(t)| == |t|;
  }

  /** Two such texts: space behind a part of the marker, and a no-break space. */
  lemma HeldNeedlessly(more: string)
    ensures CouldBeSilentPrefix("NO ") && !IsSilentReply("NO " + more)
    ensures CouldBeSilentPrefix("\U{00A0}") && !IsSilentReply("\U{00A0}" + more)
  {
    hide IsSilentReply;
    assert "NO " == "" + "NO" + " ";
    TrimSpaceOfPadded("", "NO", " ");
    assert Upper("NO") == "NO";
    TrimLeftIs("", "NO ");
    assert "" + "NO " == "NO ";
    assert Trail("NO ") == " ";
    HeldNeedlesslyIff("NO ");
    var nbsp := "\U{00A0}";
    TrimLeftIs(nbsp, "");
    assert nbsp + "" == nbsp;
    assert Lead(nbsp) == nbsp;
    HeldNeedlesslyIff(nbsp);
  }

  // ---- Streaming ----

  /** The segment's text: all chunks but the empty ones and bare ellipses. */
  function Accumulated(chunks: seq<string>): string {
    if chunks == [] then ""
    else
      var content := chunks[|chunks| - 1];
      Accumulated(chunks[..|chunks| - 1]) + if content == "" || IsEllipsisOnly(content) then "" else content
  }

  predicate EllipsisForm(text: string, left: string, core: string, right: string) {
    text == left + core + right && AllSpace(left) && AllSpace(right) && core in {"...", "\U{2026}"}
  }

  /** A chunk is left out if it is three dots or one ellipsis, with space around it. */
  lemma EllipsisIff(text: string)
    ensures IsEllipsisOnly(text) <==> exists left, core, right :: EllipsisForm(text, left, core, right)
  {
    hide TrimSpace;
    if IsEllipsisOnly(text) {
      var left, right := TrimParts(text);
      assert EllipsisForm(text, left, TrimSpace(text), right);
    }
    if left, core, right :| EllipsisForm(text, left, core, right) {
      TrimSpaceOfPadded(left, core, right);
    }
  }

  /** The other chunks are joined. */
  function Said(chunks: seq<string>): seq<string> {
    if chunks == [] then []
    else Said(chunks[..|chunks| - 1]) + if IsEllipsisOnly(chunks[|chunks| - 1]) then [] else [chunks[|chunks| - 1]]
  }

  lemma {:induction false} AccumulatedIsSaid(chunks: seq<string>)
    ensures Accumulated(chunks) == Concat(Said(chunks))
  {
    hide IsEllipsisOnly, Concat;
    if chunks == [] {
      assert Concat([]) == "" by { ConcatNothing(); }
    } else {
      var init, last := chunks[..|chunks| - 1], chunks[|chunks| - 1];
      AccumulatedIsSaid(init);
      if IsEllipsisOnly(last) {
        assert Said(init) + [] == Said(init) && Accumulated(init) + "" == Accumulated(init);
      } else {
        ConcatAppend(Said(init), last);
      }
    }
  }

  lemma ConcatNothing()
    ensures Concat([]) == ""
  {
  }

  /** Nothing while the text could still become a silent reply, then the whole text. */
  function Previewed(text: string): string {
    if CouldBeSilentPrefix(text) then "" else text
  }

  lemma AccumulateStep(chunks: seq<string>, i: nat)
    requires i < |chunks|
    ensures Accumulated(chunks[..i + 1]) ==
            if chunks[i] == "" || IsEllipsisOnly(chunks[i]) then Accumulated(chunks[..i])
            else Accumulated(chunks[..i]) + chunks[i]
  {
    hide IsEllipsisOnly;
    assert chunks[..i + 1][..i] == chunks[..i];
    assert Accumulated(chunks[..i]) + "" == Accumulated(chunks[..i]);
  }

  /** `shown[k]` is the preview after chunk k; `releases` counts how often held text was let go. */
  method StreamSegment(chunks: seq<string>) returns (shown: seq<string>, releases: nat)
    ensures |shown| == |chunks|
    ensures forall k :: 0 <= k < |chunks| ==> shown[k] == Previewed(Accumulated(chunks[..k + 1]))
    ensures releases <= 1
  {
    hide IsEllipsisOnly, CouldBeSilentPrefix, Accumulated, Concat, Shows;
    var textParts: seq<string>, silentHold, preview := [], false, "";
    shown, releases := [], 0;
    EmptyIsHeld();
    ghost var text := "";
    NothingYet(chunks);
    assert Shows([], chunks) by { NothingShown(chunks); }
    for i := 0 to |chunks|
      invariant |shown| == i && Shows(shown, chunks)
      invariant Concat(textParts) == Accumulated(chunks[..i]) == text
      invariant preview == Previewed(text)
      invariant CouldBeSilentPrefix(text) ==> releases == 0 && (silentHold || text == "")
      invariant !CouldBeSilentPrefix(text) ==> releases <= 1 && !silentHold
    {
      var content := chunks[i];
      AccumulateStep(chunks, i);
      if content != "" && !IsEllipsisOnly(content) {
        var peekSegment := Concat(textParts) + content;
        var prevHold := silentHold;
        silentHold := CouldBeSilentPrefix(peekSegment);
        var releasedNow := prevHold && !silentHold;
        if !CouldBeSilentPrefix(text) {
          ReleaseIsFinal(text, content);
        }
        ConcatAppend(textParts, content);
        textParts := textParts + [content];
        if !silentHold {
          assert "" + content == content;
          preview := preview + if releasedNow then peekSegment else content;
        }
        if releasedNow {
          releases := releases + 1;
        }
        text := peekSegment;
      }
      ShowsMore(shown, chunks, preview);
      shown := shown + [preview];
    }
    ShowsAll(shown, chunks);
  }

  /** What was shown after each chunk so far. */
  predicate Shows(shown: seq<string>, chunks: seq<string>) {
    && |shown| <= |chunks|
    && forall k :: 0 <= k < |shown| ==> shown[k] == Previewed(Accumulated(chunks[..k + 1]))
  }

  lemma ShowsMore(shown: seq<string>, chunks: seq<string>, preview: string)
    requires Shows(shown, chunks) && |shown| < |chunks|
    requires preview == Previewed(Accumulated(chunks[..|shown| + 1]))
    ensures Shows(shown + [preview], chunks)
  {
    hide Previewed, Accumulated;
  }

  lemma ShowsAll(shown: seq<string>, chunks: seq<string>)
    requires Shows(shown, chunks) && |shown| == |chunks|
    ensures forall k :: 0 <= k < |chunks| ==> shown[k] == Previewed(Accumulated(chunks[..k + 1]))
  {
    hide Previewed, Accumulated;
  }

  lemma NothingShown(chunks: seq<string>)
    ensures Shows([], chunks)
  {
  }

  lemma NothingYet(chunks: seq<string>)
    ensures Concat([]) == "" && Accumulated(chunks[..0]) == ""
  {
  }

  lemma EmptyIsHeld()
    ensures CouldBeSilentPrefix("")
  {
  }

  lemma {:induction false} AccumulatedGrows(chunks: seq<string>, k: nat)
    requires k <= |chunks|
    ensures Accumulated(chunks[..k]) <= Accumulated(chunks)
    decreases |chunks|
  {
    hide IsEllipsisOnly;
    if k == |chunks| {
      assert chunks[..k] == chunks;
    } else {
      var shorter := chunks[..|chunks| - 1];
      assert shorter[..k] == chunks[..k];
      AccumulatedGrows(shorter, k);
    }
  }

  /** A segment that is a bare marker in the end never previewed anything on the way. */
  lemma SilentNeverPreviews(chunks: seq<string>, k: nat)
    requires k <= |chunks| && IsSilentReply(Accumulated(chunks))
    ensures Previewed(Accumulated(chunks[..k])) == ""
  {
    hide CouldBeSilentPrefix, IsSilentReply, IsEllipsisOnly, Accumulated;
    AccumulatedGrows(chunks, k);
    var text := Accumulated(chunks[..k]);
    var more := Accumulated(chunks)[|text|..];
    assert Accumulated(chunks) == text + more;
    if !CouldBeSilentPrefix(text) {
      ReleasedIsNeverSilent(text, more);
    }
  }
}
