/** splitMessage: cutting a message into chunks, at a newline where one is near the end of a chunk. */
module PlainSplit {
  import opened Text
  import opened FenceSplit

  /** strings.LastIndex(s, "\n") */
  function LastNewline(s: string): (i: int)
    ensures -1 <= i < |s|
    ensures i >= 0 ==> s[i] == '\n'
    ensures forall k :: i < k < |s| ==> s[k] != '\n'
  {
    if s == "" then -1 else if s[|s| - 1] == '\n' then |s| - 1 else LastNewline(s[..|s| - 1])
  }

  /** Cutting behind index k of the window is worth it: a newline, not at its start, in its second half. */
  predicate GoodBreak(window: string, k: int) {
    0 < k < |window| && k >= |window| / 2 && window[k] == '\n'
  }

  /** The cut is behind the last newline of the window, if that is a good break, else at its end. */
  predicate RightCut(window: string, n: nat) {
    if n > 0 && GoodBreak(window, n - 1) then forall k :: n <= k < |window| ==> window[k] != '\n'
    else n == |window| && forall k :: 0 <= k < |window| ==> !GoodBreak(window, k)
  }

  /** The chunks are cut off the text one by one, each at the right place, and leave the rest. */
  predicate Cuts(text: string, chunks: seq<string>, rest: string, maxLen: nat)
    decreases |chunks|
  {
    if chunks == [] then text == rest
    else
      var n := |chunks[0]|;
      && |text| > maxLen && n <= maxLen && chunks[0] == text[..n] && RightCut(text[..maxLen], n)
      && Cuts(text[n..], chunks[1..], rest, maxLen)
  }

  predicate SplitInto(text: string, chunks: seq<string>, maxLen: nat) {
    && chunks != []
    && Cuts(text, chunks[..|chunks| - 1], chunks[|chunks| - 1], maxLen)
    && |chunks[|chunks| - 1]| <= maxLen
  }

  lemma {:induction false} CutsAppend(text: string, chunks: seq<string>, rest: string, n: nat, maxLen: nat)
    requires Cuts(text, chunks, rest, maxLen) && |rest| > maxLen && n <= maxLen && RightCut(rest[..maxLen], n)
    ensures Cuts(text, chunks + [rest[..n]], rest[n..], maxLen)
    decreases |chunks|
  {
    hide RightCut;
    var all := chunks + [rest[..n]];
    if chunks == [] {
      assert all[1..] == [];
    } else {
      assert all[0] == chunks[0] && all[1..] == chunks[1..] + [rest[..n]];
      CutsAppend(text[|chunks[0]|..], chunks[1..], rest, n, maxLen);
    }
  }

  /** A limit below zero makes a slice out of range, and a limit of zero never advances, unless
      there is nothing to split; the callers pass neither. For every other limit this is the one
      right splitting of the text. */
  method SplitMessage(text: string, maxLen: int) returns (result: Outcome<seq<string>>)
    ensures maxLen < 0 && text != "" ==> result == Panics
    ensures maxLen < 0 && text == "" ==> result == Done([])
    ensures maxLen == 0 && text != "" ==> result == Diverges
    ensures maxLen >= 0 && |text| <= maxLen ==> result == Done([text])
    ensures maxLen >= 1 ==> result.Done? && SplitInto(text, result.value, maxLen)
  {
    if |text| <= maxLen {
      return Done([text]);
    }
    var runes, chunks := text, [];
    while |runes| > 0
      invariant maxLen >= 0 ==> Cuts(text, chunks, runes, maxLen) && |runes| > 0
      invariant maxLen < 0 ==> runes == text && chunks == []
      decreases |runes|
    {
      if maxLen < 0 {
        return Panics;
      }
      if |runes| <= maxLen {
        ghost var before := chunks;
        chunks := chunks + [runes];
        assert chunks[..|chunks| - 1] == before;
        return Done(chunks);
      }
      var end := maxLen;
      var candidate := runes[..end];
      var idx := LastNewline(candidate);
      if idx > 0 {
        if idx >= end / 2 {
          end := idx + 1;
        }
      }
      if end == 0 {
        return Diverges;
      }
      assert RightCut(candidate, end);
      CutsAppend(text, chunks, runes, end, maxLen);
      chunks := chunks + [runes[..end]];
      runes := runes[end..];
    }
    result := Done(chunks);
  }

  lemma {:induction false} CutsKeepText(text: string, chunks: seq<string>, rest: string, maxLen: nat)
    requires Cuts(text, chunks, rest, maxLen)
    ensures Concat(chunks) + rest == text
    decreases |chunks|
  {
    hide RightCut;
    if chunks != [] {
      CutsKeepText(text[|chunks[0]|..], chunks[1..], rest, maxLen);
      assert chunks[0] + text[|chunks[0]|..] == text;
    }
  }

  lemma RightCutIsLong(window: string, n: nat)
    requires window != "" && RightCut(window, n)
    ensures |window| / 2 + 1 <= n <= |window|
  {
  }

  lemma {:induction false} CutsAreLong(text: string, chunks: seq<string>, rest: string, maxLen: nat, least: nat)
    requires maxLen >= 1 && least == maxLen / 2 + 1 && Cuts(text, chunks, rest, maxLen)
    ensures forall i :: 0 <= i < |chunks| ==> least <= |chunks[i]| <= maxLen
    ensures |chunks| * least + |rest| <= |text|
    decreases |chunks|
  {
    hide RightCut;
    if chunks != [] {
      var tail := chunks[1..];
      RightCutIsLong(text[..maxLen], |chunks[0]|);
      CutsAreLong(text[|chunks[0]|..], tail, rest, maxLen, least);
      forall i | 0 <= i < |chunks| ensures least <= |chunks[i]| <= maxLen {
        assert i > 0 ==> chunks[i] == tail[i - 1];
      }
      assert |chunks| * least == |tail| * least + least;
    }
  }

  /** The chunks are the text; each has at most maxLen characters and all but the last more than
      half of that, so there are few of them. */
  lemma SplitIsFaithful(text: string, chunks: seq<string>, maxLen: nat)
    requires maxLen >= 1 && SplitInto(text, chunks, maxLen)
    ensures Concat(chunks) == text
    ensures forall i :: 0 <= i < |chunks| ==> |chunks[i]| <= maxLen
    ensures forall i :: 0 <= i < |chunks| - 1 ==> |chunks[i]| >= maxLen / 2 + 1
    ensures |chunks| <= 1 + |text| / (maxLen / 2 + 1)
  {
    hide Cuts;
    var n := |chunks| - 1;
    CutsKeepText(text, chunks[..n], chunks[n], maxLen);
    ConcatAppend(chunks[..n], chunks[n]);
    assert chunks[..n] + [chunks[n]] == chunks;
    var cut := chunks[..n];
    CutsAreLong(text, cut, chunks[n], maxLen, maxLen / 2 + 1);
    forall i | 0 <= i < n ensures maxLen / 2 + 1 <= |chunks[i]| <= maxLen {
      assert chunks[i] == cut[i];
    }
    QuotientBound(n, maxLen / 2 + 1, |text|);
  }

  lemma QuotientBound(n: nat, d: nat, total: nat)
    requires d > 0 && n * d <= total
    ensures n <= total / d
  {
    var q := total / d;
    assert total < (q + 1) * d;
    if q + 1 <= n {
      MulMonotone(q + 1, n, d);
    }
  }

  lemma MulMonotone(a: nat, b: nat, d: nat)
    requires a <= b
    ensures a * d <= b * d
  {
  }

  lemma RightCutIsUnique(window: string, n: nat, m: nat)
    requires RightCut(window, n) && RightCut(window, m)
    ensures n == m
  {
    if n > 0 && GoodBreak(window, n - 1) {
      assert window[n - 1] == '\n';
    }
    if m > 0 && GoodBreak(window, m - 1) {
      assert window[m - 1] == '\n';
    }
  }

  /** There is one right splitting: what the method promises determines its result. */
  lemma {:induction false} SplitIsUnique(text: string, a: seq<string>, b: seq<string>, maxLen: nat)
    requires maxLen >= 1 && SplitInto(text, a, maxLen) && SplitInto(text, b, maxLen)
    ensures a == b
    decreases |text|
  {
    hide RightCut;
    var a0, b0 := a[..|a| - 1], b[..|b| - 1];
    CutsAreLong(text, a0, a[|a| - 1], maxLen, maxLen / 2 + 1);
    CutsAreLong(text, b0, b[|b| - 1], maxLen, maxLen / 2 + 1);
    if |text| <= maxLen {
      assert a == [text] && b == [text];
    } else {
      assert a0 != [] && b0 != [];
      RightCutIsUnique(text[..maxLen], |a[0]|, |b[0]|);
      assert a0[1..] == a[1..][..|a| - 2] && b0[1..] == b[1..][..|b| - 2];
      SplitIsUnique(text[|a[0]|..], a[1..], b[1..], maxLen);
      assert a == [a[0]] + a[1..] && b == [b[0]] + b[1..];
    }
  }
}
