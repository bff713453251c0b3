/** Searching a line list: the first line, or all lines, of a range that pass a test. */
module LineSearch {
  import opened ConfigLines

  datatype LineTest = Key(key: string) | Table(header: string) | AnyTable

  predicate Passes(line: string, test: LineTest) {
    match test
    case Key(key) => MatchKey(line, key)
    case Table(header) => MatchTableHeader(line, header)
    case AnyTable => IsAnyTableHeader(line)
  }

  /** The first line of lo..hi (hi excluded) that passes, or hi. */
  function Find(lines: seq<string>, lo: int, hi: int, test: LineTest): (i: int)
    requires 0 <= lo <= hi <= |lines|
    ensures lo <= i <= hi
    decreases hi - lo
  {
    if lo == hi || Passes(lines[lo], test) then lo else Find(lines, lo + 1, hi, test)
  }

  lemma {:induction false} FindFinds(lines: seq<string>, lo: int, hi: int, test: LineTest)
    requires 0 <= lo <= hi <= |lines|
    ensures var i := Find(lines, lo, hi, test);
            && (i < hi ==> Passes(lines[i], test))
            && forall j :: lo <= j < i ==> !Passes(lines[j], test)
    decreases hi - lo
  {
    hide Passes;
    if lo < hi && !Passes(lines[lo], test) {
      FindFinds(lines, lo + 1, hi, test);
    }
  }

  lemma FindIs(lines: seq<string>, lo: int, hi: int, test: LineTest, i: int)
    requires 0 <= lo <= i <= hi <= |lines|
    requires i < hi ==> Passes(lines[i], test)
    requires forall j :: lo <= j < i ==> !Passes(lines[j], test)
    ensures Find(lines, lo, hi, test) == i
  {
    hide Passes;
    FindFinds(lines, lo, hi, test);
  }

  predicate Ascending(s: seq<int>) {
    forall i, j :: 0 <= i < j < |s| ==> s[i] < s[j]
  }

  /** Every line of lo..hi (hi excluded) that passes, in order. */
  function Positions(lines: seq<string>, lo: int, hi: int, test: LineTest): (ps: seq<int>)
    requires 0 <= lo <= hi <= |lines|
    ensures forall k :: 0 <= k < |ps| ==> lo <= ps[k] < hi
    decreases hi - lo
  {
    if lo == hi then []
    else (if Passes(lines[lo], test) then [lo] else []) + Positions(lines, lo + 1, hi, test)
  }

  lemma {:induction false} PositionsAscend(lines: seq<string>, lo: int, hi: int, test: LineTest)
    requires 0 <= lo <= hi <= |lines|
    ensures Ascending(Positions(lines, lo, hi, test))
    decreases hi - lo
  {
    hide Passes;
    if lo < hi {
      PositionsAscend(lines, lo + 1, hi, test);
    }
  }

  lemma {:induction false} PositionsPass(lines: seq<string>, lo: int, hi: int, test: LineTest, k: nat)
    requires 0 <= lo <= hi <= |lines| && k < |Positions(lines, lo, hi, test)|
    ensures Passes(lines[Positions(lines, lo, hi, test)[k]], test)
    decreases hi - lo
  {
    hide Passes;
    if Passes(lines[lo], test) {
      if k > 0 {
        PositionsPass(lines, lo + 1, hi, test, k - 1);
      }
    } else {
      PositionsPass(lines, lo + 1, hi, test, k);
    }
  }

  lemma {:induction false} PositionsComplete(lines: seq<string>, lo: int, hi: int, test: LineTest, i: int)
    requires 0 <= lo <= i < hi <= |lines| && Passes(lines[i], test)
    ensures i in Positions(lines, lo, hi, test)
    decreases hi - lo
  {
    hide Passes;
    if lo < i {
      PositionsComplete(lines, lo + 1, hi, test, i);
    }
  }

  lemma {:induction false} PositionsNone(lines: seq<string>, lo: int, hi: int, test: LineTest)
    requires 0 <= lo <= hi <= |lines|
    requires forall i :: lo <= i < hi ==> !Passes(lines[i], test)
    ensures Positions(lines, lo, hi, test) == []
    decreases hi - lo
  {
    hide Passes;
    if lo < hi {
      PositionsNone(lines, lo + 1, hi, test);
    }
  }

  lemma {:induction false} PositionsSplit(lines: seq<string>, lo: int, mid: int, hi: int, test: LineTest)
    requires 0 <= lo <= mid <= hi <= |lines|
    ensures Positions(lines, lo, hi, test) == Positions(lines, lo, mid, test) + Positions(lines, mid, hi, test)
    decreases mid - lo
  {
    hide Passes;
    if lo < mid {
      PositionsSplit(lines, lo + 1, mid, hi, test);
    }
  }

  lemma {:induction false} PositionsSnoc(lines: seq<string>, lo: int, hi: int, test: LineTest)
    requires 0 <= lo <= hi < |lines|
    ensures Positions(lines, lo, hi + 1, test)
         == Positions(lines, lo, hi, test) + if Passes(lines[hi], test) then [hi] else []
  {
    hide Passes;
    PositionsSplit(lines, lo, hi, hi + 1, test);
  }

  function Shift(ps: seq<int>, d: int): (r: seq<int>)
    ensures |r| == |ps| && forall k :: 0 <= k < |ps| ==> r[k] == ps[k] + d
  {
    seq(|ps|, k requires 0 <= k < |ps| => ps[k] + d)
  }

  lemma ShiftCons(p: int, ps: seq<int>, d: int)
    ensures Shift([p] + ps, d) == [p + d] + Shift(ps, d)
  {
  }

  /** The same lines elsewhere give the same positions, moved. */
  lemma {:induction false} PositionsMoved(lines: seq<string>, lines': seq<string>, lo: int, hi: int, d: int,
          test: LineTest)
    requires 0 <= lo <= hi <= |lines| && 0 <= lo + d && hi + d <= |lines'|
    requires forall i :: lo <= i < hi ==> lines'[i + d] == lines[i]
    ensures Positions(lines', lo + d, hi + d, test) == Shift(Positions(lines, lo, hi, test), d)
    decreases hi - lo
  {
    hide Passes, Shift;
    if lo < hi {
      assert lines'[lo + d] == lines[lo];
      PositionsMoved(lines, lines', lo + 1, hi, d, test);
      ShiftCons(lo, Positions(lines, lo + 1, hi, test), d);
    } else {
      assert Positions(lines, lo, hi, test) == [] == Shift([], d);
    }
  }
}
