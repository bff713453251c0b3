/** DirHistory: a bounded most-recent-first list of directories, against the log of all visits. */
module DirHistory {

  const DEFAULT_SIZE := 10

  function Without(dirs: seq<string>, dir: string): seq<string> {
    if dirs == [] then [] else (if dirs[0] == dir then [] else [dirs[0]]) + Without(dirs[1..], dir)
  }

  predicate Distinct(dirs: seq<string>) {
    forall i, j :: 0 <= i < j < |dirs| ==> dirs[i] != dirs[j]
  }

  /** The distinct directories of a log of visits, the latest visited first. */
  function Recent(visits: seq<string>): seq<string> {
    if visits == [] then []
    else
      var dir := visits[|visits| - 1];
      [dir] + Without(Recent(visits[..|visits| - 1]), dir)
  }

  function LastVisit(visits: seq<string>, dir: string): (k: int)
    ensures -1 <= k < |visits|
    ensures k >= 0 ==> visits[k] == dir
    ensures forall m :: k < m < |visits| ==> visits[m] != dir
  {
    if visits == [] then -1
    else if visits[|visits| - 1] == dir then |visits| - 1
    else LastVisit(visits[..|visits| - 1], dir)
  }

  /** A Go map gives the empty list for a missing key. */
  function At(lists: map<string, seq<string>>, project: string): seq<string> {
    if project in lists then lists[project] else []
  }

  lemma {:induction false} WithoutAppend(a: seq<string>, b: seq<string>, dir: string)
    ensures Without(a + b, dir) == Without(a, dir) + Without(b, dir)
  {
    if a == [] {
      assert a + b == b;
    } else {
      assert (a + b)[1..] == a[1..] + b;
      WithoutAppend(a[1..], b, dir);
    }
  }

  lemma {:induction false} WithoutAbsent(dirs: seq<string>, dir: string)
    requires dir !in dirs
    ensures Without(dirs, dir) == dirs
  {
    if dirs != [] {
      WithoutAbsent(dirs[1..], dir);
    }
  }

  lemma {:induction false} WithoutAt(dirs: seq<string>, i: nat)
    requires i < |dirs| && Distinct(dirs)
    ensures Without(dirs, dirs[i]) == dirs[..i] + dirs[i + 1..]
  {
    var tail := dirs[1..];
    if i == 0 {
      WithoutAbsent(tail, dirs[0]);
    } else {
      assert tail[i - 1] == dirs[i];
      WithoutAt(tail, i - 1);
      assert dirs[..i] + dirs[i + 1..] == [dirs[0]] + (tail[..i - 1] + tail[i..]);
    }
  }

  lemma {:induction false} WithoutIn(dirs: seq<string>, dir: string)
    ensures forall d :: d in Without(dirs, dir) <==> d in dirs && d != dir
  {
    if dirs != [] {
      WithoutIn(dirs[1..], dir);
      assert dirs == [dirs[0]] + dirs[1..];
    }
  }

  /** Without keeps the order of what it keeps. */
  lemma {:induction false} WithoutOrder(dirs: seq<string>, dir: string, rank: map<string, int>)
    requires forall d :: d in dirs ==> d in rank
    requires forall i, j :: 0 <= i < j < |dirs| ==> rank[dirs[i]] > rank[dirs[j]]
    ensures forall d :: d in Without(dirs, dir) ==> d in rank
    ensures forall i, j :: 0 <= i < j < |Without(dirs, dir)| ==>
            rank[Without(dirs, dir)[i]] > rank[Without(dirs, dir)[j]]
  {
    WithoutIn(dirs, dir);
    if dirs != [] {
      var tail := dirs[1..];
      WithoutOrder(tail, dir, rank);
      WithoutIn(tail, dir);
      var kept := Without(tail, dir);
      forall j | 0 <= j < |kept| ensures rank[dirs[0]] > rank[kept[j]] {
        assert kept[j] in tail;
      }
    }
  }

  lemma LastVisitAppend(visits: seq<string>, dir: string, d: string)
    ensures LastVisit(visits + [dir], d) == if d == dir then |visits| else LastVisit(visits, d)
  {
    assert (visits + [dir])[..|visits|] == visits;
  }

  lemma RecentAppend(visits: seq<string>, dir: string)
    ensures Recent(visits + [dir]) == [dir] + Without(Recent(visits), dir)
  {
    assert (visits + [dir])[..|visits|] == visits;
  }

  lemma {:induction false} RecentIn(visits: seq<string>)
    ensures forall d :: d in Recent(visits) <==> d in visits
  {
    if visits != [] {
      var n := |visits| - 1;
      RecentIn(visits[..n]);
      WithoutIn(Recent(visits[..n]), visits[n]);
      assert visits == visits[..n] + [visits[n]];
    }
  }

  ghost predicate ByLastVisit(dirs: seq<string>, visits: seq<string>) {
    forall i, j :: 0 <= i < j < |dirs| ==> LastVisit(visits, dirs[i]) > LastVisit(visits, dirs[j])
  }

  lemma {:induction false} RecentOrder(visits: seq<string>)
    ensures ByLastVisit(Recent(visits), visits)
  {
    hide Without, LastVisit;
    if visits != [] {
      var n := |visits| - 1;
      var dir, before := visits[n], visits[..n];
      var full := Recent(before);
      assert visits == before + [dir];
      RecentOrder(before);
      WithoutIn(full, dir);
      var rank := map d | d in full :: LastVisit(before, d);
      WithoutOrder(full, dir, rank);
      var kept := Without(full, dir);
      forall j | 0 <= j < |kept| ensures LastVisit(visits, kept[j]) == rank[kept[j]] < n {
        assert kept[j] in kept;
        LastVisitAppend(before, dir, kept[j]);
      }
      LastVisitAppend(before, dir, dir);
    }
  }

  /** The list without a bound holds every directory visited, once, the latest visited first. */
  lemma RecentIsByLastVisit(visits: seq<string>)
    ensures forall d :: d in Recent(visits) <==> d in visits
    ensures Distinct(Recent(visits)) && ByLastVisit(Recent(visits), visits)
  {
    hide Recent, LastVisit;
    RecentIn(visits);
    RecentOrder(visits);
  }

  lemma DistinctPrefix(a: seq<string>, b: seq<string>)
    requires a <= b && Distinct(b)
    ensures Distinct(a)
  {
  }

  /** Moving a directory to the front of a cut list is moving it to the front of the whole list, cut. */
  lemma MoveToFront(cut: seq<string>, full: seq<string>, dir: string)
    requires cut <= full && Distinct(full)
    ensures [dir] + Without(cut, dir) <= [dir] + Without(full, dir)
    ensures |Without(cut, dir)| >= |cut| - 1
  {
    DistinctPrefix(cut, full);
    assert full == cut + full[|cut|..];
    WithoutAppend(cut, full[|cut|..], dir);
    if dir in cut {
      var i :| 0 <= i < |cut| && cut[i] == dir;
      WithoutAt(cut, i);
    } else {
      WithoutAbsent(cut, dir);
    }
  }

  /** A stored list is the start of the list without a bound, cut at a size that was once in force. */
  predicate Cut(list: seq<string>, full: seq<string>, least: nat, most: nat) {
    list <= full && |list| <= most && (|list| >= least || list == full)
  }

  function Pushed(list: seq<string>, dir: string, size: nat): seq<string> {
    var added := [dir] + Without(list, dir);
    if |added| > size then added[..size] else added
  }

  lemma AddedIsCut(list: seq<string>, full: seq<string>, dir: string, size: nat, least: nat, most: nat)
    requires Cut(list, full, least, most) && Distinct(full) && 1 <= least <= size <= most
    ensures Cut(Pushed(list, dir, size), [dir] + Without(full, dir), least, most)
  {
    hide Without, Distinct;
    MoveToFront(list, full, dir);
  }

  ghost predicate AllCut(entries: map<string, seq<string>>, log: map<string, seq<string>>, least: nat, most: nat) {
    forall project :: Cut(At(entries, project), Recent(At(log, project)), least, most)
  }

  lemma AllCutAt(entries: map<string, seq<string>>, log: map<string, seq<string>>, least: nat, most: nat,
          project: string)
    requires AllCut(entries, log, least, most)
    ensures Cut(At(entries, project), Recent(At(log, project)), least, most)
  {
  }

  lemma AllCutAfter(entries: map<string, seq<string>>, log: map<string, seq<string>>, least: nat, most: nat,
      project: string, list: seq<string>, visits: seq<string>)
    requires AllCut(entries, log, least, most) && Cut(list, Recent(visits), least, most)
    ensures AllCut(entries[project := list], log[project := visits], least, most)
  {
    hide Recent, Cut;
    var entries', log' := entries[project := list], log[project := visits];
    forall other ensures Cut(At(entries', other), Recent(At(log', other)), least, most) {
      assert other != project ==> At(entries', other) == At(entries, other) && At(log', other) == At(log, other);
    }
  }

  lemma CutIsDistinct(list: seq<string>, full: seq<string>, least: nat, most: nat)
    requires Cut(list, full, least, most) && Distinct(full)
    ensures Distinct(list)
  {
  }

  method Push(list: seq<string>, dir: string, size: nat) returns (pushed: seq<string>)
    requires Distinct(list) && size >= 1
    ensures pushed == Pushed(list, dir, size)
    ensures pushed != [] && pushed[0] == dir && |pushed| <= size
  {
    hide Without;
    pushed := list;
    var i := 0;
    while i < |list| && list[i] != dir
      invariant 0 <= i <= |list| && dir !in list[..i]
    {
      i := i + 1;
    }
    if i < |list| {
      WithoutAt(list, i);
      pushed := list[..i] + list[i + 1..];
    } else {
      assert list[..i] == list;
      WithoutAbsent(list, dir);
    }
    pushed := [dir] + pushed;
    if |pushed| > size {
      pushed := pushed[..size];
    }
  }

  class DirHistory {
    var entries: map<string, seq<string>>
    var maxSize: nat
    ghost var log: map<string, seq<string>>
    /** The smallest and the largest size there has been. */
    ghost var least: nat
    ghost var most: nat

    function Stored(project: string): seq<string>
      reads this
    {
      At(entries, project)
    }

    ghost predicate Valid()
      reads this
    {
      && 1 <= least <= maxSize <= most
      && AllCut(entries, log, least, most)
    }

    constructor ()
      ensures Valid() && log == map[] && least == most == maxSize == DEFAULT_SIZE
    {
      entries := map[];
      maxSize := DEFAULT_SIZE;
      log := map[];
      least := DEFAULT_SIZE;
      most := DEFAULT_SIZE;
    }

    method SetMaxSize(size: int)
      requires Valid()
      modifies this
      ensures Valid() && maxSize == if size < 1 then 1 else size
      ensures entries == old(entries) && log == old(log)
      ensures maxSize == old(maxSize) ==> least == old(least) && most == old(most)
    {
      maxSize := if size < 1 then 1 else size;
      least := if maxSize < least then maxSize else least;
      most := if maxSize > most then maxSize else most;
    }

    method Add(project: string, dir: string)
      requires Valid()
      modifies this
      ensures Valid() && maxSize == old(maxSize) && least == old(least) && most == old(most)
      ensures dir == "" ==> log == old(log) && entries == old(entries)
      ensures dir != "" ==> log == old(log)[project := At(old(log), project) + [dir]]
      ensures dir != "" ==> Stored(project) != [] && Stored(project)[0] == dir && |Stored(project)| <= maxSize
      ensures forall other :: other != project ==> Stored(other) == old(Stored(other))
    {
      if dir == "" {
        return;
      }
      hide Recent, Without, Distinct, Cut, Pushed, AllCut;
      var list := Stored(project);
      ghost var visits := At(log, project) + [dir];
      AllCutAt(entries, log, least, most, project);
      RecentIsByLastVisit(At(log, project));
      RecentAppend(At(log, project), dir);
      CutIsDistinct(list, Recent(At(log, project)), least, most);
      AddedIsCut(list, Recent(At(log, project)), dir, maxSize, least, most);
      list := Push(list, dir, maxSize);
      AllCutAfter(entries, log, least, most, project, list, visits);
      entries := entries[project := list];
      log := log[project := visits];
    }

    method List(project: string) returns (list: seq<string>)
      requires Valid()
      ensures list == Stored(project)
    {
      list := Stored(project);
    }

    /** The index is counted from 1; "" if it is out of range. */
    method Get(project: string, index: int) returns (dir: string)
      requires Valid()
      ensures dir == if 1 <= index <= |Stored(project)| then Recent(At(log, project))[index - 1] else ""
    {
      var list := Stored(project);
      if index < 1 || index > |list| {
        return "";
      }
      dir := list[index - 1];
    }

    method Previous(project: string) returns (dir: string)
      requires Valid()
      ensures dir == if |Stored(project)| >= 2 then Recent(At(log, project))[1] else ""
    {
      dir := Get(project, 2);
    }

    method Contains(project: string, dir: string) returns (found: bool)
      requires Valid()
      ensures found <==> dir in Stored(project)
    {
      var list := Stored(project);
      for i := 0 to |list|
        invariant dir !in list[..i]
      {
        if list[i] == dir {
          return true;
        }
      }
      assert list[..|list|] == list;
      found := false;
    }

    /** With a size that never changed, the list is exactly the first maxSize directories, whatever
        was evicted and visited again on the way. */
    lemma FixedSizeIsExact(project: string)
      requires Valid() && least == most
      ensures var full := Recent(At(log, project));
              Stored(project) == full[..if |full| < maxSize then |full| else maxSize]
    {
      hide Recent;
      assert Stored(project) <= Recent(At(log, project));
    }
  }
}
