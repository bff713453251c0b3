/** When a queued message gets its turn, and when it is passed over as stale, over whole runs. */
module QueueFates {
  import opened TurnState
  import opened QueueHistory
  import opened TurnProtocol

  /** How many messages wait in front of entry j. */
  function Rank(log: seq<Entry>, j: nat): nat
    requires j <= |log|
  {
    if j == 0 then 0 else (if log[0].fate.InQueue? then 1 else 0) + Rank(log[1..], j - 1)
  }

  lemma {:induction false} RankInQueue(log: seq<Entry>, j: nat)
    requires j < |log| && log[j].fate.InQueue?
    ensures Rank(log, j) < |OfFate(log, InQueue)| && OfFate(log, InQueue)[Rank(log, j)] == log[j].msg
  {
    if j > 0 {
      RankInQueue(log[1..], j - 1);
    }
  }

  lemma RankCons(e: Entry, rest: seq<Entry>, j: nat)
    requires 0 < j <= |rest| + 1
    ensures Rank([e] + rest, j) == (if e.fate.InQueue? then 1 else 0) + Rank(rest, j - 1)
  {
    assert ([e] + rest)[1..] == rest;
  }

  lemma LeaveCons(e: Entry, rest: seq<Entry>, k: nat, fate: Fate)
    requires k > 0
    ensures Leave([e] + rest, k, fate) ==
            if e.fate.InQueue? then [Entry(e.msg, fate)] + Leave(rest, k - 1, fate) else [e] + Leave(rest, k, fate)
  {
    assert ([e] + rest)[1..] == rest;
  }

  lemma {:induction false} LeaveRank(log: seq<Entry>, k: nat, fate: Fate, j: nat)
    requires j < |log| && !fate.InQueue?
    ensures Rank(Leave(log, k, fate), j) == if Rank(log, j) < k then 0 else Rank(log, j) - k
  {
    if k > 0 && j > 0 {
      hide Leave, Rank;
      var head, tail := log[0], log[1..];
      var k' := if head.fate.InQueue? then k - 1 else k;
      assert log == [head] + tail;
      LeaveCons(head, tail, k, fate);
      LeaveRank(tail, k', fate, j - 1);
      RankCons(head, tail, j);
      RankCons(Leave(log, k, fate)[0], Leave(tail, k', fate), j);
    }
  }

  lemma {:induction false} LeaveAt(log: seq<Entry>, k: nat, fate: Fate, j: nat)
    requires j < |log| && !fate.InQueue?
    ensures Leave(log, k, fate)[j] ==
            if log[j].fate.InQueue? && Rank(log, j) < k then Entry(log[j].msg, fate) else log[j]
  {
    if k > 0 && j > 0 {
      hide Leave, Rank;
      var head, tail := log[0], log[1..];
      var k' := if head.fate.InQueue? then k - 1 else k;
      assert log == [head] + tail;
      LeaveCons(head, tail, k, fate);
      LeaveAt(tail, k', fate, j - 1);
      RankCons(head, tail, j);
    }
  }

  lemma {:induction false} RecallAt(log: seq<Entry>, id: string, j: nat)
    requires j < |log|
    ensures RecallId(log, id)[j].fate == log[j].fate || RecallId(log, id)[j].fate.Recalled?
  {
    if j > 0 {
      RecallAt(log[1..], id, j - 1);
      assert RecallId(log, id)[1..] == RecallId(log[1..], id);
    }
  }

  lemma {:induction false} DropBelowPrefix(queue: seq<Msg>, bound: int)
    ensures |DropBelow(queue, bound)| <= |queue|
    ensures var k := |queue| - |DropBelow(queue, bound)|;
            && (forall i :: 0 <= i < k ==> 0 < queue[i].time < bound)
            && (k < |queue| ==> !(0 < queue[k].time < bound))
  {
    if queue != [] && 0 < queue[0].time < bound {
      DropBelowPrefix(queue[1..], bound);
      var rest := queue[1..];
      var k := |rest| - |DropBelow(rest, bound)|;
      forall i | 0 <= i < k + 1 ensures 0 < queue[i].time < bound {
        assert i > 0 ==> queue[i] == rest[i - 1];
      }
    }
  }

  /** The messages in front of the first one that is not stale are dropped, and that one starts. */
  lemma TakeFates(s: Sys, j: nat)
    requires j < |s.log| && s.log[j].fate.InQueue? && Rank(s.log, j) < |s.turns.queue|
    ensures var k := |s.turns.queue| - |DropStale(s.turns).queue|;
            && j < |Take(s).log| && Take(s).log[j].msg == s.log[j].msg
            && Take(s).log[j].fate ==
               if Rank(s.log, j) < k then DroppedStale else if Rank(s.log, j) == k then Started else InQueue
  {
    hide DropStale, Leave, Rank;
    var k := |s.turns.queue| - |DropStale(s.turns).queue|;
    LeaveAt(s.log, k, DroppedStale, j);
    LeaveRank(s.log, k, DroppedStale, j);
    LeaveAt(Leave(s.log, k, DroppedStale), 1, Started, j);
  }

  /** One take settles the fates of the messages up to and including the first that is not stale. */
  lemma TakeSettles(s: Sys, j: nat)
    requires Consistent(s.turns.queue, s.started, s.log) && j < |s.log| && s.log[j].fate.InQueue?
    ensures j < |Take(s).log| && Take(s).log[j].msg == s.log[j].msg
    ensures Take(s).log[j].fate.DroppedStale? ==> IsStale(s.turns, s.log[j].msg.time)
    ensures Take(s).log[j].fate.Started? ==> !IsStale(s.turns, s.log[j].msg.time)
    ensures Take(s).log[j].fate in {InQueue, DroppedStale, Started}
  {
    hide Consistent, DropStale, DropBelow, OfFate, Watermark, Take, Rank, Leave;
    QueueIs(s);
    RankInQueue(s.log, j);
    TakeFates(s, j);
    StaleLoopUsesOneBound(s.turns);
    DropBelowPrefix(s.turns.queue, Watermark(s.turns));
  }

  lemma QueueIs(s: Sys)
    requires Consistent(s.turns.queue, s.started, s.log)
    ensures s.turns.queue == OfFate(s.log, InQueue)
  {
  }

  predicate Takes(pc: Pc) {
    pc.AfterResult? || pc.Draining?
  }

  /** No other step starts a turn from the queue or drops a message as stale. */
  lemma OnlyTakesSettle(s: Sys, a: Action, j: nat)
    requires Apply(s, a).Next? && j < |s.log| && s.log[j].fate.InQueue?
    requires j < |Apply(s, a).s.log| && Apply(s, a).s.log[j].fate in {DroppedStale, Started}
    ensures a.Advance? && a.i < |s.threads| && Takes(s.threads[a.i]) && Apply(s, a).s.log == Take(s).log
  {
    hide Leave, RecallId, Take, IsStale, PopNext, Judge, Offer;
    match a
    case StopRecalled(i) => LeaveAt(s.log, |s.turns.queue|, Cleared, j);
    case DropWithNotice => LeaveAt(s.log, |s.turns.queue|, DroppedWithNotice, j);
    case DropSilently => LeaveAt(s.log, |s.turns.queue|, Cleared, j);
    case Recall(id) => RecallAt(s.log, id, j);
    case _ =>
  }

  lemma {:induction false} RunSnoc(s: Sys, acts: seq<Action>)
    requires acts != [] && Run(s, acts).Next?
    ensures var n := |acts| - 1; Run(s, acts[..n]).Next? && Run(s, acts) == Apply(Run(s, acts[..n]).s, acts[n])
    decreases |acts|
  {
    hide Apply;
    var n := |acts| - 1;
    if n == 0 {
      assert acts[1..] == [] && acts[..0] == [];
    } else {
      RunSnoc(Apply(s, acts[0]).s, acts[1..]);
      assert acts[1..][..n - 1] == acts[..n][1..];
    }
  }

  /** Over every run: a message that was started from the queue or dropped as stale was settled by
      one take of a turn, and it was dropped if and only if it was below the watermark then. */
  lemma {:induction false} SettledByTake(cap: nat, acts: seq<Action>, j: nat) returns (k: nat)
    requires Run(Init(cap), acts).Next? && j < |Run(Init(cap), acts).s.log|
    requires Run(Init(cap), acts).s.log[j].fate in {DroppedStale, Started}
    ensures k < |acts| && Run(Init(cap), acts[..k]).Next? && acts[k].Advance?
    ensures var s := Run(Init(cap), acts[..k]).s;
            && acts[k].i < |s.threads| && Takes(s.threads[acts[k].i])
            && j < |s.log| && s.log[j] == Entry(Run(Init(cap), acts).s.log[j].msg, InQueue)
            && (Run(Init(cap), acts).s.log[j].fate.DroppedStale? <==> IsStale(s.turns, s.log[j].msg.time))
    decreases |acts|
  {
    hide Run, Apply, Inv, Take, IsStale, Consistent, QueueInv, Extends;
    RunNothing(cap);
    var n := |acts| - 1;
    RunSnoc(Init(cap), acts);
    var before, after := Run(Init(cap), acts[..n]).s, Run(Init(cap), acts).s;
    ReachableInv(cap, acts[..n]);
    InvGivesQueueInv(before);
    QueueStep(before, acts[n]);
    LogGrowth(before, acts[n], j);
    if before.log[j].fate.InQueue? {
      k := n;
      OnlyTakesSettle(before, acts[n], j);
      QueueInvIsConsistent(before);
      TakeSettles(before, j);
    } else {
      k := SettledByTake(cap, acts[..n], j);
      assert acts[..n][..k] == acts[..k];
    }
  }

  lemma RunNothing(cap: nat)
    ensures Run(Init(cap), []) == Next(Init(cap)) && Init(cap).log == []
  {
  }

  lemma QueueInvIsConsistent(s: Sys)
    requires QueueInv(s)
    ensures Consistent(s.turns.queue, s.started, s.log)
  {
  }

  /** A settled message was there before the step, with the fate it has now or waiting. */
  lemma LogGrowth(s: Sys, a: Action, j: nat)
    requires Apply(s, a).Next? && Extends(s.log, Apply(s, a).s.log)
    requires j < |Apply(s, a).s.log| && Apply(s, a).s.log[j].fate in {DroppedStale, Started}
    ensures j < |s.log| && Apply(s, a).s.log[j].msg == s.log[j].msg
    ensures s.log[j].fate.InQueue? || s.log[j].fate == Apply(s, a).s.log[j].fate
  {
    hide IsStale, PopNext, Judge, Offer;
  }

  /** In the senders' terms: stale is a timed message behind a newer one that was completed, is in
      flight or is queued. */
  lemma StaleIffNewer(t: Turns, time: int)
    ensures IsStale(t, time) <==>
            time > 0 && (time < t.completed || time < t.current || exists o :: o in t.queue && time < o.time)
  {
    WatermarkIsMax(t);
  }

  /** What a receiver is told about its message: whether it is too old, whether the queue is full, or
      that it waits; being too old comes first. */
  lemma JudgeIff(t: Turns, m: Msg, cap: nat)
    ensures Judge(t, m, cap).Stale? <==>
            m.time > 0 && (m.time < t.completed || m.time < t.current || exists o :: o in t.queue && m.time < o.time)
    ensures !Judge(t, m, cap).Stale? ==> (Judge(t, m, cap).Full? <==> |t.queue| >= cap)
  {
    StaleIffNewer(t, m.time);
  }

  // ---- It does happen ----

  lemma RunCons(s: Sys, a: Action, rest: seq<Action>)
    requires Apply(s, a).Next?
    ensures Run(s, [a] + rest) == Run(Apply(s, a).s, rest)
  {
    hide Apply;
    assert ([a] + rest)[1..] == rest;
  }

  lemma RunOne(s: Sys, a: Action)
    requires Apply(s, a).Next?
    ensures Run(s, [a]) == Apply(s, a)
  {
    hide Apply;
    RunCons(s, a, []);
    assert [a] + [] == [a];
  }

  lemma {:induction false} RunAppend(s: Sys, a: seq<Action>, b: seq<Action>)
    requires Run(s, a).Next?
    ensures Run(s, a + b) == Run(Run(s, a).s, b)
    decreases |a|
  {
    hide Apply;
    if a == [] {
      assert a + b == b;
    } else {
      assert (a + b)[1..] == a[1..] + b;
      RunAppend(Apply(s, a[0]).s, a[1..], b);
    }
  }

  const A := Msg("a", 0)
  const B := Msg("b", 1)
  const C := Msg("c", 2)

  /** A message arrives at an idle session and its turn starts. */
  const FIRST := [Arrive(A), Advance(0), Advance(0), Advance(0), Advance(0)]

  function Queueing(m: Msg, i: nat): seq<Action> {
    [Arrive(m), Advance(i), Advance(i), Advance(i)]
  }

  lemma FirstRuns()
    ensures Run(Init(2), FIRST) == Next(Sys(2, true, Turns(0, 0, []), [Running], [], []))
  {
    var s := Init(2);
    var s1 := Apply(s, Arrive(A)).s;
    var s2 := Apply(s1, Advance(0)).s;
    var s3 := Apply(s2, Advance(0)).s;
    var s4 := Apply(s3, Advance(0)).s;
    assert s1.threads == [Arrived(A)] && s2.threads == [Trying(A)] && s3.threads == [Accepting(A)]
           && s4.threads == [Beginning(A)];
    RunOne(s4, Advance(0));
    RunCons(s3, Advance(0), [Advance(0)]);
    RunCons(s2, Advance(0), [Advance(0), Advance(0)]);
    RunCons(s1, Advance(0), [Advance(0), Advance(0), Advance(0)]);
    RunCons(s, Arrive(A), [Advance(0), Advance(0), Advance(0), Advance(0)]);
    assert FIRST == [Arrive(A)] + [Advance(0), Advance(0), Advance(0), Advance(0)];
    assert Apply(s4, Advance(0)).s.threads == [Running];
  }

  lemma QueuedIsFresh(t: Turns, m: Msg, cap: nat)
    requires Judge(t, m, cap).Queued?
    ensures !IsStale(t, m.time)
  {
  }

  /** A further message is queued behind a running turn. */
  lemma QueueingRuns(s: Sys, m: Msg)
    requires s.busy && Judge(s.turns, m, s.cap).Queued?
    ensures Run(s, Queueing(m, |s.threads|)) ==
            Next(s.(turns := Offer(s.turns, m, s.cap), threads := s.threads + [Retrying],
              log := s.log + [Entry(m, InQueue)]))
  {
    hide IsStale, Offer, Judge;
    QueuedIsFresh(s.turns, m, s.cap);
    var i := |s.threads|;
    var s1 := Apply(s, Arrive(m)).s;
    var s2 := Apply(s1, Advance(i)).s;
    var s3 := Apply(s2, Advance(i)).s;
    assert s1.threads == s.threads + [Arrived(m)];
    assert s2.threads == s.threads + [Trying(m)];
    assert s3.threads == s.threads + [Refused(m)];
    assert Apply(s3, Advance(i)).s.threads == s.threads + [Retrying];
    RunOne(s3, Advance(i));
    RunCons(s2, Advance(i), [Advance(i)]);
    RunCons(s1, Advance(i), [Advance(i), Advance(i)]);
    RunCons(s, Arrive(m), [Advance(i), Advance(i), Advance(i)]);
    assert Queueing(m, i) == [Arrive(m)] + [Advance(i), Advance(i), Advance(i)];
  }

  /** A message is accepted into the queue and never gets a turn, although nothing fails and nobody
      recalls it: a newer one was queued behind it. */
  lemma QueuedButPassedOver()
    ensures var acts := FIRST + Queueing(B, 1) + Queueing(C, 2) + [Advance(0), Advance(0)];
            Run(Init(2), acts).Next?
            && Run(Init(2), acts).s.log == [Entry(B, DroppedStale), Entry(C, Started)]
            && Run(Init(2), acts).s.started == [C]
  {
    hide Run;
    FirstRuns();
    var s1 := Run(Init(2), FIRST).s;
    QueueingRuns(s1, B);
    var s2 := Run(s1, Queueing(B, 1)).s;
    assert s2.turns == Turns(0, 0, [B]) && [B][1..] == [] && MaxTime([B], 0) == 1;
    QueueingRuns(s2, C);
    var s3 := Run(s2, Queueing(C, 2)).s;
    assert s3.turns == Turns(0, 0, [B, C]) && s3.log == [Entry(B, InQueue), Entry(C, InQueue)];
    LastTwo(s3);
    RunAppend(Init(2), FIRST, Queueing(B, 1));
    RunAppend(Init(2), FIRST + Queueing(B, 1), Queueing(C, 2));
    RunAppend(Init(2), FIRST + Queueing(B, 1) + Queueing(C, 2), [Advance(0), Advance(0)]);
  }

  lemma LastTwo(s: Sys)
    requires s.turns == Turns(0, 0, [B, C]) && s.log == [Entry(B, InQueue), Entry(C, InQueue)] && s.started == []
    requires |s.threads| == 3 && s.threads[0].Running?
    ensures Run(s, [Advance(0), Advance(0)]).Next?
    ensures var end := Run(s, [Advance(0), Advance(0)]).s;
            end.log == [Entry(B, DroppedStale), Entry(C, Started)] && end.started == [C]
  {
    hide Run;
    var s1 := Apply(s, Advance(0)).s;
    RunOne(s1, Advance(0));
    RunCons(s, Advance(0), [Advance(0)]);
    assert [Advance(0)] + [Advance(0)] == [Advance(0), Advance(0)];
    assert s1.turns == s.turns && s1.log == s.log;
    TakeBC(s1);
  }

  lemma TakeBC(s: Sys)
    requires s.turns == Turns(0, 0, [B, C]) && s.log == [Entry(B, InQueue), Entry(C, InQueue)] && s.started == []
    ensures Take(s).log == [Entry(B, DroppedStale), Entry(C, Started)] && Take(s).started == [C]
  {
    assert [B, C][1..] == [C] && [C][1..] == [];
    var t := s.turns;
    assert MaxTime([C], 1) == 2 && MaxTime([B, C], 0) == 2 && Watermark(t) == 2;
    assert MaxTime([C], 0) == 2;
    assert !IsStale(Turns(0, 0, [C]), 2);
    assert DropStale(Turns(0, 0, [C])) == Turns(0, 0, [C]);
    assert DropStale(t) == Turns(0, 0, [C]);
    var log := s.log;
    assert log[1..] == [Entry(C, InQueue)];
    assert Leave(log[1..], 0, DroppedStale) == log[1..];
    var mid := Leave(log, 1, DroppedStale);
    assert mid == [Entry(B, DroppedStale), Entry(C, InQueue)];
    assert mid[1..] == [Entry(C, InQueue)] && mid[1..][1..] == [];
    assert Leave(mid[1..], 1, Started) == [Entry(C, Started)];
    assert Leave(mid, 1, Started) == [Entry(B, DroppedStale), Entry(C, Started)];
  }
}
