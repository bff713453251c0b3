/** What a turn's create time does to the judgement of other messages, over whole runs. */
module TurnTimes {
  import opened TurnState
  import opened QueueHistory
  import opened TurnProtocol
  import opened Wrappers

  // ---- A turn under way or finished makes every older message stale ----

  predicate AllOlderStale(t: Turns, time: int) {
    forall u :: 0 < u < time ==> IsStale(t, u)
  }

  lemma OlderIsStale(t: Turns, time: int)
    requires time <= t.completed || time <= t.current || exists o :: o in t.queue && time <= o.time
    ensures AllOlderStale(t, time)
  {
    WatermarkIsMax(t);
  }

  /** The thread has accepted the message for a turn, or its turn is in flight. */
  predicate InTurn(s: Sys, i: nat, m: Msg) {
    i < |s.threads| && (s.threads[i] == Beginning(m) || s.threads[i].Running?)
  }

  predicate StaysInTurn(s: Sys, acts: seq<Action>, i: nat, m: Msg)
    requires Run(s, acts).Next?
    decreases |acts|
  {
    InTurn(s, i, m) && (acts == [] || StaysInTurn(Apply(s, acts[0]).s, acts[1..], i, m))
  }

  /** The next step of the thread is one by which it begins to deal with the message: it accepts it,
      sends it, or takes it from the queue. */
  predicate TakesUp(s: Sys, i: nat, m: Msg) {
    && i < |s.threads| && Step(s, i).Next? && InTurn(Step(s, i).s, i, m)
    && (s.threads[i] in {Accepting(m), Beginning(m)} || Step(s, i).s.started == s.started + [m])
  }

  lemma TakesUpSetsTime(s: Sys, i: nat, m: Msg)
    requires TakesUp(s, i, m)
    ensures m.time > 0 ==> Step(s, i).s.turns.current >= m.time
  {
    hide IsStale, DropStale, Leave, Judge, Offer;
    var s' := Step(s, i).s;
    if s.threads[i].AfterResult? || s.threads[i].Draining? {
      assert s'.started[|s'.started| - 1] == m;
    } else {
      assert |s'.started| == |s.started|;
    }
  }

  lemma TurnKeepsTime(s: Sys, a: Action, i: nat, m: Msg)
    requires Inv(s) && Apply(s, a).Next? && InTurn(s, i, m) && InTurn(Apply(s, a).s, i, m)
    requires m.time > 0 && s.turns.current >= m.time
    ensures Apply(s, a).s.turns.current >= m.time
  {
    hide Consistent, IsStale, DropStale, Leave, RecallId, Judge, TimedAscending, Total;
    if a.Advance? {
      TotalAtLeast(s.threads, i, OwnerWeight);
      if a.i != i {
        assert OwnerWeight(s.threads[i]) + OwnerWeight(s.threads[a.i]) <= 1;
      }
    }
  }

  lemma {:induction false} TurnGuards(s: Sys, acts: seq<Action>, i: nat, m: Msg)
    requires Inv(s) && Run(s, acts).Next? && StaysInTurn(s, acts, i, m)
    requires m.time > 0 && s.turns.current >= m.time
    ensures Run(s, acts).s.turns.current >= m.time && InTurn(Run(s, acts).s, i, m)
    decreases |acts|
  {
    hide Inv, Apply, InTurn;
    if acts != [] {
      var next := Apply(s, acts[0]).s;
      StepKeepsInv(s, acts[0]);
      assert InTurn(next, i, m);
      TurnKeepsTime(s, acts[0], i, m);
      TurnGuards(next, acts[1..], i, m);
    }
  }

  /** From the step by which a thread takes up a message, and for as long as it deals with it, every
      older message is stale. */
  lemma TurnMakesOlderStale(cap: nat, before: seq<Action>, i: nat, m: Msg, during: seq<Action>)
    requires Run(Init(cap), before).Next? && TakesUp(Run(Init(cap), before).s, i, m)
    requires var s := Step(Run(Init(cap), before).s, i).s; Run(s, during).Next? && StaysInTurn(s, during, i, m)
    ensures AllOlderStale(Run(Step(Run(Init(cap), before).s, i).s, during).s.turns, m.time)
  {
    hide Run, StaysInTurn, AllOlderStale, Inv, Step;
    var s := Run(Init(cap), before).s;
    if m.time > 0 {
      ReachableInv(cap, before);
      TakesUpSetsTime(s, i, m);
      assert Apply(s, Advance(i)) == Step(s, i);
      StepKeepsInv(s, Advance(i));
      TurnGuards(Step(s, i).s, during, i, m);
      OlderIsStale(Run(Step(s, i).s, during).s.turns, m.time);
    } else {
      NothingOlder(Run(Step(s, i).s, during).s.turns, m.time);
    }
  }

  lemma NothingOlder(t: Turns, time: int)
    requires time <= 0
    ensures AllOlderStale(t, time)
  {
  }

  /** The result of a turn with a create time arrives. */
  lemma ResultCounts(s: Sys, i: nat)
    requires i < |s.threads| && s.threads[i].Running? && s.turns.current > 0
    ensures Step(s, i).Next? && s.turns.current <= Step(s, i).s.turns.completed
  {
  }

  /** Once a turn has got its result, every message older than the one it was for is stale for good. */
  lemma FinishedMakesOlderStale(cap: nat, before: seq<Action>, i: nat, m: Msg, during: seq<Action>, after: seq<Action>)
    requires Run(Init(cap), before).Next? && TakesUp(Run(Init(cap), before).s, i, m)
    requires var s := Step(Run(Init(cap), before).s, i).s; Run(s, during).Next? && StaysInTurn(s, during, i, m)
    requires var s := Run(Step(Run(Init(cap), before).s, i).s, during).s;
             && i < |s.threads| && s.threads[i].Running?
             && Step(s, i).Next? && Run(Step(s, i).s, after).Next?
    ensures var s := Run(Step(Run(Init(cap), before).s, i).s, during).s;
            var end := Run(Step(s, i).s, after).s.turns;
            (m.time > 0 ==> m.time <= end.completed) && AllOlderStale(end, m.time)
  {
    hide Run, StaysInTurn, AllOlderStale, Inv, Step, TakesUp;
    var s0 := Run(Init(cap), before).s;
    var s1 := TakenUp(cap, before, i, m);
    var s2 := Run(s1, during).s;
    var s3 := Step(s2, i).s;
    if m.time > 0 {
      TurnGuards(s1, during, i, m);
      RunKeepsInv(s1, during);
      ResultCounts(s2, i);
      assert Apply(s2, Advance(i)) == Step(s2, i);
      StepKeepsInv(s2, Advance(i));
      FatesAreFinal(s3, after);
      OlderIsStale(Run(s3, after).s.turns, m.time);
    } else {
      NothingOlder(Run(s3, after).s.turns, m.time);
    }
  }

  lemma TakenUp(cap: nat, before: seq<Action>, i: nat, m: Msg) returns (s: Sys)
    requires Run(Init(cap), before).Next? && TakesUp(Run(Init(cap), before).s, i, m)
    ensures s == Step(Run(Init(cap), before).s, i).s && Inv(s) && (m.time > 0 ==> s.turns.current >= m.time)
  {
    hide Run, Inv, Step;
    var s0 := Run(Init(cap), before).s;
    ReachableInv(cap, before);
    TakesUpSetsTime(s0, i, m);
    assert Apply(s0, Advance(i)) == Step(s0, i);
    StepKeepsInv(s0, Advance(i));
    s := Step(s0, i).s;
  }

  // ---- Nothing else makes a message stale ----

  /** The create time of a message that arrived. */
  predicate Sent(acts: seq<Action>, time: int) {
    exists k :: 0 <= k < |acts| && acts[k].Arrive? && acts[k].m.time == time
  }

  function Carried(pc: Pc): Option<Msg> {
    match pc
    case Arrived(m) => Some(m)
    case Trying(m) => Some(m)
    case Refused(m) => Some(m)
    case Waiting(m) => Some(m)
    case Accepting(m) => Some(m)
    case Beginning(m) => Some(m)
    case _ => None
  }

  ghost predicate AllSent(s: Sys, sent: int -> bool) {
    && (forall i :: 0 <= i < |s.threads| && Carried(s.threads[i]).Some? ==> sent(Carried(s.threads[i]).value.time))
    && (forall m :: m in s.turns.queue ==> sent(m.time))
    && (s.turns.current > 0 ==> sent(s.turns.current))
    && (s.turns.completed > 0 ==> sent(s.turns.completed))
  }

  lemma DropStaleKeeps(t: Turns)
    ensures forall m :: m in DropStale(t).queue ==> m in t.queue
  {
    DropStaleIsSuffix(t);
  }

  lemma TakeSent(s: Sys, sent: int -> bool)
    requires AllSent(s, sent)
    ensures AllSent(Take(s), sent)
  {
    hide IsStale, DropStale, Leave, Carried;
    DropStaleKeeps(s.turns);
    TakeFrame(s);
  }

  lemma AdvanceSent(s: Sys, i: nat, sent: int -> bool)
    requires i < |s.threads| && Step(s, i).Next? && AllSent(s, sent)
    ensures AllSent(Step(s, i).s, sent)
  {
    hide IsStale, Leave, Judge, PopNext, Take;
    var pc := s.threads[i];
    assert Carried(pc).Some? ==> sent(Carried(pc).value.time);
    if pc.AfterResult? || pc.Draining? {
      TakeSent(s, sent);
      TakeFrame(s);
    }
  }

  lemma StepSent(s: Sys, a: Action, sent: int -> bool)
    requires Apply(s, a).Next? && AllSent(s, sent) && (a.Arrive? ==> sent(a.m.time))
    ensures AllSent(Apply(s, a).s, sent)
  {
    hide Step, Leave, RecallId, Without;
    match a
    case Recall(id) => WithoutIsFilter(s.turns.queue, id);
    case Advance(i) => AdvanceSent(s, i, sent);
    case StopRecalled(i) => assert Carried(s.threads[i]).Some? ==> sent(Carried(s.threads[i]).value.time);
    case _ =>
  }

  lemma {:induction false} RunSent(s: Sys, acts: seq<Action>, sent: int -> bool)
    requires Run(s, acts).Next? && AllSent(s, sent)
    requires forall k :: 0 <= k < |acts| && acts[k].Arrive? ==> sent(acts[k].m.time)
    ensures AllSent(Run(s, acts).s, sent)
    decreases |acts|
  {
    hide Apply, AllSent;
    if acts != [] {
      StepSent(s, acts[0], sent);
      RunSent(Apply(s, acts[0]).s, acts[1..], sent);
    }
  }

  /** In every run, a message is judged stale only if a newer one arrived. */
  lemma StaleOnlyBehindNewer(cap: nat, acts: seq<Action>, time: int) returns (k: nat)
    requires Run(Init(cap), acts).Next? && IsStale(Run(Init(cap), acts).s.turns, time)
    ensures k < |acts| && acts[k].Arrive? && time < acts[k].m.time
  {
    hide Run;
    var t := Run(Init(cap), acts).s.turns;
    RunSent(Init(cap), acts, u => Sent(acts, u));
    WatermarkIsMax(t);
    var wm := Watermark(t);
    assert Sent(acts, wm);
    k :| 0 <= k < |acts| && acts[k].Arrive? && acts[k].m.time == wm;
  }

  // ---- Who gets through ----

  /** A step that neither begins a turn nor empties or shortens the queue leaves what is stale stale. */
  lemma StaleStays(s: Sys, i: nat, time: int)
    requires i < |s.threads| && Step(s, i).Next? && IsStale(s.turns, time)
    requires !s.threads[i].Beginning? && !s.threads[i].AfterResult? && !s.threads[i].Draining?
    ensures IsStale(Step(s, i).s.turns, time)
  {
    hide Judge, IsStale, Watermark;
    StaleBy(s.turns, time);
    var t := Step(s, i).s.turns;
    StaleBy(t, time);
    if k :| 0 <= k < |s.turns.queue| && time < s.turns.queue[k].time {
      assert t.queue[k] == s.turns.queue[k];
    }
  }

  predicate Newer(t: Turns, time: int) {
    time < t.completed || time < t.current || exists k :: 0 <= k < |t.queue| && time < t.queue[k].time
  }

  lemma StaleBy(t: Turns, time: int)
    ensures IsStale(t, time) <==> time > 0 && Newer(t, time)
  {
    WatermarkIsMax(t);
  }

  /** A message that waits in the queue was not stale when it was queued, and there was room. */
  lemma QueuedWasFresh(s: Sys, a: Action, m: Msg)
    requires Apply(s, a).Next? && Apply(s, a).s.log == s.log + [Entry(m, InQueue)]
    ensures !IsStale(s.turns, m.time) && |s.turns.queue| < s.cap
    ensures Apply(s, a).s.turns == s.turns.(queue := s.turns.queue + [m])
  {
    hide IsStale, DropStale, RecallId;
    var log := Apply(s, a).s.log;
    assert |log| == |s.log| + 1 && log[|s.log|] == Entry(m, InQueue);
    if a.Advance? && s.threads[a.i].Refused? {
      var m' := s.threads[a.i].m;
      assert (s.log + [Entry(m', InQueue)])[|s.log|] == Entry(m', InQueue);
    }
  }

  /** The thread holds the message after its first check. */
  predicate Passed(pc: Pc, m: Msg) {
    pc in {Trying(m), Refused(m), Waiting(m), Accepting(m), Beginning(m)}
  }

  /** How the thread got there. */
  predicate PassedBy(s: Sys, a: Action, i: nat, m: Msg) {
    && i < |s.threads|
    && (Passed(s.threads[i], m) || (s.threads[i] == Arrived(m) && a == Advance(i) && !IsStale(s.turns, m.time)))
  }

  lemma PassedAdvance(s: Sys, j: nat, i: nat, m: Msg)
    requires j < |s.threads| && Step(s, j).Next?
    requires i < |Step(s, j).s.threads| && Passed(Step(s, j).s.threads[i], m)
    ensures PassedBy(s, Advance(j), i, m)
  {
    hide IsStale, Take, PopNext, Judge, Offer;
    TakeFrame(s);
  }

  lemma PassedStep(s: Sys, a: Action, i: nat, m: Msg)
    requires Apply(s, a).Next? && i < |Apply(s, a).s.threads| && Passed(Apply(s, a).s.threads[i], m)
    ensures PassedBy(s, a, i, m)
  {
    hide IsStale, Step, Leave, RecallId, Without;
    if a.Advance? {
      PassedAdvance(s, a.i, i, m);
    }
  }

  lemma {:induction false} RunSnoc(s: Sys, acts: seq<Action>, a: Action)
    requires Run(s, acts).Next?
    ensures Run(s, acts + [a]) == Apply(Run(s, acts).s, a)
    decreases |acts|
  {
    hide Apply;
    if acts == [] {
      assert acts + [a] == [a] && [a][1..] == [];
    } else {
      assert (acts + [a])[0] == acts[0] && (acts + [a])[1..] == acts[1..] + [a];
      RunSnoc(Apply(s, acts[0]).s, acts[1..], a);
    }
  }

  lemma {:induction false} RunPrefix(s: Sys, acts: seq<Action>, n: nat)
    requires Run(s, acts).Next? && n <= |acts|
    ensures Run(s, acts[..n]).Next?
    decreases |acts|
  {
    hide Apply;
    if n > 0 {
      assert acts[..n][1..] == acts[1..][..n - 1];
      RunPrefix(Apply(s, acts[0]).s, acts[1..], n - 1);
    }
  }

  /** In every run: a receiver that tries for a turn was not stale when it arrived. */
  lemma {:induction false} TurnWasFresh(cap: nat, acts: seq<Action>, i: nat, m: Msg) returns (k: nat)
    requires Run(Init(cap), acts).Next? && i < |Run(Init(cap), acts).s.threads|
    requires Passed(Run(Init(cap), acts).s.threads[i], m)
    ensures k < |acts| && acts[k] == Advance(i) && Run(Init(cap), acts[..k]).Next?
    ensures var s := Run(Init(cap), acts[..k]).s;
            i < |s.threads| && s.threads[i] == Arrived(m) && !IsStale(s.turns, m.time)
    decreases |acts|
  {
    hide Run, Apply, IsStale, Passed;
    if acts == [] {
      assert Run(Init(cap), acts) == Next(Init(cap)) by { RunNothing(cap); }
    } else {
      var n := |acts| - 1;
      var before, a := acts[..n], acts[n];
      assert acts == before + [a];
      RunPrefix(Init(cap), acts, n);
      RunSnoc(Init(cap), before, a);
      PassedStep(Run(Init(cap), before).s, a, i, m);
      if Passed(Run(Init(cap), before).s.threads[i], m) {
        k := TurnWasFresh(cap, before, i, m);
        assert before[..k] == acts[..k];
      } else {
        k := n;
      }
    }
  }

  lemma RunNothing(cap: nat)
    ensures Run(Init(cap), []) == Next(Init(cap))
  {
  }
}
