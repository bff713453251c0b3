/** The race between message receivers and the single turn owner of one session, one atomic
    step at a time. Every step is one critical section of the code, or one TryLock. */
module TurnProtocol {
  import opened TurnState
  import opened QueueHistory

  /** Where a thread is. The first six are a receiver in handleMessage; the rest own the session. */
  datatype Pc =
    | Arrived(m: Msg)      // before the stale check
    | Trying(m: Msg)       // before the first TryLock
    | Refused(m: Msg)      // that TryLock failed
    | Waiting(m: Msg)      // stopped the recalled turn, polling for the lock
    | Retrying             // queued its message or was refused, before the second TryLock
    | Done
    | Accepting(m: Msg)    // holds the lock, before noteUserMessageAccepted
    | Beginning(m: Msg)    // before the turn fields are set and the prompt is sent
    | Running              // a turn is in flight
    | AfterResult          // the turn's result arrived, before the queue is looked at
    | Draining             // at the head of drainPendingMessages

  datatype Sys = Sys(cap: nat, busy: bool, turns: Turns, threads: seq<Pc>, started: seq<Msg>, log: seq<Entry>)

  datatype Action =
    | Arrive(m: Msg)
    | Advance(i: nat)
    | StopRecalled(i: nat) // the running message was recalled: the refused receiver stops it silently
    | GiveUp(i: nat)       // the wait for the lock is over, or there is no live state to queue on
    | Abort(i: nat)        // the turn ends without a result, the agent stays alive
    | DropWithNotice
    | DropSilently
    | Recall(id: string)

  datatype Next = Disabled | Next(s: Sys)

  function Init(cap: nat): Sys {
    Sys(cap, false, Turns(0, 0, []), [], [], [])
  }

  predicate OwnsSession(pc: Pc) {
    pc.Accepting? || pc.Beginning? || pc.Running? || pc.AfterResult? || pc.Draining?
  }

  function Goto(s: Sys, i: nat, pc: Pc): Sys
    requires i < |s.threads|
  {
    s.(threads := s.threads[i := pc])
  }

  /** The queue is emptied and every sender's message gets this fate. */
  function Empty(s: Sys, fate: Fate): Sys {
    s.(turns := s.turns.(queue := []), log := Leave(s.log, |s.turns.queue|, fate))
  }

  /** Drop stale heads and take the next message, with the log kept in step. */
  function Take(s: Sys): Sys {
    var d := DropStale(s.turns);
    var log := Leave(s.log, |s.turns.queue| - |d.queue|, DroppedStale);
    var (t, next) := PopNext(s.turns);
    if next.Nothing? then s.(turns := t, log := log)
    else s.(turns := t, log := Leave(log, 1, Started), started := s.started + [next.msg])
  }

  function Step(s: Sys, i: nat): Next
    requires i < |s.threads|
  {
    match s.threads[i]
    case Arrived(m) => Next(Goto(s, i, if IsStale(s.turns, m.time) then Done else Trying(m)))
    case Trying(m) => Next(if s.busy then Goto(s, i, Refused(m)) else Goto(s.(busy := true), i, Accepting(m)))
    case Refused(m) =>
      if Judge(s.turns, m, s.cap).Queued? then
        Next(Goto(s.(turns := Offer(s.turns, m, s.cap), log := s.log + [Entry(m, InQueue)]), i, Retrying))
      else Next(Goto(s, i, Retrying))
    case Waiting(m) => if s.busy then Disabled else Next(Goto(s.(busy := true), i, Accepting(m)))
    case Retrying => Next(if s.busy then Goto(s, i, Done) else Goto(s.(busy := true), i, Draining))
    case Done => Disabled
    case Accepting(m) => Next(Goto(s.(turns := NoteAccepted(s.turns, m.time)), i, Beginning(m)))
    case Beginning(m) => Next(Goto(s.(turns := s.turns.(current := m.time)), i, Running))
    case Running => Next(Goto(s.(turns := NoteCompleted(s.turns)), i, AfterResult))
    case AfterResult => Next(Goto(Take(s), i, if PopNext(s.turns).1.Popped? then Running else Draining))
    case Draining =>
      if PopNext(s.turns).1.Popped? then Next(Goto(Take(s), i, Running))
      else Next(Goto(Take(s).(busy := false), i, Done))
  }

  function Apply(s: Sys, a: Action): Next {
    match a
    case Arrive(m) => Next(s.(threads := s.threads + [Arrived(m)]))
    case Advance(i) => if i < |s.threads| then Step(s, i) else Disabled
    case StopRecalled(i) =>
      if i < |s.threads| && s.threads[i].Refused? then Next(Goto(Empty(s, Cleared), i, Waiting(s.threads[i].m)))
        else Disabled
    case GiveUp(i) =>
      if i < |s.threads| && (s.threads[i].Waiting? || s.threads[i].Refused?) then Next(Goto(s, i, Done)) else Disabled
    case Abort(i) => if i < |s.threads| && s.threads[i].Running? then Next(Goto(s, i, Draining)) else Disabled
    case DropWithNotice => if s.turns.queue == [] then Disabled else Next(Empty(s, DroppedWithNotice))
    case DropSilently => if s.turns.queue == [] then Disabled else Next(Empty(s, Cleared))
    case Recall(id) =>
      if Without(s.turns.queue, id) == s.turns.queue then Disabled
      else Next(s.(turns := s.turns.(queue := Without(s.turns.queue, id)), log := RecallId(s.log, id)))
  }

  /** The state after a list of actions, each of them enabled. */
  function Run(s: Sys, acts: seq<Action>): Next
    decreases |acts|
  {
    if acts == [] then Next(s)
    else
      var n := Apply(s, acts[0]);
      if n.Disabled? then Disabled else Run(n.s, acts[1..])
  }

  function Total(threads: seq<Pc>, weight: Pc -> nat): nat {
    if threads == [] then 0 else weight(threads[0]) + Total(threads[1..], weight)
  }

  function OwnerWeight(pc: Pc): nat {
    if OwnsSession(pc) then 1 else 0
  }

  /** What every step keeps. */
  predicate Inv(s: Sys) {
    // one turn at a time: the lock is held exactly when one thread, and only one, owns the session
    && Total(s.threads, OwnerWeight) == (if s.busy then 1 else 0)
    // no lost wakeup
    && (!s.busy && s.turns.queue != [] ==> Retrying in s.threads)
    // the queue is bounded, and its timed messages are in order of their times
    && |s.turns.queue| <= s.cap && TimedAscending(s.turns.queue)
    // conservation and order of queued messages
    && Consistent(s.turns.queue, s.started, s.log)
  }

  lemma {:induction false} TotalUpdate(threads: seq<Pc>, i: nat, pc: Pc, weight: Pc -> nat)
    requires i < |threads|
    ensures Total(threads[i := pc], weight) + weight(threads[i]) == Total(threads, weight) + weight(pc)
  {
    if i == 0 {
      assert threads[0 := pc][1..] == threads[1..];
    } else {
      assert threads[i := pc][1..] == threads[1..][i - 1 := pc];
      TotalUpdate(threads[1..], i - 1, pc, weight);
    }
  }

  lemma {:induction false} TotalAppend(threads: seq<Pc>, pc: Pc, weight: Pc -> nat)
    ensures Total(threads + [pc], weight) == Total(threads, weight) + weight(pc)
  {
    if threads != [] {
      assert (threads + [pc])[1..] == threads[1..] + [pc];
      TotalAppend(threads[1..], pc, weight);
    }
  }

  lemma {:induction false} TotalAtLeast(threads: seq<Pc>, i: nat, weight: Pc -> nat)
    requires i < |threads|
    ensures weight(threads[i]) <= Total(threads, weight)
    ensures forall j: nat :: j < |threads| && j != i ==>
            weight(threads[i]) + weight(threads[j]) <= Total(threads, weight)
  {
    if i == 0 {
      forall j: nat | j < |threads| && j != i
        ensures weight(threads[i]) + weight(threads[j]) <= Total(threads, weight)
      {
        TotalAtLeast(threads[1..], j - 1, weight);
      }
    } else {
      TotalAtLeast(threads[1..], i - 1, weight);
      forall j: nat | j < |threads| && j != i
        ensures weight(threads[i]) + weight(threads[j]) <= Total(threads, weight)
      {
        if j > 0 {
          assert threads[1..][j - 1] == threads[j];
        }
      }
    }
  }

  // ---- Every step keeps the invariant ----

  lemma RetryingStays(threads: seq<Pc>, i: nat, pc: Pc)
    requires i < |threads| && Retrying in threads && !threads[i].Retrying?
    ensures Retrying in threads[i := pc]
  {
    var k :| 0 <= k < |threads| && threads[k] == Retrying;
    assert threads[i := pc][k] == Retrying;
  }

  lemma TakeKeeps(s: Sys)
    requires |s.turns.queue| <= s.cap && TimedAscending(s.turns.queue) && Consistent(s.turns.queue, s.started, s.log)
    ensures var s' := Take(s);
            && |s'.turns.queue| <= s.cap && TimedAscending(s'.turns.queue)
            && Consistent(s'.turns.queue, s'.started, s'.log) && Extends(s.log, s'.log)
            && (PopNext(s.turns).1.Nothing? ==> s'.turns.queue == [])
  {
    hide Consistent, IsStale, TimedAscending, Extends;
    var d := DropStale(s.turns);
    var k := |s.turns.queue| - |d.queue|;
    PopKeepsAscending(s.turns);
    DropStaleIsSuffix(s.turns);
    LeaveConsistent(s.turns.queue, s.started, s.log, k, DroppedStale);
    if d.queue != [] {
      StartConsistent(d.queue, s.started, Leave(s.log, k, DroppedStale));
      ExtendsTransitive(s.log, Leave(s.log, k, DroppedStale), Take(s).log);
    }
  }

  lemma EmptyKeeps(s: Sys, fate: Fate)
    requires Consistent(s.turns.queue, s.started, s.log) && !fate.InQueue? && !fate.Started?
    ensures Consistent([], s.started, Empty(s, fate).log) && Extends(s.log, Empty(s, fate).log)
  {
    LeaveConsistent(s.turns.queue, s.started, s.log, |s.turns.queue|, fate);
    assert s.turns.queue[|s.turns.queue|..] == [];
  }

  /** The part of the invariant about the queue alone. */
  predicate QueueInv(s: Sys) {
    |s.turns.queue| <= s.cap && TimedAscending(s.turns.queue) && Consistent(s.turns.queue, s.started, s.log)
  }

  lemma QueueStep(s: Sys, a: Action)
    requires QueueInv(s) && Apply(s, a).Next?
    ensures QueueInv(Apply(s, a).s) && Apply(s, a).s.cap == s.cap
    ensures Extends(s.log, Apply(s, a).s.log) && s.turns.completed <= Apply(s, a).s.turns.completed
    ensures s.started <= Apply(s, a).s.started
  {
    hide Consistent, IsStale, OfFate, Leave, RecallId, DropStale, Without, Judge, Offer;
    match a
    case Advance(i) =>
      if s.threads[i].Refused? {
        OfferKeeps(s, s.threads[i].m);
      } else if s.threads[i].AfterResult? || s.threads[i].Draining? {
        TakeKeeps(s);
        TakeKeepsTimes(s);
      }
    case StopRecalled(i) => EmptyKeeps(s, Cleared);
    case DropWithNotice => EmptyKeeps(s, DroppedWithNotice);
    case DropSilently => EmptyKeeps(s, Cleared);
    case Recall(id) =>
      RecallConsistent(s.turns.queue, s.started, s.log, id);
      WithoutKeepsAscending(s.turns.queue, id);
    case _ =>
  }

  lemma TakeKeepsTimes(s: Sys)
    ensures Take(s).turns.completed == s.turns.completed && Take(s).cap == s.cap && s.started <= Take(s).started
  {
  }

  lemma OfferKeeps(s: Sys, m: Msg)
    requires QueueInv(s)
    ensures var t := Offer(s.turns, m, s.cap);
            && t.completed == s.turns.completed
            && |t.queue| <= s.cap && TimedAscending(t.queue)
            && (Judge(s.turns, m, s.cap).Queued? ==>
                  && Consistent(t.queue, s.started, s.log + [Entry(m, InQueue)])
                  && Extends(s.log, s.log + [Entry(m, InQueue)]))
  {
    hide Consistent, IsStale, Extends;
    OfferKeepsAscending(s.turns, m, s.cap);
    EnqueueConsistent(s.turns.queue, s.started, s.log, m);
  }

  lemma LockStep(s: Sys, a: Action)
    requires Inv(s) && Apply(s, a).Next?
    ensures var s' := Apply(s, a).s;
            && Total(s'.threads, OwnerWeight) == (if s'.busy then 1 else 0)
            && (!s'.busy && s'.turns.queue != [] ==> Retrying in s'.threads)
  {
    hide Consistent, IsStale, OfFate, Leave, RecallId, DropStale, TimedAscending, Judge, PopNext;
    var s' := Apply(s, a).s;
    match a
    case Arrive(m) => TotalAppend(s.threads, Arrived(m), OwnerWeight);
    case Advance(i) => AdvanceLock(s, i);
    case StopRecalled(i) => TotalUpdate(s.threads, i, Waiting(s.threads[i].m), OwnerWeight);
    case GiveUp(i) =>
      TotalUpdate(s.threads, i, Done, OwnerWeight);
      if Retrying in s.threads {
        RetryingStays(s.threads, i, Done);
      }
    case Abort(i) =>
      TotalUpdate(s.threads, i, Draining, OwnerWeight);
      TotalAtLeast(s.threads, i, OwnerWeight);
    case _ =>
  }

  lemma TakeFrame(s: Sys)
    ensures Take(s).threads == s.threads && Take(s).busy == s.busy
  {
  }

  lemma AdvanceLock(s: Sys, i: nat)
    requires Inv(s) && i < |s.threads| && Step(s, i).Next?
    ensures var s' := Step(s, i).s;
            && Total(s'.threads, OwnerWeight) == (if s'.busy then 1 else 0)
            && (!s'.busy && s'.turns.queue != [] ==> Retrying in s'.threads)
  {
    hide Consistent, IsStale, Leave, TimedAscending, Judge, Offer, Take, PopNext, Extends, Total;
    var s' := Step(s, i).s;
    TakeFrame(s);
    assert s'.threads == s.threads[i := s'.threads[i]];
    TotalUpdate(s.threads, i, s'.threads[i], OwnerWeight);
    if OwnsSession(s.threads[i]) {
      TotalAtLeast(s.threads, i, OwnerWeight);
    }
    if s.threads[i].Draining? {
      TakeKeeps(s);
    }
    if Retrying in s.threads && !s.threads[i].Retrying? {
      RetryingStays(s.threads, i, s'.threads[i]);
    }
    if s'.threads[i].Retrying? {
      assert s'.threads[i] in s'.threads;
    }
  }

  lemma StepKeepsInv(s: Sys, a: Action)
    requires Inv(s) && Apply(s, a).Next?
    ensures Inv(Apply(s, a).s)
  {
    hide Consistent, TimedAscending, Apply, Total;
    LockStep(s, a);
    QueueStep(s, a);
  }

  /** Safety over whole runs: from an idle session, any interleaving of any number of receivers,
      turn results, aborts, recalls and clears keeps all of it. */
  lemma {:induction false} RunKeepsInv(s: Sys, acts: seq<Action>)
    requires Inv(s) && Run(s, acts).Next?
    ensures Inv(Run(s, acts).s)
    decreases |acts|
  {
    hide Inv, Apply;
    if acts != [] {
      StepKeepsInv(s, acts[0]);
      RunKeepsInv(Apply(s, acts[0]).s, acts[1..]);
    }
  }

  lemma ReachableInv(cap: nat, acts: seq<Action>)
    requires Run(Init(cap), acts).Next?
    ensures Inv(Run(Init(cap), acts).s)
  {
    RunKeepsInv(Init(cap), acts);
  }

  /** No lost wakeup: a queue left behind by an unlocked session is always about to be picked up
      by a receiver that has queued its message and not yet tried the lock again. */
  lemma NoLostWakeup(cap: nat, acts: seq<Action>)
    requires Run(Init(cap), acts).Next?
    requires var s := Run(Init(cap), acts).s; !s.busy && s.turns.queue != []
    ensures exists i :: 0 <= i < |Run(Init(cap), acts).s.threads| && Run(Init(cap), acts).s.threads[i] == Retrying
  {
    hide Run;
    ReachableInv(cap, acts);
  }

  /** Two threads never own the session at the same time. */
  lemma OneOwner(cap: nat, acts: seq<Action>, i: nat, j: nat)
    requires Run(Init(cap), acts).Next?
    requires var ts := Run(Init(cap), acts).s.threads; i < |ts| && j < |ts| && OwnsSession(ts[i]) && OwnsSession(ts[j])
    ensures i == j
  {
    hide Run;
    ReachableInv(cap, acts);
    TotalAtLeast(Run(Init(cap), acts).s.threads, i, OwnerWeight);
  }

  predicate Quiescent(s: Sys) {
    forall i :: 0 <= i < |s.threads| ==> s.threads[i].Done?
  }

  lemma {:induction false} NoOwners(threads: seq<Pc>)
    requires forall i :: 0 <= i < |threads| ==> threads[i].Done?
    ensures Total(threads, OwnerWeight) == 0
  {
    if threads != [] {
      NoOwners(threads[1..]);
    }
  }

  /** When every receiver has returned, the session is unlocked, its queue is empty, and no
      message is left without a final fate. */
  lemma QuiescentIsDrained(cap: nat, acts: seq<Action>)
    requires Run(Init(cap), acts).Next? && Quiescent(Run(Init(cap), acts).s)
    ensures var s := Run(Init(cap), acts).s;
            !s.busy && s.turns.queue == [] && OfFate(s.log, InQueue) == []
  {
    hide Run;
    ReachableInv(cap, acts);
    NoOwners(Run(Init(cap), acts).s.threads);
  }

  /** Queued messages start in the order they were queued, and each is somewhere exactly once. */
  lemma TurnsInQueueOrder(cap: nat, acts: seq<Action>)
    requires Run(Init(cap), acts).Next?
    ensures var s := Run(Init(cap), acts).s;
            && s.started == OfFate(s.log, Started)
            && s.turns.queue == OfFate(s.log, InQueue)
            && |s.turns.queue| <= cap
            && NoOvertaking(s.log)
  {
    hide Run;
    ReachableInv(cap, acts);
    RunKeepsCap(Init(cap), acts);
  }

  lemma {:induction false} RunKeepsCap(s: Sys, acts: seq<Action>)
    requires Inv(s) && Run(s, acts).Next?
    ensures Run(s, acts).s.cap == s.cap
    decreases |acts|
  {
    hide Apply, Inv;
    if acts != [] {
      StepKeepsInv(s, acts[0]);
      InvGivesQueueInv(s);
      QueueStep(s, acts[0]);
      RunKeepsCap(Apply(s, acts[0]).s, acts[1..]);
    }
  }

  lemma InvGivesQueueInv(s: Sys)
    requires Inv(s)
    ensures QueueInv(s)
  {
  }

  /** Along a run a fate never changes once it is final, a started turn stays started, and the
      completed watermark never decreases. */
  lemma {:induction false} FatesAreFinal(s: Sys, acts: seq<Action>)
    requires Inv(s) && Run(s, acts).Next?
    ensures var s' := Run(s, acts).s;
            Extends(s.log, s'.log) && s.started <= s'.started && s.turns.completed <= s'.turns.completed
    decreases |acts|
  {
    hide Apply, Inv, Extends;
    if acts == [] {
      ExtendsReflexive(s.log);
    } else {
      var mid := Apply(s, acts[0]).s;
      StepKeepsInv(s, acts[0]);
      InvGivesQueueInv(s);
      QueueStep(s, acts[0]);
      FatesAreFinal(mid, acts[1..]);
      ExtendsTransitive(s.log, mid.log, Run(mid, acts[1..]).s.log);
    }
  }

  lemma ExtendsReflexive(log: seq<Entry>)
    ensures Extends(log, log)
  {
  }

  // ---- Progress: without new arrivals, everything queued is dealt with in boundedly many steps ----

  function Work(pc: Pc): nat {
    match pc
    case Arrived(_) => 9
    case Trying(_) => 8
    case Refused(_) => 7
    case Waiting(_) => 6
    case Accepting(_) => 5
    case Beginning(_) => 4
    case Running => 3
    case AfterResult => 2
    case Retrying => 2
    case Draining => 1
    case Done => 0
  }

  /** Steps that can still be taken: by the threads, and three for each queued message. */
  function Remaining(s: Sys): nat {
    Total(s.threads, Work) + 3 * |s.turns.queue|
  }

  lemma StepDecreases(s: Sys, a: Action)
    requires Apply(s, a).Next? && !a.Arrive?
    ensures Remaining(Apply(s, a).s) < Remaining(s)
  {
    hide IsStale, Leave, RecallId, OwnsSession, Step;
    match a
    case Advance(i) => AdvanceDecreases(s, i);
    case StopRecalled(i) => TotalUpdate(s.threads, i, Waiting(s.threads[i].m), Work);
    case GiveUp(i) => TotalUpdate(s.threads, i, Done, Work);
    case Abort(i) => TotalUpdate(s.threads, i, Draining, Work);
    case Recall(id) => WithoutIsFilter(s.turns.queue, id);
    case _ =>
  }

  predicate StepCounts(s: Sys, i: nat)
    requires i < |s.threads| && Step(s, i).Next?
  {
    var s' := Step(s, i).s;
    && |s'.threads| == |s.threads| && s'.threads == s.threads[i := s'.threads[i]]
    && Work(s'.threads[i]) + 3 * |s'.turns.queue| < Work(s.threads[i]) + 3 * |s.turns.queue|
  }

  lemma TakeStepCounts(s: Sys, i: nat)
    requires i < |s.threads| && (s.threads[i].AfterResult? || s.threads[i].Draining?)
    ensures StepCounts(s, i)
  {
    hide PopNext, Take;
    TakeCounts(s);
  }

  lemma OtherStepCounts(s: Sys, i: nat)
    requires i < |s.threads| && Step(s, i).Next? && !(s.threads[i].AfterResult? || s.threads[i].Draining?)
    ensures StepCounts(s, i)
  {
    hide IsStale, PopNext, Take, Offer, Judge;
    OfferCounts(s);
  }

  lemma TakeCounts(s: Sys)
    ensures Take(s).threads == s.threads
    ensures |Take(s).turns.queue| + (if PopNext(s.turns).1.Popped? then 1 else 0) <= |s.turns.queue|
  {
    hide IsStale, Leave;
  }

  lemma OfferCounts(s: Sys)
    ensures forall m :: |Offer(s.turns, m, s.cap).queue| <= |s.turns.queue| + 1
  {
    hide IsStale;
  }

  lemma AdvanceDecreases(s: Sys, i: nat)
    requires i < |s.threads| && Step(s, i).Next?
    ensures Remaining(Step(s, i).s) < Remaining(s)
  {
    hide Step, Work, Total;
    if s.threads[i].AfterResult? || s.threads[i].Draining? {
      TakeStepCounts(s, i);
    } else {
      OtherStepCounts(s, i);
    }
    TotalUpdate(s.threads, i, Step(s, i).s.threads[i], Work);
  }

  /** A run without arrivals has at most as many steps as there is work left. */
  lemma {:induction false} RunsAreBounded(s: Sys, acts: seq<Action>)
    requires Run(s, acts).Next? && forall k :: 0 <= k < |acts| ==> !acts[k].Arrive?
    ensures |acts| + Remaining(Run(s, acts).s) <= Remaining(s)
    decreases |acts|
  {
    hide Apply, Remaining;
    if acts != [] {
      StepDecreases(s, acts[0]);
      RunsAreBounded(Apply(s, acts[0]).s, acts[1..]);
    }
  }

  /** No deadlock: as long as some thread has not returned, a thread can move. */
  lemma CanMove(s: Sys)
    requires !Quiescent(s)
    ensures exists i: nat :: i < |s.threads| && (Apply(s, Advance(i)).Next? || Apply(s, GiveUp(i)).Next?)
  {
    var i: nat :| i < |s.threads| && !s.threads[i].Done?;
    assert Apply(s, Advance(i)).Next? || Apply(s, GiveUp(i)).Next?;
  }

  /** Together: take any run, and from there any continuation without arrivals that cannot be
      continued by a thread. It is finite, and it ends with the queue drained and unlocked. */
  lemma EventuallyDrained(cap: nat, before: seq<Action>, after: seq<Action>)
    requires Run(Init(cap), before).Next? && Run(Run(Init(cap), before).s, after).Next?
    requires forall k :: 0 <= k < |after| ==> !after[k].Arrive?
    requires var s := Run(Run(Init(cap), before).s, after).s;
             forall i: nat :: i < |s.threads| ==> Apply(s, Advance(i)).Disabled? && Apply(s, GiveUp(i)).Disabled?
    ensures |after| <= Remaining(Run(Init(cap), before).s)
    ensures var s := Run(Run(Init(cap), before).s, after).s;
            !s.busy && s.turns.queue == [] && OfFate(s.log, InQueue) == []
  {
    hide Run, Apply, Remaining;
    var mid := Run(Init(cap), before).s;
    RunsAreBounded(mid, after);
    ReachableInv(cap, before);
    RunKeepsInv(mid, after);
    var s := Run(mid, after).s;
    if !Quiescent(s) {
      CanMove(s);
    }
    NoOwners(s.threads);
  }
}
