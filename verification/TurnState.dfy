/** The part of an interactive session that decides which message gets the next turn:
    the pending queue and the create-time watermark over it. */
module TurnState {

  /** A user message; `time` is the platform's create time in ms, 0 when it sends none. */
  datatype Msg = Msg(id: string, time: int)

  /** lastCompletedUserMessageTimeMs, currentTurnUserMessageTimeMs, pendingMessages */
  datatype Turns = Turns(completed: int, current: int, queue: seq<Msg>)

  datatype Verdict = Stale | Full | Queued

  datatype Popped = Nothing | Popped(msg: Msg)

  function MaxTime(queue: seq<Msg>, wm: int): int {
    if queue == [] then wm else MaxTime(queue[1..], if queue[0].time > wm then queue[0].time else wm)
  }

  /** latestUserMessageWatermarkLocked: over completed, in-flight and queued messages alike. */
  function Watermark(t: Turns): int {
    MaxTime(t.queue, if t.current > t.completed then t.current else t.completed)
  }

  /** isStaleUserMessageLocked */
  predicate IsStale(t: Turns, time: int) {
    time > 0 && Watermark(t) > 0 && time < Watermark(t)
  }

  /** The stale-drop loop: it looks at the head and takes the watermark anew each time. */
  function DropStale(t: Turns): (r: Turns)
    ensures r.completed == t.completed && r.current == t.current && |r.queue| <= |t.queue|
    decreases |t.queue|
  {
    if t.queue != [] && IsStale(t, t.queue[0].time) then DropStale(t.(queue := t.queue[1..])) else t
  }

  /** The locked part of queueMessageForBusySession. */
  function Judge(t: Turns, m: Msg, cap: nat): Verdict {
    if IsStale(t, m.time) then Stale else if |t.queue| >= cap then Full else Queued
  }

  function Offer(t: Turns, m: Msg, cap: nat): Turns {
    if Judge(t, m, cap).Queued? then t.(queue := t.queue + [m]) else t
  }

  /** noteUserTurnCompleted */
  function NoteCompleted(t: Turns): Turns {
    if t.current > 0 && t.current > t.completed then t.(completed := t.current) else t
  }

  /** noteUserMessageAccepted */
  function NoteAccepted(t: Turns, time: int): Turns {
    if time > 0 && time > t.current then t.(current := time) else t
  }

  /** removeQueuedMessageByID on one session. */
  function Without(queue: seq<Msg>, id: string): (r: seq<Msg>)
    ensures |r| <= |queue|
  {
    if queue == [] then []
    else Without(queue[..|queue| - 1], id) + if queue[|queue| - 1].id == id then [] else [queue[|queue| - 1]]
  }

  /** Both pop sites: drop the stale head messages, then start the next one, if any. */
  function PopNext(t: Turns): (Turns, Popped) {
    var d := DropStale(t);
    if d.queue == [] then (d, Nothing)
    else (d.(queue := d.queue[1..], current := d.queue[0].time), Popped(d.queue[0]))
  }

  predicate HasId(queue: seq<Msg>, id: string) {
    exists m :: m in queue && m.id == id
  }

  class InteractiveState {
    var lastCompletedUserMessageTimeMs: int
    var currentTurnUserMessageTimeMs: int
    var pendingMessages: seq<Msg>

    function Value(): Turns
      reads this
    {
      Turns(lastCompletedUserMessageTimeMs, currentTurnUserMessageTimeMs, pendingMessages)
    }

    constructor ()
      ensures Value() == Turns(0, 0, [])
    {
      lastCompletedUserMessageTimeMs, currentTurnUserMessageTimeMs, pendingMessages := 0, 0, [];
    }

    method LatestUserMessageWatermark() returns (wm: int)
      ensures wm == Watermark(Value())
    {
      wm := lastCompletedUserMessageTimeMs;
      if currentTurnUserMessageTimeMs > wm {
        wm := currentTurnUserMessageTimeMs;
      }
      for i := 0 to |pendingMessages|
        invariant MaxTime(pendingMessages[i..], wm) == Watermark(Value())
      {
        assert pendingMessages[i..][1..] == pendingMessages[i + 1..];
        if pendingMessages[i].time > wm {
          wm := pendingMessages[i].time;
        }
      }
    }

    method IsStaleUserMessage(timeMs: int) returns (stale: bool)
      ensures stale == IsStale(Value(), timeMs)
    {
      if timeMs <= 0 {
        return false;
      }
      var wm := LatestUserMessageWatermark();
      return wm > 0 && timeMs < wm;
    }

    method NoteUserTurnCompleted()
      modifies this
      ensures Value() == NoteCompleted(old(Value()))
    {
      var t := currentTurnUserMessageTimeMs;
      if t > 0 && t > lastCompletedUserMessageTimeMs {
        lastCompletedUserMessageTimeMs := t;
      }
    }

    method NoteUserMessageAccepted(timeMs: int)
      modifies this
      ensures Value() == NoteAccepted(old(Value()), timeMs)
    {
      if timeMs <= 0 {
        return;
      }
      if timeMs > currentTurnUserMessageTimeMs {
        currentTurnUserMessageTimeMs := timeMs;
      }
    }

    method QueueMessage(msg: Msg, maxQueuedMessages: nat) returns (verdict: Verdict)
      modifies this
      ensures verdict == Judge(old(Value()), msg, maxQueuedMessages)
      ensures Value() == Offer(old(Value()), msg, maxQueuedMessages)
    {
      var stale := IsStaleUserMessage(msg.time);
      if stale {
        return Stale;
      }
      if |pendingMessages| >= maxQueuedMessages {
        return Full;
      }
      pendingMessages := pendingMessages + [msg];
      return Queued;
    }

    method RemoveQueuedMessageByID(messageID: string) returns (removed: bool)
      modifies this
      ensures Value() == old(Value()).(queue := Without(old(pendingMessages), messageID))
      ensures removed <==> HasId(old(pendingMessages), messageID)
      ensures !removed ==> Value() == old(Value())
    {
      removed := false;
      var filtered: seq<Msg> := [];
      for i := 0 to |pendingMessages|
        invariant filtered == Without(pendingMessages[..i], messageID)
        invariant removed <==> exists m :: m in pendingMessages[..i] && m.id == messageID
        invariant !removed ==> filtered == pendingMessages[..i]
      {
        assert pendingMessages[..i + 1][..i] == pendingMessages[..i];
        assert pendingMessages[..i + 1] == pendingMessages[..i] + [pendingMessages[i]];
        if pendingMessages[i].id == messageID {
          removed := true;
        } else {
          filtered := filtered + [pendingMessages[i]];
        }
      }
      assert pendingMessages[..|pendingMessages|] == pendingMessages;
      if removed {
        pendingMessages := filtered;
      }
    }

    /** The shared head of the dequeue branch and of the drain loop. */
    method TakeNext() returns (next: Popped)
      modifies this
      ensures (Value(), next) == PopNext(old(Value()))
    {
      ghost var before := Value();
      var stale := false;
      if |pendingMessages| > 0 {
        stale := IsStaleUserMessage(pendingMessages[0].time);
      }
      while |pendingMessages| > 0 && stale
        invariant DropStale(Value()) == DropStale(before)
        invariant stale <==> pendingMessages != [] && IsStale(Value(), pendingMessages[0].time)
        decreases |pendingMessages|
      {
        pendingMessages := pendingMessages[1..];
        stale := false;
        if |pendingMessages| > 0 {
          stale := IsStaleUserMessage(pendingMessages[0].time);
        }
      }
      if |pendingMessages| > 0 {
        var queued := pendingMessages[0];
        pendingMessages := pendingMessages[1..];
        currentTurnUserMessageTimeMs := queued.time;
        return Popped(queued);
      }
      return Nothing;
    }

    /** notifyDroppedQueuedMessages: the messages whose senders are told, in order. */
    method TakeAllForNotice() returns (remaining: seq<Msg>)
      modifies this
      ensures remaining == old(pendingMessages) && Value() == old(Value()).(queue := [])
    {
      remaining := pendingMessages;
      pendingMessages := [];
    }

    /** adoptPendingFromPlaceholder */
    method AdoptPendingFrom(existing: InteractiveState?)
      modifies this, existing
      ensures existing == null || existing == this || old(existing.pendingMessages) == [] ==> Value() == old(Value())
      ensures existing != null && existing != this && old(existing.pendingMessages) != [] ==>
                Value() == old(Value()).(queue := old(existing.pendingMessages))
      ensures existing != null && existing != this ==> existing.Value() == old(existing.Value()).(queue := [])
    {
      if existing == null || existing == this {
        return;
      }
      if |existing.pendingMessages| > 0 {
        pendingMessages := existing.pendingMessages;
        existing.pendingMessages := [];
      }
    }
  }

  /** removeQueuedMessageByID over all sessions, in the order in which the map yields them: it stops
      at the first session that holds the message. */
  method RemoveQueuedMessage(states: seq<InteractiveState?>, id: string) returns (k: nat)
    modifies set state | state in states && state != null
    ensures k <= |states|
    ensures forall j :: 0 <= j < k && states[j] != null ==> !HasId(old(states[j].pendingMessages), id)
    ensures k < |states| ==> states[k] != null && HasId(old(states[k].pendingMessages), id)
    ensures k < |states| ==>
            states[k].Value() == old(states[k].Value()).(queue := Without(old(states[k].pendingMessages), id))
    ensures forall state :: state in states && state != null && (k < |states| ==> state != states[k]) ==>
              state.Value() == old(state.Value())
  {
    hide HasId, Without;
    for i := 0 to |states|
      invariant forall j :: 0 <= j < i && states[j] != null ==> !HasId(old(states[j].pendingMessages), id)
      invariant forall state :: state in states && state != null ==> state.Value() == old(state.Value())
    {
      var state := states[i];
      if state != null {
        var removed := state.RemoveQueuedMessageByID(id);
        if removed {
          return i;
        }
      }
    }
    k := |states|;
  }

  // ---- What the watermark guarantees ----

  lemma {:induction false} MaxTimeIsMax(queue: seq<Msg>, wm: int)
    ensures wm <= MaxTime(queue, wm)
    ensures forall i :: 0 <= i < |queue| ==> queue[i].time <= MaxTime(queue, wm)
    ensures MaxTime(queue, wm) == wm || exists i :: 0 <= i < |queue| && queue[i].time == MaxTime(queue, wm)
  {
    if queue != [] {
      var wm' := if queue[0].time > wm then queue[0].time else wm;
      MaxTimeIsMax(queue[1..], wm');
      var rest := queue[1..];
      forall i | 0 <= i < |queue| ensures queue[i].time <= MaxTime(queue, wm) {
        assert i > 0 ==> queue[i] == rest[i - 1];
      }
      if MaxTime(rest, wm') != wm' {
        var i :| 0 <= i < |rest| && rest[i].time == MaxTime(rest, wm');
        assert queue[i + 1] == rest[i];
      } else if wm' != wm {
        assert queue[0].time == MaxTime(queue, wm);
      }
    }
  }

  /** The watermark is the largest of the completed, the in-flight and all queued times. */
  lemma WatermarkIsMax(t: Turns)
    ensures t.completed <= Watermark(t) && t.current <= Watermark(t)
    ensures forall i :: 0 <= i < |t.queue| ==> t.queue[i].time <= Watermark(t)
    ensures Watermark(t) == t.completed || Watermark(t) == t.current
         || exists i :: 0 <= i < |t.queue| && t.queue[i].time == Watermark(t)
  {
    MaxTimeIsMax(t.queue, if t.current > t.completed then t.current else t.completed);
  }

  /** Dropping a head below the watermark does not move the watermark. */
  lemma WatermarkWithoutHead(t: Turns)
    requires t.queue != [] && t.queue[0].time < Watermark(t)
    ensures Watermark(t.(queue := t.queue[1..])) == Watermark(t)
  {
    var base := if t.current > t.completed then t.current else t.completed;
    MaxTimeIsMax(t.queue[1..], base);
    MaxTimeIsMax(t.queue[1..], t.queue[0].time);
    if t.queue[0].time > base {
      MaxTimeMonotone(t.queue[1..], base, t.queue[0].time);
    }
  }

  lemma {:induction false} MaxTimeMonotone(queue: seq<Msg>, a: int, b: int)
    requires a <= b
    ensures MaxTime(queue, b) == if MaxTime(queue, a) < b then b else MaxTime(queue, a)
  {
    if queue != [] {
      var t := queue[0].time;
      MaxTimeMonotone(queue[1..], if t > a then t else a, if t > b then t else b);
      MaxTimeIsMax(queue[1..], if t > a then t else a);
    }
  }

  /** The longest prefix of timed messages strictly below a fixed bound. */
  function DropBelow(queue: seq<Msg>, bound: int): seq<Msg> {
    if queue != [] && 0 < queue[0].time < bound then DropBelow(queue[1..], bound) else queue
  }

  /** The loop that recomputes the watermark each time drops exactly the longest prefix below
      the one watermark it started with, and ends under the same watermark. */
  lemma {:induction false} StaleLoopUsesOneBound(t: Turns)
    ensures DropStale(t).queue == DropBelow(t.queue, Watermark(t))
    ensures Watermark(DropStale(t)) == Watermark(t)
    decreases |t.queue|
  {
    if t.queue != [] && IsStale(t, t.queue[0].time) {
      WatermarkWithoutHead(t);
      StaleLoopUsesOneBound(t.(queue := t.queue[1..]));
    }
  }

  predicate TimedAscending(queue: seq<Msg>) {
    forall i, j :: 0 <= i < j < |queue| && queue[i].time > 0 && queue[j].time > 0 ==> queue[i].time <= queue[j].time
  }

  lemma OfferKeepsAscending(t: Turns, m: Msg, cap: nat)
    requires TimedAscending(t.queue) && |t.queue| <= cap
    ensures TimedAscending(Offer(t, m, cap).queue) && |Offer(t, m, cap).queue| <= cap
  {
    WatermarkIsMax(t);
  }

  /** How many messages the stale loop drops: what is left is a suffix. */
  lemma {:induction false} DropStaleIsSuffix(t: Turns)
    ensures DropStale(t).queue == t.queue[|t.queue| - |DropStale(t).queue|..]
    decreases |t.queue|
  {
    if t.queue != [] && IsStale(t, t.queue[0].time) {
      DropStaleIsSuffix(t.(queue := t.queue[1..]));
    }
  }

  lemma SuffixKeepsAscending(queue: seq<Msg>, k: nat)
    requires TimedAscending(queue) && k <= |queue|
    ensures TimedAscending(queue[k..])
  {
    forall i, j | 0 <= i < j < |queue[k..]| && queue[k..][i].time > 0 && queue[k..][j].time > 0
      ensures queue[k..][i].time <= queue[k..][j].time
    {
      assert queue[k + i].time <= queue[k + j].time;
    }
  }

  lemma PopKeepsAscending(t: Turns)
    requires TimedAscending(t.queue)
    ensures TimedAscending(PopNext(t).0.queue)
  {
    DropStaleIsSuffix(t);
    var d := DropStale(t);
    SuffixKeepsAscending(t.queue, |t.queue| - |d.queue|);
    if d.queue != [] {
      SuffixKeepsAscending(d.queue, 1);
    }
  }

  /** What recall leaves: the messages with another id, and all of them if none had it. */
  lemma {:induction false} WithoutIsFilter(queue: seq<Msg>, id: string)
    ensures forall m :: m in Without(queue, id) <==> m in queue && m.id != id
    ensures |Without(queue, id)| == |queue| <==> Without(queue, id) == queue
  {
    if queue != [] {
      var init, last := queue[..|queue| - 1], queue[|queue| - 1];
      WithoutIsFilter(init, id);
      assert queue == init + [last];
    }
  }

  lemma AscendingSnoc(queue: seq<Msg>, last: Msg)
    ensures TimedAscending(queue + [last])
       <==> TimedAscending(queue) && forall m :: m in queue && m.time > 0 && last.time > 0 ==> m.time <= last.time
  {
    var all := queue + [last];
    if TimedAscending(all) {
      forall i, j | 0 <= i < j < |queue| && queue[i].time > 0 && queue[j].time > 0
        ensures queue[i].time <= queue[j].time
      {
        assert all[i].time <= all[j].time;
      }
      forall m | m in queue && m.time > 0 && last.time > 0 ensures m.time <= last.time {
        var i :| 0 <= i < |queue| && queue[i] == m;
        assert all[i].time <= all[|queue|].time;
      }
    }
  }

  lemma {:induction false} WithoutKeepsAscending(queue: seq<Msg>, id: string)
    requires TimedAscending(queue)
    ensures TimedAscending(Without(queue, id))
  {
    if queue != [] {
      var init, last := queue[..|queue| - 1], queue[|queue| - 1];
      assert queue == init + [last];
      AscendingSnoc(init, last);
      WithoutKeepsAscending(init, id);
      WithoutIsFilter(init, id);
      AscendingSnoc(Without(init, id), last);
    }
  }

  /** A timed message that gets a turn is not older than the last completed turn, the turn in
      flight, or any message still queued when it was taken. */
  lemma PoppedIsNewest(t: Turns)
    requires PopNext(t).1.Popped? && PopNext(t).1.msg.time > 0
    ensures var m := PopNext(t).1.msg;
            && t.completed <= m.time && t.current <= m.time
            && forall i :: 0 <= i < |t.queue| ==> t.queue[i].time <= m.time
  {
    StaleLoopUsesOneBound(t);
    WatermarkIsMax(t);
    DropStaleStops(t);
  }

  lemma {:induction false} DropStaleStops(t: Turns)
    ensures var d := DropStale(t); d.queue != [] ==> !IsStale(d, d.queue[0].time)
    decreases |t.queue|
  {
    if t.queue != [] && IsStale(t, t.queue[0].time) {
      DropStaleStops(t.(queue := t.queue[1..]));
    }
  }

  /** So not every queued message gets a turn: a timed head is passed over exactly when a strictly
      newer message is completed, in flight or queued, here or further back. */
  lemma HeadPassedOverIff(t: Turns)
    requires t.queue != [] && t.queue[0].time > 0
    ensures DropStale(t).queue != t.queue <==>
              (|| t.queue[0].time < t.completed || t.queue[0].time < t.current
               || exists i :: 0 < i < |t.queue| && t.queue[0].time < t.queue[i].time)
  {
    WatermarkIsMax(t);
    var d := DropStale(t);
    if IsStale(t, t.queue[0].time) {
      assert |d.queue| < |t.queue|;
    }
  }

  /** The popped message is the head of a suffix of the queue, and the rest of that suffix stays. */
  lemma PopParts(t: Turns) returns (k: nat)
    requires PopNext(t).1.Popped?
    ensures k < |t.queue| && PopNext(t).1.msg == t.queue[k] && PopNext(t).0.queue == t.queue[k + 1..]
  {
    hide IsStale, Watermark;
    DropStaleIsSuffix(t);
    k := |t.queue| - |DropStale(t).queue|;
    assert t.queue[k..][1..] == t.queue[k + 1..];
  }

  /** After a timed message is taken, the timed messages left behind carry its very time. */
  lemma TimedRestShareTime(t: Turns)
    requires TimedAscending(t.queue) && PopNext(t).1.Popped? && PopNext(t).1.msg.time > 0
    ensures forall m :: m in PopNext(t).0.queue && m.time > 0 ==> m.time == PopNext(t).1.msg.time
  {
    hide PopNext, DropStale, IsStale, Watermark;
    PoppedIsNewest(t);
    var k := PopParts(t);
    var rest := t.queue[k + 1..];
    forall i | 0 <= i < |rest| && rest[i].time > 0 ensures rest[i].time == t.queue[k].time {
      assert rest[i] == t.queue[k + 1 + i];
    }
  }
}
