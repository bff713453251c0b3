/** The life of every message that ever entered the pending queue: a log in the order of queueing,
    with exactly one fate for each message. */
module QueueHistory {
  import opened TurnState

  datatype Fate = InQueue | Started | DroppedStale | DroppedWithNotice | Recalled | Cleared

  datatype Entry = Entry(msg: Msg, fate: Fate)

  /** The messages of one fate, in the order they were queued. */
  function OfFate(log: seq<Entry>, fate: Fate): seq<Msg> {
    if log == [] then []
    else if log[0].fate == fate then [log[0].msg] + OfFate(log[1..], fate)
    else OfFate(log[1..], fate)
  }

  lemma OfFateCons(e: Entry, rest: seq<Entry>, fate: Fate)
    ensures OfFate([e] + rest, fate) == if e.fate == fate then [e.msg] + OfFate(rest, fate) else OfFate(rest, fate)
    ensures NoOvertaking([e] + rest) <==> (e.fate.InQueue? ==> OfFate(rest, Started) == []) && NoOvertaking(rest)
  {
    assert ([e] + rest)[1..] == rest;
  }

  /** No message that got a turn was queued after one that still waits. */
  predicate NoOvertaking(log: seq<Entry>) {
    log == [] || ((log[0].fate.InQueue? ==> OfFate(log[1..], Started) == []) && NoOvertaking(log[1..]))
  }

  /** Conservation and order: the queue is exactly the messages of the log that still wait, in order,
      and the turns started from it are exactly those with that fate, in the order of queueing. */
  predicate Consistent(queue: seq<Msg>, started: seq<Msg>, log: seq<Entry>) {
    queue == OfFate(log, InQueue) && started == OfFate(log, Started) && NoOvertaking(log)
  }

  /** The first k waiting messages get this fate. */
  function Leave(log: seq<Entry>, k: nat, fate: Fate): (r: seq<Entry>)
    ensures |r| == |log|
  {
    if k == 0 || log == [] then log
    else if log[0].fate.InQueue? then [Entry(log[0].msg, fate)] + Leave(log[1..], k - 1, fate)
    else [log[0]] + Leave(log[1..], k, fate)
  }

  /** Every waiting message with this id is recalled. */
  function RecallId(log: seq<Entry>, id: string): (r: seq<Entry>)
    ensures |r| == |log|
  {
    if log == [] then []
    else
      [if log[0].fate.InQueue? && log[0].msg.id == id then Entry(log[0].msg, Recalled) else log[0]]
      + RecallId(log[1..], id)
  }

  /** Messages are only added at the end of the log, and a fate, once given, is final. */
  predicate Extends(log: seq<Entry>, log': seq<Entry>) {
    && |log| <= |log'|
    && forall j :: 0 <= j < |log| ==>
         log'[j].msg == log[j].msg && (log[j].fate.InQueue? || log'[j].fate == log[j].fate)
  }

  lemma {:induction false} OfFateAppend(a: seq<Entry>, b: seq<Entry>, fate: Fate)
    ensures OfFate(a + b, fate) == OfFate(a, fate) + OfFate(b, fate)
  {
    if a == [] {
      assert a + b == b;
    } else {
      var tail := a[1..];
      assert (a + b)[1..] == tail + b && (a + b)[0] == a[0];
      OfFateAppend(tail, b, fate);
    }
  }

  lemma {:induction false} NoOvertakingAppend(log: seq<Entry>, m: Msg)
    requires NoOvertaking(log)
    ensures NoOvertaking(log + [Entry(m, InQueue)])
  {
    if log != [] {
      assert (log + [Entry(m, InQueue)])[1..] == log[1..] + [Entry(m, InQueue)];
      OfFateAppend(log[1..], [Entry(m, InQueue)], Started);
      NoOvertakingAppend(log[1..], m);
    }
  }

  lemma EnqueueConsistent(queue: seq<Msg>, started: seq<Msg>, log: seq<Entry>, m: Msg)
    requires Consistent(queue, started, log)
    ensures Consistent(queue + [m], started, log + [Entry(m, InQueue)]) && Extends(log, log + [Entry(m, InQueue)])
  {
    OfFateAppend(log, [Entry(m, InQueue)], InQueue);
    OfFateAppend(log, [Entry(m, InQueue)], Started);
    NoOvertakingAppend(log, m);
  }

  lemma {:induction false} LeaveExtends(log: seq<Entry>, k: nat, fate: Fate)
    ensures Extends(log, Leave(log, k, fate))
  {
    if k > 0 && log != [] {
      var k' := if log[0].fate.InQueue? then k - 1 else k;
      LeaveExtends(log[1..], k', fate);
      var log' := Leave(log, k, fate);
      assert log'[1..] == Leave(log[1..], k', fate);
      forall j | 0 < j < |log|
        ensures log'[j].msg == log[j].msg && (log[j].fate.InQueue? || log'[j].fate == log[j].fate)
      {
        assert log'[j] == log'[1..][j - 1] && log[j] == log[1..][j - 1];
      }
    }
  }

  lemma DropOne(m: Msg, rest: seq<Msg>, k: nat)
    requires 0 < k <= |rest| + 1
    ensures ([m] + rest)[k..] == rest[k - 1..]
  {
  }

  lemma {:induction false} LeaveQueue(log: seq<Entry>, k: nat, fate: Fate)
    requires k <= |OfFate(log, InQueue)| && !fate.InQueue?
    ensures OfFate(Leave(log, k, fate), InQueue) == OfFate(log, InQueue)[k..]
  {
    if k > 0 {
      var head, tail := log[0], log[1..];
      if head.fate.InQueue? {
        LeaveQueue(tail, k - 1, fate);
        OfFateCons(Entry(head.msg, fate), Leave(tail, k - 1, fate), InQueue);
        DropOne(head.msg, OfFate(tail, InQueue), k);
      } else {
        LeaveQueue(tail, k, fate);
        OfFateCons(head, Leave(tail, k, fate), InQueue);
      }
    }
  }

  lemma {:induction false} LeaveStarted(log: seq<Entry>, k: nat, fate: Fate)
    requires NoOvertaking(log) && !fate.InQueue? && !fate.Started?
    ensures OfFate(Leave(log, k, fate), Started) == OfFate(log, Started) && NoOvertaking(Leave(log, k, fate))
  {
    if k > 0 && log != [] {
      var head, tail := log[0], log[1..];
      if head.fate.InQueue? {
        LeaveStarted(tail, k - 1, fate);
        OfFateCons(Entry(head.msg, fate), Leave(tail, k - 1, fate), Started);
      } else {
        LeaveStarted(tail, k, fate);
        OfFateCons(head, Leave(tail, k, fate), Started);
      }
    }
  }

  lemma LeaveConsistent(queue: seq<Msg>, started: seq<Msg>, log: seq<Entry>, k: nat, fate: Fate)
    requires Consistent(queue, started, log) && k <= |queue| && !fate.InQueue? && !fate.Started?
    ensures Consistent(queue[k..], started, Leave(log, k, fate)) && Extends(log, Leave(log, k, fate))
  {
    LeaveQueue(log, k, fate);
    LeaveStarted(log, k, fate);
    LeaveExtends(log, k, fate);
  }

  lemma {:induction false} StartHead(log: seq<Entry>)
    requires NoOvertaking(log) && OfFate(log, InQueue) != []
    ensures OfFate(Leave(log, 1, Started), Started) == OfFate(log, Started) + [OfFate(log, InQueue)[0]]
    ensures NoOvertaking(Leave(log, 1, Started))
  {
    var head, tail := log[0], log[1..];
    if head.fate.InQueue? {
      OfFateCons(Entry(head.msg, Started), tail, Started);
    } else {
      StartHead(tail);
      OfFateCons(head, Leave(tail, 1, Started), Started);
    }
  }

  lemma StartConsistent(queue: seq<Msg>, started: seq<Msg>, log: seq<Entry>)
    requires Consistent(queue, started, log) && queue != []
    ensures Consistent(queue[1..], started + [queue[0]], Leave(log, 1, Started)) && Extends(log, Leave(log, 1, Started))
  {
    LeaveQueue(log, 1, Started);
    StartHead(log);
    LeaveExtends(log, 1, Started);
  }

  lemma {:induction false} WithoutAppend(a: seq<Msg>, b: seq<Msg>, id: string)
    ensures Without(a + b, id) == Without(a, id) + Without(b, id)
  {
    if b == [] {
      assert a + b == a;
    } else {
      assert (a + b)[..|a + b| - 1] == a + b[..|b| - 1];
      WithoutAppend(a, b[..|b| - 1], id);
    }
  }

  lemma WithoutOne(m: Msg, id: string)
    ensures Without([m], id) == if m.id == id then [] else [m]
  {
    assert Without([m][..0], id) == [];
  }

  lemma {:induction false} RecallInLog(log: seq<Entry>, id: string)
    requires NoOvertaking(log)
    ensures OfFate(RecallId(log, id), InQueue) == Without(OfFate(log, InQueue), id)
    ensures OfFate(RecallId(log, id), Started) == OfFate(log, Started) && NoOvertaking(RecallId(log, id))
  {
    if log != [] {
      var head, tail := log[0], log[1..];
      var head' := if head.fate.InQueue? && head.msg.id == id then Entry(head.msg, Recalled) else head;
      RecallInLog(tail, id);
      OfFateCons(head', RecallId(tail, id), InQueue);
      OfFateCons(head', RecallId(tail, id), Started);
      if head.fate.InQueue? {
        WithoutAppend([head.msg], OfFate(tail, InQueue), id);
        WithoutOne(head.msg, id);
      }
    }
  }

  lemma {:induction false} RecallExtends(log: seq<Entry>, id: string)
    ensures Extends(log, RecallId(log, id))
  {
    if log != [] {
      RecallExtends(log[1..], id);
      var log' := RecallId(log, id);
      assert log'[1..] == RecallId(log[1..], id);
      forall j | 0 < j < |log|
        ensures log'[j].msg == log[j].msg && (log[j].fate.InQueue? || log'[j].fate == log[j].fate)
      {
        assert log'[j] == log'[1..][j - 1] && log[j] == log[1..][j - 1];
      }
    }
  }

  lemma RecallConsistent(queue: seq<Msg>, started: seq<Msg>, log: seq<Entry>, id: string)
    requires Consistent(queue, started, log)
    ensures Consistent(Without(queue, id), started, RecallId(log, id)) && Extends(log, RecallId(log, id))
  {
    RecallInLog(log, id);
    RecallExtends(log, id);
  }

  lemma ExtendsTransitive(a: seq<Entry>, b: seq<Entry>, c: seq<Entry>)
    requires Extends(a, b) && Extends(b, c)
    ensures Extends(a, c)
  {
  }
}
