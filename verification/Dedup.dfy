/** MessageDedup: recently seen message ids, against the unbounded log of accepted messages. */
module Dedup {

  /** dedupTTL, in nanoseconds. */
  const TTL := 60_000_000_000

  datatype Call = Call(id: string, at: int)

  /** What the index is for: the id was accepted at most TTL ago. */
  ghost predicate SeenRecently(log: seq<Call>, id: string, now: int) {
    exists e :: e in log && e.id == id && now - e.at <= TTL
  }

  /** The accepted calls among a history of calls. */
  ghost function LogOf(calls: seq<Call>): seq<Call> {
    if calls == [] then []
    else
      var call, before := calls[|calls| - 1], LogOf(calls[..|calls| - 1]);
      if call.id == "" || SeenRecently(before, call.id, call.at) then before else before + [call]
  }

  function LastTime(calls: seq<Call>): int
    requires calls != []
  {
    calls[|calls| - 1].at
  }

  predicate TimesAscend(calls: seq<Call>) {
    forall i, j :: 0 <= i <= j < |calls| ==> calls[i].at <= calls[j].at
  }

  /** The map holds latest acceptances only, and all that are at most TTL old at some time. */
  predicate Agrees(seen: map<string, int>, log: seq<Call>, time: int) {
    && (forall id :: id in seen ==> Call(id, seen[id]) in log)
    && (forall e :: e in log && e.id in seen ==> e.at <= seen[e.id])
    && (forall e :: e in log && time - e.at <= TTL ==> e.id in seen)
  }

  class MessageDedup {
    var seen: map<string, int>
    ghost var calls: seq<Call>

    ghost predicate Valid()
      reads this
    {
      && TimesAscend(calls)
      && if calls == [] then seen == map[] else Agrees(seen, LogOf(calls), LastTime(calls))
    }

    constructor ()
      ensures Valid() && calls == []
    {
      seen := map[];
      calls := [];
    }

    /** `now` is read from a monotonic clock. */
    method IsDuplicate(msgID: string, now: int) returns (duplicate: bool)
      requires Valid() && (calls != [] ==> LastTime(calls) <= now)
      modifies this
      ensures Valid() && calls == old(calls) + [Call(msgID, now)]
      ensures duplicate <==> msgID != "" && SeenRecently(LogOf(old(calls)), msgID, now)
      ensures msgID == "" ==> seen == old(seen)
      ensures msgID != "" ==> msgID in seen && forall id :: id in seen ==> now - seen[id] <= TTL
    {
      hide SeenRecently, LogOf;
      ghost var log, before, all := LogOf(calls), seen, calls + [Call(msgID, now)];
      CallsAppend(calls, Call(msgID, now));
      LaterAgrees(calls, seen, now);
      calls := all;
      assert LastTime(all) == now;
      if msgID == "" {
        return false;
      }
      var keys := seen.Keys;
      while keys != {}
        invariant calls == all
        invariant keys <= seen.Keys <= before.Keys
        invariant forall id :: id in seen ==> seen[id] == before[id]
        invariant forall id :: id in seen && id !in keys ==> now - seen[id] <= TTL
        invariant forall id :: id in before && id !in seen ==> now - before[id] > TTL
        decreases |keys|
      {
        var k :| k in keys;
        if now - seen[k] > TTL {
          seen := seen - {k};
        }
        keys := keys - {k};
      }
      PurgedAgrees(log, seen, before, now);
      DuplicateIff(log, seen, msgID, now);
      if msgID in seen {
        return true;
      }
      AcceptedAgrees(log, seen, msgID, now);
      seen := seen[msgID := now];
      duplicate := false;
    }
  }

  lemma CallsAppend(calls: seq<Call>, call: Call)
    requires TimesAscend(calls) && (calls != [] ==> LastTime(calls) <= call.at)
    ensures TimesAscend(calls + [call])
    ensures LogOf(calls + [call]) ==
            if call.id == "" || SeenRecently(LogOf(calls), call.id, call.at) then LogOf(calls)
              else LogOf(calls) + [call]
    ensures forall e :: e in LogOf(calls) ==> e.at <= call.at
  {
    hide SeenRecently;
    assert (calls + [call])[..|calls|] == calls;
    LogIsOfCalls(calls);
  }

  lemma {:induction false} LogIsOfCalls(calls: seq<Call>)
    ensures forall e :: e in LogOf(calls) ==> e in calls
  {
    hide SeenRecently;
    if calls != [] {
      LogIsOfCalls(calls[..|calls| - 1]);
    }
  }

  /** Time passing only makes the agreement weaker. */
  lemma LaterAgrees(calls: seq<Call>, seen: map<string, int>, now: int)
    requires if calls == [] then seen == map[]
             else Agrees(seen, LogOf(calls), LastTime(calls)) && LastTime(calls) <= now
    ensures Agrees(seen, LogOf(calls), now)
  {
    hide SeenRecently;
  }

  lemma PurgedAgrees(log: seq<Call>, seen: map<string, int>, before: map<string, int>, now: int)
    requires Agrees(before, log, now) && seen.Keys <= before.Keys
    requires forall id :: id in seen ==> seen[id] == before[id] && now - seen[id] <= TTL
    requires forall id :: id in before && id !in seen ==> now - before[id] > TTL
    ensures Agrees(seen, log, now) && forall id :: id in seen ==> now - seen[id] <= TTL
  {
  }

  lemma DuplicateIff(log: seq<Call>, seen: map<string, int>, id: string, now: int)
    requires Agrees(seen, log, now) && forall id :: id in seen ==> now - seen[id] <= TTL
    ensures id in seen <==> SeenRecently(log, id, now)
  {
    if id in seen {
      assert Call(id, seen[id]).id == id;
    }
  }

  lemma AcceptedAgrees(log: seq<Call>, seen: map<string, int>, id: string, now: int)
    requires Agrees(seen, log, now) && id !in seen && forall e :: e in log ==> e.at <= now
    ensures Agrees(seen[id := now], log + [Call(id, now)], now)
  {
  }

  /** Two accepted calls for one id are more than TTL apart. */
  lemma {:induction false} AcceptedApart(calls: seq<Call>, i: nat, j: nat)
    requires i < j < |LogOf(calls)| && LogOf(calls)[i].id == LogOf(calls)[j].id
    ensures LogOf(calls)[j].at - LogOf(calls)[i].at > TTL
    decreases |calls|
  {
    var before := LogOf(calls[..|calls| - 1]);
    if j < |before| {
      AcceptedApart(calls[..|calls| - 1], i, j);
    } else {
      assert before[i] in before;
    }
  }

  /** No message is lost: a call with an id is accepted, or one for the same id was accepted at
      most TTL before it. */
  lemma {:induction false} EveryCallCovered(calls: seq<Call>, k: nat) returns (e: Call)
    requires k < |calls| && calls[k].id != ""
    ensures e in LogOf(calls) && e.id == calls[k].id && calls[k].at - e.at <= TTL
    decreases |calls|
  {
    var shorter := calls[..|calls| - 1];
    if k < |shorter| {
      assert shorter[k] == calls[k];
      e := EveryCallCovered(shorter, k);
    } else if SeenRecently(LogOf(shorter), calls[k].id, calls[k].at) {
      e :| e in LogOf(shorter) && e.id == calls[k].id && calls[k].at - e.at <= TTL;
    } else {
      e := calls[k];
    }
  }
}
