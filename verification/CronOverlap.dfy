/** Which two calls of the scheduler for one id may overlap: for every pair of operations, whether all
    interleavings of their critical sections leave the scheduler's table and the store in agreement. */
module CronOverlap {
  import opened CronRaces

  /** No call is under way, and the id has an entry exactly if its job is stored and enabled. */
  predicate AtRest(s: Sys) {
    s.calls == [] && (s.entry <==> Due(s)) && (s.stored ==> s.used)
  }

  /** Two calls begun at rest, neither of which has done anything yet. */
  function Pair(s: Sys, p: Op, q: Op): Sys {
    s.(calls := [Call(p, 0), Call(q, 0)])
  }

  predicate OnlyGo(acts: seq<Action>) {
    forall k :: 0 <= k < |acts| ==> acts[k].Go?
  }

  /** The id has an entry exactly if its job is due, whenever both calls have returned. */
  ghost predicate PairAgrees(p: Op, q: Op) {
    forall s, acts :: AtRest(s) && OnlyGo(acts) && AllReturned(Run(Pair(s, p, q), acts)) ==>
      (Run(Pair(s, p, q), acts).entry <==> Due(Run(Pair(s, p, q), acts)))
  }

  /** Calls of one kind, or one that adds a disabled job. */
  predicate Compatible(p: Op, q: Op) {
    TurnsOff(p) == TurnsOff(q) || p == Add(false) || q == Add(false)
  }

  // ---- Compatible calls agree ----

  lemma {:induction false} OneKindKeeps(s: Sys, acts: seq<Action>)
    requires Inv(s) && !(SomeOff(s) && SomeOn(s)) && OnlyGo(acts)
    ensures Separated(s, acts)
    decreases |acts|
  {
    hide Inv, SomeOff, SomeOn, Step;
    if acts != [] {
      var s' := Apply(s, acts[0]);
      var i := acts[0].i;
      if i < |s.calls| {
        GoKeeps(s, i);
        ActiveOrEnded(s, i);
        SomeAfter(s, i);
      }
      OneKindKeeps(s', acts[1..]);
    }
  }

  lemma ActiveOrEnded(s: Sys, i: nat)
    requires Inv(s) && i < |s.calls|
    ensures Active(s.calls[i]) || s.calls[i].at == END
  {
  }

  lemma ReturnedAgree(s: Sys)
    requires AllReturned(s) && OffPhase(s)
    ensures s.entry <==> Due(s)
  {
    WillActOnlyActive(s);
  }

  lemma OneKindAgrees(s: Sys, p: Op, q: Op, acts: seq<Action>)
    requires AtRest(s) && OnlyGo(acts) && TurnsOff(p) == TurnsOff(q)
    requires AllReturned(Run(Pair(s, p, q), acts))
    ensures Run(Pair(s, p, q), acts).entry <==> Due(Run(Pair(s, p, q), acts))
  {
    hide Run, Separated;
    var t := Pair(s, p, q);
    assert t.calls[0].op == p && t.calls[1].op == q;
    OneKindKeeps(t, acts);
    RunKeeps(t, acts);
    ReturnedAgree(Run(t, acts));
  }

  /** Call i adds a disabled job, and all others turn the job off. */
  predicate AddsDisabled(s: Sys, i: nat) {
    && i < |s.calls| && s.calls[i].op == Add(false) && (s.calls[i].at == 1 ==> !s.on)
    && s.calls[i].at in {0, 1, END}
    && (s.stored ==> s.used) && (s.entry ==> s.used) && OffPhase(s)
    && (forall j :: 0 <= j < |s.calls| && j != i ==>
          TurnsOff(s.calls[j].op) && (Active(s.calls[j]) || s.calls[j].at == END))
  }

  lemma AddsDisabledStep(s: Sys, i: nat)
    requires AddsDisabled(s, i)
    ensures AddsDisabled(Step(s, i), i)
  {
    var s' := Step(s, i);
    CallsAfter(s, i);
    forall j | 0 <= j < |s'.calls| ensures KnowsOff(s', s'.calls[j]) {
      assert KnowsOff(s, s.calls[j]);
    }
    if k :| 0 <= k < |s.calls| && WillRemove(s.calls[k]) {
      assert s'.calls[k] == s.calls[k];
    }
    if k :| 0 <= k < |s.calls| && WillEnd(s.calls[k]) {
      assert s'.calls[k] == s.calls[k];
    }
  }

  lemma OtherStep(s: Sys, i: nat, j: nat)
    requires AddsDisabled(s, i) && j < |s.calls| && j != i
    ensures AddsDisabled(Step(s, j), i)
  {
    hide OffPhase;
    CallsAfter(s, j);
    if Active(s.calls[j]) {
      OffStep(s, j);
    } else {
      EndedStays(s, j);
    }
  }

  lemma {:induction false} AddsDisabledRun(s: Sys, i: nat, acts: seq<Action>)
    requires AddsDisabled(s, i) && OnlyGo(acts)
    ensures AddsDisabled(Run(s, acts), i)
    decreases |acts|
  {
    hide AddsDisabled, Step;
    if acts != [] {
      var j := acts[0].i;
      if j < |s.calls| {
        if j == i {
          AddsDisabledStep(s, i);
        } else {
          OtherStep(s, i, j);
        }
      }
      AddsDisabledRun(Apply(s, acts[0]), i, acts[1..]);
    }
  }

  lemma AddDisabledAgrees(s: Sys, p: Op, q: Op, acts: seq<Action>)
    requires AtRest(s) && OnlyGo(acts) && AllReturned(Run(Pair(s, p, q), acts))
    requires (p == Add(false) && TurnsOff(q)) || (q == Add(false) && TurnsOff(p))
    ensures Run(Pair(s, p, q), acts).entry <==> Due(Run(Pair(s, p, q), acts))
  {
    hide Run;
    AddsDisabledRun(Pair(s, p, q), if p == Add(false) then 0 else 1, acts);
    ReturnedAgree(Run(Pair(s, p, q), acts));
  }

  // ---- Others clash: the scheduling call stops before it registers, the other one goes by ----

  function Times(i: nat, n: nat): (r: seq<Action>)
    ensures OnlyGo(r)
  {
    if n == 0 then [] else [Go(i)] + Times(i, n - 1)
  }

  function Sections(s: Sys, i: nat, n: nat): Sys
    decreases n
  {
    if n == 0 then s else Sections(Apply(s, Go(i)), i, n - 1)
  }

  lemma {:induction false} RunTimes(s: Sys, i: nat, n: nat)
    ensures Run(s, Times(i, n)) == Sections(s, i, n)
    decreases n
  {
    hide Apply;
    if n != 0 {
      RunCons(s, Go(i), Times(i, n - 1));
      RunTimes(Apply(s, Go(i)), i, n - 1);
    }
  }

  /** How many sections a scheduling call has before the one that registers. */
  function BeforeRegister(p: Op): nat {
    if p.Update? then 5 else 2
  }

  lemma UpToRegister(s: Sys, i: nat, p: Op)
    requires i < |s.calls| && s.calls[i] == Call(p, 0) && !TurnsOff(p) && p != Add(false)
    requires if p.Add? then !s.used else s.stored && s.on
    ensures var r := Sections(s, i, BeforeRegister(p));
            Due(r) && r.calls == s.calls[i := Call(p, BeforeRegister(p))]
  {
    var s1 := Apply(s, Go(i));
    var s2 := Apply(s1, Go(i));
    assert Sections(s, i, 2) == s2 by {
      assert Sections(s, i, 2) == Sections(s1, i, 1) == Sections(s2, i, 0);
    }
    if p.Update? {
      var s3 := Apply(s2, Go(i));
      var s4 := Apply(s3, Go(i));
      var s5 := Apply(s4, Go(i));
      assert s5.calls[i] == Call(p, 5);
      SectionsFive(s, i);
    }
  }

  lemma SectionsFive(s: Sys, i: nat)
    ensures Sections(s, i, 5) ==
            Apply(Apply(Apply(Apply(Apply(s, Go(i)), Go(i)), Go(i)), Go(i)), Go(i))
  {
    hide Apply;
    var s2 := Apply(Apply(s, Go(i)), Go(i));
    var s4 := Apply(Apply(s2, Go(i)), Go(i));
    assert Sections(s, i, 5) == Sections(s2, i, 3) == Sections(s4, i, 1);
    assert Sections(s4, i, 1) == Sections(Apply(s4, Go(i)), i, 0);
  }

  lemma GoesBy(s: Sys, j: nat, q: Op)
    requires j < |s.calls| && s.calls[j] == Call(q, 0) && TurnsOff(q) && Due(s)
    ensures var r := Sections(s, j, 5);
            !Due(r) && r.calls == s.calls[j := Call(q, END)]
  {
    SectionsFive(s, j);
    var s1 := Apply(s, Go(j));
    var s2 := Apply(s1, Go(j));
    var s3 := Apply(s2, Go(j));
    var s4 := Apply(s3, Go(j));
    assert s2.calls[j].op == q;
    if q.Update? {
      assert s4.calls[j] == Call(q, 4) && !s4.on;
    } else {
      assert s2.calls[j] == Call(q, END);
      EndedStays(s2, j);
      assert s4 == s2;
    }
  }

  function Clashing(i: nat, p: Op, j: nat): (r: seq<Action>)
    ensures OnlyGo(r)
  {
    Times(i, BeforeRegister(p)) + Times(j, 5) + Times(i, 1)
  }

  /** Whichever of the two calls it is, from a job at rest the clash leaves an entry for a job that is
      removed or disabled. */
  lemma Clash(s: Sys, i: nat, p: Op, j: nat, q: Op)
    requires {i, j} == {0, 1} && |s.calls| == 2 && s.calls[i] == Call(p, 0) && s.calls[j] == Call(q, 0)
    requires !TurnsOff(p) && p != Add(false) && TurnsOff(q)
    requires if p.Add? then !s.used else s.stored && s.on
    ensures var r := Run(s, Clashing(i, p, j)); AllReturned(r) && r.entry && !Due(r)
  {
    hide Run, Sections, Times, TurnsOff;
    var n := BeforeRegister(p);
    RunAppend(s, Times(i, n) + Times(j, 5), Times(i, 1));
    RunAppend(s, Times(i, n), Times(j, 5));
    RunTimes(s, i, n);
    UpToRegister(s, i, p);
    var s1 := Sections(s, i, n);
    RunTimes(s1, j, 5);
    GoesBy(s1, j, q);
    var s2 := Sections(s1, j, 5);
    RunTimes(s2, i, 1);
    Registers(s2, i, p);
  }

  lemma Registers(s: Sys, i: nat, p: Op)
    requires i < |s.calls| && s.calls[i] == Call(p, BeforeRegister(p)) && !TurnsOff(p)
    ensures Sections(s, i, 1) == s.(entry := true, calls := s.calls[i := Call(p, END)])
  {
    assert Sections(s, i, 1) == Sections(Apply(s, Go(i)), i, 0);
  }

  /** Two operations may overlap, in every interleaving and from every state at rest, if and only if
      they are of one kind or one of them adds a disabled job. */
  lemma PairAgreesIff(p: Op, q: Op)
    ensures PairAgrees(p, q) <==> Compatible(p, q)
  {
    hide Run, AllReturned, Due;
    if Compatible(p, q) {
      forall s, acts | AtRest(s) && OnlyGo(acts) && AllReturned(Run(Pair(s, p, q), acts))
        ensures Run(Pair(s, p, q), acts).entry <==> Due(Run(Pair(s, p, q), acts))
      {
        if TurnsOff(p) == TurnsOff(q) {
          OneKindAgrees(s, p, q, acts);
        } else {
          AddDisabledAgrees(s, p, q, acts);
        }
      }
    } else {
      PairClashes(p, q);
    }
  }

  lemma PairClashes(p: Op, q: Op)
    requires !Compatible(p, q)
    ensures !PairAgrees(p, q)
  {
    hide Run, Clashing;
    var i, j, on := if TurnsOff(p) then 1 else 0, if TurnsOff(p) then 0 else 1, if TurnsOff(p) then q else p;
    var s := if on.Add? then Init else Sys(true, true, true, true, []);
    var t := Pair(s, p, q);
    Clash(t, i, on, j, if TurnsOff(p) then p else q);
    assert AtRest(s) && OnlyGo(Clashing(i, on, j));
  }
}
