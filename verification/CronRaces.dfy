/** The scheduler's operations on one job id as their critical sections, running concurrently.
    Operations on other ids touch neither its job nor its entry. Expressions parse. */
module CronRaces {

  datatype Change = On | Off | Expr

  datatype Op = Add(on: bool) | Remove | Enable | Disable | Update(change: Change)

  /** A call, and which of its sections comes next; END when it has returned. */
  datatype Call = Call(op: Op, at: nat)

  const END := 9

  /** Whether the job is in the store, the flag of the job object, whether the id has an entry with
      its registration, and whether the id was ever given out. */
  datatype Sys = Sys(stored: bool, on: bool, entry: bool, used: bool, calls: seq<Call>)

  const Init := Sys(false, false, false, false, [])

  datatype Action = Begin(op: Op) | Go(i: nat)

  function To(s: Sys, i: nat, at: nat): Sys
    requires i < |s.calls|
  {
    s.(calls := s.calls[i := Call(s.calls[i].op, at)])
  }

  /** The next section of call i. */
  function Step(s: Sys, i: nat): Sys
    requires i < |s.calls|
  {
    var at := s.calls[i].at;
    match s.calls[i].op
    case Add(on) =>
      if at == 0 then (if s.used then To(s, i, END) else To(s.(stored := true, on := on, used := true), i, 1))
      else if at == 1 then To(s, i, if s.on then 2 else END)
      else if at == 2 then To(s.(entry := true), i, END)
      else s
    case Remove =>
      if at == 0 then To(s.(entry := false), i, 1)
      else if at == 1 then To(s.(stored := false), i, END)
      else s
    case Enable =>
      if at == 0 then (if s.stored then To(s.(on := true), i, 1) else To(s, i, END))
      else if at == 1 then To(s, i, if s.stored then 2 else END)
      else if at == 2 then To(s.(entry := true), i, END)
      else s
    case Disable =>
      if at == 0 then (if s.stored then To(s.(on := false), i, 1) else To(s, i, END))
      else if at == 1 then To(s.(entry := false), i, END)
      else s
    case Update(change) =>
      if at == 0 then To(s, i, if s.stored then 1 else END)
      else if at == 1 then To(s.(entry := false), i, 2)
      else if at == 2 then
        if s.stored then To(s.(on := if change.Expr? then s.on else change.On?), i, 3) else To(s, i, END)
      else if at == 3 then To(s, i, if s.stored then 4 else END)
      else if at == 4 then To(s, i, if s.on then 5 else END)
      else if at == 5 then To(s.(entry := true), i, END)
      else s
  }

  function Apply(s: Sys, a: Action): Sys {
    match a
    case Begin(op) => s.(calls := s.calls + [Call(op, 0)])
    case Go(i) => if i < |s.calls| then Step(s, i) else s
  }

  function Run(s: Sys, acts: seq<Action>): Sys
    decreases |acts|
  {
    if acts == [] then s else Run(Apply(s, acts[0]), acts[1..])
  }

  /** Operations that can end a job's being due; the others can only schedule it. */
  predicate TurnsOff(op: Op) {
    op.Remove? || op.Disable? || op == Update(Off)
  }

  predicate Active(c: Call) {
    c.at <= 5
  }

  predicate SomeOff(s: Sys) {
    exists i :: 0 <= i < |s.calls| && Active(s.calls[i]) && TurnsOff(s.calls[i].op)
  }

  predicate SomeOn(s: Sys) {
    exists i :: 0 <= i < |s.calls| && Active(s.calls[i]) && !TurnsOff(s.calls[i].op)
  }

  /** Nowhere along the run is a call that can end the job's being due under way together with one
      that can schedule it. */
  predicate Separated(s: Sys, acts: seq<Action>)
    decreases |acts|
  {
    !(SomeOff(s) && SomeOn(s)) && (acts == [] || Separated(Apply(s, acts[0]), acts[1..]))
  }

  predicate Due(s: Sys) {
    s.stored && s.on
  }

  /** A call that has passed its removal, or has nothing to remove, and is going to schedule a due job. */
  predicate WillAdd(c: Call) {
    match c.op
    case Enable => c.at == 1 || c.at == 2
    case Add(_) => c.at == 1 || c.at == 2
    case Update(_) => 2 <= c.at <= 5
    case _ => false
  }

  /** What a scheduling call knows while nothing can end the job's being due. */
  predicate KnowsOn(s: Sys, c: Call) {
    Active(c) && !TurnsOff(c.op) ==>
      match c.op
      case Enable => c.at >= 1 ==> Due(s) && c.at <= 2
      case Add(_) => (c.at >= 1 ==> s.stored && c.at <= 2) && (c.at == 2 ==> Due(s))
      case Update(change) => (c.at >= 1 ==> s.stored) && (c.at >= 3 && change.On? ==> Due(s)) && (c.at == 5 ==> Due(s))
      case _ => true
  }

  predicate OnPhase(s: Sys) {
    && (s.entry ==> Due(s))
    && (Due(s) && !s.entry ==> exists i :: 0 <= i < |s.calls| && WillAdd(s.calls[i]) && !TurnsOff(s.calls[i].op))
    && (forall i :: 0 <= i < |s.calls| ==> KnowsOn(s, s.calls[i]))
  }

  /** What a call that turns off knows while nothing can schedule the job. */
  predicate KnowsOff(s: Sys, c: Call) {
    Active(c) && TurnsOff(c.op) ==>
      match c.op
      case Remove => (c.at >= 1 ==> !s.entry && c.at <= 1)
      case Disable => (c.at >= 1 ==> !Due(s) && c.at <= 1)
      case Update(_) => (c.at >= 2 ==> !s.entry) && (c.at >= 3 ==> !Due(s) && !s.on) && c.at <= 4
      case _ => true
  }

  predicate WillRemove(c: Call) {
    c == Call(Disable, 1)
  }

  predicate WillEnd(c: Call) {
    c == Call(Remove, 1) || c == Call(Update(Off), 2)
  }

  predicate OffPhase(s: Sys) {
    && (s.entry && !Due(s) ==> exists i :: 0 <= i < |s.calls| && WillRemove(s.calls[i]))
    && (Due(s) && !s.entry ==> exists i :: 0 <= i < |s.calls| && WillEnd(s.calls[i]))
    && (forall i :: 0 <= i < |s.calls| ==> KnowsOff(s, s.calls[i]))
  }

  predicate Inv(s: Sys) {
    && (s.stored ==> s.used) && (s.entry ==> s.used)
    && (forall i :: 0 <= i < |s.calls| ==> Active(s.calls[i]) || s.calls[i].at == END)
    && (!SomeOff(s) ==> OnPhase(s))
    && (!SomeOn(s) ==> OffPhase(s))
  }

  lemma OneCallMoves(s: Sys, i: nat) returns (at: nat)
    requires i < |s.calls|
    ensures Step(s, i).calls == s.calls[i := Call(s.calls[i].op, at)]
    ensures Active(s.calls[i]) || s.calls[i].at == END ==> at <= 5 || at == END
  {
    var s' := Step(s, i);
    if s' == s {
      at := s.calls[i].at;
      assert s.calls[i := Call(s.calls[i].op, at)] == s.calls;
    } else {
      at := s'.calls[i].at;
    }
  }

  lemma CallsAfter(s: Sys, i: nat)
    requires i < |s.calls|
    ensures |Step(s, i).calls| == |s.calls| && Step(s, i).calls[i].op == s.calls[i].op
    ensures forall j :: 0 <= j < |s.calls| && j != i ==> Step(s, i).calls[j] == s.calls[j]
    ensures Active(s.calls[i]) || s.calls[i].at == END ==> Active(Step(s, i).calls[i]) || Step(s, i).calls[i].at == END
  {
    hide Step;
    var at := OneCallMoves(s, i);
  }

  /** A section of a scheduling call, while nothing turns off. */
  lemma OnStep(s: Sys, i: nat)
    requires Inv(s) && i < |s.calls| && Active(s.calls[i]) && !TurnsOff(s.calls[i].op) && !SomeOff(s)
    ensures var s' := Step(s, i); OnPhase(s') && (s'.stored ==> s'.used) && (s'.entry ==> s'.used)
  {
    var s', c := Step(s, i), s.calls[i];
    CallsAfter(s, i);
    assert KnowsOn(s, c);
    forall j | 0 <= j < |s'.calls| ensures KnowsOn(s', s'.calls[j]) {
      assert KnowsOn(s, s.calls[j]);
    }
    if Due(s') && !s'.entry && !WillAdd(s'.calls[i]) {
      var k :| 0 <= k < |s.calls| && WillAdd(s.calls[k]) && !TurnsOff(s.calls[k].op);
      assert k != i;
      assert WillAdd(s'.calls[k]);
    }
  }

  /** A section of a call that turns off, while nothing schedules. */
  lemma OffStep(s: Sys, i: nat)
    requires OffPhase(s) && (s.stored ==> s.used) && (s.entry ==> s.used)
    requires i < |s.calls| && Active(s.calls[i]) && TurnsOff(s.calls[i].op)
    ensures var s' := Step(s, i); OffPhase(s') && (s'.stored ==> s'.used) && (s'.entry ==> s'.used)
  {
    var s', c := Step(s, i), s.calls[i];
    CallsAfter(s, i);
    assert KnowsOff(s, c);
    forall j | 0 <= j < |s'.calls| ensures KnowsOff(s', s'.calls[j]) {
      assert KnowsOff(s, s.calls[j]);
    }
    if s'.entry && !Due(s') && !WillRemove(s'.calls[i]) {
      var k :| 0 <= k < |s.calls| && WillRemove(s.calls[k]);
      assert k != i;
      assert WillRemove(s'.calls[k]);
    }
    if Due(s') && !s'.entry && !WillEnd(s'.calls[i]) {
      var k :| 0 <= k < |s.calls| && WillEnd(s.calls[k]);
      assert k != i;
      assert WillEnd(s'.calls[k]);
    }
  }

  lemma WillActOnlyActive(s: Sys)
    ensures forall i :: 0 <= i < |s.calls| && WillAdd(s.calls[i]) ==> Active(s.calls[i])
    ensures forall i :: 0 <= i < |s.calls| && (WillRemove(s.calls[i]) || WillEnd(s.calls[i])) ==>
              Active(s.calls[i]) && TurnsOff(s.calls[i].op)
  {
  }

  /** When the last scheduling call returns, or the last one that turns off, the other phase may begin. */
  lemma OnToOff(s: Sys)
    requires OnPhase(s) && !SomeOn(s) && !SomeOff(s)
    ensures OffPhase(s)
  {
    WillActOnlyActive(s);
  }

  lemma OffToOn(s: Sys)
    requires OffPhase(s) && !SomeOn(s) && !SomeOff(s)
    ensures OnPhase(s)
  {
    WillActOnlyActive(s);
  }

  lemma BeginKeeps(s: Sys, op: Op)
    requires Inv(s)
    ensures Inv(Apply(s, Begin(op)))
  {
    var s' := Apply(s, Begin(op));
    SomeBegun(s, op);
    if !SomeOff(s') {
      forall i | 0 <= i < |s'.calls| ensures KnowsOn(s', s'.calls[i]) {
        assert i < |s.calls| ==> KnowsOn(s, s.calls[i]);
      }
      if Due(s) && !s.entry {
        var k :| 0 <= k < |s.calls| && WillAdd(s.calls[k]) && !TurnsOff(s.calls[k].op);
        assert s'.calls[k] == s.calls[k];
      }
    }
    if !SomeOn(s') {
      forall i | 0 <= i < |s'.calls| ensures KnowsOff(s', s'.calls[i]) {
        assert i < |s.calls| ==> KnowsOff(s, s.calls[i]);
      }
      if s.entry && !Due(s) {
        var k :| 0 <= k < |s.calls| && WillRemove(s.calls[k]);
        assert s'.calls[k] == s.calls[k];
      }
      if Due(s) && !s.entry {
        var k :| 0 <= k < |s.calls| && WillEnd(s.calls[k]);
        assert s'.calls[k] == s.calls[k];
      }
    }
  }

  lemma SomeBegun(s: Sys, op: Op)
    ensures SomeOff(s) ==> SomeOff(Apply(s, Begin(op)))
    ensures SomeOn(s) ==> SomeOn(Apply(s, Begin(op)))
  {
    var s' := Apply(s, Begin(op));
    if i :| 0 <= i < |s.calls| && Active(s.calls[i]) && TurnsOff(s.calls[i].op) {
      assert s'.calls[i] == s.calls[i];
    }
    if i :| 0 <= i < |s.calls| && Active(s.calls[i]) && !TurnsOff(s.calls[i].op) {
      assert s'.calls[i] == s.calls[i];
    }
  }

  lemma SomeAfter(s: Sys, i: nat)
    requires i < |s.calls| && (Active(s.calls[i]) || s.calls[i].at == END)
    ensures !SomeOff(s) ==> !SomeOff(Step(s, i))
    ensures !SomeOn(s) ==> !SomeOn(Step(s, i))
  {
    var s' := Step(s, i);
    CallsAfter(s, i);
    if j :| 0 <= j < |s'.calls| && Active(s'.calls[j]) && TurnsOff(s'.calls[j].op) {
      assert Active(s.calls[j]) && TurnsOff(s.calls[j].op);
    }
    if j :| 0 <= j < |s'.calls| && Active(s'.calls[j]) && !TurnsOff(s'.calls[j].op) {
      assert Active(s.calls[j]) && !TurnsOff(s.calls[j].op);
    }
  }

  lemma GoKeeps(s: Sys, i: nat)
    requires Inv(s) && !(SomeOff(s) && SomeOn(s)) && i < |s.calls|
    ensures Inv(Step(s, i))
  {
    hide OnPhase, OffPhase, Step, SomeOff, SomeOn, TurnsOff;
    if Active(s.calls[i]) {
      var s' := Step(s, i);
      CallsAfter(s, i);
      SomeAfter(s, i);
      if TurnsOff(s.calls[i].op) {
        IsSome(s, i);
        OffStep(s, i);
        if !SomeOff(s') {
          OffToOn(s');
        }
      } else {
        IsSome(s, i);
        OnStep(s, i);
        if !SomeOn(s') {
          OnToOff(s');
        }
      }
    } else {
      EndedStays(s, i);
    }
  }

  lemma IsSome(s: Sys, i: nat)
    requires i < |s.calls| && Active(s.calls[i])
    ensures if TurnsOff(s.calls[i].op) then SomeOff(s) else SomeOn(s)
  {
  }

  lemma EndedStays(s: Sys, i: nat)
    requires i < |s.calls| && s.calls[i].at == END
    ensures Step(s, i) == s
  {
  }

  lemma {:induction false} RunKeeps(s: Sys, acts: seq<Action>)
    requires Inv(s) && Separated(s, acts)
    ensures Inv(Run(s, acts))
    decreases |acts|
  {
    hide Inv, SomeOff, SomeOn, Step;
    if acts != [] {
      match acts[0] {
        case Begin(op) => BeginKeeps(s, op);
        case Go(i) =>
          if i < |s.calls| {
            GoKeeps(s, i);
          }
      }
      RunKeeps(Apply(s, acts[0]), acts[1..]);
    }
  }

  predicate AllReturned(s: Sys) {
    forall i :: 0 <= i < |s.calls| ==> !Active(s.calls[i])
  }

  /** In every interleaving of any number of calls in which those that turn the job off do not
      overlap those that schedule it: whenever all calls have returned, the id has an entry if and
      only if its job is stored and enabled. Calls of one kind may overlap freely. */
  lemma SeparatedCallsAgree(acts: seq<Action>)
    requires Separated(Init, acts) && AllReturned(Run(Init, acts))
    ensures Run(Init, acts).entry <==> Due(Run(Init, acts))
  {
    hide Run, Separated;
    RunKeeps(Init, acts);
    var s := Run(Init, acts);
    assert !SomeOff(s) && !SomeOn(s);
    OnToOff(s);
    WillActOnlyActive(s);
  }

  // ---- Where they do overlap it can fail ----

  lemma RunCons(s: Sys, a: Action, rest: seq<Action>)
    ensures Run(s, [a] + rest) == Run(Apply(s, a), rest)
  {
    hide Apply;
    assert ([a] + rest)[1..] == rest;
  }

  lemma {:induction false} RunAppend(s: Sys, a: seq<Action>, b: seq<Action>)
    ensures Run(s, a + b) == Run(Run(s, a), b)
    decreases |a|
  {
    hide Apply;
    if a == [] {
      assert a + b == b;
    } else {
      assert (a + b)[0] == a[0] && (a + b)[1..] == a[1..] + b;
      RunAppend(Apply(s, a[0]), a[1..], b);
    }
  }

  function Added(): Sys {
    Sys(true, true, true, true, [Call(Add(true), END)])
  }

  const ADDING := [Begin(Add(true)), Go(0), Go(0), Go(0)]

  lemma AddRuns()
    ensures Run(Init, ADDING) == Added()
  {
    var s1 := Apply(Init, Begin(Add(true)));
    assert s1.calls == [Call(Add(true), 0)];
    var s2 := Apply(s1, Go(0));
    var s3 := Apply(s2, Go(0));
    var s4 := Apply(s3, Go(0));
    assert ADDING == [Begin(Add(true))] + [Go(0), Go(0), Go(0)];
    assert [Go(0), Go(0), Go(0)] == [Go(0)] + [Go(0), Go(0)] && [Go(0), Go(0)] == [Go(0)] + [Go(0)]
           && [Go(0)] == [Go(0)] + [];
    RunCons(Init, Begin(Add(true)), [Go(0), Go(0), Go(0)]);
    RunCons(s1, Go(0), [Go(0), Go(0)]);
    RunCons(s2, Go(0), [Go(0)]);
    RunCons(s3, Go(0), []);
    assert s4 == Added();
  }

  /** An enabling call that has looked the job up, and a removal that goes by: the removed job keeps
      a registration. */
  lemma RemovedJobStaysRegistered()
    ensures var acts := ADDING + [Begin(Enable), Begin(Remove), Go(1), Go(1), Go(2), Go(2), Go(1)];
            AllReturned(Run(Init, acts)) && Run(Init, acts).entry && !Run(Init, acts).stored
  {
    hide Run;
    AddRuns();
    var tail := [Begin(Enable), Begin(Remove), Go(1), Go(1), Go(2), Go(2), Go(1)];
    RunAppend(Init, ADDING, tail);
    var a := Added();
    var s1 := Apply(a, Begin(Enable));
    var s2 := Apply(s1, Begin(Remove));
    assert s2.calls == [Call(Add(true), END), Call(Enable, 0), Call(Remove, 0)];
    var s3 := Apply(s2, Go(1));
    var s4 := Apply(s3, Go(1));
    var s5 := Apply(s4, Go(2));
    var s6 := Apply(s5, Go(2));
    var s7 := Apply(s6, Go(1));
    assert s7.calls == [Call(Add(true), END), Call(Enable, END), Call(Remove, END)];
    RunSeven(a, tail);
  }

  lemma RunNothing(s: Sys)
    ensures Run(s, []) == s
  {
  }

  lemma RunSeven(s: Sys, acts: seq<Action>)
    requires |acts| == 7
    ensures Run(s, acts) ==
            Apply(Apply(Apply(Apply(Apply(Apply(Apply(s, acts[0]), acts[1]), acts[2]), acts[3]), acts[4]), acts[5]),
              acts[6])
  {
    hide Apply;
    var s1 := Apply(s, acts[0]);
    var s2 := Apply(s1, acts[1]);
    var s3 := Apply(s2, acts[2]);
    var s4 := Apply(s3, acts[3]);
    var s5 := Apply(s4, acts[4]);
    var s6 := Apply(s5, acts[5]);
    assert Run(s, acts) == Run(s1, acts[1..]);
    assert acts[1..][1..] == acts[2..] && acts[2..][1..] == acts[3..] && acts[3..][1..] == acts[4..];
    assert acts[4..][1..] == acts[5..] && acts[5..][1..] == acts[6..] && acts[6..][1..] == [];
    assert Run(s1, acts[1..]) == Run(s2, acts[2..]);
    assert Run(s2, acts[2..]) == Run(s3, acts[3..]);
    assert Run(s3, acts[3..]) == Run(s4, acts[4..]);
    assert Run(s4, acts[4..]) == Run(s5, acts[5..]);
    assert Run(s5, acts[5..]) == Run(s6, acts[6..]);
    var s7 := Apply(s6, acts[6]);
    assert Run(s6, acts[6..]) == Run(s7, []);
    RunNothing(s7);
  }
}
