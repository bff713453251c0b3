/** Scheduled runs that interleave with changes to the store. A run looks its job up, and later
    checks on the job object itself whether it is enabled; removing a job leaves the object alone. */
module CronFires {

  datatype Object = Object(id: string, enabled: bool)

  datatype Fire = Triggered(id: string) | Holding(ref: nat) | Ran(ref: nat) | Skipped

  /** All job objects ever added, which of them are in the store, and the runs so far. */
  datatype World = World(objects: seq<Object>, stored: set<nat>, fires: seq<Fire>)

  datatype Action =
    | Trigger(id: string)
    | Lookup(f: nat)
    | Check(f: nat)
    | Add(id: string, on: bool)
    | Remove(id: string)
    | SetEnabled(id: string, on: bool)

  predicate Valid(w: World) {
    && (forall ref :: ref in w.stored ==> ref < |w.objects|)
    && (forall a, b :: a in w.stored && b in w.stored && w.objects[a].id == w.objects[b].id ==> a == b)
    && (forall f :: 0 <= f < |w.fires| && (w.fires[f].Holding? || w.fires[f].Ran?) ==> w.fires[f].ref < |w.objects|)
  }

  predicate IsStored(w: World, id: string) {
    exists ref :: ref in w.stored && ref < |w.objects| && w.objects[ref].id == id
  }

  function StoredRef(w: World, id: string): (ref: nat)
    requires Valid(w) && IsStored(w, id)
    ensures ref in w.stored && w.objects[ref].id == id
  {
    var ref :| ref in w.stored && ref < |w.objects| && w.objects[ref].id == id;
    ref
  }

  /** An action that cannot happen changes nothing. Any id may trigger at any time: registrations
      can be left over from a job that was disabled or removed meanwhile. */
  function Step(w: World, a: Action): World
    requires Valid(w)
  {
    match a
    case Trigger(id) => w.(fires := w.fires + [Triggered(id)])
    case Lookup(f) =>
      if f < |w.fires| && w.fires[f].Triggered? then
        var id := w.fires[f].id;
        w.(fires := w.fires[f := if IsStored(w, id) then Holding(StoredRef(w, id)) else Skipped])
      else w
    case Check(f) =>
      if f < |w.fires| && w.fires[f].Holding? then
        var ref := w.fires[f].ref;
        w.(fires := w.fires[f := if w.objects[ref].enabled then Ran(ref) else Skipped])
      else w
    case Add(id, on) =>
      if IsStored(w, id) then w
      else World(w.objects + [Object(id, on)], w.stored + {|w.objects|}, w.fires)
    case Remove(id) =>
      if IsStored(w, id) then w.(stored := w.stored - {StoredRef(w, id)}) else w
    case SetEnabled(id, on) =>
      if IsStored(w, id) then w.(objects := w.objects[StoredRef(w, id) := Object(id, on)]) else w
  }

  lemma StepValid(w: World, a: Action)
    requires Valid(w)
    ensures Valid(Step(w, a))
    ensures |w.fires| <= |Step(w, a).fires| && |w.objects| <= |Step(w, a).objects|
    ensures forall ref :: 0 <= ref < |w.objects| ==> Step(w, a).objects[ref].id == w.objects[ref].id
  {
  }

  ghost function Run(w: World, actions: seq<Action>): (end: World)
    requires Valid(w)
    ensures Valid(end)
    decreases |actions|
  {
    if actions == [] then w
    else
      var n := |actions| - 1;
      StepValid(Run(w, actions[..n]), actions[n]);
      Step(Run(w, actions[..n]), actions[n])
  }

  /** Only a check lets a run through, and only a lookup gets hold of a job. */
  lemma StepFires(w: World, a: Action, f: nat)
    requires Valid(w) && f < |Step(w, a).fires|
    ensures var now := Step(w, a).fires[f];
            && (now.Ran? && (f >= |w.fires| || w.fires[f] != now) ==>
                  && a == Check(f) && f < |w.fires| && w.fires[f] == Holding(now.ref)
                  && now.ref < |w.objects| && w.objects[now.ref].enabled)
            && (now.Holding? && (f >= |w.fires| || w.fires[f] != now) ==> a == Lookup(f) && now.ref in w.stored)
  {
    hide IsStored;
  }

  /** A run that went through found its job in the store, and found it enabled when it checked. */
  lemma {:induction false} RanWasStoredAndEnabled(w: World, actions: seq<Action>, f: nat, ref: nat)
    returns (i: nat, j: nat)
    requires Valid(w) && w.fires == []
    requires f < |Run(w, actions).fires| && Run(w, actions).fires[f] == Ran(ref)
    ensures i < j < |actions| && actions[i] == Lookup(f) && actions[j] == Check(f)
    ensures ref in Run(w, actions[..i]).stored
    ensures ref < |Run(w, actions[..j]).objects| && Run(w, actions[..j]).objects[ref].enabled
    decreases |actions|
  {
    hide Step, Valid;
    var n := |actions| - 1;
    var before := Run(w, actions[..n]);
    StepFires(before, actions[n], f);
    if f < |before.fires| && before.fires[f] == Ran(ref) {
      i, j := RanWasStoredAndEnabled(w, actions[..n], f, ref);
      assert actions[..n][..i] == actions[..i] && actions[..n][..j] == actions[..j];
    } else {
      j := n;
      i := HoldingWasStored(w, actions[..n], f, ref);
      assert actions[..n][..i] == actions[..i];
    }
  }

  lemma {:induction false} HoldingWasStored(w: World, actions: seq<Action>, f: nat, ref: nat) returns (i: nat)
    requires Valid(w) && w.fires == []
    requires f < |Run(w, actions).fires| && Run(w, actions).fires[f] == Holding(ref)
    ensures i < |actions| && actions[i] == Lookup(f) && ref in Run(w, actions[..i]).stored
    decreases |actions|
  {
    hide Step, Valid;
    var n := |actions| - 1;
    var before := Run(w, actions[..n]);
    StepFires(before, actions[n], f);
    if f < |before.fires| && before.fires[f] == Holding(ref) {
      i := HoldingWasStored(w, actions[..n], f, ref);
      assert actions[..n][..i] == actions[..i];
    } else {
      i := n;
    }
  }

  lemma DisabledStep(w: World, a: Action, ref: nat)
    requires Valid(w) && ref < |w.objects| && !w.objects[ref].enabled && a != SetEnabled(w.objects[ref].id, true)
    ensures ref < |Step(w, a).objects| && !Step(w, a).objects[ref].enabled
    ensures forall f :: 0 <= f < |Step(w, a).fires| && Step(w, a).fires[f] == Ran(ref) ==>
      f < |w.fires| && w.fires[f] == Ran(ref)
  {
    hide IsStored;
  }

  /** Once a job is disabled no run of it goes through until it is enabled again, not even one that
      had looked it up before. */
  lemma {:induction false} DisabledNeverRuns(w: World, actions: seq<Action>, ref: nat)
    requires Valid(w) && ref < |w.objects| && !w.objects[ref].enabled
    requires SetEnabled(w.objects[ref].id, true) !in actions
    ensures ref < |Run(w, actions).objects| && !Run(w, actions).objects[ref].enabled
    ensures Run(w, actions).objects[ref].id == w.objects[ref].id && |w.fires| <= |Run(w, actions).fires|
    ensures forall f :: 0 <= f < |Run(w, actions).fires| && Run(w, actions).fires[f] == Ran(ref) ==>
      f < |w.fires| && w.fires[f] == Ran(ref)
    decreases |actions|
  {
    if actions != [] {
      var n := |actions| - 1;
      assert actions[n] in actions;
      hide Step, Valid;
      var before := Run(w, actions[..n]);
      DisabledNeverRuns(w, actions[..n], ref);
      DisabledStep(before, actions[n], ref);
      StepValid(before, actions[n]);
    }
  }

  /** No run has got hold of the job that had not before. */
  predicate OnlyHeldBy(fires: seq<Fire>, ref: nat, before: seq<Fire>) {
    forall f :: 0 <= f < |fires| && (fires[f] == Holding(ref) || fires[f] == Ran(ref)) ==>
      f < |before| && (before[f] == Holding(ref) || before[f] == Ran(ref))
  }

  lemma SealedStep(w: World, a: Action, ref: nat)
    requires Valid(w) && ref < |w.objects| && ref !in w.stored
    ensures var next := Step(w, a);
            ref < |next.objects| && next.objects[ref] == w.objects[ref] && ref !in next.stored
            && OnlyHeldBy(next.fires, ref, w.fires)
  {
    hide IsStored;
  }

  /** A removed job is out of reach: it stays as it was, and no other run gets hold of it. */
  lemma {:induction false} RemovedIsSealed(w: World, actions: seq<Action>, ref: nat)
    requires Valid(w) && ref < |w.objects| && ref !in w.stored
    ensures var end := Run(w, actions);
            && ref < |end.objects| && end.objects[ref] == w.objects[ref] && ref !in end.stored
            && OnlyHeldBy(end.fires, ref, w.fires)
    decreases |actions|
  {
    if actions != [] {
      hide Step, Valid;
      var n := |actions| - 1;
      RemovedIsSealed(w, actions[..n], ref);
      SealedStep(Run(w, actions[..n]), actions[n], ref);
      StepValid(Run(w, actions[..n]), actions[n]);
    }
  }

  lemma HolderStep(w: World, a: Action, f: nat)
    requires Valid(w) && f < |w.fires|
    ensures f < |Step(w, a).fires|
    ensures w.fires[f].Ran? || w.fires[f].Skipped? ==> Step(w, a).fires[f] == w.fires[f]
    ensures w.fires[f].Holding? && a != Check(f) ==> Step(w, a).fires[f] == w.fires[f]
    ensures w.fires[f].Holding? && a == Check(f) ==>
      Step(w, a).fires[f] == (if w.objects[w.fires[f].ref].enabled then Ran(w.fires[f].ref) else Skipped)
  {
    hide IsStored;
  }

  /** A run that holds a removed job goes through, at its check, exactly if the job was enabled
      when it was removed. */
  lemma {:induction false} HolderOfRemovedRunsIff(w: World, actions: seq<Action>, ref: nat, f: nat)
    requires Valid(w) && ref < |w.objects| && ref !in w.stored
    requires f < |w.fires| && w.fires[f] == Holding(ref)
    ensures f < |Run(w, actions).fires|
    ensures Run(w, actions).fires[f] ==
            if Check(f) !in actions then Holding(ref) else if w.objects[ref].enabled then Ran(ref) else Skipped
    decreases |actions|
  {
    if actions != [] {
      hide Step, Valid;
      var n := |actions| - 1;
      assert actions == actions[..n] + [actions[n]];
      HolderOfRemovedRunsIff(w, actions[..n], ref, f);
      RemovedIsSealed(w, actions[..n], ref);
      HolderStep(Run(w, actions[..n]), actions[n], f);
    }
  }

  /** So a job can run after it was removed: the lookup came before, the check after. */
  lemma RemovedCanStillRun(id: string)
    ensures var w := World([Object(id, true)], {0}, []);
            var end := Run(w, [Trigger(id), Lookup(0), Remove(id), Check(0)]);
            Valid(w) && !IsStored(end, id) && end.fires == [Ran(0)]
  {
    var w := World([Object(id, true)], {0}, []);
    assert IsStored(w, id);
    var w1 := Step(w, Trigger(id));
    var w2 := Step(w1, Lookup(0));
    var w3 := Step(w2, Remove(id));
    RunSteps(w, Trigger(id), Lookup(0), Remove(id), Check(0));
  }

  lemma RunSteps(w: World, a: Action, b: Action, c: Action, d: Action)
    requires Valid(w)
    ensures Valid(Step(w, a)) && Valid(Step(Step(w, a), b)) && Valid(Step(Step(Step(w, a), b), c))
    ensures Run(w, [a, b, c, d]) == Step(Step(Step(Step(w, a), b), c), d)
  {
    hide Valid, Step;
    assert Run(w, []) == w;
    assert [a][..0] == [] && [a, b][..1] == [a] && [a, b, c][..2] == [a, b] && [a, b, c, d][..3] == [a, b, c];
    assert Run(w, [a]) == Step(w, a);
    assert Run(w, [a, b]) == Step(Step(w, a), b);
    assert Run(w, [a, b, c]) == Step(Step(Step(w, a), b), c);
  }
}
