/** That agent sessions do get closed: who takes a session to close it closes it, and which steps leave
    one behind that nobody will. */
module AgentClosing {
  import opened Wrappers
  import opened AgentLifecycle

  /** Actor i is still going to close the session. */
  predicate Holds(s: Sys, i: nat, agent: AgentId) {
    && i < |s.actors|
    && match s.actors[i]
       case CleanupClosing(_, _, _, held) => held == Some(agent)
       case StopClosing(held) => held == Some(agent)
       case ShutdownClosing(states) =>
         agent < |s.home| && s.home[agent] in states && AgentOf(s, Some(s.home[agent])) == Some(agent)
       case _ => false
  }

  /** An untaken session is held by its state, a taken one by the actor that took it. */
  predicate SessionKept(s: Sys, agent: AgentId)
    requires agent < |s.owner| && |s.home| == |s.owner|
  {
    match s.owner[agent]
    case AtHome => s.home[agent] < |s.states| && s.states[s.home[agent]].agent == Some(agent)
    case WithActor(i) => Holds(s, i, agent)
    case Closed => true
  }

  /** A cleanup under way has taken the session out of the state it captured. */
  predicate CapturedIsEmpty(s: Sys, a: Actor) {
    (a.CleanupClosing? || a.CleanupUnmapping?) && a.state.Some? ==>
      a.state.value < |s.states| && s.states[a.state.value].agent.None?
  }

  predicate Kept(s: Sys) {
    && Inv(s)
    && (forall agent: nat :: agent < |s.owner| ==> SessionKept(s, agent))
    && (forall a :: a in s.actors ==> CapturedIsEmpty(s, a))
  }

  // ---- Every step keeps it ----

  lemma SpawnKept(s: Sys, key: Key, withAgent: bool)
    requires Kept(s)
    ensures Kept(SpawnIn(s, key, withAgent))
  {
    hide ClosedOnce, TableOwns, ActorOwns;
    SpawnKeeps(s, key, withAgent);
    var s' := SpawnIn(s, key, withAgent);
    forall agent: nat | agent < |s'.owner| ensures SessionKept(s', agent) {
      assert agent < |s.owner| ==> SessionKept(s, agent);
    }
  }

  lemma CleanupKept(s: Sys, key: Key, expected: Option<StateId>)
    requires Kept(s)
    ensures Kept(CleanupStart(s, key, expected))
  {
    hide ClosedOnce, TableOwns, ActorOwns;
    CleanupStartKeeps(s, key, expected);
    var s' := CleanupStart(s, key, expected);
    forall agent: nat | agent < |s'.owner| ensures SessionKept(s', agent) {
      assert SessionKept(s, agent);
    }
  }

  lemma StopKept(s: Sys, key: Key)
    requires Kept(s)
    ensures Kept(StopStart(s, key))
  {
    hide ClosedOnce, TableOwns, ActorOwns;
    StopStartKeeps(s, key);
    var s' := StopStart(s, key);
    forall agent: nat | agent < |s'.owner| ensures SessionKept(s', agent) {
      assert SessionKept(s, agent);
    }
  }

  lemma ShutdownKept(s: Sys)
    requires Kept(s)
    ensures Kept(ShutdownStart(s))
  {
    hide ClosedOnce, TableOwns, ActorOwns;
    ShutdownStartKeeps(s);
    var s' := ShutdownStart(s);
    forall agent: nat | agent < |s'.owner| ensures SessionKept(s', agent) {
      assert SessionKept(s, agent);
    }
  }

  lemma RecycleKept(s: Sys, key: Key)
    requires Kept(s) && key in s.table && s.states[s.table[key]].agent.Some?
    ensures Kept(RecycleIn(s, key))
  {
    hide ClosedOnce, TableOwns, ActorOwns;
    RecycleKeeps(s, key);
    var s' := RecycleIn(s, key);
    forall agent: nat | agent < |s'.owner| ensures SessionKept(s', agent) {
      assert agent < |s.owner| ==> SessionKept(s, agent);
    }
  }

  lemma CapturedAfter(s: Sys, s': Sys, i: nat, a: Actor)
    requires Kept(s) && i < |s.actors| && s'.actors == s.actors[i := a] && s'.states == s.states
    requires CapturedIsEmpty(s, a)
    ensures forall b :: b in s'.actors ==> CapturedIsEmpty(s', b)
  {
    hide Inv, SessionKept;
    forall b | b in s'.actors ensures CapturedIsEmpty(s', b) {
      assert b == a || b in s.actors;
      assert CapturedIsEmpty(s, b);
    }
  }

  lemma CloseKept(s: Sys, i: nat, held: Option<AgentId>, next: Actor, agent: AgentId)
    requires Kept(s) && i < |s.actors| && agent < |s.owner|
    requires (s.actors[i].CleanupClosing? || s.actors[i].StopClosing?) && s.actors[i].agent == held
    ensures |CountClose(s, held).home| == |CountClose(s, held).owner| == |s.owner|
    ensures SessionKept(SetActor(CountClose(s, held), i, next), agent)
  {
    hide ClosedOnce, TableOwns, CapturedIsEmpty;
    assert SessionKept(s, agent) && ActorOwns(s, i);
  }

  lemma UnmapKept(s: Sys, i: nat, agent: AgentId)
    requires Kept(s) && i < |s.actors| && Advance(s, i).Next? && agent < |s.owner|
    requires s.actors[i].CleanupUnmapping? || s.actors[i].ShutdownClosing?
    ensures Advance(s, i).s.home == s.home && Advance(s, i).s.owner == s.owner
    ensures SessionKept(Advance(s, i).s, agent)
  {
    hide ClosedOnce, TableOwns, CapturedIsEmpty, ActorOwns;
    assert SessionKept(s, agent);
  }

  lemma ContinueKept(s: Sys, i: nat)
    requires Kept(s) && i < |s.actors| && Advance(s, i).Next?
    ensures Kept(Advance(s, i).s)
  {
    hide ClosedOnce, TableOwns, ActorOwns, SessionKept;
    ContinueKeeps(s, i);
    var s' := Advance(s, i).s;
    assert CapturedIsEmpty(s, s.actors[i]);
    CapturedAfter(s, s', i, s'.actors[i]);
    forall agent: nat | agent < |s'.owner| ensures |s'.home| == |s'.owner| && SessionKept(s', agent) {
      HomesOwners(s, i);
      match s.actors[i] {
        case CleanupClosing(key, expected, state, held) =>
          CloseKept(s, i, held, CleanupUnmapping(key, expected, state), agent);
        case StopClosing(held) => CloseKept(s, i, held, Finished, agent);
        case CleanupUnmapping(_, _, _) => UnmapKept(s, i, agent);
        case ShutdownClosing(_) => UnmapKept(s, i, agent);
        case Finished =>
      }
    }
  }

  lemma HomesOwners(s: Sys, i: nat)
    requires Kept(s) && i < |s.actors| && Advance(s, i).Next?
    ensures |Advance(s, i).s.owner| == |s.owner|
  {
    hide WellFormed, ClosedOnce, TableOwns, ActorOwns, SessionKept;
  }

  lemma ShutdownCloseKept(s: Sys, i: nat, x: StateId)
    requires Kept(s) && Apply(s, ShutdownClose(i, x)).Next?
    ensures Kept(Apply(s, ShutdownClose(i, x)).s)
  {
    hide ClosedOnce, TableOwns;
    ShutdownCloseKeeps(s, i, x);
    assert ActorOwns(s, i);
    var s' := Apply(s, ShutdownClose(i, x)).s;
    CapturedAfter(s, s', i, s'.actors[i]);
    forall agent: nat | agent < |s'.owner| ensures SessionKept(s', agent) {
      assert SessionKept(s, agent);
    }
  }

  lemma StepKept(s: Sys, a: Action)
    requires Kept(s) && Apply(s, a).Next?
    ensures Kept(Apply(s, a).s)
  {
    hide Kept, SpawnIn, RecycleIn, CleanupStart, StopStart, ShutdownStart, CountClose, AgentOf, Advance;
    assert Inv(s) by { KeptIsInv(s); }
    match a
    case Spawn(key, withAgent) => SpawnKept(s, key, withAgent);
    case Recycle(key) => RecycleKept(s, key);
    case Cleanup(key, expected) => CleanupKept(s, key, expected);
    case Stop(key) => StopKept(s, key);
    case Shutdown => ShutdownKept(s);
    case ShutdownClose(i, x) => ShutdownCloseKept(s, i, x);
    case Continue(i) => ContinueKept(s, i);
  }

  lemma KeptIsInv(s: Sys)
    requires Kept(s)
    ensures Inv(s)
  {
  }

  lemma {:induction false} RunKept(s: Sys, acts: seq<Action>)
    requires Kept(s) && Run(s, acts).Next?
    ensures Kept(Run(s, acts).s)
    decreases |acts|
  {
    hide Kept, Apply;
    if acts != [] {
      StepKept(s, acts[0]);
      RunKept(Apply(s, acts[0]).s, acts[1..]);
    }
  }

  // ---- Who takes a session closes it ----

  /** The step takes the session, to close it now or later. */
  predicate Takes(s: Sys, a: Action, agent: AgentId) {
    exists key :: key in s.table && AgentOf(s, Some(s.table[key])) == Some(agent) &&
      (a in {Stop(key), Cleanup(key, None), Cleanup(key, Some(s.table[key])), Shutdown, Recycle(key)})
  }

  lemma TakerHolds(s: Sys, a: Action, agent: AgentId)
    requires Kept(s) && Apply(s, a).Next? && Takes(s, a, agent)
    ensures var s' := Apply(s, a).s;
            && agent < |s'.owner| && |s.actors| <= |s'.actors|
            && (if a.Recycle? then s'.owner[agent] == Closed else s'.owner[agent] == WithActor(|s.actors|))
  {
    hide ClosedOnce, ActorOwns;
    var key :| key in s.table && AgentOf(s, Some(s.table[key])) == Some(agent) &&
      (a in {Stop(key), Cleanup(key, None), Cleanup(key, Some(s.table[key])), Shutdown, Recycle(key)});
    assert s.home[agent] == s.table[key];
    assert s.home[agent] in s.table.Values;
  }

  /** A session that was taken stays with its actor until it is closed. */
  predicate OwnerMoves(s: Sys, s': Sys, agent: AgentId)
    requires agent < |s.owner|
  {
    && agent < |s'.owner| && |s.actors| <= |s'.actors|
    && (s.owner[agent].Closed? ==> s'.owner[agent].Closed?)
    && (s.owner[agent].WithActor? ==> s'.owner[agent] in {s.owner[agent], Closed})
  }

  lemma CloseMoves(s: Sys, i: nat, held: Option<AgentId>, a: Actor, agent: AgentId)
    requires i < |s.actors| && agent < |s.owner|
    ensures OwnerMoves(s, SetActor(CountClose(s, held), i, a), agent)
  {
  }

  lemma ContinueMoves(s: Sys, i: nat, agent: AgentId)
    requires i < |s.actors| && Advance(s, i).Next? && agent < |s.owner|
    ensures OwnerMoves(s, Advance(s, i).s, agent)
  {
    hide CountClose, OwnerMoves;
    match s.actors[i]
    case CleanupClosing(key, expected, state, held) =>
      CloseMoves(s, i, held, CleanupUnmapping(key, expected, state), agent);
    case StopClosing(held) => CloseMoves(s, i, held, Finished, agent);
    case CleanupUnmapping(_, _, _) => SameOwner(s, Advance(s, i).s, agent);
    case ShutdownClosing(_) => SameOwner(s, Advance(s, i).s, agent);
    case Finished =>
  }

  lemma SameOwner(s: Sys, s': Sys, agent: AgentId)
    requires agent < |s.owner| && s'.owner == s.owner && |s'.actors| == |s.actors|
    ensures OwnerMoves(s, s', agent)
  {
  }

  lemma OwnerStep(s: Sys, a: Action, agent: AgentId)
    requires Kept(s) && Apply(s, a).Next? && agent < |s.owner|
    ensures OwnerMoves(s, Apply(s, a).s, agent)
  {
    hide ClosedOnce, SessionKept, ActorOwns, CapturedIsEmpty, Advance;
    match a
    case Continue(i) => ContinueMoves(s, i, agent);
    case ShutdownClose(i, x) =>
      CloseMoves(s, i, AgentOf(s, Some(x)), ShutdownClosing(s.actors[i].states - {x}), agent);
    case _ =>
  }

  lemma {:induction false} HeldUntilClosed(s: Sys, acts: seq<Action>, agent: AgentId, i: nat)
    requires Kept(s) && Run(s, acts).Next? && agent < |s.owner| && s.owner[agent] in {WithActor(i), Closed}
    ensures var s' := Run(s, acts).s; agent < |s'.owner| && s'.owner[agent] in {WithActor(i), Closed}
    ensures |s.actors| <= |Run(s, acts).s.actors|
    decreases |acts|
  {
    hide Kept, Apply;
    if acts != [] {
      OwnerStep(s, acts[0], agent);
      StepKept(s, acts[0]);
      HeldUntilClosed(Apply(s, acts[0]).s, acts[1..], agent, i);
    }
  }

  lemma InitKept()
    ensures Kept(Init)
  {
  }

  lemma NotHeldIsClosed(s: Sys, agent: AgentId, i: nat)
    requires Kept(s) && agent < |s.owner| && s.owner[agent] in {WithActor(i), Closed}
    requires s.owner[agent].Closed? || (i < |s.actors| && s.actors[i].Finished?)
    ensures agent < |s.closes| && s.closes[agent] == 1
  {
    assert SessionKept(s, agent);
  }

  /** In every run: the session of a mapped state that a stop, a cleanup or a shutdown takes has been
      closed exactly once by the time that actor has finished, and one that is recycled at once. */
  lemma TakenIsClosed(before: seq<Action>, a: Action, after: seq<Action>, agent: AgentId)
    requires Run(Init, before).Next? && Apply(Run(Init, before).s, a).Next? && Takes(Run(Init, before).s, a, agent)
    requires Run(Apply(Run(Init, before).s, a).s, after).Next?
    requires var s, i := Run(Apply(Run(Init, before).s, a).s, after).s, |Run(Init, before).s.actors|;
             a.Recycle? || (i < |s.actors| && s.actors[i].Finished?)
    ensures var s := Run(Apply(Run(Init, before).s, a).s, after).s; agent < |s.closes| && s.closes[agent] == 1
  {
    hide Run, Apply, Takes, Kept;
    var s0 := Run(Init, before).s;
    var s1 := Apply(s0, a).s;
    InitKept();
    RunKept(Init, before);
    TakerHolds(s0, a, agent);
    StepKept(s0, a);
    HeldUntilClosed(s1, after, agent, |s0.actors|);
    RunKept(s1, after);
    if a.Recycle? {
      StaysClosed(s1, after, agent);
    }
    NotHeldIsClosed(Run(s1, after).s, agent, |s0.actors|);
  }

  lemma {:induction false} StaysClosed(s: Sys, acts: seq<Action>, agent: AgentId)
    requires Kept(s) && Run(s, acts).Next? && agent < |s.owner| && s.owner[agent].Closed?
    ensures var s' := Run(s, acts).s; agent < |s'.owner| && s'.owner[agent].Closed?
    decreases |acts|
  {
    hide Kept, Apply;
    if acts != [] {
      OwnerStep(s, acts[0], agent);
      StepKept(s, acts[0]);
      StaysClosed(Apply(s, acts[0]).s, acts[1..], agent);
    }
  }

  /** An actor that has not finished can take its next step. */
  lemma ActorCanMove(s: Sys, i: nat)
    requires i < |s.actors| && !s.actors[i].Finished?
    ensures Apply(s, Continue(i)).Next? || exists x :: Apply(s, ShutdownClose(i, x)).Next?
  {
    if s.actors[i].ShutdownClosing? && s.actors[i].states != {} {
      var x :| x in s.actors[i].states;
      assert Apply(s, ShutdownClose(i, x)).Next?;
    }
  }

  // ---- Which steps leave a session behind ----

  /** The step takes the entry of the session's state away and leaves the session in it: a spawn over
      it, or the end of a cleanup that captured another state and was given no expected one. */
  predicate LeavesBehind(s: Sys, a: Action, agent: AgentId) {
    && agent < |s.home|
    && match a
       case Spawn(key, _) => key in s.table && s.table[key] == s.home[agent]
       case Continue(i) =>
         && i < |s.actors| && s.actors[i].CleanupUnmapping? && s.actors[i].expected.None?
         && s.actors[i].key in s.table && s.table[s.actors[i].key] == s.home[agent]
         && s.actors[i].state != Some(s.home[agent])
       case _ => false
  }

  lemma StillMapped(s: Sys, s': Sys, agent: AgentId, key: Key)
    requires agent < |s.home| && key in s'.table && agent < |s'.home|
    requires s'.table[key] == s.home[agent] == s'.home[agent]
    ensures !Orphaned(s', agent)
  {
    assert s'.table[key] in s'.table.Values;
  }

  lemma OrphanedByContinue(s: Sys, i: nat, agent: AgentId, key: Key)
    requires Kept(s) && Apply(s, Continue(i)).Next? && agent < |s.owner| && s.owner[agent].AtHome?
    requires key in s.table && s.table[key] == s.home[agent]
    ensures Orphaned(Apply(s, Continue(i)).s, agent) <==> LeavesBehind(s, Continue(i), agent)
  {
    hide ClosedOnce, TableOwns;
    var s' := Apply(s, Continue(i)).s;
    assert SessionKept(s, agent) && ActorOwns(s, i) && CapturedIsEmpty(s, s.actors[i]);
    if !s.actors[i].CleanupUnmapping? || s.actors[i].key != key {
      StillMapped(s, s', agent, key);
    }
  }

  lemma OrphanedByRecycle(s: Sys, k: Key, agent: AgentId, key: Key)
    requires Kept(s) && Apply(s, Recycle(k)).Next? && agent < |s.owner| && s.owner[agent].AtHome?
    requires key in s.table && s.table[key] == s.home[agent]
    ensures !Orphaned(Apply(s, Recycle(k)).s, agent)
  {
    hide ClosedOnce, TableOwns, ActorOwns, CapturedIsEmpty;
    assert SessionKept(s, agent);
    if k != key {
      StillMapped(s, Apply(s, Recycle(k)).s, agent, key);
    }
  }

  lemma OrphanedByTaking(s: Sys, a: Action, agent: AgentId, key: Key)
    requires Kept(s) && Apply(s, a).Next? && agent < |s.owner| && s.owner[agent].AtHome?
    requires key in s.table && s.table[key] == s.home[agent] && (a.Cleanup? || a.Stop? || a.Shutdown?)
    ensures !Orphaned(Apply(s, a).s, agent)
  {
    hide ClosedOnce, TableOwns, ActorOwns, CapturedIsEmpty;
    assert SessionKept(s, agent) && s.home[agent] in s.table.Values;
    if !a.Shutdown? && (a.Cleanup? || a.key != key) {
      StillMapped(s, Apply(s, a).s, agent, key);
    }
  }

  /** A session that its state holds in the table is orphaned by a step if and only if it is one of these. */
  lemma OrphanedIff(s: Sys, a: Action, agent: AgentId)
    requires Kept(s) && Apply(s, a).Next? && agent < |s.owner| && s.owner[agent].AtHome? && !Orphaned(s, agent)
    ensures Orphaned(Apply(s, a).s, agent) <==> LeavesBehind(s, a, agent)
  {
    hide ClosedOnce, TableOwns, ActorOwns, CapturedIsEmpty, Advance, RecycleIn, CleanupStart, StopStart, ShutdownStart;
    assert SessionKept(s, agent);
    var key :| key in s.table && s.table[key] == s.home[agent];
    match a {
      case Spawn(k, _) =>
        if k != key {
          StillMapped(s, Apply(s, a).s, agent, key);
        }
      case Recycle(k) => OrphanedByRecycle(s, k, agent, key);
      case Continue(i) => OrphanedByContinue(s, i, agent, key);
      case ShutdownClose(_, _) => StillMapped(s, Apply(s, a).s, agent, key);
      case _ => OrphanedByTaking(s, a, agent, key);
    }
  }

  lemma NewIsMapped(s: Sys, a: Action, agent: AgentId)
    requires Kept(s) && Apply(s, a).Next? && agent >= |s.owner|
    ensures !Orphaned(Apply(s, a).s, agent)
  {
    hide ClosedOnce, TableOwns, ActorOwns;
    var s' := Apply(s, a).s;
    if a.Spawn? || a.Recycle? {
      assert s'.table[a.key] == |s.states|;
    }
  }

  lemma RunSnoc(s: Sys, acts: seq<Action>, a: Action)
    requires Run(s, acts).Next?
    ensures Run(s, acts + [a]) == Apply(Run(s, acts).s, a)
    decreases |acts|
  {
    hide Apply;
    if acts == [] {
      assert acts + [a] == [a] && [a][1..] == [];
    } else {
      assert (acts + [a])[0] == acts[0] && (acts + [a])[1..] == acts[1..] + [a];
      RunSnoc(Apply(s, acts[0]).s, acts[1..], a);
    }
  }

  lemma RunPrefix(s: Sys, acts: seq<Action>, n: nat)
    requires Run(s, acts).Next? && n <= |acts|
    ensures Run(s, acts[..n]).Next?
    decreases |acts|
  {
    hide Apply;
    if n > 0 {
      assert acts[..n][1..] == acts[1..][..n - 1];
      RunPrefix(Apply(s, acts[0]).s, acts[1..], n - 1);
    }
  }

  /** Every orphan of a run was left behind by one of its steps. */
  lemma {:induction false} OrphanHasCause(acts: seq<Action>, agent: AgentId) returns (k: nat)
    requires Run(Init, acts).Next? && Orphaned(Run(Init, acts).s, agent)
    ensures k < |acts| && Run(Init, acts[..k]).Next? && LeavesBehind(Run(Init, acts[..k]).s, acts[k], agent)
    decreases |acts|
  {
    hide Run, Apply, Kept, Orphaned, LeavesBehind;
    if acts == [] {
      RunNothing();
      NoOrphanYet(agent);
    } else {
      var n := |acts| - 1;
      var before, a := acts[..n], acts[n];
      assert acts == before + [a];
      RunPrefix(Init, acts, n);
      RunSnoc(Init, before, a);
      InitKept();
      RunKept(Init, before);
      var s := Run(Init, before).s;
      if Orphaned(s, agent) {
        k := OrphanHasCause(before, agent);
        assert before[..k] == acts[..k];
      } else {
        k := n;
        LastStepDidIt(s, a, agent);
      }
    }
  }

  lemma RunNothing()
    ensures Run(Init, []) == Next(Init)
  {
  }

  lemma NoOrphanYet(agent: AgentId)
    ensures !Orphaned(Init, agent)
  {
  }

  lemma LastStepDidIt(s: Sys, a: Action, agent: AgentId)
    requires Kept(s) && Apply(s, a).Next? && !Orphaned(s, agent) && Orphaned(Apply(s, a).s, agent)
    ensures LeavesBehind(s, a, agent)
  {
    hide Apply, LeavesBehind;
    if agent >= |s.owner| {
      NewIsMapped(s, a, agent);
    } else {
      OwnerStep(s, a, agent);
      OrphanedIff(s, a, agent);
    }
  }

  /** When no actor is under way, every session ever made has been closed exactly once, or is open and
      mapped, or is open because a step of the run left it behind. */
  lemma EverySessionAccounted(acts: seq<Action>, agent: AgentId) returns (k: nat)
    requires Run(Init, acts).Next?
    requires var s := Run(Init, acts).s;
             agent < |s.closes| && forall i: nat :: i < |s.actors| ==> s.actors[i].Finished?
    ensures var s := Run(Init, acts).s;
            && agent < |s.home|
            && (|| s.closes[agent] == 1
                || (s.closes[agent] == 0 && s.home[agent] in s.table.Values)
                || (&& s.closes[agent] == 0 && k < |acts| && Run(Init, acts[..k]).Next?
                    && LeavesBehind(Run(Init, acts[..k]).s, acts[k], agent)))
  {
    hide Run, LeavesBehind;
    InitKept();
    RunKept(Init, acts);
    var s := Run(Init, acts).s;
    assert SessionKept(s, agent);
    k := 0;
    if s.owner[agent].AtHome? && s.home[agent] !in s.table.Values {
      k := OrphanHasCause(acts, agent);
    }
  }

  // ---- Entries and flags ----

  /** A spawn or a recycling maps its key to a state that was never mapped, with a session of its own
      that is open, or with none for a placeholder; it maps no other key. */
  lemma SpawnMapsFresh(s: Sys, a: Action)
    requires Kept(s) && (a.Spawn? || a.Recycle?) && Apply(s, a).Next?
    ensures var s' := Apply(s, a).s;
            && a.key in s'.table && s'.table[a.key] >= |s.states|
            && (forall k :: k != a.key ==> Lookup(s', k) == Lookup(s, k))
            && var agent := AgentOf(s', Some(s'.table[a.key]));
               && (agent.Some? <==> a.Recycle? || a.withAgent)
               && (agent.Some? ==> |s.closes| <= agent.value < |s'.closes| && s'.closes[agent.value] == 0)
  {
    hide ClosedOnce, TableOwns, ActorOwns, SessionKept, CapturedIsEmpty;
  }

  /** A cleanup that is not pre-empted takes the state it captured out of the table. */
  lemma CleanupUnmapsOwn(s: Sys, i: nat)
    requires i < |s.actors| && s.actors[i].CleanupUnmapping? && (s.actors[i].expected.Some? ==>
               s.actors[i].state == s.actors[i].expected)
    ensures Advance(s, i).Next?
    ensures var a, s' := s.actors[i], Advance(s, i).s;
            && (a.key in s'.table ==> a.key in s.table && s'.table[a.key] == s.table[a.key]
                                      && Some(s.table[a.key]) != a.state)
            && (forall k :: k != a.key ==> Lookup(s', k) == Lookup(s, k))
  {
  }

  lemma ContinueSparesHome(s: Sys, i: nat, agent: AgentId)
    requires Kept(s) && Apply(s, Continue(i)).Next? && agent < |s.owner| && s.owner[agent].AtHome?
    ensures var s' := Apply(s, Continue(i)).s; |s'.owner| == |s.owner| && s'.owner[agent].AtHome?
  {
    hide ClosedOnce, TableOwns, WellFormed, SessionKept, CapturedIsEmpty;
    assert ActorOwns(s, i);
  }

  lemma ShutdownSparesHome(s: Sys, i: nat, x: StateId, agent: AgentId)
    requires Kept(s) && Apply(s, ShutdownClose(i, x)).Next? && agent < |s.owner| && s.owner[agent].AtHome?
    ensures var s' := Apply(s, ShutdownClose(i, x)).s; |s'.owner| == |s.owner| && s'.owner[agent].AtHome?
  {
    hide ClosedOnce, TableOwns, WellFormed, SessionKept, CapturedIsEmpty;
    assert ActorOwns(s, i);
  }

  /** A session is taken from its state only by a step that marks the state stopped, or by a shutdown. */
  lemma TakenIsStopped(s: Sys, a: Action, agent: AgentId)
    requires Kept(s) && Apply(s, a).Next? && agent < |s.owner| && s.owner[agent].AtHome?
    ensures var s' := Apply(s, a).s;
            && agent < |s'.owner| && s.home[agent] < |s'.states|
            && (!s'.owner[agent].AtHome? ==> a.Shutdown? || s'.states[s.home[agent]].stopped)
  {
    hide ClosedOnce, TableOwns, ActorOwns, CapturedIsEmpty, Advance;
    assert SessionKept(s, agent);
    StatesStay(s, a);
    match a
    case Continue(i) => ContinueSparesHome(s, i, agent);
    case ShutdownClose(i, x) => ShutdownSparesHome(s, i, x, agent);
    case _ =>
  }

  /** A stopped state stays stopped. */
  lemma StatesStay(s: Sys, a: Action)
    requires Apply(s, a).Next?
    ensures |s.states| <= |Apply(s, a).s.states|
    ensures forall x :: 0 <= x < |s.states| && s.states[x].stopped ==> Apply(s, a).s.states[x].stopped
  {
  }
}
