/** Who closes an agent session: cleanup, stop, recycle and shutdown racing over the table of
    interactive states. One step is one critical section, or one call of Close. */
module AgentLifecycle {
  import opened Wrappers

  type Key = string
  type StateId = nat
  type AgentId = nat

  /** The fields the race is about. */
  datatype StateObj = StateObj(agent: Option<AgentId>, stopped: bool)

  /** History: who may close an agent session. */
  datatype Owner = AtHome | WithActor(i: nat) | Closed

  /** An actor between two of its critical sections. */
  datatype Actor =
    | CleanupClosing(key: Key, expected: Option<StateId>, state: Option<StateId>, agent: Option<AgentId>)
    | CleanupUnmapping(key: Key, expected: Option<StateId>, state: Option<StateId>)
    | StopClosing(agent: Option<AgentId>)
    | ShutdownClosing(states: set<StateId>)
    | Finished

  /** The table, all state objects ever made, how often each agent session was closed, and the
      actors under way. `home` and `owner` are history: the state an agent session was made
      for, and who is entitled to close it. */
  datatype Sys = Sys(
    table: map<Key, StateId>, states: seq<StateObj>, closes: seq<nat>, actors: seq<Actor>,
    home: seq<StateId>, owner: seq<Owner>)

  datatype Action =
    | Spawn(key: Key, withAgent: bool)  // getOrCreateInteractiveStateWith, when no live session is reused
    | Recycle(key: Key)                 // the same, closing a session that no longer matches
    | Cleanup(key: Key, expected: Option<StateId>)
    | Stop(key: Key)
    | Shutdown
    | Continue(i: nat)                  // actor i takes its next step
    | ShutdownClose(i: nat, state: StateId)

  datatype Next = Disabled | Next(s: Sys)

  const Init := Sys(map[], [], [], [], [], [])

  function Lookup(s: Sys, key: Key): Option<StateId> {
    if key in s.table then Some(s.table[key]) else None
  }

  /** The agent session a state object holds. */
  function AgentOf(s: Sys, state: Option<StateId>): Option<AgentId> {
    if state.Some? && state.value < |s.states| then s.states[state.value].agent else None
  }

  /** Close() is called on the session, if there is one. */
  function CountClose(s: Sys, agent: Option<AgentId>): Sys {
    if agent.Some? && agent.value < |s.closes| && agent.value < |s.owner| then
      s.(closes := s.closes[agent.value := s.closes[agent.value] + 1], owner := s.owner[agent.value := Closed])
    else s
  }

  /** The session now belongs to the actor about to be added. */
  function HandOver(s: Sys, agent: Option<AgentId>): Sys {
    if agent.Some? && agent.value < |s.owner| then s.(owner := s.owner[agent.value := WithActor(|s.actors|)]) else s
  }

  /** A fresh state object, with a fresh agent session or as a placeholder, replaces the entry. */
  function SpawnIn(s: Sys, key: Key, withAgent: bool): Sys {
    var x := |s.states|;
    if withAgent then
      s.(table := s.table[key := x], states := s.states + [StateObj(Some(|s.closes|), false)],
         closes := s.closes + [0], home := s.home + [x], owner := s.owner + [AtHome])
    else
      s.(table := s.table[key := x], states := s.states + [StateObj(None, false)])
  }

  function MarkStopped(s: Sys, state: StateId): Sys
    requires state < |s.states|
  {
    s.(states := s.states[state := s.states[state].(stopped := true)])
  }

  /** The first critical section of cleanupInteractiveState, with markStopped after it. */
  function CleanupStart(s: Sys, key: Key, expected: Option<StateId>): Sys {
    var state := Lookup(s, key);
    if expected.Some? && state != expected then s.(actors := s.actors + [Finished])
    else if state.Some? && state.value < |s.states| then
      var agent := AgentOf(s, state);
      HandOver(s, agent).(states := s.states[state.value := StateObj(None, true)],
        actors := s.actors + [CleanupClosing(key, expected, state, agent)])
    else s.(actors := s.actors + [CleanupClosing(key, expected, state, None)])
  }

  /** The last critical section of cleanupInteractiveState. */
  function CleanupEnd(s: Sys, key: Key, expected: Option<StateId>): Sys {
    if key in s.table && expected.Some? && Some(s.table[key]) != expected then s
    else s.(table := s.table - {key})
  }

  function StopStart(s: Sys, key: Key): Sys {
    var state := Lookup(s, key);
    if state.None? || state.value >= |s.states| then s.(actors := s.actors + [Finished])
    else
      var agent := AgentOf(s, state);
      MarkStopped(HandOver(s, agent), state.value).(table := s.table - {key}, actors := s.actors + [StopClosing(agent)])
  }

  /** Recycling closes the old session while it holds the table's lock, then spawns the new one. */
  function RecycleIn(s: Sys, key: Key): Sys
    requires key in s.table && s.table[key] < |s.states|
  {
    var stale := s.table[key];
    var closed := CountClose(MarkStopped(s, stale), AgentOf(s, Some(stale)));
    SpawnIn(closed.(table := closed.table - {key}), key, true)
  }

  /** Engine.Stop takes every mapped state out of the table, to close their sessions one by one. */
  function ShutdownStart(s: Sys): Sys {
    var owner := seq(|s.owner|, a requires 0 <= a < |s.owner| =>
      if a < |s.home| && s.home[a] in s.table.Values && AgentOf(s, Some(s.home[a])) == Some(a)
        then WithActor(|s.actors|) else s.owner[a]);
    s.(table := map[], actors := s.actors + [ShutdownClosing(s.table.Values)], owner := owner)
  }

  function SetActor(s: Sys, i: nat, a: Actor): Sys
    requires i < |s.actors|
  {
    s.(actors := s.actors[i := a])
  }

  function Advance(s: Sys, i: nat): Next
    requires i < |s.actors|
  {
    match s.actors[i]
    case CleanupClosing(key, expected, state, agent) =>
      Next(SetActor(CountClose(s, agent), i, CleanupUnmapping(key, expected, state)))
    case CleanupUnmapping(key, expected, _) => Next(SetActor(CleanupEnd(s, key, expected), i, Finished))
    case StopClosing(agent) => Next(SetActor(CountClose(s, agent), i, Finished))
    case ShutdownClosing(states) => if states == {} then Next(SetActor(s, i, Finished)) else Disabled
    case Finished => Disabled
  }

  function Apply(s: Sys, a: Action): Next {
    match a
    case Spawn(key, withAgent) => Next(SpawnIn(s, key, withAgent))
    case Recycle(key) =>
      if key in s.table && s.table[key] < |s.states| && s.states[s.table[key]].agent.Some?
        then Next(RecycleIn(s, key)) else Disabled
    case Cleanup(key, expected) => Next(CleanupStart(s, key, expected))
    case Stop(key) => Next(StopStart(s, key))
    case Shutdown => Next(ShutdownStart(s))
    case Continue(i) => if i < |s.actors| then Advance(s, i) else Disabled
    case ShutdownClose(i, state) =>
      if i < |s.actors| && s.actors[i].ShutdownClosing? && state in s.actors[i].states then
        Next(SetActor(CountClose(s, AgentOf(s, Some(state))), i, ShutdownClosing(s.actors[i].states - {state})))
      else Disabled
  }

  function Run(s: Sys, acts: seq<Action>): Next
    decreases |acts|
  {
    if acts == [] then Next(s)
    else
      var n := Apply(s, acts[0]);
      if n.Disabled? then Disabled else Run(n.s, acts[1..])
  }

  /** The table and the state objects fit together; an agent session sits in its home state only. */
  predicate WellFormed(s: Sys) {
    && |s.home| == |s.owner| == |s.closes|
    && (forall k :: k in s.table ==> s.table[k] < |s.states|)
    && (forall k, l :: k in s.table && l in s.table && s.table[k] == s.table[l] ==> k == l)
    && (forall x :: 0 <= x < |s.states| && s.states[x].agent.Some? ==>
          s.states[x].agent.value < |s.home| && s.home[s.states[x].agent.value] == x)
  }

  /** An open session has not been closed; a closed one was closed once. */
  predicate ClosedOnce(s: Sys)
    requires WellFormed(s)
  {
    forall a :: 0 <= a < |s.closes| ==> s.closes[a] == if s.owner[a].Closed? then 1 else 0
  }

  predicate Owned(s: Sys, agent: Option<AgentId>, owner: Owner) {
    agent.Some? ==> agent.value < |s.owner| && s.owner[agent.value] == owner
  }

  /** The session of a mapped state is nobody's to close but through the table. */
  predicate TableOwns(s: Sys)
    requires WellFormed(s)
  {
    forall k :: k in s.table ==> Owned(s, s.states[s.table[k]].agent, AtHome)
  }

  /** An actor that is about to close a session is the one entitled to. */
  predicate ActorOwns(s: Sys, i: nat)
    requires i < |s.actors|
  {
    match s.actors[i]
    case CleanupClosing(_, expected, state, agent) =>
      && Owned(s, agent, WithActor(i)) && (expected.Some? ==> state == expected)
      && (agent.Some? ==> agent.value < |s.home| && Some(s.home[agent.value]) == state)
    case CleanupUnmapping(_, expected, state) => expected.Some? ==> state == expected
    case StopClosing(agent) => Owned(s, agent, WithActor(i))
    case ShutdownClosing(states) => forall x :: x in states ==>
      x < |s.states| && Owned(s, AgentOf(s, Some(x)), WithActor(i))
    case _ => true
  }

  predicate Inv(s: Sys) {
    && WellFormed(s) && ClosedOnce(s) && TableOwns(s)
    && forall i: nat :: i < |s.actors| ==> ActorOwns(s, i)
  }

  lemma SpawnKeeps(s: Sys, key: Key, withAgent: bool)
    requires Inv(s)
    ensures Inv(SpawnIn(s, key, withAgent))
  {
    var s' := SpawnIn(s, key, withAgent);
    forall i: nat | i < |s'.actors| ensures ActorOwns(s', i) {
      assert ActorOwns(s, i);
    }
  }

  /** From s to s' the mapped state of the key gives its session to the new actor, and either
      loses it or leaves the table. */
  predicate Hands(s: Sys, key: Key, a: Actor, s': Sys) {
    && key in s.table && s.table[key] < |s.states|
    && var x := s.table[key];
       && s' == HandOver(s, s.states[x].agent).(states := s'.states, table := s'.table, actors := s.actors + [a])
       && |s'.states| == |s.states| && (forall y :: 0 <= y < |s.states| && y != x ==> s'.states[y] == s.states[y])
       && (|| (s'.table == s.table && s'.states[x].agent == None)
           || (s'.table == s.table - {key} && s'.states[x].agent == s.states[x].agent))
       && (|| a == StopClosing(s.states[x].agent)
           || (&& a.CleanupClosing? && a.agent == s.states[x].agent && a.state == Some(x)
               && (a.expected.Some? ==> a.expected == Some(x))))
  }

  lemma HandsWellFormed(s: Sys, key: Key, a: Actor, s': Sys)
    requires Inv(s) && Hands(s, key, a, s')
    ensures WellFormed(s') && ClosedOnce(s')
  {
    hide ActorOwns;
    assert Owned(s, s.states[s.table[key]].agent, AtHome);
  }

  lemma HandsTableOwns(s: Sys, key: Key, a: Actor, s': Sys)
    requires Inv(s) && Hands(s, key, a, s') && WellFormed(s')
    ensures TableOwns(s')
  {
    hide ActorOwns, ClosedOnce;
    var x := s.table[key];
    forall k | k in s'.table ensures Owned(s', s'.states[s'.table[k]].agent, AtHome) {
      var y := s.table[k];
      assert Owned(s, s.states[y].agent, AtHome);
      if y != x && s.states[y].agent.Some? {
        assert s.home[s.states[y].agent.value] == y;
      }
    }
  }

  lemma HandsActorOwns(s: Sys, key: Key, a: Actor, s': Sys, i: nat)
    requires Inv(s) && Hands(s, key, a, s') && WellFormed(s') && i < |s'.actors|
    ensures ActorOwns(s', i)
  {
    hide ClosedOnce;
    assert Owned(s, s.states[s.table[key]].agent, AtHome);
    if i < |s.actors| {
      assert ActorOwns(s, i);
    }
  }

  lemma HandOverKeeps(s: Sys, key: Key, a: Actor, s': Sys)
    requires Inv(s) && Hands(s, key, a, s')
    ensures Inv(s')
  {
    hide WellFormed, ClosedOnce, TableOwns, ActorOwns, Hands;
    HandsWellFormed(s, key, a, s');
    HandsTableOwns(s, key, a, s');
    forall i: nat | i < |s'.actors| ensures ActorOwns(s', i) {
      HandsActorOwns(s, key, a, s', i);
    }
  }

  lemma CleanupStartKeeps(s: Sys, key: Key, expected: Option<StateId>)
    requires Inv(s)
    ensures Inv(CleanupStart(s, key, expected))
  {
    hide ClosedOnce, TableOwns, HandOver;
    var state, s' := Lookup(s, key), CleanupStart(s, key, expected);
    if state.None? || (expected.Some? && state != expected) {
      AddIdleActor(s, s'.actors[|s.actors|]);
    } else {
      HandOverFrame(s, AgentOf(s, state));
      HandOverKeeps(s, key, s'.actors[|s.actors|], s');
    }
  }

  lemma AddIdleActor(s: Sys, a: Actor)
    requires Inv(s) && (a.Finished? || (a.CleanupClosing? && a.agent.None? && a.expected.None?))
    ensures Inv(s.(actors := s.actors + [a]))
  {
    var s' := s.(actors := s.actors + [a]);
    forall i: nat | i < |s'.actors| ensures ActorOwns(s', i) {
      if i < |s.actors| {
        assert ActorOwns(s, i);
      }
    }
  }

  lemma StopStartKeeps(s: Sys, key: Key)
    requires Inv(s)
    ensures Inv(StopStart(s, key))
  {
    hide ClosedOnce, TableOwns, HandOver;
    var state, s' := Lookup(s, key), StopStart(s, key);
    if state.None? {
      AddIdleActor(s, Finished);
    } else {
      HandOverFrame(s, AgentOf(s, state));
      HandOverKeeps(s, key, s'.actors[|s.actors|], s');
    }
  }

  lemma HandOverFrame(s: Sys, agent: Option<AgentId>)
    ensures var h := HandOver(s, agent);
            h.states == s.states && h.table == s.table && h.actors == s.actors && h.closes == s.closes
              && h.home == s.home
  {
  }

  lemma ShutdownStartKeeps(s: Sys)
    requires Inv(s)
    ensures Inv(ShutdownStart(s))
  {
    var s' := ShutdownStart(s);
    forall i: nat | i < |s'.actors| ensures ActorOwns(s', i) {
      if i < |s.actors| {
        assert ActorOwns(s, i);
      }
    }
  }

  /** Closing what an actor is entitled to close, and moving that actor on. */
  lemma CloseKeeps(s: Sys, i: nat, agent: Option<AgentId>, next: Actor)
    requires Inv(s) && i < |s.actors| && Owned(s, agent, WithActor(i))
    requires next.Finished? || (next.CleanupUnmapping? && (next.expected.Some? ==> next.state == next.expected))
      || (s.actors[i].ShutdownClosing? && next.ShutdownClosing? && next.states <= s.actors[i].states
          && forall x :: x in next.states ==> agent.None? || AgentOf(s, Some(x)) != agent)
    ensures Inv(SetActor(CountClose(s, agent), i, next))
  {
    var s' := SetActor(CountClose(s, agent), i, next);
    assert ActorOwns(s, i);
    forall j: nat | j < |s'.actors| ensures ActorOwns(s', j) {
      assert ActorOwns(s, j);
    }
  }

  lemma RecycleKeeps(s: Sys, key: Key)
    requires Inv(s) && key in s.table && s.states[s.table[key]].agent.Some?
    ensures Inv(RecycleIn(s, key))
  {
    var x := s.table[key];
    var closed := CountClose(MarkStopped(s, x), AgentOf(s, Some(x)));
    var mid := closed.(table := closed.table - {key});
    forall j: nat | j < |mid.actors| ensures ActorOwns(mid, j) {
      assert ActorOwns(s, j);
    }
    SpawnKeeps(mid, key, true);
  }

  lemma UnmapKeeps(s: Sys, i: nat)
    requires Inv(s) && i < |s.actors| && s.actors[i].CleanupUnmapping?
    ensures Inv(SetActor(CleanupEnd(s, s.actors[i].key, s.actors[i].expected), i, Finished))
  {
    var s' := SetActor(CleanupEnd(s, s.actors[i].key, s.actors[i].expected), i, Finished);
    forall j: nat | j < |s'.actors| ensures ActorOwns(s', j) {
      assert ActorOwns(s, j);
    }
  }

  lemma ShutdownCloseKeeps(s: Sys, i: nat, x: StateId)
    requires Inv(s) && i < |s.actors| && s.actors[i].ShutdownClosing? && x in s.actors[i].states
    ensures Inv(SetActor(CountClose(s, AgentOf(s, Some(x))), i, ShutdownClosing(s.actors[i].states - {x})))
  {
    assert ActorOwns(s, i);
    var rest := s.actors[i].states - {x};
    forall y | y in rest ensures AgentOf(s, Some(x)).None? || AgentOf(s, Some(y)) != AgentOf(s, Some(x)) {
    }
    CloseKeeps(s, i, AgentOf(s, Some(x)), ShutdownClosing(rest));
  }

  lemma StepKeepsInv(s: Sys, a: Action)
    requires Inv(s) && Apply(s, a).Next?
    ensures Inv(Apply(s, a).s)
  {
    hide Inv, SpawnIn, RecycleIn, CleanupStart, StopStart, ShutdownStart, CountClose, CleanupEnd, AgentOf;
    match a
    case Spawn(key, withAgent) => SpawnKeeps(s, key, withAgent);
    case Recycle(key) => RecycleKeeps(s, key);
    case Cleanup(key, expected) => CleanupStartKeeps(s, key, expected);
    case Stop(key) => StopStartKeeps(s, key);
    case Shutdown => ShutdownStartKeeps(s);
    case ShutdownClose(i, x) => ShutdownCloseKeeps(s, i, x);
    case Continue(i) => ContinueKeeps(s, i);
  }

  lemma ContinueKeeps(s: Sys, i: nat)
    requires Inv(s) && i < |s.actors| && Advance(s, i).Next?
    ensures Inv(Advance(s, i).s)
  {
    assert ActorOwns(s, i);
    match s.actors[i]
    case CleanupClosing(key, expected, state, agent) => CloseKeeps(s, i, agent, CleanupUnmapping(key, expected, state));
    case CleanupUnmapping(key, expected, state) => UnmapKeeps(s, i);
    case StopClosing(agent) => CloseKeeps(s, i, agent, Finished);
    case ShutdownClosing(states) =>
      CloseKeeps(s, i, None, Finished);
  }

  lemma {:induction false} RunKeepsInv(s: Sys, acts: seq<Action>)
    requires Inv(s) && Run(s, acts).Next?
    ensures Inv(Run(s, acts).s)
    decreases |acts|
  {
    hide Inv, Apply;
    if acts != [] {
      StepKeepsInv(s, acts[0]);
      RunKeepsInv(Apply(s, acts[0]).s, acts[1..]);
    }
  }

  /** Over every interleaving of spawns, recycles, cleanups, stops and shutdowns, no agent
      session is closed more than once. */
  lemma ClosedAtMostOnce(acts: seq<Action>, agent: AgentId)
    requires Run(Init, acts).Next? && agent < |Run(Init, acts).s.closes|
    ensures Run(Init, acts).s.closes[agent] <= 1
  {
    hide Run;
    RunKeepsInv(Init, acts);
  }

  /** A cleanup that was given an expected state closes no session but that state's, unmaps no
      other state, and maps nothing. */
  lemma ExpectedCleanupSparesOthers(acts: seq<Action>, i: nat, x: StateId)
    requires Run(Init, acts).Next?
    requires var s := Run(Init, acts).s;
             && i < |s.actors| && (s.actors[i].CleanupClosing? || s.actors[i].CleanupUnmapping?)
             && s.actors[i].expected == Some(x)
    ensures var s := Run(Init, acts).s;
            && Advance(s, i).Next?
            && var s' := Advance(s, i).s;
               && |s'.closes| == |s.closes| == |s.home|
               && (forall a :: 0 <= a < |s.closes| && s'.closes[a] != s.closes[a] ==> s.home[a] == x)
               && (forall k :: k in s'.table ==> k in s.table && s'.table[k] == s.table[k])
               && (forall k :: k in s.table && k !in s'.table ==> s.table[k] == x)
  {
    hide Run;
    RunKeepsInv(Init, acts);
    assert ActorOwns(Run(Init, acts).s, i);
  }

  lemma InitKeeps()
    ensures Inv(Init)
  {
  }

  /** Exactly when a cleanup removes an entry that is not its own: in every reachable state, its
      last step takes another state than the one it captured out of the table if and only if it was
      given no expected state and the entry has been replaced since. */
  lemma CleanupUnmapsOtherIff(acts: seq<Action>, i: nat)
    requires Run(Init, acts).Next?
    requires var s := Run(Init, acts).s; i < |s.actors| && s.actors[i].CleanupUnmapping?
    ensures var s := Run(Init, acts).s;
            && Advance(s, i).Next?
            && var (a, s') := (s.actors[i], Advance(s, i).s);
               && (a.expected.Some? ==> a.state == a.expected)
               && ((exists k :: k in s.table && k !in s'.table && Some(s.table[k]) != a.state)
                   <==> a.expected.None? && a.key in s.table && Some(s.table[a.key]) != a.state)
  {
    hide Run, WellFormed, ClosedOnce, TableOwns;
    InitKeeps();
    RunKeepsInv(Init, acts);
    assert ActorOwns(Run(Init, acts).s, i);
  }

  /** An open session whose state is in nobody's hands and not in the table. */
  predicate Orphaned(s: Sys, agent: AgentId) {
    && agent < |s.owner| && agent < |s.home| && agent < |s.closes| && s.home[agent] < |s.states|
    && s.owner[agent] == AtHome && s.home[agent] !in s.table.Values
  }

  /** Closing a session that an actor or the table is entitled to close is closing no orphan. */
  lemma OrphanNotClosed(s: Sys, agent: AgentId, closed: Option<AgentId>)
    requires Orphaned(s, agent) && closed != Some(agent)
    ensures Orphaned(CountClose(s, closed), agent)
  {
  }

  lemma OrphanContinue(s: Sys, i: nat, agent: AgentId)
    requires Inv(s) && Orphaned(s, agent) && i < |s.actors| && Advance(s, i).Next?
    ensures Orphaned(Advance(s, i).s, agent)
  {
    hide WellFormed, ClosedOnce, TableOwns;
    assert ActorOwns(s, i);
  }

  lemma OrphanShutdownClose(s: Sys, i: nat, x: StateId, agent: AgentId)
    requires Inv(s) && Orphaned(s, agent) && Apply(s, ShutdownClose(i, x)).Next?
    ensures Orphaned(Apply(s, ShutdownClose(i, x)).s, agent)
  {
    hide WellFormed, ClosedOnce, TableOwns;
    assert ActorOwns(s, i);
  }

  lemma OrphanRecycle(s: Sys, key: Key, agent: AgentId)
    requires Inv(s) && Orphaned(s, agent) && key in s.table
    ensures Orphaned(RecycleIn(s, key), agent)
  {
    hide ActorOwns, ClosedOnce, CountClose;
    var x := s.table[key];
    var marked := MarkStopped(s, x);
    assert AgentOf(marked, Some(x)) == AgentOf(s, Some(x)) != Some(agent);
    OrphanNotClosed(marked, agent, AgentOf(s, Some(x)));
  }

  lemma OrphanStep(s: Sys, a: Action, agent: AgentId)
    requires Inv(s) && Orphaned(s, agent) && Apply(s, a).Next?
    ensures Orphaned(Apply(s, a).s, agent)
  {
    hide ActorOwns, ClosedOnce, RecycleIn, Advance;
    match a
    case Recycle(key) => OrphanRecycle(s, key, agent);
    case Continue(i) => OrphanContinue(s, i, agent);
    case ShutdownClose(i, x) => OrphanShutdownClose(s, i, x, agent);
    case _ =>
  }

  /** What such a step leaves behind is never closed, whatever happens afterwards. */
  lemma {:induction false} OrphansStayOpen(s: Sys, acts: seq<Action>, agent: AgentId)
    requires Inv(s) && Orphaned(s, agent) && Run(s, acts).Next?
    ensures Orphaned(Run(s, acts).s, agent) && Run(s, acts).s.closes[agent] == 0
    decreases |acts|
  {
    hide Inv, Apply, Orphaned;
    if acts == [] {
      OrphanIsOpen(s, agent);
    } else {
      StepKeepsInv(s, acts[0]);
      OrphanStep(s, acts[0], agent);
      OrphansStayOpen(Apply(s, acts[0]).s, acts[1..], agent);
    }
  }

  lemma OrphanIsOpen(s: Sys, agent: AgentId)
    requires Inv(s) && Orphaned(s, agent)
    ensures s.closes[agent] == 0
  {
  }

  /** Its first step, too, touches no other state: with another state mapped it does nothing. */
  lemma ExpectedCleanupStart(s: Sys, key: Key, x: StateId)
    requires Inv(s)
    ensures var s' := CleanupStart(s, key, Some(x));
            && s'.table == s.table && s'.closes == s.closes && |s'.states| == |s.states|
            && (forall y :: 0 <= y < |s.states| && y != x ==> s'.states[y] == s.states[y])
            && (Lookup(s, key) != Some(x) ==> s'.states == s.states && s'.owner == s.owner)
  {
  }

  /** Without an expected state this fails: a cleanup that is still closing the old session unmaps
      the replacement made meanwhile, whose session then stays open and out of every actor's reach. */
  lemma PlainCleanupUnmapsReplacement(key: Key)
    ensures var acts := [Spawn(key, true), Cleanup(key, None), Spawn(key, true), Continue(0), Continue(0)];
            && Run(Init, acts).Next?
            && var s := Run(Init, acts).s;
               && s.table == map[] && s.actors == [Finished]
               && |s.states| == 2 && s.states[1].agent == Some(1) && |s.closes| == 2 && s.closes[0] == 1
                  && s.closes[1] == 0
  {
    var s1 := Apply(Init, Spawn(key, true)).s;
    var s2 := Apply(s1, Cleanup(key, None)).s;
    assert s2.actors == [CleanupClosing(key, None, Some(0), Some(0))];
    var s3 := Apply(s2, Spawn(key, true)).s;
    var s4 := Apply(s3, Continue(0)).s;
    assert s4.actors == [CleanupUnmapping(key, None, Some(0))];
    var s5 := Apply(s4, Continue(0)).s;
    assert s5.table == map[];
    RunFive(Spawn(key, true), Cleanup(key, None), Spawn(key, true), Continue(0), Continue(0));
  }

  lemma RunFive(a: Action, b: Action, c: Action, d: Action, e: Action)
    requires Apply(Init, a).Next? && Apply(Apply(Init, a).s, b).Next?
    requires var s := Apply(Apply(Init, a).s, b).s;
             && Apply(s, c).Next? && Apply(Apply(s, c).s, d).Next? && Apply(Apply(Apply(s, c).s, d).s, e).Next?
    ensures Run(Init, [a, b, c, d, e])
         == var s := Apply(Apply(Init, a).s, b).s; Apply(Apply(Apply(s, c).s, d).s, e)
  {
    hide Apply;
    var s1 := Apply(Init, a).s;
    var s2 := Apply(s1, b).s;
    var s3 := Apply(s2, c).s;
    var s4 := Apply(s3, d).s;
    assert [a, b, c, d, e][1..] == [b, c, d, e] && [b, c, d, e][1..] == [c, d, e] && [c, d, e][1..] == [d, e]
           && [d, e][1..] == [e] && [e][1..] == [];
    assert Run(s4, [e]) == Apply(s4, e);
    assert Run(s3, [d, e]) == Run(s4, [e]);
    assert Run(s2, [c, d, e]) == Run(s3, [d, e]);
    assert Run(s1, [b, c, d, e]) == Run(s2, [c, d, e]);
  }
}
