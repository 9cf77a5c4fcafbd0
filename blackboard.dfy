/** The execution engine: compute the conflict set, resolve it, fire the chosen production,
    advance the automaton, and repeat until the conflict set is empty. */
module Blackboard {
  import opened Wrappers
  import opened Conflicts
  import opened Automaton
  import opened Scheduler
  import opened Resolvers

  /** The matching engine and the productions' effect routines, seen as oracles over a world `W`:
      `canFire` is a production's current eligible tokens, `stillFires` the staleness recheck an
      effect routine makes on the token it was offered, `effect` the routine's change to the world,
      or None when the routine throws (a knowledge-service request that is rejected). */
  datatype Engine<!W, !T> = Engine(
    canFire: (W, nat) -> Matches<T>,
    stillFires: (W, ConflictItem<T>) -> bool,
    effect: (W, ConflictItem<T>) -> Option<W>)

  /** Firing a production: a stale item leaves the world as it was and never throws; a live one
      runs the effect routine, which may throw. */
  function Fire<W, T>(engine: Engine<W, T>, w: W, item: ConflictItem<T>): (r: Option<W>)
    ensures !engine.stillFires(w, item) ==> r == Some(w)
    ensures engine.stillFires(w, item) ==> r == engine.effect(w, item)
  {
    if engine.stillFires(w, item) then engine.effect(w, item) else Some(w)
  }

  /** How a run ended: an empty conflict set in an accepting or a non-accepting state (the two
      messages the loop prints before leaving), the firing budget exhausted while productions were
      still eligible, or a firing that threw and so ended the loop. */
  datatype Outcome = Accepted | Rejected | OutOfFuel | Aborted

  datatype RunResult<W, T> = RunResult(outcome: Outcome, state: nat, world: W, fired: seq<ConflictItem<T>>)

  function Symbols<T>(items: seq<ConflictItem<T>>): (r: seq<nat>)
    ensures |r| == |items| && forall i :: 0 <= i < |items| ==> r[i] == items[i].symbol
  {
    if items == [] then [] else [items[0].symbol] + Symbols(items[1..])
  }

  /** The item the resolver picks is an eligible production whose transition leads to a real state. */
  lemma ResolvedIsAdmissible<W, T>(m: StateMachine, n: nat, resolver: Resolver, canFire: (W, nat) -> Matches<T>, state: nat, w: W)
    requires WellFormed(m, n) && 0 < state < |m.stateTable|
    requires ConflictsUpTo(m.stateTable[state], state, canFire, w, n) != []
    ensures var item := Resolve(resolver, ConflictsUpTo(m.stateTable[state], state, canFire, w, n));
            item.symbol < n && 0 < m.stateTable[state][item.symbol] < |m.stateTable|
  {
    ConflictsSound(m.stateTable[state], state, canFire, w, n);
  }

  /** The control loop as a function of the starting state and world, with at most `fuel` firings. */
  function Run<W, T>(m: StateMachine, n: nat, resolver: Resolver, engine: Engine<W, T>, state: nat, w: W, fuel: nat)
    : (r: RunResult<W, T>)
    requires WellFormed(m, n) && 0 < state < |m.stateTable|
    ensures 0 < r.state < |m.stateTable|
    ensures |r.fired| <= fuel
    decreases fuel
  {
    var cs := ConflictsUpTo(m.stateTable[state], state, engine.canFire, w, n);
    if cs == [] then
      RunResult(if IsAccepting(m, state) then Accepted else Rejected, state, w, [])
    else if fuel == 0 then
      RunResult(OutOfFuel, state, w, [])
    else
      ResolvedIsAdmissible(m, n, resolver, engine.canFire, state, w);
      var item := Resolve(resolver, cs);
      match Fire(engine, w, item)
      case None => RunResult(Aborted, state, w, [])
      case Some(w') =>
        var rest := Run(m, n, resolver, engine, m.stateTable[state][item.symbol], w', fuel - 1);
        RunResult(rest.outcome, rest.state, rest.world, [item] + rest.fired)
  }

  /** The run restricted to what happens after `done` has already fired. */
  function After<W, T>(done: seq<ConflictItem<T>>, r: RunResult<W, T>): (r': RunResult<W, T>)
  {
    RunResult(r.outcome, r.state, r.world, done + r.fired)
  }

  /** One turn of the loop: with a non-empty conflict set and fuel left, the resolved item
      fires first; if the firing throws the run ends there, in the same state and world, otherwise
      it continues from the item's transition target and the world the firing left. */
  lemma RunStep<W, T>(m: StateMachine, n: nat, resolver: Resolver, engine: Engine<W, T>, state: nat, w: W, fuel: nat)
    requires WellFormed(m, n) && 0 < state < |m.stateTable| && fuel > 0
    requires ConflictsUpTo(m.stateTable[state], state, engine.canFire, w, n) != []
    ensures var item := Resolve(resolver, ConflictsUpTo(m.stateTable[state], state, engine.canFire, w, n));
            && item.symbol < n && 0 < m.stateTable[state][item.symbol] < |m.stateTable|
            && Run(m, n, resolver, engine, state, w, fuel)
               == if Fire(engine, w, item).None? then RunResult(Aborted, state, w, [])
                  else After([item], Run(m, n, resolver, engine, m.stateTable[state][item.symbol], Fire(engine, w, item).value, fuel - 1))
  {
    ResolvedIsAdmissible(m, n, resolver, engine.canFire, state, w);
  }

  /** The end of a run: an empty conflict set stops it, classified by the acceptance of the state. */
  lemma RunStop<W, T>(m: StateMachine, n: nat, resolver: Resolver, engine: Engine<W, T>, state: nat, w: W, fuel: nat)
    requires WellFormed(m, n) && 0 < state < |m.stateTable|
    requires ConflictsUpTo(m.stateTable[state], state, engine.canFire, w, n) == []
    ensures Run(m, n, resolver, engine, state, w, fuel)
            == RunResult(if IsAccepting(m, state) then Accepted else Rejected, state, w, [])
  {
  }

  lemma AfterAfter<W, T>(a: seq<ConflictItem<T>>, b: seq<ConflictItem<T>>, r: RunResult<W, T>)
    ensures After(a, After(b, r)) == After(a + b, r)
  {
    assert a + (b + r.fired) == (a + b) + r.fired;
  }

  /** One turn of the loop: compute the conflict set; stop on an empty one (reporting whether the
      state accepts), on a spent budget, or on a firing that throws; otherwise fire the resolved item
      and take its transition. Either way the turn agrees with the run from the state it started in. */
  method Turn<W, T>(scheduler: RegexScheduler, resolver: Resolver, engine: Engine<W, T>, w: W, remaining: nat)
    returns (stop: bool, outcome: Outcome, w': W, item: ConflictItem<T>)
    requires scheduler.Valid()
    modifies scheduler
    ensures scheduler.Valid()
    ensures stop ==> RunResult(outcome, scheduler.currentState, w', [])
                     == Run(scheduler.stateMachine, scheduler.productionCount, resolver, engine, old(scheduler.currentState), w, remaining)
    ensures !stop ==> remaining > 0
                      && Run(scheduler.stateMachine, scheduler.productionCount, resolver, engine, old(scheduler.currentState), w, remaining)
                         == After([item], Run(scheduler.stateMachine, scheduler.productionCount, resolver, engine, scheduler.currentState, w', remaining - 1))
  {
    ghost var m, n, s := scheduler.stateMachine, scheduler.productionCount, scheduler.currentState;
    w', item, outcome := w, ConflictItem(0, Matches([], []), false), OutOfFuel;
    var conflictSet := scheduler.ConflictSet(engine.canFire, w);
    if |conflictSet| == 0 {
      var accepting := scheduler.OnAcceptingState();
      RunStop(m, n, resolver, engine, s, w, remaining);
      return true, if accepting then Accepted else Rejected, w, item;
    }
    if remaining == 0 {
      return true, OutOfFuel, w, item;
    }
    item := Resolve(resolver, conflictSet);
    RunStep(m, n, resolver, engine, s, w, remaining);
    var fw := Fire(engine, w, item);
    if fw.None? {
      return true, Aborted, w, item;
    }
    w' := fw.value;
    scheduler.TakeTransition(item.symbol);
    stop := false;
  }

  /** The loop of the engine: one resolved production fired and one transition taken per turn. */
  method RunBlackboard<W, T>(scheduler: RegexScheduler, resolver: Resolver, engine: Engine<W, T>, w0: W, fuel: nat)
    returns (outcome: Outcome, w: W, fired: seq<ConflictItem<T>>)
    requires scheduler.Valid()
    modifies scheduler
    ensures scheduler.Valid()
    ensures RunResult(outcome, scheduler.currentState, w, fired)
            == Run(scheduler.stateMachine, scheduler.productionCount, resolver, engine, old(scheduler.currentState), w0, fuel)
  {
    ghost var m, n := scheduler.stateMachine, scheduler.productionCount;
    ghost var whole := Run(m, n, resolver, engine, scheduler.currentState, w0, fuel);
    w, fired := w0, [];
    var remaining := fuel;
    while true
      invariant scheduler.Valid() && scheduler.stateMachine == m && scheduler.productionCount == n
      invariant whole == After(fired, Run(m, n, resolver, engine, scheduler.currentState, w, remaining))
      decreases remaining
    {
      var stop, item;
      stop, outcome, w, item := Turn(scheduler, resolver, engine, w, remaining);
      if stop {
        assert fired + [] == fired;
        return;
      }
      AfterAfter(fired, [item], Run(m, n, resolver, engine, scheduler.currentState, w, remaining - 1));
      fired := fired + [item];
      remaining := remaining - 1;
    }
  }

  /** The firing trace is a path through the automaton: following the fired symbols from the
      starting state never meets a missing transition and ends in the final state. */
  lemma {:induction false} RunFollowsAutomaton<W, T>(m: StateMachine, n: nat, resolver: Resolver, engine: Engine<W, T>, state: nat, w: W, fuel: nat)
    requires WellFormed(m, n) && 0 < state < |m.stateTable|
    ensures Walk(m, n, state, Symbols(Run(m, n, resolver, engine, state, w, fuel).fired))
            == Some(Run(m, n, resolver, engine, state, w, fuel).state)
    decreases fuel
  {
    var cs := ConflictsUpTo(m.stateTable[state], state, engine.canFire, w, n);
    if cs != [] && fuel > 0 {
      RunStep(m, n, resolver, engine, state, w, fuel);
      var item := Resolve(resolver, cs);
      if Fire(engine, w, item).Some? {
        var next, w' := m.stateTable[state][item.symbol], Fire(engine, w, item).value;
        var rest := Run(m, n, resolver, engine, next, w', fuel - 1);
        RunFollowsAutomaton(m, n, resolver, engine, next, w', fuel - 1);
        assert ([item] + rest.fired)[1..] == rest.fired;
        assert ([item.symbol] + Symbols(rest.fired))[1..] == Symbols(rest.fired);
      }
    }
  }

  /** A run that leaves the loop normally stopped on an empty conflict set and is classified by
      the acceptance of the state it stopped in; a run cut short by the budget used all of it and
      still had an eligible production; an aborted run stopped on a non-empty conflict set whose
      resolved item threw when fired. */
  lemma {:induction false} RunHaltsOnEmptyConflictSet<W, T>(m: StateMachine, n: nat, resolver: Resolver, engine: Engine<W, T>, state: nat, w: W, fuel: nat)
    requires WellFormed(m, n) && 0 < state < |m.stateTable|
    ensures var r := Run(m, n, resolver, engine, state, w, fuel);
            (r.outcome == Accepted || r.outcome == Rejected) ==>
              && ConflictsUpTo(m.stateTable[r.state], r.state, engine.canFire, r.world, n) == []
              && (r.outcome == Accepted <==> IsAccepting(m, r.state))
    ensures var r := Run(m, n, resolver, engine, state, w, fuel);
            r.outcome == OutOfFuel ==>
              |r.fired| == fuel && ConflictsUpTo(m.stateTable[r.state], r.state, engine.canFire, r.world, n) != []
    ensures var r := Run(m, n, resolver, engine, state, w, fuel);
            r.outcome == Aborted ==>
              && |r.fired| < fuel
              && ConflictsUpTo(m.stateTable[r.state], r.state, engine.canFire, r.world, n) != []
              && Fire(engine, r.world, Resolve(resolver, ConflictsUpTo(m.stateTable[r.state], r.state, engine.canFire, r.world, n))).None?
    decreases fuel
  {
    var cs := ConflictsUpTo(m.stateTable[state], state, engine.canFire, w, n);
    if cs != [] && fuel > 0 {
      RunStep(m, n, resolver, engine, state, w, fuel);
      var item := Resolve(resolver, cs);
      if Fire(engine, w, item).Some? {
        RunHaltsOnEmptyConflictSet(m, n, resolver, engine, m.stateTable[state][item.symbol], Fire(engine, w, item).value, fuel - 1);
      }
    }
  }

  /** A run classified as accepted fired a word of the scheduling language. */
  lemma AcceptedRunFiresAcceptedWord<W, T>(m: StateMachine, n: nat, resolver: Resolver, engine: Engine<W, T>, state: nat, w: W, fuel: nat)
    requires WellFormed(m, n) && 0 < state < |m.stateTable|
    requires Run(m, n, resolver, engine, state, w, fuel).outcome == Accepted
    ensures AcceptsFrom(m, n, state, Symbols(Run(m, n, resolver, engine, state, w, fuel).fired))
  {
    RunFollowsAutomaton(m, n, resolver, engine, state, w, fuel);
    RunHaltsOnEmptyConflictSet(m, n, resolver, engine, state, w, fuel);
  }

  /** A run classified as rejected fired a word the scheduling language does not contain. */
  lemma RejectedRunFiresRejectedWord<W, T>(m: StateMachine, n: nat, resolver: Resolver, engine: Engine<W, T>, state: nat, w: W, fuel: nat)
    requires WellFormed(m, n) && 0 < state < |m.stateTable|
    requires Run(m, n, resolver, engine, state, w, fuel).outcome == Rejected
    ensures !AcceptsFrom(m, n, state, Symbols(Run(m, n, resolver, engine, state, w, fuel).fired))
  {
    RunFollowsAutomaton(m, n, resolver, engine, state, w, fuel);
    RunHaltsOnEmptyConflictSet(m, n, resolver, engine, state, w, fuel);
  }

  /** A firing that throws ends the run at once: no transition is taken, nothing more fires, and
      the run is neither accepted nor rejected. */
  lemma FailedFiringAbortsRun<W, T>(m: StateMachine, n: nat, resolver: Resolver, engine: Engine<W, T>, state: nat, w: W, fuel: nat)
    requires WellFormed(m, n) && 0 < state < |m.stateTable| && fuel > 0
    requires ConflictsUpTo(m.stateTable[state], state, engine.canFire, w, n) != []
    requires engine.stillFires(w, Resolve(resolver, ConflictsUpTo(m.stateTable[state], state, engine.canFire, w, n)))
    requires engine.effect(w, Resolve(resolver, ConflictsUpTo(m.stateTable[state], state, engine.canFire, w, n))).None?
    ensures Run(m, n, resolver, engine, state, w, fuel) == RunResult(Aborted, state, w, [])
  {
    RunStep(m, n, resolver, engine, state, w, fuel);
  }

  /** The budget only cuts runs short: a run that stops within it stops the same way with any larger one. */
  lemma {:induction false} RunFuelMonotone<W, T>(m: StateMachine, n: nat, resolver: Resolver, engine: Engine<W, T>, state: nat, w: W, fuel: nat, more: nat)
    requires WellFormed(m, n) && 0 < state < |m.stateTable|
    requires fuel <= more
    requires Run(m, n, resolver, engine, state, w, fuel).outcome != OutOfFuel
    ensures Run(m, n, resolver, engine, state, w, more) == Run(m, n, resolver, engine, state, w, fuel)
    decreases fuel
  {
    var cs := ConflictsUpTo(m.stateTable[state], state, engine.canFire, w, n);
    if cs != [] {
      RunStep(m, n, resolver, engine, state, w, fuel);
      RunStep(m, n, resolver, engine, state, w, more);
      var item := Resolve(resolver, cs);
      if Fire(engine, w, item).Some? {
        RunFuelMonotone(m, n, resolver, engine, m.stateTable[state][item.symbol], Fire(engine, w, item).value, fuel - 1, more - 1);
      }
    }
  }

  /** A resolved item whose token went stale leaves the world untouched, yet the automaton still
      takes its transition and the loop goes on. */
  lemma StaleItemStillAdvances<W, T>(m: StateMachine, n: nat, resolver: Resolver, engine: Engine<W, T>, state: nat, w: W, fuel: nat)
    requires WellFormed(m, n) && 0 < state < |m.stateTable| && fuel > 0
    requires ConflictsUpTo(m.stateTable[state], state, engine.canFire, w, n) != []
    requires !engine.stillFires(w, Resolve(resolver, ConflictsUpTo(m.stateTable[state], state, engine.canFire, w, n)))
    ensures var item := Resolve(resolver, ConflictsUpTo(m.stateTable[state], state, engine.canFire, w, n));
            && item.symbol < n && 0 < m.stateTable[state][item.symbol] < |m.stateTable|
            && Run(m, n, resolver, engine, state, w, fuel)
               == After([item], Run(m, n, resolver, engine, m.stateTable[state][item.symbol], w, fuel - 1))
  {
    RunStep(m, n, resolver, engine, state, w, fuel);
  }

  /** Two states besides the sentinel: state 1 moves to the accepting state 2 on symbol 0 and has
      no transition on symbol 1; state 2 has no transitions. */
  function ScenarioMachine(): (m: StateMachine)
  {
    StateMachine([[0, 0], [2, 0], [0, 0]], [0, 0, 1])
  }

  /** Production 0 matches (one token) exactly when `matchable0`; production 1 never matches.
      The world counts the effects applied; when `serviceUp` is false every effect throws. */
  function ScenarioEngine(matchable0: bool, serviceUp: bool): (e: Engine<int, nat>)
  {
    Engine(
      (w: int, t: nat) => if t == 0 && matchable0 then Matches([7], []) else Matches([], []),
      (w: int, item: ConflictItem<nat>) => true,
      (w: int, item: ConflictItem<nat>) => if serviceUp then Some(w + 1) else None)
  }

  /** Production 0 fires once, the automaton reaches state 2, the conflict set empties, success. */
  lemma ScenarioAcceptsAfterOneFiring(resolver: Resolver, fuel: nat)
    requires fuel > 0
    ensures WellFormed(ScenarioMachine(), 2)
    ensures Run(ScenarioMachine(), 2, resolver, ScenarioEngine(true, true), 1, 0, fuel)
            == RunResult(Accepted, 2, 1, [ConflictItem(0, Matches([7], []), false)])
  {
    var m, e := ScenarioMachine(), ScenarioEngine(true, true);
    assert WellFormed(m, 2);
    var item := ConflictItem(0, Matches([7], []), false);
    var cs := ConflictsUpTo(m.stateTable[1], 1, e.canFire, 0, 2);
    assert cs == [item] by {
      assert ConflictsUpTo(m.stateTable[1], 1, e.canFire, 0, 1) == [item];
    }
    assert Resolve(resolver, cs) == item by {
      assert Resolve(resolver, cs) in [item];
    }
    assert Fire(e, 0, item) == Some(1);
    assert Run(m, 2, resolver, e, 2, 1, fuel - 1) == RunResult(Accepted, 2, 1, []) by {
      assert ConflictsUpTo(m.stateTable[2], 2, e.canFire, 1, 1) == [];
      assert ConflictsUpTo(m.stateTable[2], 2, e.canFire, 1, 2) == [];
      RunStop(m, 2, resolver, e, 2, 1, fuel - 1);
    }
    RunStep(m, 2, resolver, e, 1, 0, fuel);
    assert [item] + [] == [item];
  }

  /** Production 0 never matches: the conflict set is empty at once, failure, nothing fired. */
  lemma ScenarioRejectsWithoutFiring(resolver: Resolver, fuel: nat)
    ensures WellFormed(ScenarioMachine(), 2)
    ensures Run(ScenarioMachine(), 2, resolver, ScenarioEngine(false, true), 1, 0, fuel) == RunResult(Rejected, 1, 0, [])
  {
    var m, e := ScenarioMachine(), ScenarioEngine(false, true);
    assert WellFormed(m, 2);
    assert ConflictsUpTo(m.stateTable[1], 1, e.canFire, 0, 1) == [];
    assert ConflictsUpTo(m.stateTable[1], 1, e.canFire, 0, 2) == [];
  }

  /** Production 0 is offered but its knowledge-service request fails: the run aborts in state 1
      with nothing fired. */
  lemma ScenarioAbortsOnFailedRequest(resolver: Resolver, fuel: nat)
    requires fuel > 0
    ensures WellFormed(ScenarioMachine(), 2)
    ensures Run(ScenarioMachine(), 2, resolver, ScenarioEngine(true, false), 1, 0, fuel) == RunResult(Aborted, 1, 0, [])
  {
    var m, e := ScenarioMachine(), ScenarioEngine(true, false);
    assert WellFormed(m, 2);
    var row := m.stateTable[1];
    assert ConflictsUpTo(row, 1, e.canFire, 0, 1) == [ConflictItem(0, Matches([7], []), false)];
    assert ConflictsUpTo(row, 1, e.canFire, 0, 2) == [ConflictItem(0, Matches([7], []), false)];
  }
}
