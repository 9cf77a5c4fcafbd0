/** The compiled state machine that constrains the firing order of productions. */
module Automaton {
  import opened Wrappers

  /** A transition table indexed by state and then by production symbol (0 = no
      transition), and a per-state acceptance flag tested for truthiness. */
  datatype StateMachine = StateMachine(stateTable: seq<seq<nat>>, accepting: seq<int>)

  /** The shape the scheduler relies on: row 0 is the sentinel, state 1 (the start
      state) exists, every row has one column per production and every entry names
      a row of the table. */
  predicate WellFormed(m: StateMachine, productionCount: nat)
  {
    && |m.stateTable| >= 2
    && (forall s :: 0 <= s < |m.stateTable| ==> |m.stateTable[s]| == productionCount)
    && (forall s, t :: 0 <= s < |m.stateTable| && 0 <= t < productionCount ==> m.stateTable[s][t] < |m.stateTable|)
  }

  /** `accepting[state]` is truthy; an index past the end reads `undefined`, which is falsy. */
  predicate IsAccepting(m: StateMachine, state: nat)
  {
    state < |m.accepting| && m.accepting[state] != 0
  }

  /** Follows `word` through the table from `state`; None as soon as a symbol has no transition. */
  function Walk(m: StateMachine, productionCount: nat, state: nat, word: seq<nat>): (r: Option<nat>)
    requires WellFormed(m, productionCount) && state < |m.stateTable|
    ensures r.Some? ==> r.value < |m.stateTable|
    ensures r.Some? && word != [] ==> r.value != 0
    decreases |word|
  {
    if word == [] then Some(state)
    else if word[0] >= productionCount || m.stateTable[state][word[0]] == 0 then None
    else Walk(m, productionCount, m.stateTable[state][word[0]], word[1..])
  }

  /** The automaton, started in `state`, accepts `word`. */
  predicate AcceptsFrom(m: StateMachine, productionCount: nat, state: nat, word: seq<nat>)
    requires WellFormed(m, productionCount) && state < |m.stateTable|
  {
    var end := Walk(m, productionCount, state, word);
    end.Some? && IsAccepting(m, end.value)
  }
}
