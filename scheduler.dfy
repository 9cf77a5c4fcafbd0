/** The automaton-driven scheduler: which productions may fire now, and the cursor move after one fires. */
module Scheduler {
  import opened Wrappers
  import opened Conflicts
  import opened Automaton

  /** Symbol `t` has a transition in `row` and its production reports at least one token to add. */
  predicate Eligible<W, T>(row: seq<nat>, canFire: (W, nat) -> Matches<T>, w: W, t: nat)
    requires t < |row|
  {
    row[t] != 0 && |canFire(w, t).add| > 0
  }

  /** The conflict set built from the first `k` columns of `row`, read in state `state`
      against world `w`. */
  function ConflictsUpTo<W, T>(row: seq<nat>, state: nat, canFire: (W, nat) -> Matches<T>, w: W, k: nat)
    : (r: seq<ConflictItem<T>>)
    requires k <= |row|
    ensures |r| <= k
    decreases k
  {
    if k == 0 then []
    else
      var earlier := ConflictsUpTo(row, state, canFire, w, k - 1);
      var t := k - 1;
      if row[t] != 0 && |canFire(w, t).add| > 0
      then earlier + [ConflictItem(t, canFire(w, t), row[t] == state)]
      else earlier
  }

  /** Every item is eligible, carries the tokens its production reports, and is flagged as a
      self-transition exactly when its transition stays in `state`. */
  ghost predicate AllAdmissible<W, T>(row: seq<nat>, state: nat, canFire: (W, nat) -> Matches<T>, w: W, r: seq<ConflictItem<T>>)
  {
    forall i :: 0 <= i < |r| ==>
      && r[i].symbol < |row|
      && Eligible(row, canFire, w, r[i].symbol)
      && r[i].tokensToAddOrRemove == canFire(w, r[i].symbol)
      && (r[i].isSelfTransition <==> row[r[i].symbol] == state)
  }

  /** Every eligible symbol below `k` is offered by some item of `r`. */
  ghost predicate OffersAllEligible<W, T>(row: seq<nat>, canFire: (W, nat) -> Matches<T>, w: W, k: nat, r: seq<ConflictItem<T>>)
    requires k <= |row|
  {
    forall t :: 0 <= t < k && Eligible(row, canFire, w, t) ==> exists i :: 0 <= i < |r| && r[i].symbol == t
  }

  ghost predicate StrictlyIncreasing<T>(r: seq<ConflictItem<T>>)
  {
    forall i, j :: 0 <= i < j < |r| ==> r[i].symbol < r[j].symbol
  }

  /** Every item built from the first `k` columns carries a symbol below `k`. */
  lemma {:induction false} ConflictsBelow<W, T>(row: seq<nat>, state: nat, canFire: (W, nat) -> Matches<T>, w: W, k: nat)
    requires k <= |row|
    ensures forall i :: 0 <= i < |ConflictsUpTo(row, state, canFire, w, k)| ==> ConflictsUpTo(row, state, canFire, w, k)[i].symbol < k
    decreases k
  {
    if k > 0 {
      ConflictsBelow(row, state, canFire, w, k - 1);
      var earlier := ConflictsUpTo(row, state, canFire, w, k - 1);
      var r := ConflictsUpTo(row, state, canFire, w, k);
      forall i | 0 <= i < |r| ensures r[i].symbol < k {
        if i < |earlier| {
          assert r[i] == earlier[i];
        }
      }
    }
  }

  lemma {:induction false} ConflictsSound<W, T>(row: seq<nat>, state: nat, canFire: (W, nat) -> Matches<T>, w: W, k: nat)
    requires k <= |row|
    ensures AllAdmissible(row, state, canFire, w, ConflictsUpTo(row, state, canFire, w, k))
    decreases k
  {
    if k > 0 {
      ConflictsSound(row, state, canFire, w, k - 1);
      var earlier := ConflictsUpTo(row, state, canFire, w, k - 1);
      var r := ConflictsUpTo(row, state, canFire, w, k);
      forall i | 0 <= i < |r|
        ensures r[i].symbol < |row| && Eligible(row, canFire, w, r[i].symbol)
        ensures r[i].tokensToAddOrRemove == canFire(w, r[i].symbol)
        ensures r[i].isSelfTransition <==> row[r[i].symbol] == state
      {
        if i < |earlier| {
          assert r[i] == earlier[i];
        }
      }
    }
  }

  lemma {:induction false} ConflictsComplete<W, T>(row: seq<nat>, state: nat, canFire: (W, nat) -> Matches<T>, w: W, k: nat)
    requires k <= |row|
    ensures OffersAllEligible(row, canFire, w, k, ConflictsUpTo(row, state, canFire, w, k))
    decreases k
  {
    if k > 0 {
      ConflictsComplete(row, state, canFire, w, k - 1);
      var earlier := ConflictsUpTo(row, state, canFire, w, k - 1);
      var r := ConflictsUpTo(row, state, canFire, w, k);
      forall t | 0 <= t < k && Eligible(row, canFire, w, t)
        ensures exists i :: 0 <= i < |r| && r[i].symbol == t
      {
        if t < k - 1 {
          var i :| 0 <= i < |earlier| && earlier[i].symbol == t;
          assert r[i] == earlier[i];
        } else {
          assert r[|earlier|].symbol == t;
        }
      }
    }
  }

  lemma {:induction false} ConflictsOrdered<W, T>(row: seq<nat>, state: nat, canFire: (W, nat) -> Matches<T>, w: W, k: nat)
    requires k <= |row|
    ensures StrictlyIncreasing(ConflictsUpTo(row, state, canFire, w, k))
    decreases k
  {
    if k > 0 {
      ConflictsOrdered(row, state, canFire, w, k - 1);
      ConflictsBelow(row, state, canFire, w, k - 1);
      var earlier := ConflictsUpTo(row, state, canFire, w, k - 1);
      var r := ConflictsUpTo(row, state, canFire, w, k);
      forall i, j | 0 <= i < j < |r| ensures r[i].symbol < r[j].symbol {
        assert r[i] == earlier[i];
        if j < |earlier| {
          assert r[j] == earlier[j];
        }
      }
    }
  }

  /** A row without any transition yields an empty conflict set, whatever the world. */
  lemma {:induction false} NoTransitionNoConflicts<W, T>(row: seq<nat>, state: nat, canFire: (W, nat) -> Matches<T>, w: W, k: nat)
    requires k <= |row|
    requires forall t :: 0 <= t < |row| ==> row[t] == 0
    ensures ConflictsUpTo(row, state, canFire, w, k) == []
    decreases k
  {
    if k > 0 {
      NoTransitionNoConflicts(row, state, canFire, w, k - 1);
    }
  }

  /** Drives the state machine over the production catalog; `currentState` is the only mutable part. */
  class RegexScheduler {
    const stateMachine: StateMachine
    const productionCount: nat
    var currentState: nat

    ghost predicate Valid()
      reads this
    {
      WellFormed(stateMachine, productionCount) && 0 < currentState < |stateMachine.stateTable|
    }

    constructor (stateMachine: StateMachine, productionCount: nat)
      ensures this.stateMachine == stateMachine && this.productionCount == productionCount
      ensures currentState == 1
      ensures WellFormed(stateMachine, productionCount) ==> Valid()
    {
      this.stateMachine := stateMachine;
      this.productionCount := productionCount;
      currentState := 1;
    }

    /** Builds a scheduler after the startup width check, which looks at row 0 only; a
        missing row 0 or a width other than the production count is a fatal error. */
    static method Create(stateMachine: StateMachine, productionCount: nat) returns (r: Result<RegexScheduler, string>)
      ensures r.Failure? <==> |stateMachine.stateTable| == 0 || |stateMachine.stateTable[0]| != productionCount
      ensures r.Success? ==> fresh(r.value) && r.value.currentState == 1
                             && r.value.stateMachine == stateMachine && r.value.productionCount == productionCount
      ensures WellFormed(stateMachine, productionCount) ==> r.Success? && r.value.Valid()
    {
      if |stateMachine.stateTable| == 0 || |stateMachine.stateTable[0]| != productionCount {
        return Failure("Statemachine should have as many symbols as there are total productions");
      }
      var s := new RegexScheduler(stateMachine, productionCount);
      return Success(s);
    }

    /** The productions that may fire now: admissible from `currentState` and matchable in `w`. */
    method ConflictSet<W, T>(canFire: (W, nat) -> Matches<T>, w: W) returns (ret: seq<ConflictItem<T>>)
      requires Valid()
      ensures ret == ConflictsUpTo(stateMachine.stateTable[currentState], currentState, canFire, w, productionCount)
      ensures |ret| == 0 <==>
                forall t :: 0 <= t < productionCount ==> !Eligible(stateMachine.stateTable[currentState], canFire, w, t)
    {
      var transitions := stateMachine.stateTable[currentState];
      var transitionsExist := exists t | 0 <= t < |transitions| :: transitions[t] != 0;
      if !transitionsExist {
        NoTransitionNoConflicts(transitions, currentState, canFire, w, productionCount);
        return [];
      }
      ret := [];
      for t := 0 to productionCount
        invariant ret == ConflictsUpTo(transitions, currentState, canFire, w, t)
      {
        if transitions[t] != 0 {
          var canFireT := canFire(w, t);
          if |canFireT.add| > 0 {
            ret := ret + [ConflictItem(t, canFireT, transitions[t] == currentState)];
          }
        }
      }
      ConflictsSound(transitions, currentState, canFire, w, productionCount);
      ConflictsComplete(transitions, currentState, canFire, w, productionCount);
      if |ret| != 0 {
        assert Eligible(transitions, canFire, w, ret[0].symbol);
      }
    }

    /** Moves the cursor along the transition of `symbol`; the caller passes a symbol it was offered. */
    method TakeTransition(symbol: nat)
      requires Valid()
      requires symbol < productionCount && stateMachine.stateTable[currentState][symbol] != 0
      modifies this
      ensures Valid()
      ensures currentState == old(stateMachine.stateTable[currentState][symbol])
    {
      var transitions := stateMachine.stateTable[currentState];
      currentState := transitions[symbol];
    }

    method OnAcceptingState() returns (accepting: bool)
      ensures accepting <==> IsAccepting(stateMachine, currentState)
    {
      accepting := currentState < |stateMachine.accepting| && stateMachine.accepting[currentState] != 0;
    }
  }
}
