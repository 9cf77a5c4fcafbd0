# Automaton-scheduled blackboard: a Dafny model

This project models the control loop of a blackboard system in which knowledge sources
register productions (rules) and a compiled finite automaton over production indices
decides which productions may fire next. It covers:

- the `RegexScheduler`: a transition table (state × symbol → state, 0 meaning "no
  transition"), a per-state `accepting` array and a mutable cursor `currentState` that
  starts at 1. `conflictSet()` offers every production that has a transition from the
  current state and reports at least one token to add. `takeTransition` moves the cursor.
  `onAcceptingState` classifies the state the run stops in;
- the resolver chain (`TrivialResolver`, `SelfTransitionResolver`,
  `OverridingSelfTransitionResolver`), which picks one item of a non-empty conflict set;
- `runBlackboard`, which repeatedly computes the conflict set, resolves it, fires the
  chosen production, and takes that production's transition until the set is empty;
- two helpers of the effect routines: the `gensym` counter and the parsing of a
  knowledge-service reply into `id,attr,val` triples.

The matching engine is an oracle over an abstract world `W` (`Blackboard.Engine`):
- `canFire(w, t)` gives the add and remove tokens of production `t`;
- `stillFires(w, item)` is the staleness recheck an effect routine makes on the token it was offered;
- `effect(w, item)` is what the routine does to the world, or `None` when the routine throws. A rejected knowledge-service request is the case in the source: nothing catches it, so it ends the loop.

The transition table and accepting array are inputs (`Automaton.StateMachine`).

Layout: `wrappers.dfy` (Option, Result), `conflicts.dfy` (conflict items),
`automaton.dfy` (state machine, well-formedness, walking a word), `scheduler.dfy`
(conflict-set specification and the `RegexScheduler` class), `resolvers.dfy`,
`blackboard.dfy` (the run specification and the loop), `gensym.dfy`, `replies.dfy`.

Where the code does something easy to misread, the model follows the code:
- Acceptance is an array indexed by state and tested for truthiness. It is not a set. An index past the end reads as not accepting.
- The constructor checks only row 0's width against the production count. `Create` models exactly that check. `Valid()` additionally requires row 1 (the start state) to exist, every row to have that width, and every entry to name a row. With a one-row table the source constructs the scheduler without complaint and fails only at the first `conflictSet()`.
- The staleness recheck is not done by the engine. It happens inside each effect routine, and not every routine does it; `Fire` applies it per item.
- `takeTransition` validates nothing. The model requires a nonzero transition for the symbol.
- `runBlackboard` returns nothing; it only prints one of two messages when the conflict set empties. The model's `Outcome` makes that visible: `Accepted` or `Rejected` is the message printed, `Aborted` a firing that threw, `OutOfFuel` the budget below.

## Model

| member | source | states |
|---|---|---|
| `Scheduler.ConflictsUpTo` | src/index.ts:343-358 | the items built from the first k columns are at most k |
| `Scheduler.ConflictsBelow` | src/index.ts:343-358 | every item built from the first k columns carries a symbol below k |
| `Scheduler.ConflictsSound` | src/index.ts:343-358 | every offered item has a nonzero transition and a non-empty add-token list, carries the tokens `canFire` reported, and is flagged as a self-transition exactly when its target is the current state |
| `Scheduler.ConflictsComplete` | src/index.ts:343-358 | every symbol with a nonzero transition and a non-empty add-token list is offered |
| `Scheduler.ConflictsOrdered` | src/index.ts:343-358 | items appear in strictly increasing symbol order |
| `Scheduler.NoTransitionNoConflicts` | src/index.ts:335-340 | a row with no nonzero entry gives an empty conflict set |
| `Scheduler.RegexScheduler.constructor` | src/index.ts:326-332 | the cursor starts at state 1 and the table and production count are kept; a well-formed table gives a valid scheduler |
| `Scheduler.RegexScheduler.Create` | src/index.ts:328-332 | construction fails exactly when row 0 is missing or its width differs from the production count; otherwise it yields a fresh scheduler at state 1, valid whenever every row is well formed |
| `Scheduler.RegexScheduler.ConflictSet` | src/index.ts:334-365 | returns the specified conflict set of the current row, including the early exit when no transition exists, and returns `[]` exactly when no symbol is eligible; the cursor is not touched |
| `Scheduler.RegexScheduler.TakeTransition` | src/index.ts:367-371 | the new cursor is the old row's entry at the symbol's column; the table, the acceptance array and the production count stay the same |
| `Scheduler.RegexScheduler.OnAcceptingState` | src/index.ts:373-375 | true exactly when the acceptance entry of the current state exists and is nonzero |
| `Automaton.Walk` | src/index.ts:367-371 | following a word of symbols through the table either hits a missing transition or ends in a row of the table, a non-sentinel one when the word is not empty |
| `Resolvers.ResolveTrivial` | src/index.ts:293-297 | the base policy returns the first item offered, a member of the set |
| `Resolvers.Find` | src/index.ts:301-301 | a found index lies inside the set |
| `Resolvers.FindSpec` | src/index.ts:301-301 | `find` yields the index of the first item satisfying the predicate, and nothing exactly when no item does |
| `Resolvers.ResolveSelfTransition` | src/index.ts:299-307 | returns a member of the set |
| `Resolvers.SelfTransitionPicksFirst` | src/index.ts:299-307 | the self-transition policy returns the first self-transition item if there is one, otherwise the first item |
| `Resolvers.ResolveOverriding` | src/index.ts:309-322 | returns a member of the set |
| `Resolvers.Resolve` | src/index.ts:289-322 | every policy returns a member of the non-empty set it is given |
| `Resolvers.TrivialPicksLowestSymbol` | src/index.ts:293-297 | the trivial policy returns the first item, which on an ordered conflict set has the lowest production index |
| `Resolvers.OverridingPicksFirstOfferedPriority` | src/index.ts:313-319 | the first priority symbol present in the set wins, and its first item is returned even when a self-transition item comes earlier |
| `Resolvers.OverridingFallsBack` | src/index.ts:320-320 | with no priority symbol present, the overriding policy equals the self-transition policy |
| `Resolvers.OverrideBeatsSelfTransition` | src/index.ts:309-322 | a single priority symbol, when offered, is always the one selected |
| `Resolvers.ScenarioOverrideSelectsPriority` | src/index.ts:313-319 | with symbols 0 (a self-transition) and 2 offered and overrides `[2]`, symbol 2's item is selected |
| `Blackboard.Fire` | src/index.ts:72-82 | firing an item whose token went stale changes nothing and cannot throw; firing a live item runs the production's effect routine, whose failure is passed on |
| `Blackboard.Run` | src/index.ts:378-396 | the run stays on non-sentinel rows of the table and fires at most one item per unit of budget |
| `Blackboard.RunStep` | src/index.ts:389-393 | with a non-empty conflict set, exactly the resolved item fires; if the firing throws the run ends there in the same state and world, otherwise it continues from that item's transition target and the world the firing left |
| `Blackboard.RunStop` | src/index.ts:380-388 | an empty conflict set stops the run at once, classified accepted exactly when the state is accepting |
| `Blackboard.ResolvedIsAdmissible` | src/index.ts:389-393 | the resolved item is a production index with a transition to a real state |
| `Blackboard.Turn` | src/index.ts:380-393 | one turn keeps the scheduler valid; a turn that stops reports the run specification's outcome from the state it started in, with nothing fired; a turn that goes on had budget left, fired the returned item, and the run from its starting state is that item followed by the run from the new cursor and world |
| `Blackboard.RunBlackboard` | src/index.ts:378-396 | the loop's outcome, final cursor, final world and firing trace are those of the run specification from the scheduler's starting state |
| `Blackboard.FailedFiringAbortsRun` | src/index.ts:389-393 | a resolved item whose effect routine throws ends the run at once: no transition is taken, nothing is fired, and the run is classified neither accepted nor rejected |
| `Blackboard.RunFollowsAutomaton` | src/index.ts:389-393 | the fired symbols form a path through the automaton from the start state to the final state, with no missing transition |
| `Blackboard.RunHaltsOnEmptyConflictSet` | src/index.ts:380-388 | a run that left the loop normally stopped on an empty conflict set and is classified by the acceptance of its final state; a run cut short by the budget had used it all and still had an eligible production; an aborted run stopped on a non-empty conflict set whose resolved item threw when fired |
| `Blackboard.AcceptedRunFiresAcceptedWord` | src/index.ts:378-394 | a run classified as accepted fired a word the automaton accepts |
| `Blackboard.RejectedRunFiresRejectedWord` | src/index.ts:378-394 | a run classified as rejected fired a word the automaton does not accept |
| `Blackboard.RunFuelMonotone` | src/index.ts:379-394 | a run that stops within a budget stops identically with any larger budget |
| `Blackboard.StaleItemStillAdvances` | src/index.ts:72-82 | a resolved item whose token went stale leaves the world unchanged while the automaton still takes its transition and the loop continues |
| `Blackboard.ScenarioAcceptsAfterOneFiring` | src/index.ts:378-388 | an automaton whose only transition is 1 --0--> 2, with state 2 accepting and production 0 matchable: one firing, ending accepted in state 2 |
| `Blackboard.ScenarioRejectsWithoutFiring` | src/index.ts:380-388 | the same automaton with production 0 never matchable: nothing fires, rejected in state 1 |
| `Blackboard.ScenarioAbortsOnFailedRequest` | src/index.ts:389-393 | the same automaton with production 0 matchable but its request failing: nothing fires, aborted in state 1 |
| `Gensym.DecimalRoundTrip` | src/index.ts:45-45 | reading back the decimal text of the counter gives the counter |
| `Gensym.Name` | src/index.ts:45-45 | a name is `gensym` followed by a non-empty run of decimal digits |
| `Gensym.NamesDistinct` | src/index.ts:44-46 | different counter values give different names |
| `Gensym.GensymCounter.constructor` | src/index.ts:42-42 | the counter starts at 0 with no name issued |
| `Gensym.GensymCounter.Gensym` | src/index.ts:44-46 | returns `gensym` followed by the old counter and increments it; the name was never issued before, so successive names are pairwise distinct |
| `Replies.Split` | src/index.ts:109-109 | splitting yields at least one part and no part contains the separator |
| `Replies.JoinSplit` | src/index.ts:109-109 | joining the parts of a split with its separator restores the text |
| `Replies.SplitJoin` | src/index.ts:109-109 | splitting the join of separator-free parts restores the parts |
| `Replies.SplitPrefix` | src/index.ts:113-113 | a separator-free prefix is glued to the first part of the split |
| `Replies.TrimStartSpec` | src/index.ts:111-111 | trimming the start drops only white space and leaves a suffix that starts with a non-blank character |
| `Replies.TrimEndSpec` | src/index.ts:111-111 | trimming the end drops only white space and leaves a prefix that ends with a non-blank character |
| `Replies.TrimSpec` | src/index.ts:111-111 | `trim` keeps a contiguous slice of the line, drops only white space on either side of it, and leaves a slice that neither starts nor ends with white space |
| `Replies.TrimEmptyIffBlank` | src/index.ts:111-112 | a line is skipped exactly when every character of it is white space |
| `Replies.TrimKeepsTrimmed` | src/index.ts:111-111 | a line with no white space at either end is unchanged by trimming |
| `Replies.LineFacts` | src/index.ts:111-114 | one line adds at most one fact |
| `Replies.LineTriplesAppend` | src/index.ts:110-116 | lines are handled independently and in order: the facts for two blocks of lines are those of the first followed by those of the second |
| `Replies.BlankLineAddsNothing` | src/index.ts:111-112 | inserting a blank line anywhere adds no fact |
| `Replies.ParseTriple` | src/index.ts:113-113 | the identifier, attribute and value are the first, second and third comma-separated fields: the identifier is the whole line when it has no comma (attribute and value missing); the line is exactly `id,attr` when there is no third field; otherwise it starts with `id,attr,val` followed by the end of the line or a comma |
| `Replies.AddReplyTriples` | src/index.ts:108-117 | the `add` calls made for a reply are the specified facts: none for an absent or empty reply, and for each non-blank line, in order, one with its first three comma-separated fields |
| `Replies.ParseFormattedLine` | src/index.ts:113-114 | a line `id,attr,val` with comma-free fields parses back to exactly that triple |
| `Replies.ParseFormattedLines` | src/index.ts:110-116 | a sequence of such lines yields their triples in order |
| `Replies.ReplyRoundTrip` | src/index.ts:97-117 | a reply in the requested newline-separated triple format yields exactly its triples, in order |

## Left out

- The knowledge-service client and `getOpenAiResponse` (src/index.ts:26-40) are network I/O. A reply is an input (`Option<string>`); a refusal is only logged, so it is not modelled. A request that fails is the `None` result of an effect.
- `Blackboard.Run`: an aborted run reports the world as it was before the failing firing. The source's routines throw at the request, before any fact is added, but an effect that changed the world and then threw is not modelled.
- The matching engine (`canFire`, `willFire`, `willFireTokenAdded`, `addProduction`, `evalVariablesInToken`, `rete.add` and the working memory) is a foreign library. It becomes the `Engine` oracle over an abstract world.
- The automaton compiler (`compile`, `build`, `parse`) is a foreign library. Its output is an input, and its unused `tags` field is dropped.
- Rule-text parsing and registration (`parseRete`, `registerKnowledgeSource*`, `getVariables`) are not part of this model. Neither are `explainStateMachine`, the `console.log` calls or the final working-memory dump: they only log.
- The effect routines other than the reply parsing are left out: adding species, the weight lookup with its `parseFloat` check, and trip creation. They are the `effect` oracle. The `async`/`await` plumbing and `main`'s bootstrap facts are left out too.
- `Blackboard.RunBlackboard`: the source loop has no bound. The model takes a firing budget `fuel` and reports `OutOfFuel` when the budget runs out while a production is still eligible. Non-terminating runs are therefore seen only up to the budget.
- `Scheduler.RegexScheduler.ConflictSet`: `canFire` is a pure function of the world. The model does not capture that the source only queries productions whose column has a transition, nor the order of those queries.
- `Scheduler.RegexScheduler.TakeTransition` requires a nonzero transition for the symbol. With a zero entry the source would move the cursor to the sentinel state 0; callers only pass resolved conflict items, which always have a nonzero transition.
- `Resolvers.Resolve` requires a non-empty set. The source would return `undefined` for an empty one, and its only caller never passes one.
- Conflict items omit the reference to the production's data, which is `allProductions[symbol]`. The resolvers' "reference-identical to an input" becomes membership by value.
- `Gensym.GensymCounter.Gensym`: the counter is unbounded. Precision loss above 2^53 and exponent notation from 10^21 on are not modelled.
- `Replies.AddReplyTriples` records the `rete.add` calls as a list of triples instead of mutating a store. A missing second or third field is `None`, where the source passes `undefined`.
