/** The values exchanged between the scheduler, the resolvers and the execution engine. */
module Conflicts {

  /** What a production's matching-engine handle reports from `canFire()`:
      the tokens eligible to be added and those eligible to be removed. */
  datatype Matches<T> = Matches(add: seq<T>, remove: seq<T>)

  /** One admissible and matchable production offered to a resolver.
      The production itself is identified by `symbol`, its index in the catalog. */
  datatype ConflictItem<T> = ConflictItem(symbol: nat, tokensToAddOrRemove: Matches<T>, isSelfTransition: bool)
}
