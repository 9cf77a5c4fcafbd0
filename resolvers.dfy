/** The conflict-resolution policies: each picks one item of a non-empty conflict set. */
module Resolvers {
  import opened Wrappers
  import opened Conflicts

  /** The three policies, each trying its own rule before deferring to the next one down. */
  datatype Resolver =
    | Trivial
    | SelfTransition
    | OverridingSelfTransition(overridingTransitions: seq<int>)

  /** Index of the first item satisfying `p`, as `Array.prototype.find` scans (FindSpec says so). */
  function Find<T>(cs: seq<ConflictItem<T>>, p: ConflictItem<T> -> bool): (r: Option<nat>)
    ensures r.Some? ==> r.value < |cs|
    decreases |cs|
  {
    if cs == [] then None
    else if p(cs[0]) then Some(0)
    else
      match Find(cs[1..], p)
      case None => None
      case Some(i) => Some(i + 1)
  }

  /** Find yields the first index whose item satisfies `p`, and nothing exactly when no item does. */
  lemma {:induction false} FindSpec<T>(cs: seq<ConflictItem<T>>, p: ConflictItem<T> -> bool)
    ensures var r := Find(cs, p);
            r.Some? ==> p(cs[r.value]) && forall j :: 0 <= j < r.value ==> !p(cs[j])
    ensures Find(cs, p).None? <==> forall j :: 0 <= j < |cs| ==> !p(cs[j])
    decreases |cs|
  {
    if cs != [] && !p(cs[0]) {
      FindSpec(cs[1..], p);
      var r := Find(cs[1..], p);
      if r.Some? {
        forall j | 0 <= j < r.value + 1 ensures !p(cs[j]) {
          if j > 0 {
            assert cs[j] == cs[1..][j - 1];
          }
        }
      } else {
        forall j | 0 <= j < |cs| ensures !p(cs[j]) {
          if j > 0 {
            assert cs[j] == cs[1..][j - 1];
          }
        }
      }
    }
  }

  function IsSelfTransition<T>(): (p: ConflictItem<T> -> bool)
  {
    (c: ConflictItem<T>) => c.isSelfTransition
  }

  function CarriesSymbol<T>(symbol: int): (p: ConflictItem<T> -> bool)
  {
    (c: ConflictItem<T>) => c.symbol == symbol
  }

  /** The base policy: the first item offered. */
  function ResolveTrivial<T>(cs: seq<ConflictItem<T>>): (r: ConflictItem<T>)
    requires |cs| > 0
    ensures r in cs && r == cs[0]
  {
    cs[0]
  }

  /** Prefers the first self-transition item; without one, defers to the base policy. */
  function ResolveSelfTransition<T>(cs: seq<ConflictItem<T>>): (r: ConflictItem<T>)
    requires |cs| > 0
    ensures r in cs
  {
    match Find(cs, IsSelfTransition())
    case Some(i) => cs[i]
    case None => ResolveTrivial(cs)
  }

  /** The self-transition policy returns the first self-transition item, or the first item when
      there is none. */
  lemma SelfTransitionPicksFirst<T>(cs: seq<ConflictItem<T>>)
    requires |cs| > 0
    ensures forall i :: 0 <= i < |cs| && cs[i].isSelfTransition && (forall j :: 0 <= j < i ==> !cs[j].isSelfTransition)
              ==> ResolveSelfTransition(cs) == cs[i]
    ensures (forall j :: 0 <= j < |cs| ==> !cs[j].isSelfTransition) ==> ResolveSelfTransition(cs) == cs[0]
  {
    FindSpec(cs, IsSelfTransition());
    forall i | 0 <= i < |cs| && cs[i].isSelfTransition && (forall j :: 0 <= j < i ==> !cs[j].isSelfTransition)
      ensures ResolveSelfTransition(cs) == cs[i]
    {
      var r := Find(cs, IsSelfTransition());
      assert IsSelfTransition()(cs[i]);
      assert r.Some?;
    }
  }

  /** Scans the priority symbols in order and returns the first item carrying the first one
      present; when none is present, defers to the self-transition policy. */
  function ResolveOverriding<T>(overridingTransitions: seq<int>, cs: seq<ConflictItem<T>>): (r: ConflictItem<T>)
    requires |cs| > 0
    ensures r in cs
    decreases |overridingTransitions|
  {
    if overridingTransitions == [] then ResolveSelfTransition(cs)
    else
      match Find(cs, CarriesSymbol(overridingTransitions[0]))
      case Some(i) => cs[i]
      case None => ResolveOverriding(overridingTransitions[1..], cs)
  }

  function Resolve<T>(resolver: Resolver, cs: seq<ConflictItem<T>>): (r: ConflictItem<T>)
    requires |cs| > 0
    ensures r in cs
  {
    match resolver
    case Trivial => ResolveTrivial(cs)
    case SelfTransition => ResolveSelfTransition(cs)
    case OverridingSelfTransition(overridingTransitions) => ResolveOverriding(overridingTransitions, cs)
  }

  /** Some item of `cs` carries `symbol`. */
  predicate Offers<T>(cs: seq<ConflictItem<T>>, symbol: int)
  {
    exists i :: 0 <= i < |cs| && cs[i].symbol == symbol
  }

  /** On a conflict set in increasing symbol order, the base policy picks the lowest production index. */
  lemma TrivialPicksLowestSymbol<T>(cs: seq<ConflictItem<T>>)
    requires |cs| > 0
    requires forall i, j :: 0 <= i < j < |cs| ==> cs[i].symbol < cs[j].symbol
    ensures ResolveTrivial(cs) == cs[0]
    ensures forall i :: 0 <= i < |cs| ==> ResolveTrivial(cs).symbol <= cs[i].symbol
  {
    forall i | 0 < i < |cs| ensures cs[0].symbol <= cs[i].symbol {
    }
  }

  /** Find returns exactly the first index whose item satisfies `p`. */
  lemma FindFirstIs<T>(cs: seq<ConflictItem<T>>, p: ConflictItem<T> -> bool, i: nat)
    requires i < |cs| && p(cs[i]) && forall j :: 0 <= j < i ==> !p(cs[j])
    ensures Find(cs, p) == Some(i)
  {
    FindSpec(cs, p);
  }

  /** If `overridingTransitions[k]` is the first priority symbol offered, the overriding policy
      returns the first item carrying it, whatever self-transition items precede it. */
  lemma {:induction false} OverridingPicksFirstOfferedPriority<T>(overridingTransitions: seq<int>, cs: seq<ConflictItem<T>>, k: nat, i: nat)
    requires |cs| > 0
    requires k < |overridingTransitions| && i < |cs|
    requires forall k' :: 0 <= k' < k ==> !Offers(cs, overridingTransitions[k'])
    requires cs[i].symbol == overridingTransitions[k]
    requires forall j :: 0 <= j < i ==> cs[j].symbol != overridingTransitions[k]
    ensures ResolveOverriding(overridingTransitions, cs) == cs[i]
    decreases k
  {
    if k == 0 {
      FindFirstIs(cs, CarriesSymbol(overridingTransitions[0]), i);
    } else {
      assert !Offers(cs, overridingTransitions[0]);
      FindSpec(cs, CarriesSymbol(overridingTransitions[0]));
      assert Find(cs, CarriesSymbol(overridingTransitions[0])).None?;
      var rest := overridingTransitions[1..];
      forall k' | 0 <= k' < k - 1 ensures !Offers(cs, rest[k']) {
        assert rest[k'] == overridingTransitions[k' + 1];
      }
      OverridingPicksFirstOfferedPriority(rest, cs, k - 1, i);
    }
  }

  /** With no priority symbol offered, the overriding policy is exactly the self-transition policy. */
  lemma {:induction false} OverridingFallsBack<T>(overridingTransitions: seq<int>, cs: seq<ConflictItem<T>>)
    requires |cs| > 0
    requires forall k :: 0 <= k < |overridingTransitions| ==> !Offers(cs, overridingTransitions[k])
    ensures ResolveOverriding(overridingTransitions, cs) == ResolveSelfTransition(cs)
    decreases |overridingTransitions|
  {
    if overridingTransitions != [] {
      assert !Offers(cs, overridingTransitions[0]);
      FindSpec(cs, CarriesSymbol(overridingTransitions[0]));
      assert Find(cs, CarriesSymbol(overridingTransitions[0])).None?;
      var rest := overridingTransitions[1..];
      forall k | 0 <= k < |rest| ensures !Offers(cs, rest[k]) {
        assert rest[k] == overridingTransitions[k + 1];
      }
      OverridingFallsBack(rest, cs);
    }
  }

  /** A single priority symbol always wins when offered, even against an earlier self-transition. */
  lemma OverrideBeatsSelfTransition<T>(cs: seq<ConflictItem<T>>, symbol: nat)
    requires |cs| > 0 && Offers(cs, symbol)
    ensures Resolve(OverridingSelfTransition([symbol]), cs).symbol == symbol
  {
    var i :| 0 <= i < |cs| && cs[i].symbol == symbol;
    var first := Find(cs, CarriesSymbol(symbol));
    FindSpec(cs, CarriesSymbol(symbol));
    assert CarriesSymbol(symbol)(cs[i]);
    OverridingPicksFirstOfferedPriority([symbol], cs, 0, first.value);
  }

  /** Symbols 0 and 2 are both offered and item 0 is a self-transition, yet overrides [2] select symbol 2. */
  lemma ScenarioOverrideSelectsPriority<T>(tokens0: Matches<T>, tokens2: Matches<T>)
    ensures Resolve(OverridingSelfTransition([2]), [ConflictItem(0, tokens0, true), ConflictItem(2, tokens2, false)])
            == ConflictItem(2, tokens2, false)
  {
    var cs := [ConflictItem(0, tokens0, true), ConflictItem(2, tokens2, false)];
    OverridingPicksFirstOfferedPriority([2], cs, 0, 1);
  }
}
