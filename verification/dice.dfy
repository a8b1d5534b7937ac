/**
 * The die catalogue, the roll request built by `Roll::new` and its chained
 * setters, and the execution of a roll against an injected random source.
 */
module Dice {
  import opened Ints
  import opened Wrappers

  /** The supported dice, one variant per number of sides. */
  datatype Die = D2 | D4 | D6 | D8 | D10 | D12 | D20 | D100

  /** The side counts the catalogue knows. */
  const SupportedSides: set<int> := {2, 4, 6, 8, 10, 12, 20, 100}

  /** `u32::from(die)`: the number of sides; total. */
  function Sides(d: Die): (n: uint32)
    ensures n in SupportedSides
  {
    match d
    case D2 => 2
    case D4 => 4
    case D6 => 6
    case D8 => 8
    case D10 => 10
    case D12 => 12
    case D20 => 20
    case D100 => 100
  }

  /** `Die::from(n)`: the die with `n` sides; `None` where the source panics. */
  function FromSides(n: uint32): (r: Option<Die>)
    ensures r.Some? <==> n in SupportedSides
    ensures r.Some? ==> Sides(r.value) == n
  {
    match n
    case 2 => Some(D2)
    case 4 => Some(D4)
    case 6 => Some(D6)
    case 8 => Some(D8)
    case 10 => Some(D10)
    case 12 => Some(D12)
    case 20 => Some(D20)
    case 100 => Some(D100)
    case _ => None
  }

  /** Converting a die to its sides and back gives the same die. */
  lemma SidesRoundTrip(d: Die)
    ensures FromSides(Sides(d)) == Some(d)
  {
  }

  /** No two dice have the same number of sides. */
  lemma SidesInjective(d: Die, e: Die)
    requires Sides(d) == Sides(e)
    ensures d == e
  {
  }

  /** A roll request: which die, how many times, and what to add to the sum. */
  datatype Roll = Roll(die: Die, modifier: int32, numberOfRolls: uint32)

  /** `Roll::new(die)`: one roll of `d`, no modifier. */
  function New(d: Die): (r: Roll)
    ensures r.die == d && r.numberOfRolls == 1 && r.modifier == 0
  {
    Roll(d, 0, 1)
  }

  /** `roll.number_of_rolls(n)`: replaces the repetition count and nothing else. */
  function SetNumberOfRolls(r: Roll, n: uint32): (r': Roll)
    ensures r'.numberOfRolls == n
    ensures r'.die == r.die && r'.modifier == r.modifier
  {
    r.(numberOfRolls := n)
  }

  /** `roll.modifier(m)`: replaces the modifier and nothing else. */
  function SetModifier(r: Roll, m: int32): (r': Roll)
    ensures r'.modifier == m
    ensures r'.die == r.die && r'.numberOfRolls == r.numberOfRolls
  {
    r.(modifier := m)
  }

  /** Every request is reachable by `new` followed by the two chained setters. */
  lemma BuilderReachesEveryRoll(r: Roll)
    ensures SetModifier(SetNumberOfRolls(New(r.die), r.numberOfRolls), r.modifier) == r
  {
  }

  /** The setters touch different fields, so their order in a chain does not matter. */
  lemma SettersCommute(r: Roll, n: uint32, m: int32)
    ensures SetModifier(SetNumberOfRolls(r, n), m) == SetNumberOfRolls(SetModifier(r, m), n)
  {
  }

  /** Setting a field twice keeps only the last value. */
  lemma SettersLastWins(r: Roll, n1: uint32, n2: uint32, m1: int32, m2: int32)
    ensures SetNumberOfRolls(SetNumberOfRolls(r, n1), n2) == SetNumberOfRolls(r, n2)
    ensures SetModifier(SetModifier(r, m1), m2) == SetModifier(r, m2)
  {
  }

  /** The outcome of a roll: the die and modifier copied over, each draw in order, and the total. */
  datatype RollResult = RollResult(die: Die, rolls: seq<nat>, modifier: int32, total: int)

  /** The sum of a sequence of draws, accumulated left to right. */
  function Sum(s: seq<nat>): nat
    decreases |s|
  {
    if |s| == 0 then 0 else Sum(s[..|s| - 1]) + s[|s| - 1]
  }

  /** `x` is a face of `d`: what `Uniform::new_inclusive(1, sides)` can yield. */
  predicate IsFace(x: int, d: Die)
  {
    1 <= x <= Sides(d)
  }

  /**
   * The random source: `rng(i)` is the value the `i`-th call of `_roll` draws.
   * The source only promises that each of the first `n` draws is a face of `d`.
   */
  predicate FairDraws(rng: nat -> int, d: Die, n: nat)
  {
    forall i: nat :: i < n ==> IsFace(rng(i), d)
  }

  /** `res` is a possible result of executing `r`. */
  predicate IsOutcome(r: Roll, res: RollResult)
  {
    && res.die == r.die
    && res.modifier == r.modifier
    && |res.rolls| == r.numberOfRolls
    && (forall i :: 0 <= i < |res.rolls| ==> IsFace(res.rolls[i], r.die))
    && res.total == Sum(res.rolls) + r.modifier
  }

  /** `roll.roll()`: draws `numberOfRolls` faces in order and adds the modifier to their sum. */
  method Execute(r: Roll, rng: nat -> int) returns (res: RollResult)
    requires FairDraws(rng, r.die, r.numberOfRolls)
    ensures IsOutcome(r, res)
    ensures forall i :: 0 <= i < |res.rolls| ==> res.rolls[i] == rng(i)
  {
    var rolls: seq<nat> := [];
    var sum := 0;
    var k := 0;
    while k < r.numberOfRolls
      invariant k <= r.numberOfRolls
      invariant |rolls| == k
      invariant forall i :: 0 <= i < k ==> rolls[i] == rng(i)
      invariant sum == Sum(rolls)
    {
      var x := rng(k);
      assert rolls == (rolls + [x])[..k];
      rolls := rolls + [x];
      sum := sum + x;
      k := k + 1;
    }
    res := RollResult(r.die, rolls, r.modifier, sum + r.modifier);
  }

  /** The sum of `n` faces of `d` lies between `n` and `n * sides`. */
  lemma {:induction false} SumOfFaces(s: seq<nat>, d: Die)
    requires forall i :: 0 <= i < |s| ==> IsFace(s[i], d)
    ensures |s| <= Sum(s) <= |s| * Sides(d)
    decreases |s|
  {
    if |s| > 0 {
      var p := s[..|s| - 1];
      assert forall i :: 0 <= i < |p| ==> p[i] == s[i];
      SumOfFaces(p, d);
    }
  }

  /** The total of any outcome lies between `n + m` and `n * sides + m`. */
  lemma TotalBounds(r: Roll, res: RollResult)
    requires IsOutcome(r, res)
    ensures r.numberOfRolls + r.modifier <= res.total <= r.numberOfRolls * Sides(r.die) + r.modifier
  {
    SumOfFaces(res.rolls, r.die);
  }

  /** A zero-count request yields no draws and a total equal to its modifier. */
  lemma ZeroRollsOutcome(r: Roll, res: RollResult)
    requires r.numberOfRolls == 0
    requires IsOutcome(r, res)
    ensures res.rolls == [] && res.total == r.modifier
  {
  }
}
