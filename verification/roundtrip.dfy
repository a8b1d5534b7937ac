/**
 * How the three stages fit together: the notation the log prints for a roll
 * is read back by the parser as that same roll.
 */
module RoundTrip {
  import opened Ints
  import opened Wrappers
  import opened Strings
  import opened Decimal
  import opened Dice
  import opened Parser
  import opened Logger

  /** The parser reads the log's `{n}d{sides}{modifier}` back as the request it describes. */
  lemma NotationRoundTrip(n: uint32, d: Die, m: int32)
    ensures Parse(Notation(n, d, m)) == Ok(Roll(d, m, n))
  {
    var r := Roll(d, m, n);
    var countText := NatToDecimal(n);
    var modText := ModifierSuffix(m);
    ParseU32Decimal(n);
    assert CountOf(countText) == Some(n);
    assert IsModifierText(modText, m);
    assert Notation(n, d, m) == countText + "d" + NatToDecimal(Sides(d)) + modText + "";
    LayoutParses(Notation(n, d, m), r, countText, modText, "");
  }

  /**
   * Whatever notation a request was parsed from, the log of any outcome of it
   * contains a canonical notation of the same request, and that notation parses
   * to it again.
   */
  lemma LogRestatesRequest(text: string, r: Roll, res: RollResult, stamp: string)
    requires Parse(text) == Ok(r)
    requires IsOutcome(r, res)
    ensures Contains(BuildLog(stamp, res), Notation(r.numberOfRolls, r.die, r.modifier))
    ensures Parse(Notation(r.numberOfRolls, r.die, r.modifier)) == Parse(text)
  {
    LogShowsNotation(stamp, res);
    NotationRoundTrip(r.numberOfRolls, r.die, r.modifier);
  }
}
