/**
 * The behaviours the repository's unit tests pin down, and the parser's quirks, on concrete inputs.
 *
 * Several lemmas take their input text (or the expected rendering) as a parameter
 * fixed by a `requires`, rather than writing the literal in the body: the equation
 * then stays one named term, and the solver does not unfold the literal at every step.
 */
module Scenarios {
  import opened Wrappers
  import opened Strings
  import opened Decimal
  import opened Dice
  import opened Parser
  import opened Logger
  import opened RoundTrip

  /** `"d4"` and `"d12"`: an empty count means one roll, no sign means no modifier. */
  lemma ParsesUnitDice()
    ensures Parse("d4") == Ok(New(D4))
    ensures Parse("d12") == Ok(New(D12))
  {
    assert NatToDecimal(4) == "4";
    assert "d4" == "" + "d" + NatToDecimal(Sides(D4)) + "" + "";
    LayoutParses("d4", New(D4), "", "", "");
    assert NatToDecimal(12) == "12";
    assert "d12" == "" + "d" + NatToDecimal(Sides(D12)) + "" + "";
    LayoutParses("d12", New(D12), "", "", "");
  }

  /** `"2d8"`: a count and no modifier. */
  lemma Parses2d8()
    ensures Parse("2d8") == Ok(SetNumberOfRolls(New(D8), 2))
  {
    assert NatToDecimal(2) == "2" && NatToDecimal(8) == "8";
    assert Notation(2, D8, 0) == "2d8";
    NotationRoundTrip(2, D8, 0);
  }

  /** `"3d6+2"`: a positive modifier. */
  lemma Parses3d6Plus2()
    ensures Parse("3d6+2") == Ok(SetModifier(SetNumberOfRolls(New(D6), 3), 2))
  {
    assert NatToDecimal(3) == "3" && NatToDecimal(6) == "6" && NatToDecimal(2) == "2";
    assert Notation(3, D6, 2) == "3d6+2";
    NotationRoundTrip(3, D6, 2);
  }

  /** `"1d20-4"`: a negative modifier. */
  lemma Parses1d20Minus4()
    ensures Parse("1d20-4") == Ok(SetModifier(New(D20), -4))
  {
    assert NatToDecimal(1) == "1" && NatToDecimal(20) == "20" && NatToDecimal(4) == "4";
    assert Notation(1, D20, -4) == "1d20-4";
    NotationRoundTrip(1, D20, -4);
  }

  /** `"1d9"`: 9 is not in the catalogue. */
  lemma RejectsUnknownDie()
    ensures Parse("1d9") == Err(UnsupportedDie)
  {
    assert "1d9" == "1" + "d" + "9";
    ParseU32Decimal(1);
    assert NatToDecimal(1) == "1";
    ParseOneSeparator("1", "9");
    SignFreeTail("9");
  }

  /** `"xd10"`: the count is not a number. */
  lemma RejectsNonNumericCount()
    ensures Parse("xd10") == Err(InvalidCount)
  {
    ParseOneSeparator("x", "10");
  }

  /** `"1d2-x"`: the negative modifier is not a number. */
  lemma RejectsNonNumericNegativeModifier()
    ensures Parse("1d2-x") == Err(InvalidModifier)
  {
    assert "1d2-x" == "1" + "d" + "2-x";
    ParseU32Decimal(1);
    assert NatToDecimal(1) == "1";
    ParseOneSeparator("1", "2-x");
    assert Find("2-x", '+').None?;
    assert SignIndex("2-x") == 1;
    assert ParseI32("-x").None?;
  }

  /** `"1d4+x"`: the positive modifier is not a number. */
  lemma RejectsNonNumericPositiveModifier()
    ensures Parse("1d4+x") == Err(InvalidModifier)
  {
    assert "1d4+x" == "1" + "d" + "4+x";
    assert "4+x" == "4" + "+" + "x";
    assert ParseI32("+" + "x").None?;
    ParseU32Decimal(1);
    assert NatToDecimal(1) == "1";
    ParseOneSeparator("1", "4+x");
    PlusPreferred("4", "x");
  }

  /** `"6"` and `""`: no `d` at all, after a count that parses (an empty count counts as 1). */
  lemma RejectsMissingSeparator()
    ensures Parse("6") == Err(MalformedNotation)
    ensures Parse("") == Err(MalformedNotation)
  {
    ParseWithoutSeparator("6");
    ParseU32Decimal(6);
    assert NatToDecimal(6) == "6";
    ParseWithoutSeparator("");
  }

  /** `"0d6+3"`: an explicit zero count is accepted, and any outcome has no draws and total 3. */
  lemma ZeroCountAccepted(res: RollResult)
    ensures Parse("0d6+3") == Ok(Roll(D6, 3, 0))
    ensures IsOutcome(Roll(D6, 3, 0), res) ==> res.rolls == [] && res.total == 3
  {
    assert NatToDecimal(0) == "0" && NatToDecimal(6) == "6" && NatToDecimal(3) == "3";
    assert Notation(0, D6, 3) == "0d6+3";
    NotationRoundTrip(0, D6, 3);
  }

  /** `"+3d6"`: the count goes through Rust's `u32` parse, which allows a leading `+`. */
  lemma PlusSignedCountAccepted()
    ensures Parse("+3d6") == Ok(Roll(D6, 0, 3))
  {
    ParseU32Decimal(3);
    assert NatToDecimal(3) == "3" && NatToDecimal(6) == "6";
    assert "+3d6" == "+3" + "d" + NatToDecimal(Sides(D6)) + "" + "";
    LayoutParses("+3d6", Roll(D6, 0, 3), "+3", "", "");
  }

  lemma ParsesOneD(tail: string)
    requires 'd' !in tail
    ensures Parse("1d" + tail) == (match ParseTail(tail)
                                  case Err(e) => Err(e)
                                  case Ok((d, m)) => Ok(Roll(d, m, 1)))
  {
    ParseU32Decimal(1);
    assert NatToDecimal(1) == "1";
    assert "1d" + tail == "1" + "d" + tail;
    ParseOneSeparator("1", tail);
  }

  lemma TailCutAtPlus()
    ensures ParseTail("6-1+2") == Err(UnsupportedDie)
  {
    assert NatToDecimal(2) == "2";
    ParseI32Plus(2);
    assert "6-1+2" == "6-1" + "+" + "2";
    PlusPreferred("6-1", "2");
  }

  /** `"1d6-1+2"`: the cut is at the `+`, so `6-1` is taken as die text and rejected. */
  lemma PlusPreferredOverEarlierMinus(text: string)
    requires text == "1d6-1+2"
    ensures Parse(text) == Err(UnsupportedDie)
  {
    assert text == "1d" + "6-1+2";
    ParsesOneD("6-1+2");
    TailCutAtPlus();
  }

  /** `"1d9+x"`: the modifier is parsed before the die is looked up. */
  lemma ModifierCheckedBeforeDie()
    ensures Parse("1d9+x") == Err(InvalidModifier)
  {
    assert "1d9+x" == "1" + "d" + "9+x";
    assert "9+x" == "9" + "+" + "x";
    assert ParseI32("+" + "x").None?;
    ParseU32Decimal(1);
    assert NatToDecimal(1) == "1";
    ParseOneSeparator("1", "9+x");
    PlusPreferred("9", "x");
  }

  lemma Parses2d6Plus1()
    ensures Parse("2d6+1") == Ok(Roll(D6, 1, 2))
  {
    assert NatToDecimal(2) == "2" && NatToDecimal(6) == "6" && NatToDecimal(1) == "1";
    assert ModifierSuffix(1) == "+1";
    assert Notation(2, D6, 1) == "2d6+1";
    NotationRoundTrip(2, D6, 1);
  }

  /** `"2d6+1d4"`: everything after a second `d` is dropped. */
  lemma SecondTermIgnored(text: string)
    requires text == "2d6+1d4"
    ensures Parse(text) == Ok(Roll(D6, 1, 2))
  {
    assert text == "2" + "d" + "6+1" + "d" + "4";
    assert "2" + "d" + "6+1" == "2d6+1";
    ParseIgnoresLaterParts("2", "6+1", "4");
    Parses2d6Plus1();
  }

  /** `"d+4"`: a sign right after the `d` sits at index 0, so there is no cut and the die text `+4` is not a die. */
  lemma RejectsSignAsDie(text: string)
    requires text == "d+4"
    ensures Parse(text) == Err(UnsupportedDie)
  {
    assert text == "" + "d" + "+4";
    ParseOneSeparator("", "+4");
    assert SignIndex("+4") == 0 by {
      assert Find("+4", '+') == Some(0);
    }
  }

  /** `"d-6+x"`: the `-` at index 0 is not the sign picked; the cut is at the `+`, and `+x` is no modifier. */
  lemma LeadingMinusNotPicked(text: string)
    requires text == "d-6+x"
    ensures Parse(text) == Err(InvalidModifier)
  {
    assert text == "" + "d" + "-6+x";
    assert "-6+x" == "-6" + "+" + "x";
    assert ParseI32("+x").None?;
    PlusPreferred("-6", "x");
    ParseOneSeparator("", "-6+x");
  }

  /** `"1d06"`: a zero-padded side count is not a die. */
  lemma RejectsPaddedDie(text: string)
    requires text == "1d06"
    ensures Parse(text) == Err(UnsupportedDie)
  {
    assert text == "1d" + "06";
    ParsesOneD("06");
    SignFreeTail("06");
  }

  /** `new(D10).number_of_rolls(9).modifier(4)`, rolled on any fair source. */
  method ChainedBuilder(rng: nat -> int) returns (res: RollResult)
    requires FairDraws(rng, D10, 9)
    ensures res.die == D10 && res.modifier == 4 && |res.rolls| == 9
    ensures res.total == Sum(res.rolls) + 4
    ensures 13 <= res.total <= 94
  {
    var r := SetModifier(SetNumberOfRolls(New(D10), 9), 4);
    res := Execute(r, rng);
    TotalBounds(r, res);
  }

  /** `new(D6)` with six rolls and modifier 3, rolled on any fair source. */
  method RollsSixD6PlusThree(rng: nat -> int) returns (res: RollResult)
    requires FairDraws(rng, D6, 6)
    ensures res.die == D6 && res.modifier == 3 && |res.rolls| == 6
    ensures res.total == Sum(res.rolls) + 3
    ensures 9 <= res.total <= 39
  {
    var r := SetModifier(SetNumberOfRolls(New(D6), 6), 3);
    res := Execute(r, rng);
    TotalBounds(r, res);
  }

  /** `"3d6+2"` drawing 1, 2 and 3: total 8, logged as `You rolled 3d6+2 for 8`. */
  lemma Executes3d6Plus2(stamp: string, res: RollResult)
    requires IsOutcome(Roll(D6, 2, 3), res)
    requires res.rolls == [1, 2, 3]
    ensures res.total == 8
    ensures Contains(BuildLog(stamp, res), "You rolled 3d6+2 for 8")
  {
    assert Sum([1, 2, 3]) == 6 by {
      assert [1, 2, 3][..2] == [1, 2];
      assert [1, 2][..1] == [1];
    }
    assert NatToDecimal(3) == "3" && NatToDecimal(6) == "6" && NatToDecimal(2) == "2" && NatToDecimal(8) == "8";
    assert Sentence(res) == "You rolled 3d6+2 for 8";
    assert OccursAt(BuildLog(stamp, res), Sentence(res), |stamp| + 3);
  }

  /** A positive modifier is logged with a `+`. */
  lemma LogsPositiveModifier(stamp: string)
    ensures Contains(BuildLog(stamp, RollResult(D8, [3, 4, 8, 1], 4, 20)), "You rolled 4d8+4 for 20")
  {
    var res := RollResult(D8, [3, 4, 8, 1], 4, 20);
    assert NatToDecimal(4) == "4" && NatToDecimal(8) == "8" && NatToDecimal(20) == "20";
    assert Sentence(res) == "You rolled 4d8+4 for 20";
    assert OccursAt(BuildLog(stamp, res), Sentence(res), |stamp| + 3);
  }

  /** A negative modifier is logged with its own `-` and no extra sign. */
  lemma LogsNegativeModifier(stamp: string)
    ensures Contains(BuildLog(stamp, RollResult(D4, [3, 4], -3, 4)), "You rolled 2d4-3 for 4")
  {
    var res := RollResult(D4, [3, 4], -3, 4);
    assert NatToDecimal(2) == "2" && NatToDecimal(4) == "4" && NatToDecimal(3) == "3";
    assert Sentence(res) == "You rolled 2d4-3 for 4";
    assert OccursAt(BuildLog(stamp, res), Sentence(res), |stamp| + 3);
  }

  /** A zero modifier is not logged at all. */
  lemma LogsZeroModifier(stamp: string)
    ensures Contains(BuildLog(stamp, RollResult(D6, [6], 0, 6)), "You rolled 1d6 for 6")
  {
    var res := RollResult(D6, [6], 0, 6);
    assert NatToDecimal(1) == "1" && NatToDecimal(6) == "6";
    assert Sentence(res) == "You rolled 1d6 for 6";
    assert OccursAt(BuildLog(stamp, res), Sentence(res), |stamp| + 3);
  }

  /** Three rolls render as three numbers separated by `, `. */
  lemma EntriesOfThree(s: seq<nat>)
    requires |s| == 3
    ensures Entries(s) == NatToDecimal(s[0]) + ", " + NatToDecimal(s[1]) + ", " + NatToDecimal(s[2])
  {
    assert s[1..][1..] == s[2..] && s[2..] == [s[2]];
    assert Entries(s[2..]) == NatToDecimal(s[2]);
    assert Entries(s[1..]) == NatToDecimal(s[1]) + ", " + NatToDecimal(s[2]);
  }

  /** The four rendered groups of three rolls, joined and bracketed. */
  lemma TestRollsListText(ea: string, eb: string, ec: string, ed: string)
    requires ea == "2, 1, 1" && eb == "1, 1, 2" && ec == "2, 2, 2" && ed == "1, 1, 1"
    ensures "[" + (ea + ", " + (eb + ", " + (ec + ", " + ed))) + "]" == "[2, 1, 1, 1, 1, 2, 2, 2, 2, 1, 1, 1]"
  {
  }

  /** The twelve rolls of the log test, taken three at a time, render as `{:?}` does. */
  lemma TestRollsList(a: seq<nat>, b: seq<nat>, c: seq<nat>, d: seq<nat>)
    requires a == [2, 1, 1] && b == [1, 1, 2] && c == [2, 2, 2] && d == [1, 1, 1]
    ensures a + (b + (c + d)) == [2, 1, 1, 1, 1, 2, 2, 2, 2, 1, 1, 1]
    ensures RollsList(a + (b + (c + d))) == "[2, 1, 1, 1, 1, 2, 2, 2, 2, 1, 1, 1]"
  {
    assert NatToDecimal(1) == "1" && NatToDecimal(2) == "2";
    assert Entries(a) == "2, 1, 1" by { EntriesOfThree(a); }
    assert Entries(b) == "1, 1, 2" by { EntriesOfThree(b); }
    assert Entries(c) == "2, 2, 2" by { EntriesOfThree(c); }
    assert Entries(d) == "1, 1, 1" by { EntriesOfThree(d); }
    EntriesAppend(c, d);
    EntriesAppend(b, c + d);
    EntriesAppend(a, b + (c + d));
    TestRollsListText(Entries(a), Entries(b), Entries(c), Entries(d));
  }

  /** The same list behind the ` >>> ` marker. */
  lemma TestLogListText(list: string)
    requires list == "[2, 1, 1, 1, 1, 2, 2, 2, 2, 1, 1, 1]"
    ensures ">>> " + list == ">>> [2, 1, 1, 1, 1, 2, 2, 2, 2, 1, 1, 1]"
  {
  }

  /** The individual rolls follow ` >>> ` as a bracketed, comma-separated list. */
  lemma LogsRollsList(stamp: string, rolls: seq<nat>)
    requires rolls == [2, 1, 1, 1, 1, 2, 2, 2, 2, 1, 1, 1]
    ensures Contains(BuildLog(stamp, RollResult(D2, rolls, 0, 12)), ">>> [2, 1, 1, 1, 1, 2, 2, 2, 2, 1, 1, 1]")
  {
    var res := RollResult(D2, rolls, 0, 12);
    var k := |stamp| + 5 + |Sentence(res)|;
    TestRollsList([2, 1, 1], [1, 1, 2], [2, 2, 2], [1, 1, 1]);
    TestLogListText(RollsList(rolls));
    LogShowsRolls(stamp, res);
    assert OccursAt(BuildLog(stamp, res), ">>> [2, 1, 1, 1, 1, 2, 2, 2, 2, 1, 1, 1]", k);
  }
}
