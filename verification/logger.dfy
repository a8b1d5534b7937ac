/**
 * `build_log`: the sentence `You rolled {n}d{sides}{modifier} for {total}`
 * behind a timestamp, followed by the list of individual rolls.
 * The timestamp (`Local::now()` formatted as `%m/%d/%Y %H:%M:%S`) is passed in
 * as the opaque string `stamp`.
 */
module Logger {
  import opened Ints
  import opened Wrappers
  import opened Strings
  import opened Decimal
  import opened Dice

  function Abs(m: int): nat
  {
    if m < 0 then -m else m
  }

  /**
   * The modifier as it follows the die: nothing for 0, `+` and the digits when
   * positive, and the plain rendering (which already carries its `-`) when negative.
   */
  function ModifierSuffix(m: int32): (s: string)
    ensures s == "" <==> m == 0
    ensures m != 0 ==> |s| >= 2 && s[0] == (if m > 0 then '+' else '-') && s[1..] == NatToDecimal(Abs(m))
    ensures m != 0 ==> ParseI32(s) == Some(m)
  {
    if m > 0 then
      ParseI32Plus(m);
      "+" + NatToDecimal(m)
    else if m == 0 then ""
    else
      ParseI32Decimal(m);
      IntToDecimal(m)
  }

  /** `{n}d{sides}{modifier}`: the roll written back in dice notation. */
  function Notation(count: nat, d: Die, m: int32): string
  {
    NatToDecimal(count) + "d" + NatToDecimal(Sides(d)) + ModifierSuffix(m)
  }

  /** The entries of a `{:?}` list, separated by `, `. */
  function Entries(rolls: seq<nat>): string
    decreases |rolls|
  {
    if |rolls| == 0 then ""
    else if |rolls| == 1 then NatToDecimal(rolls[0])
    else NatToDecimal(rolls[0]) + ", " + Entries(rolls[1..])
  }

  /** `{:?}` of a `Vec<u32>`: `[a, b, ...]`. */
  function RollsList(rolls: seq<nat>): string
  {
    "[" + Entries(rolls) + "]"
  }

  /** The sentence of the log: the count shown is the number of rolls, the total the stored one. */
  function Sentence(res: RollResult): string
  {
    "You rolled " + Notation(|res.rolls|, res.die, res.modifier) + " for " + IntToDecimal(res.total)
  }

  /**
   * `build_log(result)` with the timestamp supplied by the caller: the
   * bracketed stamp, the sentence, then ` >>> ` and the list of rolls on the
   * next line, and nothing else.
   */
  function BuildLog(stamp: string, res: RollResult): (log: string)
    ensures OccursAt(log, "[" + stamp + "] ", 0)
    ensures OccursAt(log, Sentence(res), |stamp| + 3)
    ensures OccursAt(log, "\n >>> " + RollsList(res.rolls), |stamp| + 3 + |Sentence(res)|)
    ensures |log| == |stamp| + 3 + |Sentence(res)| + 6 + |RollsList(res.rolls)|
  {
    var p := "[" + stamp + "] ";
    var c := Sentence(res);
    var q := "\n >>> " + RollsList(res.rolls);
    OccursInThree(p, c, q);
    p + c + q
  }

  /** The log shows `{n}d{sides}{modifier}`, with `n` the number of rolls actually stored. */
  lemma LogShowsNotation(stamp: string, res: RollResult)
    ensures OccursAt(BuildLog(stamp, res), Notation(|res.rolls|, res.die, res.modifier), |stamp| + 14)
  {
    var c := Notation(|res.rolls|, res.die, res.modifier);
    var t := " for " + IntToDecimal(res.total);
    OccursInConcat("You rolled ", c, t);
    assert "You rolled " + c + t == Sentence(res);
    OccursWithin(BuildLog(stamp, res), Sentence(res), |stamp| + 3, c, 11);
  }

  /** Dropping the line break and the indent in front of ` >>> `. */
  lemma ListAfterArrow(s: string, list: string, k: int)
    requires OccursAt(s, "\n >>> " + list, k)
    ensures OccursAt(s, ">>> " + list, k + 2)
  {
    assert "\n >>> " + list == "\n " + (">>> " + list);
    OccursAfter(s, "\n ", ">>> " + list, k);
  }

  /** The log shows ` >>> ` followed by the `{:?}` list of every roll, in order. */
  lemma LogShowsRolls(stamp: string, res: RollResult)
    ensures OccursAt(BuildLog(stamp, res), ">>> " + RollsList(res.rolls), |stamp| + 5 + |Sentence(res)|)
  {
    ListAfterArrow(BuildLog(stamp, res), RollsList(res.rolls), |stamp| + 3 + |Sentence(res)|);
  }

  /** The list is built entry by entry: the entries of `a + b` are those of `a`, `, `, and those of `b`. */
  lemma {:induction false} EntriesAppend(a: seq<nat>, b: seq<nat>)
    requires |a| >= 1 && |b| >= 1
    ensures Entries(a + b) == Entries(a) + ", " + Entries(b)
    decreases |a|
  {
    assert (a + b)[0] == a[0];
    if |a| == 1 {
      assert (a + b)[1..] == b;
    } else {
      assert (a + b)[1..] == a[1..] + b;
      EntriesAppend(a[1..], b);
    }
  }

  /** Two digit runs followed by nothing or by a non-digit cannot overlap unequally. */
  lemma DigitRunPrefix(x: string, xs: string, y: string, ys: string)
    requires |x| >= 1 && IsDigits(x) && |y| >= 1 && IsDigits(y)
    requires xs == "" || !IsDigit(xs[0])
    requires ys == "" || !IsDigit(ys[0])
    requires x + xs == y + ys
    ensures x == y && xs == ys
  {
    assert x == (x + xs)[..|x|] && y == (y + ys)[..|y|];
    assert xs == (x + xs)[|x|..] && ys == (y + ys)[|y|..];
  }

  /** The text after the first entry: nothing, or `, ` and the remaining entries. */
  function AfterFirst(rolls: seq<nat>): string
    requires |rolls| >= 1
  {
    if |rolls| == 1 then "" else ", " + Entries(rolls[1..])
  }

  /** The first entry is a digit run, and what follows it does not start with a digit. */
  lemma EntriesSplit(rolls: seq<nat>)
    requires |rolls| >= 1
    ensures Entries(rolls) == NatToDecimal(rolls[0]) + AfterFirst(rolls)
    ensures AfterFirst(rolls) == "" || !IsDigit(AfterFirst(rolls)[0])
    ensures |rolls| == 1 <==> AfterFirst(rolls) == ""
    ensures |rolls| > 1 ==> AfterFirst(rolls)[2..] == Entries(rolls[1..])
  {
  }

  /** Different roll sequences print differently: the list shown determines the rolls. */
  lemma {:induction false} EntriesInjective(a: seq<nat>, b: seq<nat>)
    requires Entries(a) == Entries(b)
    ensures a == b
    decreases |a|
  {
    if |a| == 0 || |b| == 0 {
      if |a| > 0 {
        EntriesSplit(a);
      }
      if |b| > 0 {
        EntriesSplit(b);
      }
    } else {
      assert a[0] == b[0] && AfterFirst(a) == AfterFirst(b) by {
        EntriesSplit(a);
        EntriesSplit(b);
        DigitRunPrefix(NatToDecimal(a[0]), AfterFirst(a), NatToDecimal(b[0]), AfterFirst(b));
        NatToDecimalInjective(a[0], b[0]);
      }
      if |a| > 1 {
        assert |b| > 1 && Entries(a[1..]) == Entries(b[1..]) by {
          EntriesSplit(a);
          EntriesSplit(b);
        }
        EntriesInjective(a[1..], b[1..]);
        assert a == [a[0]] + a[1..] && b == [b[0]] + b[1..];
      } else {
        assert |b| == 1 by {
          EntriesSplit(a);
          EntriesSplit(b);
        }
      }
    }
  }

  /** The list of rolls in the log determines the rolls, in order. */
  lemma RollsListInjective(a: seq<nat>, b: seq<nat>)
    requires RollsList(a) == RollsList(b)
    ensures a == b
  {
    assert Entries(a) == RollsList(a)[1..|RollsList(a)| - 1];
    assert Entries(b) == RollsList(b)[1..|RollsList(b)| - 1];
    EntriesInjective(a, b);
  }
}
