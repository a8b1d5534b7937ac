/**
 * `Roll::from(&str)`: the dice-notation parser. It splits on `d`, reads the
 * count before the first `d`, then looks in the text after it for a `+`
 * (and only if there is none, for a `-`) to separate die text from modifier.
 */
module Parser {
  import opened Ints
  import opened Wrappers
  import opened Strings
  import opened Decimal
  import opened Dice

  /** The four places where the source panics, in the order they are reached. */
  datatype ParseError =
    | InvalidCount       // `n.parse().unwrap()` on the count text
    | MalformedNotation  // `string_parts[1]` out of range: no `d`
    | InvalidModifier    // `parse::<i32>().unwrap()` on the modifier text
    | UnsupportedDie     // the die text is none of the eight literals

  /** The count before the first `d`: empty means one roll, anything else is a `u32` parse. */
  function CountOf(countText: string): Option<uint32>
  {
    if countText == "" then Some(1) else ParseU32(countText)
  }

  /** The die text must be exactly one of eight literals. */
  function DieFromText(s: string): (r: Option<Die>)
    ensures r.Some? ==> s == NatToDecimal(Sides(r.value))
  {
    match s
    case "2" => Some(D2)
    case "4" => Some(D4)
    case "6" => Some(D6)
    case "8" => Some(D8)
    case "10" => Some(D10)
    case "12" => Some(D12)
    case "20" => Some(D20)
    case "100" => Some(D100)
    case _ => None
  }

  /** The die literals are exactly the decimal renderings of the catalogue's side counts. */
  lemma DieTextRoundTrip(d: Die)
    ensures DieFromText(NatToDecimal(Sides(d))) == Some(d)
  {
    match d
    case D2 =>
      assert NatToDecimal(2) == "2";
      assert DieFromText("2") == Some(D2);
    case D4 =>
      assert NatToDecimal(4) == "4";
      assert DieFromText("4") == Some(D4);
    case D6 =>
      assert NatToDecimal(6) == "6";
      assert DieFromText("6") == Some(D6);
    case D8 =>
      assert NatToDecimal(8) == "8";
      assert DieFromText("8") == Some(D8);
    case D10 =>
      assert NatToDecimal(10) == "10";
      assert DieFromText("10") == Some(D10);
    case D12 =>
      assert NatToDecimal(12) == "12";
      assert DieFromText("12") == Some(D12);
    case D20 =>
      assert NatToDecimal(20) == "20";
      assert DieFromText("20") == Some(D20);
    case D100 =>
      assert NatToDecimal(100) == "100";
      assert DieFromText("100") == Some(D100);
  }

  /**
   * Where the text after the `d` is cut: the first `+` if there is one,
   * otherwise the first `-`, otherwise 0. A cut at 0 means "no modifier".
   */
  function SignIndex(p: string): (i: nat)
    ensures i == 0 || i < |p|
    ensures '+' in p ==> p[i] == '+' && '+' !in p[..i]
    ensures '+' !in p && '-' in p ==> p[i] == '-' && '-' !in p[..i]
    ensures '+' !in p && '-' !in p ==> i == 0
  {
    match Find(p, '+')
    case Some(i) => i
    case None =>
      match Find(p, '-')
      case Some(i) => i
      case None => 0
  }

  /** The text between the first and second `d`: die text and modifier (`src/dice.rs:110-138`). */
  function ParseTail(tail: string): Result<(Die, int32), ParseError>
  {
    var index := SignIndex(tail);
    var modifier := if index > 0 then ParseI32(tail[index..]) else Some(0);
    if modifier.None? then Err(InvalidModifier)
    else
      var dieText := if index > 0 then tail[..index] else tail;
      match DieFromText(dieText)
      case None => Err(UnsupportedDie)
      case Some(die) => Ok((die, modifier.value))
  }

  /** `Roll::from(text)`, with each panic turned into the error it stands for. */
  function Parse(text: string): Result<Roll, ParseError>
  {
    var parts := Split(text, 'd');
    match CountOf(parts[0])
    case None => Err(InvalidCount)
    case Some(count) =>
      if |parts| < 2 then Err(MalformedNotation)
      else
        match ParseTail(parts[1])
        case Err(e) => Err(e)
        case Ok((die, modifier)) => Ok(Roll(die, modifier, count))
  }

  /** A modifier text the parser accepts for `m`: nothing (for 0), or a sign and an `i32`. */
  predicate IsModifierText(modText: string, m: int32)
  {
    || (modText == "" && m == 0)
    || (|modText| >= 1 && (modText[0] == '+' || modText[0] == '-') && ParseI32(modText) == Some(m))
  }

  /** A modifier text holds no `d` and at most one sign, at its start. */
  lemma ModifierTextShape(modText: string, m: int32)
    requires IsModifierText(modText, m)
    ensures forall i :: 1 <= i < |modText| ==> IsDigit(modText[i])
    ensures 'd' !in modText
  {
    if modText != "" {
      ParseI32Shape(modText);
    }
  }

  /** Where the sign search cuts die text followed by a modifier text. */
  lemma SignIndexOfLayout(dieText: string, modText: string, m: int32)
    requires |dieText| >= 1 && IsDigits(dieText)
    requires IsModifierText(modText, m)
    ensures SignIndex(dieText + modText) == (if modText == "" then 0 else |dieText|)
  {
    var p := dieText + modText;
    ModifierTextShape(modText, m);
    assert forall i :: 0 <= i < |dieText| ==> p[i] == dieText[i];
    assert forall i :: 1 <= i < |modText| ==> p[|dieText| + i] == modText[i];
    if modText == "" {
      assert p == dieText;
    } else {
      assert p[|dieText|] == modText[0];
      assert p[..|dieText|] == dieText;
      var i := SignIndex(p);
      assert p[i] == '+' || p[i] == '-';
    }
  }

  /** The die-and-modifier text: the die's sides in decimal, then a modifier text. */
  predicate IsTailLayout(tail: string, d: Die, m: int32, modText: string)
  {
    tail == NatToDecimal(Sides(d)) + modText && IsModifierText(modText, m)
  }

  lemma TailLayoutParses(tail: string, d: Die, m: int32, modText: string)
    requires IsTailLayout(tail, d, m, modText)
    ensures ParseTail(tail) == Ok((d, m))
  {
    var dieText := NatToDecimal(Sides(d));
    SignIndexOfLayout(dieText, modText, m);
    DieTextRoundTrip(d);
    if modText != "" {
      assert tail[|dieText|..] == modText;
      assert tail[..|dieText|] == dieText;
    } else {
      assert tail == dieText;
    }
  }

  /** What a successful `ParseTail` established about the cut at the sign. */
  lemma ParseTailOk(tail: string, d: Die, m: int32)
    requires ParseTail(tail) == Ok((d, m))
    ensures SignIndex(tail) > 0 ==> ParseI32(tail[SignIndex(tail)..]) == Some(m)
    ensures SignIndex(tail) > 0 ==> DieFromText(tail[..SignIndex(tail)]) == Some(d)
    ensures SignIndex(tail) == 0 ==> m == 0 && DieFromText(tail) == Some(d)
  {
  }

  lemma ParsedTailHasLayout(tail: string, d: Die, m: int32) returns (modText: string)
    requires ParseTail(tail) == Ok((d, m))
    ensures IsTailLayout(tail, d, m, modText)
  {
    ParseTailOk(tail, d, m);
    var index := SignIndex(tail);
    if index > 0 {
      modText := tail[index..];
      var dieText := tail[..index];
      assert dieText == NatToDecimal(Sides(d));
      assert modText[0] == tail[index];
      assert tail == dieText + modText;
    } else {
      modText := "";
      assert tail == tail + modText;
    }
  }

  /**
   * The layout of a text that parses to `r`: a count text without `d`, a `d`,
   * the die's sides in decimal, a modifier text, and then nothing or a further
   * `d` after which everything is ignored.
   */
  predicate IsLayout(text: string, r: Roll, countText: string, modText: string, rest: string)
  {
    && 'd' !in countText
    && (rest == "" || rest[0] == 'd')
    && CountOf(countText) == Some(r.numberOfRolls)
    && IsModifierText(modText, r.modifier)
    && text == countText + "d" + NatToDecimal(Sides(r.die)) + modText + rest
  }

  /** Every layout is parsed to the roll it spells out. */
  lemma LayoutParses(text: string, r: Roll, countText: string, modText: string, rest: string)
    requires IsLayout(text, r, countText, modText, rest)
    ensures Parse(text) == Ok(r)
  {
    var tail := NatToDecimal(Sides(r.die)) + modText;
    ModifierTextShape(modText, r.modifier);
    assert 'd' !in tail;
    assert text == countText + "d" + (tail + rest);
    SplitPeel(countText, 'd', tail + rest);
    SplitHead(tail, 'd', rest);
    var parts := Split(text, 'd');
    assert parts[0] == countText && parts[1] == tail;
    TailLayoutParses(tail, r.die, r.modifier, modText);
  }

  /** Every successful parse comes from a layout. */
  lemma ParsedHasLayout(text: string, r: Roll)
    requires Parse(text) == Ok(r)
    ensures exists countText, modText, rest :: IsLayout(text, r, countText, modText, rest)
  {
    var parts := Split(text, 'd');
    var count := CountOf(parts[0]);
    assert count == Some(r.numberOfRolls) && |parts| >= 2 && ParseTail(parts[1]) == Ok((r.die, r.modifier)) by {
      assert Parse(text) == Ok(r);
    }
    var rest := SplitFirstTwo(text, 'd');
    var modText := ParsedTailHasLayout(parts[1], r.die, r.modifier);
    Regroup(text, parts[0], 'd', parts[1], rest, NatToDecimal(Sides(r.die)), modText);
    assert IsLayout(text, r, parts[0], modText, rest);
  }

  /**
   * The parser's accepted language: a text parses to `r` exactly when it is a
   * layout of `r`.
   */
  lemma ParseIff(text: string, r: Roll)
    ensures Parse(text) == Ok(r) <==> exists countText, modText, rest :: IsLayout(text, r, countText, modText, rest)
  {
    if Parse(text) == Ok(r) {
      ParsedHasLayout(text, r);
    }
    if exists countText, modText, rest :: IsLayout(text, r, countText, modText, rest) {
      var countText, modText, rest :| IsLayout(text, r, countText, modText, rest);
      LayoutParses(text, r, countText, modText, rest);
    }
  }

  /** A text with exactly one `d` is its count text and its die-and-modifier text. */
  lemma ParseOneSeparator(countText: string, tail: string)
    requires 'd' !in countText && 'd' !in tail
    ensures Parse(countText + "d" + tail) == (match CountOf(countText)
                                             case None => Err(InvalidCount)
                                             case Some(n) =>
                                               match ParseTail(tail)
                                               case Err(e) => Err(e)
                                               case Ok((d, m)) => Ok(Roll(d, m, n)))
  {
    assert countText + "d" + tail == countText + ['d'] + tail;
    SplitPeel(countText, 'd', tail);
    assert Find(tail, 'd').None?;
  }

  /** The count is checked before the separator: a text without `d` fails on its count or on the missing `d`. */
  lemma ParseWithoutSeparator(text: string)
    requires 'd' !in text
    ensures Parse(text) == Err(if CountOf(text).None? then InvalidCount else MalformedNotation)
  {
    assert Find(text, 'd').None?;
  }

  /** The count text is everything before the first `d`, and it is checked first. */
  lemma CountCheckedFirst(countText: string, rest: string)
    requires 'd' !in countText
    requires rest == "" || rest[0] == 'd'
    ensures Parse(countText + rest) == Err(InvalidCount) <==> CountOf(countText).None?
  {
    SplitHead(countText, 'd', rest);
  }

  /** With nothing before the `d`, a successful parse rolls once. */
  lemma ParseLeadingSeparator(p: string)
    ensures Parse("d" + p).Ok? ==> Parse("d" + p).value.numberOfRolls == 1
  {
    assert "d" + p == "" + ['d'] + p;
    SplitPeel("", 'd', p);
  }

  /** Only the text between the first and second `d` is read; anything after a second `d` is ignored. */
  lemma ParseIgnoresLaterParts(countText: string, tail: string, ignored: string)
    requires 'd' !in countText && 'd' !in tail
    ensures Parse(countText + "d" + tail + "d" + ignored) == Parse(countText + "d" + tail)
  {
    SplitTwoSeparators(countText, tail, ignored);
    SplitOneSeparator(countText, tail);
    SameFirstTwoParts(countText + "d" + tail + "d" + ignored, countText + "d" + tail);
  }

  lemma SplitOneSeparator(countText: string, tail: string)
    requires 'd' !in countText && 'd' !in tail
    ensures Split(countText + "d" + tail, 'd') == [countText, tail]
  {
    assert countText + "d" + tail == countText + ['d'] + tail;
    SplitPeel(countText, 'd', tail);
    assert Find(tail, 'd').None?;
  }

  lemma SplitTwoSeparators(countText: string, tail: string, ignored: string)
    requires 'd' !in countText && 'd' !in tail
    ensures |Split(countText + "d" + tail + "d" + ignored, 'd')| >= 2
    ensures Split(countText + "d" + tail + "d" + ignored, 'd')[..2] == [countText, tail]
  {
    assert countText + "d" + tail + "d" + ignored == countText + ['d'] + (tail + ['d'] + ignored);
    SplitPeel(countText, 'd', tail + ['d'] + ignored);
    SplitPeel(tail, 'd', ignored);
  }

  /** `Parse` reads nothing but the first two parts of the split. */
  lemma SameFirstTwoParts(a: string, b: string)
    requires |Split(a, 'd')| >= 2 && |Split(b, 'd')| >= 2
    requires Split(a, 'd')[..2] == Split(b, 'd')[..2]
    ensures Parse(a) == Parse(b)
  {
    assert Split(a, 'd')[0] == Split(a, 'd')[..2][0] && Split(a, 'd')[1] == Split(a, 'd')[..2][1];
    assert Split(b, 'd')[0] == Split(b, 'd')[..2][0] && Split(b, 'd')[1] == Split(b, 'd')[..2][1];
  }

  /** Without a sign after the `d`, the whole text is die text and the modifier is 0. */
  lemma SignFreeTail(tail: string)
    requires '+' !in tail && '-' !in tail
    ensures ParseTail(tail) == (match DieFromText(tail)
                                case None => Err(UnsupportedDie)
                                case Some(d) => Ok((d, 0)))
  {
  }

  /**
   * A `+` is looked for first: when there is one, the text is cut at the first
   * `+` even if a `-` comes before it.
   */
  lemma PlusPreferred(dieText: string, digits: string)
    requires |dieText| >= 1 && '+' !in dieText
    ensures ParseTail(dieText + "+" + digits) == (match ParseI32("+" + digits)
                                                  case None => Err(InvalidModifier)
                                                  case Some(m) =>
                                                    match DieFromText(dieText)
                                                    case None => Err(UnsupportedDie)
                                                    case Some(d) => Ok((d, m)))
  {
    var tail := dieText + "+" + digits;
    assert tail == dieText + ['+'] + digits;
    assert tail[|dieText|] == '+';
    assert tail[..|dieText|] == dieText;
    assert tail[|dieText|..] == "+" + digits;
    assert SignIndex(tail) == |dieText|;
  }

  /**
   * Without a `+`, the text is cut at the first `-`, and the modifier keeps its
   * `-`.
   */
  lemma MinusWithoutPlus(dieText: string, digits: string)
    requires |dieText| >= 1 && '+' !in dieText && '-' !in dieText && '+' !in digits
    ensures ParseTail(dieText + "-" + digits) == (match ParseI32("-" + digits)
                                                  case None => Err(InvalidModifier)
                                                  case Some(m) =>
                                                    match DieFromText(dieText)
                                                    case None => Err(UnsupportedDie)
                                                    case Some(d) => Ok((d, m)))
  {
    var tail := dieText + "-" + digits;
    assert tail == dieText + ['-'] + digits;
    assert tail[|dieText|] == '-';
    assert tail[..|dieText|] == dieText;
    assert tail[|dieText|..] == "-" + digits;
    assert '+' !in tail by {
      assert forall c :: c in tail ==> c in dieText || c == '-' || c in digits;
    }
    assert SignIndex(tail) == |dieText|;
  }

  /** A sign straight after the `d` never parses: the cut at 0 leaves the sign in the die text. */
  lemma SignAtStartFails(tail: string)
    requires |tail| >= 1 && (tail[0] == '+' || tail[0] == '-')
    ensures ParseTail(tail).Err?
  {
    var index := SignIndex(tail);
    var dieText := if index > 0 then tail[..index] else tail;
    assert dieText[0] == tail[0];
  }
}
