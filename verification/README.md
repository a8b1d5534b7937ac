# rusty-dice: dice notation, rolls and the roll log, in Dafny

rusty-dice reads dice notation such as `3d6+2`, rolls the dice and prints a
log line. This project models its core, which has three stages:

- **Parse.** `impl From<&str> for Roll` splits the text on `d`. It reads an
  optional repetition count. It then cuts the rest into die text and an
  optional signed modifier.
- **Execute.** `Roll::roll` draws `number_of_rolls` faces of the die and adds
  the modifier to their sum.
- **Format.** `build_log` writes `[stamp] You rolled {n}d{sides}{modifier} for {total}`,
  then a new line, ` >>> `, and the list of individual rolls.

Around these sits the closed `Die` catalogue, with its conversions to and
from `u32`.

The modules follow the source:

| module | models |
|---|---|
| `Wrappers` | `Option` and `Result` |
| `Ints` | the `u32` and `i32` ranges |
| `Strings` | `str::find`, `str::split` and substring occurrence |
| `Decimal` | `Display` of integers, and `FromStr` for `u32` and `i32` |
| `Dice` | `Die`, `Roll`, the builder, `RollResult` and `roll()` |
| `Parser` | `From<&str> for Roll` |
| `Logger` | `build_log` |
| `RoundTrip` | how parser and logger fit together |
| `Scenarios` | the repository's unit tests and the parser's quirks, on concrete inputs |

Each `panic!` or `unwrap()` of the parser becomes an error value, in the order
the code reaches it:

- `InvalidCount`: the count does not parse as a `u32` (`src/dice.rs:108`).
- `MalformedNotation`: there is no `d`, so `string_parts[1]` is out of range (`src/dice.rs:110`).
- `InvalidModifier`: the modifier text does not parse as an `i32` (`src/dice.rs:122`).
- `UnsupportedDie`: the die text is none of the eight literals (`src/dice.rs:137`).

The random source becomes a parameter, `rng: nat -> int`. The only promise
about it is that each of the first `n` draws is a face of the die. The
timestamp becomes an opaque string `stamp`.

The parser in `src/dice.rs` has these quirks, and the model keeps each one:

- **Sign search.** The code takes the first `+` if there is one, and only
  otherwise the first `-` (`src/dice.rs:111-117`). So `1d6-1+2` cuts at the
  `+` and fails with `UnsupportedDie`.
- **Sign at the start.** When the sign the search picks is at index 0, it
  counts as "no modifier" (`src/dice.rs:119-126`): there is no cut, the die
  text keeps its sign, and the parse fails with `UnsupportedDie`. A sign at
  index 0 is not always the one picked: `d-6+x` is cut at the `+` and fails
  with `InvalidModifier`.
- **Zero count.** An explicit count of `0` is accepted and rolls nothing
  (`src/dice.rs:108`).
- **Count syntax.** The count goes through Rust's `u32` parse
  (`src/dice.rs:108`), so `+3d6` is accepted with count 3.
- **Later parts.** Only the text up to a second `d` is read
  (`src/dice.rs:106-110`), so `2d6+1d4` parses as `2d6+1`.
- **Error order.** The count is checked before the missing `d`
  (`src/dice.rs:108-110`), and the modifier before the die
  (`src/dice.rs:119-138`).

## Model

| member | source | states |
|---|---|---|
| Dice.Sides | src/dice.rs:33-37 | Converting a die to `u32` is total and always yields one of the eight supported side counts. |
| Dice.FromSides | src/dice.rs:17-31 | `Die::from(n)` succeeds exactly when `n` is in {2,4,6,8,10,12,20,100}; on success the die has `n` sides. Every other `u32` fails. |
| Dice.SidesRoundTrip | src/dice.rs:6-37 | Going from a die to its sides and back gives the same die. |
| Dice.SidesInjective | src/dice.rs:6-15 | Distinct dice have distinct numbers of sides. |
| Dice.New | src/dice.rs:59-65 | `Roll::new(d)` has die `d`, one roll and modifier 0. |
| Dice.SetNumberOfRolls | src/dice.rs:71-74 | Sets the repetition count to `n`; die and modifier are unchanged. |
| Dice.SetModifier | src/dice.rs:80-83 | Sets the modifier to `m`; die and count are unchanged. |
| Dice.BuilderReachesEveryRoll | src/dice.rs:59-83 | Every request equals `new(die)` followed by the two chained setters. |
| Dice.SettersCommute | src/dice.rs:71-83 | The order of the two setters in a chain does not matter. |
| Dice.SettersLastWins | src/dice.rs:71-83 | Calling a setter twice keeps only the second value. |
| Dice.Execute | src/dice.rs:86-101 | Given draws that are faces of the die, `roll()` returns a possible outcome: die and modifier copied, one roll per repetition, roll `i` is draw `i`, every roll in `[1, sides]`, and total = sum of rolls + modifier. |
| Dice.SumOfFaces | src/dice.rs:87-93 | The sum of `k` faces of a die lies between `k` and `k * sides`. |
| Dice.TotalBounds | src/dice.rs:86-101 | The total of any outcome lies between `count + modifier` and `count * sides + modifier`. |
| Dice.ZeroRollsOutcome | src/dice.rs:86-100 | A zero count yields no rolls and a total equal to the modifier. |
| Decimal.NatToDecimal | src/logger.rs:22-29 | The `Display` of a number is a digit run with no superfluous leading zero, and it denotes that number. |
| Decimal.CanonicalRoundTrip | src/logger.rs:22-29 | Rendering gives back every digit run without a superfluous leading zero. This is the other half of the round trip with `NatToDecimal`. |
| Decimal.NatToDecimalInjective | src/logger.rs:22-29 | Two numbers render alike only if they are equal. |
| Decimal.ParseU32Decimal | src/dice.rs:108 | Every `u32` parses back from its decimal text, with or without a leading `+`. |
| Decimal.ParseU32Shape | src/dice.rs:108 | A successful `u32` parse saw an optional `+` and then at least one digit, and nothing but digits. |
| Decimal.ParseI32Decimal | src/dice.rs:122 | Every `i32` parses back from its `Display` text. |
| Decimal.ParseI32Plus | src/dice.rs:122 | A nonnegative `i32` also parses back behind an explicit `+`. |
| Decimal.ParseI32Shape | src/dice.rs:122 | A successful `i32` parse saw one optional sign and then at least one digit, and nothing but digits: the first character is a sign or a digit, every later one a digit. |
| Strings.Find | src/dice.rs:111-117 | `str::find` returns `None` exactly when the character is absent. Otherwise it returns the index of its first occurrence. |
| Strings.Split | src/dice.rs:106 | `split('d')` yields at least one part. No part contains `d`, and joining the parts with `d` gives the text back. |
| Strings.SplitJoin | src/dice.rs:106 | Splitting undoes joining for parts free of the separator. |
| Parser.DieFromText | src/dice.rs:128-138 | A die text that is accepted is exactly the decimal rendering of that die's sides. |
| Parser.DieTextRoundTrip | src/dice.rs:128-138 | Every die's decimal side count is accepted as that die. |
| Parser.SignIndex | src/dice.rs:111-117 | The cut is at the first `+` if there is one; else at the first `-`; else 0. |
| Parser.LayoutParses | src/dice.rs:104-146 | Every layout parses to the roll it spells out. A layout is: count text without `d`, then `d`, the die's sides, a modifier text, and nothing or a second `d` and anything. |
| Parser.ParsedHasLayout | src/dice.rs:104-146 | Every successful parse comes from such a layout. |
| Parser.ParseIff | src/dice.rs:104-146 | A text parses to `r` if and only if it is a layout of `r`: the language the parser accepts, in both directions. |
| Parser.TailLayoutParses | src/dice.rs:110-138 | Die text followed by a modifier text is cut at the modifier's sign and read as that die and modifier. |
| Parser.ParsedTailHasLayout | src/dice.rs:110-138 | Text after the `d` that parses is die text followed by a modifier text. |
| Parser.ParseOneSeparator | src/dice.rs:106-146 | With exactly one `d`, the count is checked first and then the die-and-modifier text, and the two results are combined. |
| Parser.ParseWithoutSeparator | src/dice.rs:106-110 | A text with no `d` fails with `InvalidCount` if it is not a count, and otherwise with `MalformedNotation`. |
| Parser.CountCheckedFirst | src/dice.rs:106-108 | The count is everything before the first `d`. The parse fails with `InvalidCount` exactly when that text is not a count. |
| Parser.ParseLeadingSeparator | src/dice.rs:108 | With nothing before the `d`, a successful parse rolls once. |
| Parser.ParseIgnoresLaterParts | src/dice.rs:106-110 | Anything after a second `d` does not affect the result. |
| Parser.SignFreeTail | src/dice.rs:113-126 | Without a sign, the whole text after the `d` is die text and the modifier is 0. |
| Parser.PlusPreferred | src/dice.rs:111-126 | With a `+` present, the cut is at the first `+`, even if a `-` comes earlier. |
| Parser.MinusWithoutPlus | src/dice.rs:111-138 | With no `+` in the text after the `d`, it is cut at the first `-`: the signed rest must be an `i32` (else `InvalidModifier`), then the text before it must name a die (else `UnsupportedDie`). |
| Parser.SignAtStartFails | src/dice.rs:119-138 | A sign right after the `d` always makes the parse fail. |
| Logger.ModifierSuffix | src/logger.rs:13-19 | The suffix is empty exactly when the modifier is 0. Otherwise it is the sign (`+` added for positive, the number's own `-` for negative) followed by the magnitude's digits, and it parses back as the modifier. |
| Logger.BuildLog | src/logger.rs:10-30 | The log is the bracketed stamp, then the sentence, then a new line, ` >>> ` and the roll list. The length shows nothing else is written. |
| Logger.LogShowsNotation | src/logger.rs:22-27 | The log contains `{n}d{sides}{modifier}` at a fixed offset after the stamp. `n` is the number of rolls actually stored. |
| Logger.LogShowsRolls | src/logger.rs:22-28 | The log contains ` >>> ` followed by the `{:?}` list of every roll, in order. |
| Logger.EntriesAppend | src/logger.rs:28 | The list entries of `a + b` are those of `a`, then `, `, then those of `b`. |
| Logger.EntriesSplit | src/logger.rs:28 | The entries start with the first roll's digits. What follows is empty for a single roll, and otherwise `, ` and the remaining entries. |
| Logger.EntriesInjective | src/logger.rs:28 | Different roll sequences have different entries. |
| Logger.RollsListInjective | src/logger.rs:22-28 | The printed list determines the rolls, in order. |
| RoundTrip.NotationRoundTrip | src/dice.rs:104-146 | The parser reads the notation the log prints back as exactly the request it describes. |
| RoundTrip.LogRestatesRequest | src/logger.rs:22-27 | For any parsed request and any outcome of it, the log contains a notation that parses to the same request. |
| Scenarios.ParsesUnitDice | src/dice.rs:229-243 | `d4` and `d12` parse as `Roll::new` of that die. |
| Scenarios.Parses2d8 | src/dice.rs:245-253 | `2d8` parses as two rolls of a d8. |
| Scenarios.Parses3d6Plus2 | src/dice.rs:255-263 | `3d6+2` parses as three rolls of a d6 plus 2. |
| Scenarios.Parses1d20Minus4 | src/dice.rs:265-273 | `1d20-4` parses as one roll of a d20 minus 4. |
| Scenarios.RejectsUnknownDie | src/dice.rs:128-138 | `1d9` fails with `UnsupportedDie`. |
| Scenarios.RejectsNonNumericCount | src/dice.rs:108 | `xd10` fails with `InvalidCount`. |
| Scenarios.RejectsNonNumericNegativeModifier | src/dice.rs:111-123 | `1d2-x` fails with `InvalidModifier`. |
| Scenarios.RejectsNonNumericPositiveModifier | src/dice.rs:111-123 | `1d4+x` fails with `InvalidModifier`. |
| Scenarios.RejectsMissingSeparator | src/dice.rs:106-110 | `6` and the empty text fail with `MalformedNotation`. |
| Scenarios.ZeroCountAccepted | src/dice.rs:86-108 | `0d6+3` parses as zero rolls; any outcome has no rolls and total 3. |
| Scenarios.PlusSignedCountAccepted | src/dice.rs:108 | `+3d6` parses as three rolls of a d6. |
| Scenarios.PlusPreferredOverEarlierMinus | src/dice.rs:111-138 | `1d6-1+2` is cut at the `+` and fails with `UnsupportedDie`. |
| Scenarios.ModifierCheckedBeforeDie | src/dice.rs:119-138 | `1d9+x` fails with `InvalidModifier`, not `UnsupportedDie`. |
| Scenarios.SecondTermIgnored | src/dice.rs:106-110 | `2d6+1d4` parses as `2d6+1`. |
| Scenarios.RejectsSignAsDie | src/dice.rs:111-138 | `d+4` fails with `UnsupportedDie`. |
| Scenarios.LeadingMinusNotPicked | src/dice.rs:111-126 | `d-6+x` is cut at the `+`, not at the leading `-`, and fails with `InvalidModifier`. |
| Scenarios.RejectsPaddedDie | src/dice.rs:128-138 | `1d06` fails with `UnsupportedDie`. |
| Scenarios.ChainedBuilder | src/dice.rs:217-227 | Rolling `new(D10).number_of_rolls(9).modifier(4)` keeps die D10 and modifier 4, makes nine rolls, and totals their sum plus 4, which lies between 13 and 94. |
| Scenarios.Executes3d6Plus2 | src/logger.rs:22-27 | On a `3d6+2` outcome that drew 1, 2, 3 the total is 8 and the log holds the sentence `You rolled 3d6+2 for 8`. |
| Scenarios.RollsSixD6PlusThree | src/dice.rs:202-215 | Rolling `new(D6)` with six rolls and modifier 3 keeps die D6 and modifier 3, makes six rolls, and totals their sum plus 3, which lies between 9 and 39. |
| Scenarios.LogsPositiveModifier | src/logger.rs:38-50 | The log contains `You rolled 4d8+4 for 20`. |
| Scenarios.LogsNegativeModifier | src/logger.rs:52-64 | The log contains `You rolled 2d4-3 for 4`. |
| Scenarios.LogsZeroModifier | src/logger.rs:66-78 | The log contains `You rolled 1d6 for 6`. |
| Scenarios.TestRollsList | src/logger.rs:80-92 | The twelve rolls of the test print as `[2, 1, 1, 1, 1, 2, 2, 2, 2, 1, 1, 1]`. |
| Scenarios.LogsRollsList | src/logger.rs:80-92 | The log contains `>>> [2, 1, 1, 1, 1, 2, 2, 2, 2, 1, 1, 1]`. |

## Left out

- `_roll`'s uniform distribution (`rand::thread_rng` and `Uniform`). Draws come from the `rng` parameter, which only promises that each draw is in `[1, sides]`.
- The `chrono` timestamp. It is the opaque `stamp` parameter, so the `%m/%d/%Y %H:%M:%S` format is not modelled.
- Dice.Execute: the `u32` sum and the `sum as i32 + modifier` total use mathematical integers. Wrap-around or overflow panics on huge counts are not modelled.
- The `Debug` and `PartialEq` derives, beyond datatype equality.
- `src/command.rs`, `src/lib.rs` and `src/bin/main.rs` are not part of this model. They are a stub that does not compile, an older wrapper over `rand`, and a demo that prints to the console.
- Text is `seq<char>`, not UTF-8 bytes. Every position the parser cuts at is an ASCII `d`, `+` or `-`, so byte and character positions give the same pieces.
- Rust's general `Pattern` for `str::split` and `str::find`; only the single-character patterns the parser uses are modelled.
