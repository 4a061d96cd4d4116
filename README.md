# Advent of Code 2023, days 1 to 15, in Dafny

This project models the fifteen puzzle solvers of the `aoc-2023` repository, one Dafny module
per binary (`Day1` … `Day15` in `day1.dfy` … `day15.dfy`), and proves what each solver computes.
Four shared modules hold what several days use:

- `Common`: `Option`, sums, powers of two and rectangular grids.
- `Text`: the string operations the solvers lean on, as Rust defines them. These are finding a
  character, splitting, trimming, parsing integers and reading whitespace-separated numbers.
- `Arith`: Rust's truncating `/` and `%`, divisibility, and the gcd/lcm facts day 8 needs.
- `Sorting`: an insertion sort by a key, which stands in for day 7's `sort`.

Each solver is modelled in the form the Rust code takes:

- A loop becomes a `method` with loop invariants. `ensures` ties the method to a specification
  function, and the properties the puzzle needs are proved about that function as lemmas.
- Pure helpers become functions with named results.
- Parsing functions come with the text they read back, so the parser is proved against a
  printer: reading what the printer writes gives the value back.
- Where the solver panics (an `unwrap`, an index out of range, a `usize` underflow), the
  model asks for a precondition that rules the panic out.

Reading the input file (`src/lib.rs`) is outside the model. Each solver's `main` is modelled as
the functions or methods that compute what it prints, applied to the lines of the file.

## Model

| member | source | states |
|---|---|---|
| Text.DigitValue | src/bin/day1.rs:30 | a decimal digit's value is at most 9 |
| Text.DigitChar | src/bin/day1.rs:30 | the digit character of a value is a digit with that value |
| Text.Find | src/bin/day2.rs:18 | `str::find`: the first index holding the character, None exactly when there is none |
| Text.FindFirst | src/bin/day2.rs:18 | a position holding the character with none before it is what `find` returns |
| Text.Split | src/bin/day2.rs:12 | `str::split`: always at least one piece |
| Text.SplitPieces | src/bin/day2.rs:12 | no piece holds the separator |
| Text.JoinSplit | src/bin/day2.rs:12 | joining the pieces with the separator gives back the text |
| Text.SplitJoin | src/bin/day2.rs:12 | splitting undoes joining when no piece holds the separator |
| Text.TrimStart | src/bin/day2.rs:12 | the leading whitespace, and only it, is removed |
| Text.TrimEnd | src/bin/day2.rs:12 | the trailing whitespace, and only it, is removed |
| Text.Trim | src/bin/day2.rs:12 | `str::trim`: neither end of the result is whitespace, and a text without whitespace is unchanged |
| Text.ParseNat | src/bin/day5.rs:68 | the digits part of `parse::<i64>()`, without a sign, succeeds exactly on a non-empty run of digits |
| Text.ParseInt | src/bin/day2.rs:18 | a signed parse succeeds exactly on digits with an optional sign, and the sign decides the sign of the value |
| Text.ShowNat | src/bin/day4.rs:12 | a natural number is written as a non-empty run of digits |
| Text.DecimalShowNat | src/bin/day4.rs:12 | reading the digits back gives the number |
| Text.ParseShowInt | src/bin/day4.rs:12 | parsing reads back what showing wrote |
| Text.NumbersIn | src/bin/day4.rs:13-14 | the integers among the tokens, at most one per token |
| Text.NumbersInShowAll | src/bin/day4.rs:13-14 | the integers read from shown integers are those integers |
| Text.NumbersRoundTrip | src/bin/day4.rs:13-14 | a non-empty list of integers joined by single spaces reads back as the list |
| Text.NumbersShown | src/bin/day4.rs:13-14 | any list of integers joined by single spaces, the empty one included, reads back as the list |
| Text.NumbersPadded | src/bin/day4.rs:13-14 | spaces around the list do not change the integers read from it |
| Text.SplitAppendSep | src/bin/day2.rs:12 | a trailing separator adds one empty piece |
| Text.SplitLeadingSep | src/bin/day2.rs:12 | a leading separator adds one empty piece |
| Text.NumbersLeadingSpace | src/bin/day4.rs:13-14 | a space in front adds an empty token, which is skipped |
| Text.NumbersTrailingSpace | src/bin/day4.rs:13-14 | a space behind adds an empty token, which is skipped |
| Arith.QuotRem | src/bin/day14.rs:247 | Rust's truncating `/` and `%`: the quotient and remainder rebuild the dividend, the remainder is smaller than the divisor and not negative for a non-negative dividend |
| Day1.WordFrom | src/bin/day1.rs:31-39 | the word guards in order: no digit word from `Words[k]` on is a prefix exactly when None, otherwise the first one that is, with its value |
| Day1.ReadDigit | src/bin/day1.rs:28-42 | a leading decimal digit wins; otherwise Some exactly when the input starts with one of "one" … "nine", and then the value is that word's |
| Day1.WordMatchUnique | src/bin/day1.rs:31-39 | no digit word is a prefix of another, so the order of the guards never matters |
| Day1.DigitsUpTo | src/bin/day1.rs:16-21 | the digits read at the first `n` start indices: at most `n` of them, each at most 9 |
| Day1.Calibration | src/bin/day1.rs:23-25 | first digit times ten plus last digit is at most 99; a single digit counts as both first and last |
| Day1.NumberFromLine | src/bin/day1.rs:13-26 | the loop over every start index followed by first/last equals the calibration value of the line's digits |
| Day1.WordShapes | src/bin/day1.rs:31-39 | every digit word has at least three letters and starts with one of o, t, f, s, e, n |
| Day1.NoWordAt | src/bin/day1.rs:28-42 | a non-digit start that is too short or has the wrong first letter reads nothing |
| Day1.EightTwoWords | src/bin/day1.rs:16-21 | "eightwo" reads 8 at index 0 and 2 at index 4 |
| Day1.EightTwoGaps | src/bin/day1.rs:16-21 | the other start indices of "eightwo" read nothing |
| Day1.OverlappingWords | src/bin/day1.rs:13-26 | overlapping words both count: "eightwo" has digits 8 and 2 and calibration value 82 |
| Day1.DigitsStep | src/bin/day1.rs:17-20 | one more start index adds exactly the digit read there, if any |
| Day2.GroupColour | src/bin/day2.rs:20-25 | the colour is one of r, g, b, read from the letter after the first space |
| Day2.TrimAll | src/bin/day2.rs:12 | every group is trimmed, none lost |
| Day2.LastCountAbsent | src/bin/day2.rs:13-15 | a colour that no group names counts 0 |
| Day2.LastCountIsLast | src/bin/day2.rs:17-26 | a colour named several times keeps the count of its last group |
| Day2.TallyGroups | src/bin/day2.rs:17-32 | the loop that overwrites one colour per group yields the tally of the groups |
| Day2.ParseSet | src/bin/day2.rs:11-33 | splitting at commas, trimming and tallying yields the set the text describes |
| Day2.GameFrom | src/bin/day2.rs:43-50 | the id parses from index 5 up to the colon, and there is one set per `;`-separated part after it, each parsed from that part |
| Day2.AllWithin | src/bin/day2.rs:53 | true exactly when no draw exceeds the bag in any colour |
| Day2.Possible | src/bin/day2.rs:52-54 | a game is possible exactly when every draw fits the bag |
| Day2.PossibleMonotone | src/bin/day2.rs:52-54 | a larger bag never makes a possible game impossible |
| Day2.Max | src/bin/day2.rs:57-59 | the maximum is one of the values and no value exceeds it |
| Day2.Reds | src/bin/day2.rs:57 | the red counts of the draws, in order |
| Day2.Greens | src/bin/day2.rs:59 | the green counts of the draws, in order |
| Day2.Blues | src/bin/day2.rs:58 | the blue counts of the draws, in order |
| Day2.MinimalBagIsLeast | src/bin/day2.rs:56-61 | the per-colour maxima whose product is the power form a bag the game fits, and every bag the game fits is at least that large in each colour |
| Day2.PossibleIdSum | src/bin/day2.rs:66 | the sum over games the 12/13/14 bag allows: the sum of every id when all are possible, 0 when none is |
| Day2.PossibleIdSumAppend | src/bin/day2.rs:66 | the part 1 sum over two runs of games is the sum of their sums |
| Day3.Inside | src/bin/day3.rs:34-48 | a cell is inside a number exactly when it is in the number's row and within its columns |
| Day3.NumberAtMeaning | src/bin/day3.rs:15-19 | the lookup finds nothing exactly when no number covers the cell, and otherwise the first number that does |
| Day3.RunLength | src/bin/day3.rs:85 | the length of the digit run from a column: all digits, ended by a non-digit or by the end of the line |
| Day3.RunAt | src/bin/day3.rs:85-90 | the number read at a digit: its position, its length of at least one, and its value the decimal reading of the run |
| Day3.RunStart | src/bin/day3.rs:82-84 | a digit belongs to a run that starts at or before it, with only digits in between |
| Day3.RunEnd | src/bin/day3.rs:85 | any two digits of one run see the same end of the run |
| Day3.AsWrittenMissesOnlyRightEdge | src/bin/day3.rs:101-137 | the check as written finds no symbol that is not there, and misses only a symbol right after a number that ends just before the last column |
| Day3.RightEdgeMissed | src/bin/day3.rs:111 | the row "1#": the `#` touches the `1`, but the check as written does not see it |
| Day3.HasAdjacentPart | src/bin/day3.rs:101-137 | the corrected check is true exactly when a cell of the ring around the number holds a symbol |
| Day3.HasAdjacentPartAsWritten | src/bin/day3.rs:101-137 | the check as the program has it is true exactly when the predicate for `has_adjacent_part` as written holds: a symbol left of the number, right of it when `col + len + 1 < width`, or in the clipped column range of the row below or above |
| Day3.RowPartsElem | src/bin/day3.rs:82-95 | every part number found in a row is the run read at a kept digit of that row |
| Day3.RowPartsHas | src/bin/day3.rs:82-95 | every kept run of a row is found |
| Day3.RowPartsOrdered | src/bin/day3.rs:82-95 | the part numbers of a row come left to right |
| Day3.PartsBeforeElem | src/bin/day3.rs:77-99 | every part number is a kept run of some row |
| Day3.PartsBeforeHas | src/bin/day3.rs:77-99 | every kept run of every row is a part number |
| Day3.PartsBeforeOrdered | src/bin/day3.rs:77-99 | the part numbers come in row-major order of their first digits |
| Day3.SuffixAdjacent | src/bin/day3.rs:84-91 | under either check, a run read from a later digit touches a symbol only if the whole run does |
| Day3.SuffixAsWritten | src/bin/day3.rs:101-137 | the program's check finds a symbol next to a run whenever it finds one next to a suffix of that run |
| Day3.CellStep | src/bin/day3.rs:84 | a kept run start is not yet covered, and at an uncovered digit the run is kept exactly when the check in use finds a symbol next to it |
| Day3.RunStartUncovered | src/bin/day3.rs:84 | no number found so far covers the first digit of a run |
| Day3.LaterDigit | src/bin/day3.rs:84-93 | at a later digit of a run, an uncovered digit means the check in use finds no symbol next to the run read from it, so it is not pushed |
| Day3.ScanCell | src/bin/day3.rs:83-94 | one cell of the scan extends the found numbers by exactly the part number that starts there, if any, under the program's check or the intended one |
| Day3.ScanRow | src/bin/day3.rs:81-95 | one row of the scan appends that row's part numbers, under either check |
| Day3.PartNumbers | src/bin/day3.rs:77-99 | the scan returns exactly the maximal digit runs that the chosen check finds next to a symbol, in row-major order |
| Day3.AsWrittenPartsAmongIntended | src/bin/day3.rs:111 | every part number the program keeps is kept by the intended check too |
| Day3.RightEdgePartDropped | src/bin/day3.rs:77-99 | on the row "1#" the program keeps no part number, while the intended check keeps the `1` |
| Day3.BlockCells | src/bin/day3.rs:148-149 | the nine cells around and at the star, row by row |
| Day3.DistinctAppend | src/bin/day3.rs:152-154 | pushing a number not yet present keeps the list free of duplicates |
| Day3.CollectMeaning | src/bin/day3.rs:148-159 | the collected numbers are distinct and are exactly the numbers found at the cells |
| Day3.CellOfBlock | src/bin/day3.rs:148-149 | every cell within one step of the star is one of the nine looked at |
| Day3.BlockMembership | src/bin/day3.rs:147-159 | the numbers around a star are distinct, and a number is among them exactly when it is the first number covering one of the nine cells |
| Day3.GearAtMeaning | src/bin/day3.rs:146-166 | a gear is found exactly at a `*` with two distinct numbers around it, and those two are the only numbers around it |
| Day3.RowGearsElem | src/bin/day3.rs:144-168 | every gear found in a row comes from a cell of that row |
| Day3.GearsBeforeElem | src/bin/day3.rs:139-172 | every gear found comes from some cell of the grid |
| Day3.RowGearsHas | src/bin/day3.rs:144-168 | every gear cell of a row contributes its gear |
| Day3.GearsBeforeHas | src/bin/day3.rs:139-172 | every gear cell of the grid contributes its gear |
| Day3.AdjacentNumbers | src/bin/day3.rs:147-159 | the two nested loops over the block collect exactly the distinct numbers around the star |
| Day3.GearCell | src/bin/day3.rs:145-167 | one cell adds the gear found there, if any |
| Day3.GearsInRow | src/bin/day3.rs:143-168 | one row appends that row's gears |
| Day3.Gears | src/bin/day3.rs:139-172 | the scan returns every gear in row-major order |
| Day3.SchemaFrom | src/bin/day3.rs:69-75 | the schema holds the part numbers that the program's own check keeps, and the gears looked up among them |
| Day3.PartSumNonNegative | src/bin/day3.rs:177 | part numbers are read from digits, so the first answer is never negative |
| Day3.GearFromNumbers | src/bin/day3.rs:161-164 | both numbers of every gear are among the numbers the gears were looked up in |
| Day3.PartNonNegative | src/bin/day3.rs:87 | a part number's value is never negative |
| Day3.RatioSumNonNegative | src/bin/day3.rs:58-60 | gears pair part numbers, so every ratio and the second answer are never negative |
| Day4.LayoutFinds | src/bin/day4.rs:12-14 | in a card laid out as "Card <id>: <winning> \| <numbers>" the first space, colon and bar are where the layout puts them |
| Day4.LayoutId | src/bin/day4.rs:12 | the text between the first space and the colon is the id as written |
| Day4.SliceOfFront | src/bin/day4.rs:12-13 | a slice that ends before the appended text is a slice of the front part |
| Day4.LayoutWinning | src/bin/day4.rs:13 | the text between the colon and the bar is the winning numbers, padded by one space each side |
| Day4.LayoutNumbers | src/bin/day4.rs:14 | the text after the bar is the card's numbers after one space |
| Day4.NumbersAfterBar | src/bin/day4.rs:14 | everything after the bar is the rest of the line after it |
| Day4.CardFromShown | src/bin/day4.rs:11-21 | reading back a written card gives the card: id, winning numbers and numbers |
| Day4.MatchCount | src/bin/day4.rs:31-33 | the matches number at most the card's numbers, are none exactly when no number wins, and are all of them exactly when every number wins |
| Day4.PointsDouble | src/bin/day4.rs:23-29 | a card scores exactly when it has a match; one match scores 1 and each further match doubles the score |
| Day4.AllWinningValue | src/bin/day4.rs:23-29 | a card whose n numbers all win scores 2^(n-1) |
| Day4.TotalPointsAppend | src/bin/day4.rs:38 | the part 1 sum over two runs of cards is the sum of their sums |
| Day4.TotalPointsZero | src/bin/day4.rs:38 | the part 1 sum is zero exactly when no card has a match |
| Day4.CopiesAtLeastOne | src/bin/day4.rs:40-45 | every card is held at least once |
| Day4.WonNonNegative | src/bin/day4.rs:43 | the copies won from earlier cards are never negative |
| Day4.CopyTable | src/bin/day4.rs:40-45 | one copy count per card |
| Day4.CountsStep | src/bin/day4.rs:43 | one step of the inner loop adds card i's copies to the next card it wins and changes nothing else |
| Day4.Counts | src/bin/day4.rs:40-45 | the propagation loop yields, for every card, the original plus the copies won from the earlier cards |
| Day4.CopyTableBounds | src/bin/day4.rs:40-47 | every card ends with at least one copy, so the total is at least the number of cards |
| Day4.MatchTable | src/bin/day4.rs:42 | the matches of every card, in order |
| Day4.TotalCards | src/bin/day4.rs:40-47 | the second answer is the sum of the copy table, at least the number of cards |
| Day5.TotalLenAppend | src/bin/day5.rs:99 | the ids held by appended range lists add up |
| Day5.TotalLenNonNegative | src/bin/day5.rs:21-56 | proper ranges hold a non-negative number of ids |
| Day5.RuleFromShown | src/bin/day5.rs:67-71 | a rule line "dest source range" reads back as the rule it was written from |
| Day5.ApplyRangeMeaning | src/bin/day5.rs:73-84 | a rule applies exactly when its guard holds; it then picks out the ids of the range inside its source interval and sends them, as many as there are, `dest - source` further on |
| Day5.OverlapsIntersect | src/bin/day5.rs:77 | for a non-empty range and a rule that moves something, the guard holds exactly when the two intervals share an id |
| Day5.FirstOverlapFrom | src/bin/day5.rs:32-48 | a rule found from index k on is one whose guard holds |
| Day5.FirstOverlap | src/bin/day5.rs:32-48 | the rule found is one whose guard holds |
| Day5.FirstOverlapFromMeaning | src/bin/day5.rs:32-48 | the rules before the one found do not apply, and none applies when nothing is found |
| Day5.ClaimSplits | src/bin/day5.rs:33-41 | the claimed part and the pushed-back left and right parts are proper, lie within the range and together hold exactly its ids; a non-empty range loses at least one id |
| Day5.LeftoversSplit | src/bin/day5.rs:36-41 | taking a proper part out of a range leaves proper parts of it holding exactly the other ids |
| Day5.NextShrinks | src/bin/day5.rs:25-53 | every turn of the worklist loop takes ids off the pending ranges or, taking none, one range: the loop ends |
| Day5.DrainShape | src/bin/day5.rs:21-56 | the emitted ranges are proper, at least one per range, and hold as many ids as went in |
| Day5.OverlapsPart | src/bin/day5.rs:77 | a rule whose guard holds for a part of a range holds for the range |
| Day5.ClaimIsImage | src/bin/day5.rs:33-35 | the range emitted for a claimed part is its image under the first rule that applies |
| Day5.DrainImage | src/bin/day5.rs:21-56 | every emitted range is the image of a part of the input, under the first rule that applies to that part or under no rule |
| Day5.DrainUntouched | src/bin/day5.rs:50-52 | a range no rule applies to comes out unchanged and alone |
| Day5.UnitOverlapFrom | src/bin/day5.rs:77-80 | for a single id, the first rule that applies is the first whose source holds the id, and moves the id by its delta |
| Day5.DrainUnit | src/bin/day5.rs:21-56 | a single-id range comes out as the single id its lookup gives |
| Day5.SourceSeedMissed | src/bin/day5.rs:77 | the empty range [98, 98) is not moved by the rule "50 98 2", although the id 98 is |
| Day5.NewMap | src/bin/day5.rs:12-19 | the map takes its name from the first line and one rule from each further line, in order |
| Day5.ClaimFirst | src/bin/day5.rs:32-48 | the inner loop stops at the first rule that applies and yields its result, or finds none |
| Day5.Turn | src/bin/day5.rs:30-52 | one turn of the worklist loop pops a range and moves the claimed part out, the leftovers back, or the whole range out |
| Day5.MapApplyRange | src/bin/day5.rs:21-56 | the worklist loop yields exactly what repeated turns until the worklist is empty yield |
| Day5.StageShape | src/bin/day5.rs:97-102 | one map keeps the ranges proper, gives at least one range per range and keeps every id |
| Day5.ThroughShape | src/bin/day5.rs:96-103 | the same for the whole chain of maps |
| Day5.LocatedShape | src/bin/day5.rs:94-106 | no id is lost or gained on the way through the maps, and every seed range yields at least one location range |
| Day5.ThroughUnit | src/bin/day5.rs:96-103 | a single-id range goes through the maps as the single id of its location |
| Day5.MinStartIsLeast | src/bin/day5.rs:108-109 | the first start after sorting by start is the least start, and some range has it |
| Day5.ApplyMap | src/bin/day5.rs:97-102 | the `for cur` loop appends the results of one map for every current range |
| Day5.ThroughMaps | src/bin/day5.rs:95-103 | the `for map` loop sends one seed range through every map in order |
| Day5.LowestLocation | src/bin/day5.rs:93-126 | both parts: every seed range is sent through the maps, and the answer is the least start of all the location ranges |
| Day5.PointRanges | src/bin/day5.rs:95 | part 1 as written: one empty range [s, s) per seed |
| Day5.UnitRanges | src/bin/day5.rs:95 | part 1 as intended: one range [s, s + 1) per seed |
| Day5.PairRanges | src/bin/day5.rs:112-113 | part 2: one range per start and length pair, proper when no length is negative |
| Day5.LocatedUnits | src/bin/day5.rs:94-106 | single-id seed ranges come out as the single ids of their locations |
| Day5.MinStartUnits | src/bin/day5.rs:108-109 | the least start of single-id ranges is the least of those ids |
| Day5.UnitSeedsLowest | src/bin/day5.rs:93-109 | with single-id seed ranges, the answer is the lowest location of any seed |
| Day5.PointSeedMissed | src/bin/day5.rs:95 | as written, the seed 98 under the rule "50 98 2" stays at 98 although its location is 50 |
| Day5.FlattenAppend | src/bin/day5.rs:91 | flattening distributes over appending blocks |
| Day5.BlocksMeaning | src/bin/day5.rs:91 | splitting at empty lines and dropping empty groups gives non-empty blocks without empty lines, holding in order exactly the non-empty lines |
| Day5.Part1FixedLowest | src/bin/day5.rs:93-109 | the corrected part 1 answers the lowest location of any seed |
| Day6.DistanceShape | src/bin/day6.rs:4-10 | no charge or a full-race charge goes nowhere, charging c goes as far as charging time - c, an overlong charge goes nowhere, and no distance is negative |
| Day6.DistanceDifference | src/bin/day6.rs:4-10 | a longer charge gains (b - a) * (time - a - b) |
| Day6.WinsBetween | src/bin/day6.rs:4-10 | a charge between two winning charges wins too |
| Day6.CountWins | src/bin/day6.rs:21-27 | the inner loop of part 1 counts the winning charges of one race |
| Day6.WinCounts | src/bin/day6.rs:18-30 | one count per race |
| Day6.Part1 | src/bin/day6.rs:16-30 | part 1 is the product of the races' numbers of winning charges |
| Day6.ValuesOfShown | src/bin/day6.rs:13-14 | a line written as a name, a colon and values joined by spaces reads back as exactly those values |
| Day6.Lower | src/bin/day6.rs:37-45 | the first search finds the least winning charge, or leaves 0 when none wins |
| Day6.Upper | src/bin/day6.rs:38-52 | the second search finds the greatest winning charge, or leaves 0 when none wins |
| Day6.CountSpan | src/bin/day6.rs:23-27 | with winners exactly from lower to upper, the count below n is the part of that interval below n |
| Day6.SpanIsCount | src/bin/day6.rs:37-54 | the winning charges form one interval, so upper - lower + 1 counts them whenever some charge wins |
| Day6.Part2 | src/bin/day6.rs:37-54 | part 2 as written answers the number of winning charges for a winnable race, and 1 for an unwinnable one |
| Day6.UnwinnableRace | src/bin/day6.rs:54 | a race of 3 against a record of 5 cannot be won: it has no winning charge |
| Day6.Part2Fixed | src/bin/day6.rs:37-54 | the corrected part 2 answers the number of winning charges, 0 for an unwinnable race |
| Day6.SqueezeAt | src/bin/day6.rs:34 | removing the spaces keeps the text before the first space |
| Day6.ConcatTrimmedSplit | src/bin/day6.rs:34-35 | collecting the trimmed space-separated pieces drops exactly the spaces |
| Day6.JoinedValueSqueezed | src/bin/day6.rs:34-35 | the trimmed space-separated pieces after the colon, collected, are that text without its spaces, and the part 2 value is that text read as one number |
| Day7.CardNewLetter | src/bin/day7.rs:15-25 | a one-letter card text gives a card of the deck: a digit reads as its value and `T` as 10 |
| Day7.CardCmpStrength | src/bin/day7.rs:5-12 | on the cards of the deck the derived order (numbers by value, then J, Q, K, A) is the order of strengths |
| Day7.CompareJokerStrength | src/bin/day7.rs:27-41 | the joker order puts J below every other card and otherwise keeps the derived order |
| Day7.CountInAbsent | src/bin/day7.rs:99-106 | a card without an entry counts 0 |
| Day7.PutCount | src/bin/day7.rs:102-104 | `insert` sets the count of one card and leaves the others alone |
| Day7.PutSum | src/bin/day7.rs:102-104 | `insert` keeps one entry per card and replaces the old count in the sum of the counts |
| Day7.PutPositive | src/bin/day7.rs:102-104 | `insert` of a positive count keeps every count positive |
| Day7.TallyCounts | src/bin/day7.rs:99-106 | after the loop the table holds, for every card of the hand and no other, how many times it occurs |
| Day7.TallyShape | src/bin/day7.rs:99-106 | the table has one entry per card, with positive counts that add up to the number of cards |
| Day7.TallyMeaning | src/bin/day7.rs:99-106 | both of the above together |
| Day7.CountInEntry | src/bin/day7.rs:108 | every entry holds the count of its card |
| Day7.TallyEntries | src/bin/day7.rs:108 | each entry is a card of the hand with its multiplicity |
| Day7.RemoveMeaning | src/bin/day7.rs:138 | `remove` drops the entry of one card, keeps the others and takes its count off the sum |
| Day7.RemoveNothing | src/bin/day7.rs:138 | removing a card without an entry changes nothing |
| Day7.InsertDescPerm | src/bin/day7.rs:109-110 | inserting into the descending list adds the element and its value to the sum |
| Day7.InsertDescSorted | src/bin/day7.rs:109-110 | inserting into a descending list keeps it descending |
| Day7.SortDescMeaning | src/bin/day7.rs:108-110 | `sort` then `reverse` gives a descending permutation of the counts, with the same sum |
| Day7.ValuesPositive | src/bin/day7.rs:108 | the counts of a table with positive counts are positive, one per entry |
| Day7.PositivePermutation | src/bin/day7.rs:109-110 | a permutation of positive counts is positive |
| Day7.ProfileMeaning | src/bin/day7.rs:108-110 | the count profile of a hand is descending, positive, a permutation of the multiplicities, and adds up to the number of cards |
| Day7.JokerProfileMeaning | src/bin/day7.rs:133-142 | the profile without jokers is descending and positive and, with the jokers counted, adds up to the number of cards |
| Day7.SumUpToFive | src/bin/day7.rs:112-120 | the sum of at most five counts written out |
| Day7.PartitionsOfFive | src/bin/day7.rs:112-120 | a descending list of positive counts adding up to five is one of the seven partitions of five |
| Day7.KindTable | src/bin/day7.rs:98-121 | each of the seven count profiles of a five-card hand gets the type the game gives it |
| Day7.ClassifyPartitions | src/bin/day7.rs:112-153 | the two `match`es give each partition of five its type, and the joker `match` with no jokers agrees with the plain one |
| Day7.JokerlessKind | src/bin/day7.rs:123-154 | a hand without jokers gets the same type in both parts |
| Day7.FiveJokers | src/bin/day7.rs:151 | five jokers make five of a kind |
| Day7.TallyCards | src/bin/day7.rs:99-106 | the counting loop yields the table of the hand's multiplicities |
| Day7.HandKind | src/bin/day7.rs:98-121 | `kind` classifies the sorted profile |
| Day7.HandJokerKind | src/bin/day7.rs:123-154 | `joker_kind` classifies the profile without jokers, raised by the jokers, and agrees with `kind` on hands without jokers |
| Day7.CardsFrom | src/bin/day7.rs:93 | one card per letter |
| Day7.CardsFromValid | src/bin/day7.rs:93 | every card read is a card of the deck |
| Day7.HandFromValid | src/bin/day7.rs:92-96 | every line `Hand::new` accepts gives five cards of the deck |
| Day7.CardLetterNew | src/bin/day7.rs:15-25 | a card's letter reads back as the card |
| Day7.CardsRead | src/bin/day7.rs:93 | letters written from cards read back as those cards |
| Day7.BidShown | src/bin/day7.rs:94 | the bid after the first space reads back |
| Day7.HandFromShown | src/bin/day7.rs:92-96 | reading the line of a hand gives the hand back |
| Day7.Strengths | src/bin/day7.rs:73-81 | the strengths of the cards, in order |
| Day7.CardOrderStrength | src/bin/day7.rs:74 | the card order of either part is the order of that part's strengths |
| Day7.FirstDifferenceLex | src/bin/day7.rs:73-83 | comparing card by card from index idx is comparing the remaining strengths lexicographically |
| Day7.HandCmpKey | src/bin/day7.rs:69-89 | comparing two hands is comparing their keys: the type first, then the first card that differs |
| Day7.LexCmpCons | src/bin/day7.rs:71-85 | keys whose ranks differ compare by rank, otherwise by the rest |
| Day7.StrengthInjective | src/bin/day7.rs:5-12 | strength tells the cards of the deck apart |
| Day7.HandCmpEqual | src/bin/day7.rs:61-65 | a comparison is Equal exactly when the hands hold the same cards, which is what `eq` compares |
| Day7.SortedByHandCmp | src/bin/day7.rs:181 | a sequence sorted by key is ordered by the comparison of hands |
| Day7.TotalWinnings | src/bin/day7.rs:182-186 | the loop adds up each bid times its rank |
| Day7.RankedWinnings | src/bin/day7.rs:181-197 | the hands are rearranged in place into an order where no hand compares below an earlier one, and the winnings of that order are answered |
| Sorting.LexCmpOrder | src/bin/day7.rs:69-89 | the key comparison is a total order: Equal only on equal keys, and the reverse seen from the other side |
| Sorting.LexLessTransitive | src/bin/day7.rs:181 | "less" is transitive |
| Sorting.LexLeTransitive | src/bin/day7.rs:181 | "not greater" is transitive |
| Sorting.LexLessAsymmetric | src/bin/day7.rs:181 | "less" is asymmetric |
| Sorting.HoleSwap | src/bin/day7.rs:181 | swapping the element at the hole with a greater-keyed left neighbour moves the hole left |
| Sorting.HoleClosed | src/bin/day7.rs:181 | a hole without a greater-keyed left neighbour closes, leaving the prefix sorted |
| Sorting.Insert | src/bin/day7.rs:181 | one insertion step leaves a longer prefix sorted and permutes the array |
| Sorting.SortByKey | src/bin/day7.rs:181 | the array ends sorted by key and is a permutation of what it held |
| Day8.Instructions | src/bin/day8.rs:50 | one instruction per letter of the first line, read by `Instruction::new` |
| Day8.InstructionsShown | src/bin/day8.rs:11-19 | reading the letters of instructions gives the instructions back |
| Day8.ShowNodeFinds | src/bin/day8.rs:29-35 | in the line "id = (left, right)" of a node with plain names, `=`, `(`, `,` and `)` are found where the layout puts them |
| Day8.ShowNodeSlices | src/bin/day8.rs:31-33 | the names stand between those separators |
| Day8.FieldPlain | src/bin/day8.rs:31-33 | a slice holding a plain name trims to that name |
| Day8.NodeNewAt | src/bin/day8.rs:29-35 | `Node::new` reads the three fields between the separators found |
| Day8.NodeAtNames | src/bin/day8.rs:31-33 | plain names between the separators read as themselves |
| Day8.NodeFromShown | src/bin/day8.rs:29-35 | reading the line of a node gives the node back |
| Day8.NodeMapKeys | src/bin/day8.rs:55 | the network holds exactly the ids of the lines |
| Day8.NodeMapValues | src/bin/day8.rs:55 | each id maps to the last line with that id, as collecting into a `HashMap` keeps |
| Day8.Move | src/bin/day8.rs:64-68 | one step from a node goes to its left or its right neighbour, and stays in the network when the network is closed |
| Day8.MovePeriodic | src/bin/day8.rs:64 | the instructions repeat: a step a whole round later uses the same instruction |
| Day8.PositionPrefix | src/bin/day8.rs:66-67 | a walk that gets k steps far stood on a node of the network at every earlier step, so no lookup before then panics |
| Day8.ClosedPosition | src/bin/day8.rs:63-74 | in a network whose neighbours are all nodes, a walk from a node never stops and stays in the network |
| Day8.OpenNetworkWalk | src/bin/day8.rs:63-74 | the network `AAA = (ZZZ, ZZZ)` without a `ZZZ` line is not closed, yet its walk hits `ZZZ` after one step |
| Day8.Walk | src/bin/day8.rs:83-96 | the walk answers the least positive number of steps that ends on the target; the start node itself is never compared with the target, and only the names stood on before then must be nodes |
| Day8.Part1 | src/bin/day8.rs:60-76 | part 1 answers the least positive number of steps from AAA that reaches ZZZ |
| Day8.GcdDivides | src/bin/day8.rs:38-43 | `gcd` divides both arguments |
| Day8.GcdGreatest | src/bin/day8.rs:38-43 | every common divisor divides `gcd` |
| Day8.GcdSign | src/bin/day8.rs:38-43 | on non-negative arguments `gcd` is non-negative, and zero only when both are |
| Day8.LcmMultiple | src/bin/day8.rs:45-47 | `lcm` is a multiple of both arguments, and positive when they are |
| Day8.LcmFold | src/bin/day8.rs:101-105 | the fold of `lcm` over positive cycle lengths is positive |
| Day8.LcmFoldMultiple | src/bin/day8.rs:101-105 | the fold is a common multiple of every cycle length |
| Day8.FoldLcm | src/bin/day8.rs:101-105 | the loop computes the fold |
| Day8.Part2 | src/bin/day8.rs:78-107 | part 2 walks from every node ending in A to the first node ending in Z, one cycle length per starter, and answers a common multiple of them all |
| Day9.SeriesShown | src/bin/day9.rs:9-13 | a series written with single spaces reads back |
| Day9.Diffs | src/bin/day9.rs:23-29 | the row of pairwise differences is one shorter than the row |
| Day9.DiffsAt | src/bin/day9.rs:28 | each difference is that of two neighbours |
| Day9.Table | src/bin/day9.rs:17-37 | the stack starts with the series |
| Day9.TableShape | src/bin/day9.rs:17-37 | each row of the stack is the differences of the row above, none below the series is all zero, and the last row's differences all vanish |
| Day9.TableFolds | src/bin/day9.rs:39-51 | the two folds over the stack are the values that precede and follow the series |
| Day9.DiffsAppend | src/bin/day9.rs:23-29 | a value appended to a row appends one difference |
| Day9.DiffsPrepend | src/bin/day9.rs:23-29 | a value put in front of a row puts one difference in front |
| Day9.ExtendRight | src/bin/day9.rs:39-43 | one extended row per row |
| Day9.ExtendLeft | src/bin/day9.rs:45-49 | one extended row per row |
| Day9.AllZeroExtended | src/bin/day9.rs:31 | a row of differences extended by a value is all zero exactly when the row is and the value is 0 |
| Day9.ForwardExtends | src/bin/day9.rs:39-43 | the value computed to follow the series continues its whole table: the table of the extended series is the old table with every row extended, no deeper |
| Day9.BackwardExtends | src/bin/day9.rs:45-49 | the value computed to precede the series continues its whole table in the same way on the left |
| Day9.ConstantSeries | src/bin/day9.rs:15-52 | a constant series continues with the same constant on both sides |
| Day9.LinearSeries | src/bin/day9.rs:15-52 | an arithmetic progression of at least two terms is continued by its next and its previous terms |
| Day9.LinearDiffs | src/bin/day9.rs:23-29 | the differences of an arithmetic progression are its step |
| Day9.Differences | src/bin/day9.rs:21-29 | the `windows(2)` loop computes the pairwise differences |
| Day9.DifferenceTable | src/bin/day9.rs:17-37 | the first loop builds the stack of difference rows, up to the first whose differences all vanish |
| Day9.SumLasts | src/bin/day9.rs:39-43 | the `right` loop adds the last elements from the deepest row up |
| Day9.FoldFirsts | src/bin/day9.rs:45-49 | the `left` loop takes each first element less the value so far, from the deepest row up |
| Day9.Next | src/bin/day9.rs:15-52 | `next` answers the values that precede and follow the series |
| Day9.ConstantTotals | src/bin/day9.rs:63-64 | for constant series both answers are the sum of the constants |
| Day10.OppositeInvolution | src/bin/day10.rs:15-22 | turning round twice is the identity and never faces the same way |
| Day10.TileNew | src/bin/day10.rs:32-44 | each pipe letter names two different directions; `.` is ground and `S` the start |
| Day10.TileLetterRoundTrip | src/bin/day10.rs:32-44 | reading a tile's letter gives the tile back, and the other way round |
| Day10.Connects | src/bin/day10.rs:46-59 | ground joins nothing, the start everything, a pipe exactly its two directions |
| Day10.At | src/bin/day10.rs:112-118 | the tile at a position, None exactly outside the grid |
| Day10.Size | src/bin/day10.rs:120-122 | `at` finds a tile exactly within the width and the height |
| Day10.StepBack | src/bin/day10.rs:130-133 | a step and the opposite step return to the cell, and a step moves |
| Day10.ConnectsTo | src/bin/day10.rs:124-141 | true exactly when the tile joins the direction, the neighbour that way exists and joins back |
| Day10.ConnectsToSymmetric | src/bin/day10.rs:124-141 | a connection seen from the neighbour joins back the opposite way |
| Day10.TileRow | src/bin/day10.rs:103 | one tile per letter of a line |
| Day10.TileRows | src/bin/day10.rs:103 | one row per line |
| Day10.StartIn | src/bin/day10.rs:104 | the first place in a row holding the start, None exactly when there is none |
| Day10.StartRow | src/bin/day10.rs:104 | the first row holding the start, None exactly when no row does |
| Day10.MapNew | src/bin/day10.rs:102-110 | the tiles of the lines, and the start at the first start tile in reading order |
| Day10.Inside | src/bin/day10.rs:143-179 | the crossing scan from the left edge of the row up to the position gives the parity the crossing rules define |
| Day10.InsideFirstColumn | src/bin/day10.rs:146 | nothing lies left of the first column, so no tile there is inside |
| Day10.ScanLocal | src/bin/day10.rs:146-176 | the scan sees only the loop cells of its own row left of where it stops |
| Day10.InsideLocal | src/bin/day10.rs:143-179 | whether a tile is inside depends only on the loop cells left of it in its row |
| Day10.CrossingRules | src/bin/day10.rs:147-173 | a `\|` crosses once, a `-` and the start not at all, and a pair of corners crosses once exactly when one turns north and the other south |
| Day10.InsideCellsStep | src/bin/day10.rs:185-192 | the next cell of a row is counted exactly when it is off the loop and inside |
| Day10.InsideCellsRow | src/bin/day10.rs:183-184 | the end of one row is the start of the next |
| Day10.CountRowInside | src/bin/day10.rs:184-195 | the inner loop adds the cells of one row that are off the loop and inside |
| Day10.CountInside | src/bin/day10.rs:181-200 | `print_inside` counts the cells off the loop that are inside it |
| Day10.LinkedSymmetric | src/bin/day10.rs:223-237 | a cell the search may step to is on the grid, links back and is another cell |
| Day10.SearchPathExtend | src/bin/day10.rs:239-249 | extending a search path by a linked cell other than the one before keeps it a search path |
| Day10.Neighbours | src/bin/day10.rs:221-237 | the cells pushed are linked to the position, and every linked cell is pushed |
| Day10.FindLoop | src/bin/day10.rs:213-259 | a non-empty result is the set of cells of a search path from the start whose next cell is a start tile |
| Day11.TileNew | src/bin/day11.rs:12-18 | `#` is a galaxy and `.` empty space |
| Day11.TileRow | src/bin/day11.rs:56-62 | one tile per character of a line, read by `Tile::new` |
| Day11.ImageNew | src/bin/day11.rs:51-70 | the tiles of every line, and the galaxies in reading order |
| Day11.ReadLine | src/bin/day11.rs:55-62 | the inner loop reads the tiles of one line and the galaxies on it |
| Day11.RowGalaxiesExtend | src/bin/day11.rs:58-60 | a galaxy tile at the next column is pushed at the end, an empty one adds nothing |
| Day11.RowGalaxiesPrefix | src/bin/day11.rs:56-62 | the galaxies found so far depend only on the columns read so far |
| Day11.GalaxiesInPrefix | src/bin/day11.rs:54-64 | a new line appends the galaxies of that line |
| Day11.GalaxiesInUnchanged | src/bin/day11.rs:54-64 | the galaxies found so far depend only on the lines read so far |
| Day11.RowGalaxiesExact | src/bin/day11.rs:56-62 | a position is listed for a row exactly when a galaxy stands there |
| Day11.GalaxiesExact | src/bin/day11.rs:51-70 | `Image::new` lists exactly the `#` cells |
| Day11.RowGalaxiesOrdered | src/bin/day11.rs:56-62 | the galaxies of a row are listed left to right, on that row |
| Day11.GalaxiesOrdered | src/bin/day11.rs:54-64 | the galaxies are listed in strict reading order |
| Day11.OrderedAppend | src/bin/day11.rs:54-64 | the galaxies of earlier rows followed by those of the next row stay in reading order |
| Day11.At | src/bin/day11.rs:76-82 | the tile at a position, None exactly outside the grid |
| Day11.Size | src/bin/day11.rs:72-74 | `at` finds a tile exactly within the width and the height |
| Day11.EmptyRows | src/bin/day11.rs:85-97 | the set of rows holding no galaxy |
| Day11.EmptyCols | src/bin/day11.rs:99-111 | the set of columns holding no galaxy |
| Day11.ExpandAll | src/bin/day11.rs:113-132 | moving a list of galaxies keeps one entry per galaxy |
| Day11.ExpandAllAt | src/bin/day11.rs:113-132 | entry `k` of the moved list is galaxy `k`, moved |
| Day11.ExpandedGalaxies | src/bin/day11.rs:84-133 | every galaxy in reading order, moved right by `expansion - 1` for each empty column up to and including its own and down by as much for each empty row above it |
| Day11.RowsBeforeStep | src/bin/day11.rs:127-129 | the empty-row counter goes up by one exactly at a row in the empty set |
| Day11.ExpandLine | src/bin/day11.rs:117-126 | the inner loop moves the galaxies of one row |
| Day11.ColsBeforeStep | src/bin/day11.rs:119-121 | the empty-column counter goes up by one exactly at a column in the empty set |
| Day11.ExpandAtCounters | src/bin/day11.rs:123 | the pushed position is the galaxy moved by the two counters |
| Day11.ExpandLineStep | src/bin/day11.rs:118-126 | each column pushes its galaxy, moved, or nothing |
| Day11.ExpandAllAppend | src/bin/day11.rs:113-132 | moving two lists one after the other is moving their concatenation |
| Day11.ExpansionOne | src/bin/day11.rs:84-133 | with an expansion of one every galaxy stays where it is |
| Day11.ExpandOneAll | src/bin/day11.rs:123 | an expansion of one moves no galaxy of any list |
| Day11.DistanceMetric | src/bin/day11.rs:136-138 | the distance is non-negative, zero exactly between equal points, symmetric and never longer than a detour |
| Day11.EmptyColsMonotone | src/bin/day11.rs:119-121 | the count of empty columns never decreases from left to right |
| Day11.EmptyRowsMonotone | src/bin/day11.rs:127-129 | the count of empty rows never decreases from top to bottom |
| Day11.ScaledDifference | src/bin/day11.rs:123 | two points moved by counts scaled by the same factor differ by their difference plus the scaled difference of the counts |
| Day11.ExpandedColumns | src/bin/day11.rs:84-133 | two galaxies move apart across by `expansion - 1` for each empty column between them |
| Day11.ExpandedRows | src/bin/day11.rs:84-133 | and down by `expansion - 1` for each empty row between them |
| Day11.ExpandedDistance | src/bin/day11.rs:136-138 | the distance between two expanded galaxies is the old distance plus `expansion - 1` for every empty row and column between them |
| Day11.PairwiseSum | src/bin/day11.rs:145-154 | the pairwise loops of `main` add the distance of every pair once |
| Day11.RowToUnchanged | src/bin/day11.rs:148-152 | a galaxy added at the end leaves the sums of earlier pairs alone |
| Day11.PairSumAppend | src/bin/day11.rs:148-152 | a galaxy added at the end adds its distance to every earlier one |
| Day11.PairSumMatches | src/bin/day11.rs:148-154 | the order-of-loops sum equals the sum over each galaxy and all those before it |
| Day11.PairSumRefNonNegative | src/bin/day11.rs:148-154 | the sum of distances is never negative |
| Day11.ToAllNonNegative | src/bin/day11.rs:136-138 | the sum of distances from one galaxy to a list is never negative |
| Day12.ConditionNew | src/bin/day12.rs:23-30 | `.` is operational, `#` damaged and `?` unknown, each exactly |
| Day12.ConditionSymbol | src/bin/day12.rs:12-21 | `Condition::new` reads back the character `Debug` writes |
| Day12.Springs | src/bin/day12.rs:51 | one condition per character before the space |
| Day12.GroupsIn | src/bin/day12.rs:52 | the integers among the comma-separated pieces, never more than the pieces |
| Day12.RowNew | src/bin/day12.rs:49-54 | the springs are the characters before the first space |
| Day12.Symbols | src/bin/day12.rs:41-43 | `Debug` writes one character per spring |
| Day12.GroupsInShowAll | src/bin/day12.rs:52 | the groups written as integers parse back |
| Day12.GroupsShown | src/bin/day12.rs:44-52 | the groups joined by commas split and parse back |
| Day12.SpringsSymbols | src/bin/day12.rs:41-51 | the springs written by `Debug` read back |
| Day12.RowNewShown | src/bin/day12.rs:39-54 | `Row::new` reads back the `Debug` form of every row |
| Day12.ContiguousGroups | src/bin/day12.rs:56-75 | the loop gives the lengths of the damaged runs, left to right |
| Day12.Repeat | src/bin/day12.rs:61 | a run of `n` copies of one condition |
| Day12.RunsDamagedFirst | src/bin/day12.rs:61 | damaged springs in front only lengthen the open run |
| Day12.RunOfDamaged | src/bin/day12.rs:56-75 | a run of `n` damaged springs is one group of `n` |
| Day12.RunsSplit | src/bin/day12.rs:62-67 | a spring that is not damaged separates the runs on its two sides |
| Day12.GroupsSplit | src/bin/day12.rs:56-75 | the groups of two parts around a spring that is not damaged are the groups of each part |
| Day12.RunsPositive | src/bin/day12.rs:63-72 | only non-zero counters are pushed |
| Day12.RunsSum | src/bin/day12.rs:56-75 | the runs add up to the open counter plus the damaged springs |
| Day12.GroupsMeasure | src/bin/day12.rs:56-75 | the groups of a row are positive and sum to its damaged springs |
| Day12.UnknownCountZero | src/bin/day12.rs:113-126 | no unknown is counted exactly when none is present |
| Day12.PossibleCheck | src/bin/day12.rs:77-122 | the loop, with its early returns and its break at the first unknown, gives `possible` |
| Day12.PossibleCollapsedAt | src/bin/day12.rs:81-121 | with no unknown ahead, the scan succeeds exactly when the runs still to come are the groups still to match |
| Day12.PossibleCollapsed | src/bin/day12.rs:77-131 | for a row with no unknown spring `possible` and `valid` agree |
| Day12.PossibleSoundAt | src/bin/day12.rs:81-121 | from any point of the scan, a valid completion of the row keeps the scan succeeding |
| Day12.PossibleSound | src/bin/day12.rs:77-122 | `possible` never rejects a row that some valid row completes |
| Day12.PossibleSafeAt | src/bin/day12.rs:81-121 | where the scan succeeds, `remainder`'s reads of the groups stay in bounds |
| Day12.PossibleSafe | src/bin/day12.rs:77-176 | a row `possible` accepts never makes `remainder` index past its groups |
| Day12.CutBounds | src/bin/day12.rs:138-170 | the cut `remainder` makes lands inside the springs and the groups |
| Day12.RemainderCut | src/bin/day12.rs:133-176 | the springs and groups `remainder` drops are within the row |
| Day12.RemainderOf | src/bin/day12.rs:133-176 | the loop of `remainder` cuts the row where the reference cut does |
| Day12.CutPrefix | src/bin/day12.rs:138-170 | the springs dropped hold no unknown, end between groups, and have exactly the groups dropped |
| Day12.PrefixThroughRun | src/bin/day12.rs:141-155 | a run closed by an operational spring after settled springs adds one group |
| Day12.ClosedRun | src/bin/day12.rs:165-170 | a run at the end after settled springs adds one group |
| Day12.RemainderPrefix | src/bin/day12.rs:133-176 | what `remainder` drops is settled, with groups equal to the groups it drops |
| Day12.UnknownCountAppend | src/bin/day12.rs:113 | the unknowns of two parts add up |
| Day12.RemainderUnknowns | src/bin/day12.rs:133-176 | `remainder` keeps every unknown spring |
| Day12.FirstUnknown | src/bin/day12.rs:183-185 | the index of the first unknown spring |
| Day12.VariantsOf | src/bin/day12.rs:178-208 | the loop of `variants` gives the reference variants |
| Day12.UnknownCountUpdate | src/bin/day12.rs:188-194 | settling an unknown spring leaves one unknown fewer |
| Day12.VariantsShape | src/bin/day12.rs:178-208 | at most two variants, each `possible`, each the row with its first unknown settled and one unknown fewer |
| Day12.VariantsComplete | src/bin/day12.rs:178-208 | every valid completion of a row with an unknown spring completes one of its variants |
| Day12.NextRows | src/bin/day12.rs:231 | each variant of the remainder is again scorable and has fewer unknowns |
| Day12.Pow2Monotone | src/bin/day12.rs:210-243 | powers of two grow with the exponent |
| Day12.ScoreBound | src/bin/day12.rs:210-243 | a score never exceeds the number of ways to fill in the unknown springs |
| Day12.ScoreUnknown | src/bin/day12.rs:230-234 | the score of an undecided row is the sum over the variants of its remainder |
| Day12.AtMostTwice | src/bin/day12.rs:233 | at most two scores bounded alike add to at most twice the bound |
| Day12.ScoreAllBound | src/bin/day12.rs:233 | the sum of the variants' scores is bounded by their count times the bound |
| Day12.Unvisited | src/bin/day12.rs:237 | the variants pushed are variants not yet in the memo |
| Day12.SumVisitedScores | src/bin/day12.rs:232-234 | with a correct memo, the memo's sum over the variants is their score |
| Day12.PossibleVariants | src/bin/day12.rs:210-243 | the stack-and-memo loop, when it finishes, gives the score of the row: 1 for a valid row, 0 for a settled invalid one, otherwise the sum over the variants of its remainder |
| Day13.Value | src/bin/day13.rs:11-16 | a hundred per row above a horizontal mirror, one per column left of a vertical one |
| Day13.TileNew | src/bin/day13.rs:26-32 | `#` is rock and `.` ash |
| Day13.Flipped | src/bin/day13.rs:34-39 | flipping gives the other tile |
| Day13.FlippedInvolution | src/bin/day13.rs:34-39 | flipping twice changes nothing |
| Day13.TileRow | src/bin/day13.rs:50 | one tile per character of a line |
| Day13.PatternNew | src/bin/day13.rs:48-52 | one row of tiles per line |
| Day13.Lookup | src/bin/day13.rs:58-64 | lines counted from one, none outside `1..=len` |
| Day13.Columns | src/bin/day13.rs:66-76 | column `x` read top to bottom holds the tile of every row at `x` |
| Day13.Col | src/bin/day13.rs:66-76 | the loop gives column `index`, counted from one, or none outside the width |
| Day13.Reflects | src/bin/day13.rs:120-138 | a missing line reflects anything; two lines reflect when the first equals the start of the second |
| Day13.MirrorsExact | src/bin/day13.rs:78-97 | exactly the splits in `1..n` at which the lines mirror are listed |
| Day13.MirrorsAscending | src/bin/day13.rs:78-97 | and in ascending order |
| Day13.MirrorMeaning | src/bin/day13.rs:80-90 | a mirror at a split means every line above it, as far as the other side reaches, equals the line as far below it |
| Day13.RectangularUniform | src/bin/day13.rs:54-56 | the rows and the columns of a rectangular pattern all have one length |
| Day13.RowsMirror | src/bin/day13.rs:81-89 | the inner loop is true exactly when the rows mirror at the split |
| Day13.HorizontalReflections | src/bin/day13.rs:78-97 | the splits between rows where the pattern mirrors |
| Day13.ColumnsMirror | src/bin/day13.rs:102-110 | the inner loop is true exactly when the columns mirror at the split |
| Day13.VerticalReflections | src/bin/day13.rs:99-118 | the splits between columns where the pattern mirrors |
| Day13.AsHorizontal | src/bin/day13.rs:141 | each horizontal split becomes a horizontal reflection |
| Day13.AsVertical | src/bin/day13.rs:141 | each vertical split becomes a vertical reflection |
| Day13.ReflectionsOf | src/bin/day13.rs:140-142 | the horizontal reflections followed by the vertical ones |
| Day13.Values | src/bin/day13.rs:173 | the value of each reflection, in order |
| Day13.ValuesAppend | src/bin/day13.rs:173 | the values of two lists one after the other are the values of their concatenation |
| Day13.HorizontalValues | src/bin/day13.rs:13 | horizontal reflections are worth a hundred times their splits |
| Day13.VerticalValues | src/bin/day13.rs:14 | vertical reflections are worth their splits |
| Day13.ReflectionsValue | src/bin/day13.rs:173 | a pattern's summary is a hundred times the sum of its horizontal splits plus the sum of its vertical ones |
| Day13.RepairedAt | src/bin/day13.rs:144-150 | a copy with tile `(x, y)`, counted from one, flipped and every other tile kept |
| Day13.NewOnes | src/bin/day13.rs:158-159 | the reflections not in the current list, non-empty exactly when there is one |
| Day13.RepairedRectangular | src/bin/day13.rs:144-150 | a repair keeps the pattern rectangular |
| Day13.Attempt | src/bin/day13.rs:156-159 | one try: the repaired pattern, its reflections and the new ones among them |
| Day13.RowFailsStep | src/bin/day13.rs:155-162 | a tile whose repair brings nothing new extends the failed part of a row |
| Day13.FailsBeforeStep | src/bin/day13.rs:154-163 | failed rows above and a failed start of the row make every tile before `(x, y)` fail |
| Day13.SearchRow | src/bin/day13.rs:155-162 | the first tile of a row whose repair brings a new reflection, or none when no tile of the row does |
| Day13.WithAlternateReflection | src/bin/day13.rs:152-166 | the first tile in reading order whose repair brings a new reflection, paired with the last new reflection, or none when no tile does |
| Day13.FailsBeforeMeaning | src/bin/day13.rs:152-166 | no tile before the one found brings a new reflection |
| Day13.NewOnesDiffer | src/bin/day13.rs:158 | a new reflection makes the two lists differ, so the first test of the condition adds nothing |
| Day13.AlternateIsNew | src/bin/day13.rs:159 | the alternate reflection is one the repaired pattern has and the pattern had not |
| Day14.Vector | src/bin/day14.rs:13-20 | the unit step of each direction: north and south move up and down, east and west right and left |
| Day14.OffsetStep | src/bin/day14.rs:198-210 | one more step is one more `vector`, and steps never return to where they started |
| Day14.TileFrom | src/bin/day14.rs:30-39 | `O` is a round rock, `#` a cube and `.` empty, each exactly |
| Day14.TileChar | src/bin/day14.rs:41-51 | `Tile::from` reads back the character `Debug` writes |
| Day14.MapFrom | src/bin/day14.rs:58-64 | one row of tiles per line, one tile per character |
| Day14.MapLines | src/bin/day14.rs:66-77 | `Debug` writes one line per row and one character per tile |
| Day14.MapFromLines | src/bin/day14.rs:58-77 | reading back what `Debug` writes gives the same platform |
| Day14.Size | src/bin/day14.rs:87-91 | `at` finds a tile exactly within the width and the height |
| Day14.At | src/bin/day14.rs:93-101 | the tile at a position, None exactly off the platform |
| Day14.Set | src/bin/day14.rs:117-118 | the grid with one tile replaced and every other kept |
| Day14.RowRoundsUpdate | src/bin/day14.rs:117-118 | replacing a tile changes a row's rock count by what left and what came |
| Day14.RoundsUpdate | src/bin/day14.rs:117-118 | replacing a row changes the count by the difference of the rows |
| Day14.SetRounds | src/bin/day14.rs:117-118 | setting a tile changes the round-rock count by what left and what came |
| Day14.FinalPosition | src/bin/day14.rs:196-213 | the rock rolls from the start across empty tiles, and stops on the platform where the next tile is off it or not empty |
| Day14.RankCell | src/bin/day14.rs:107-167 | each branch's loops visit tile `i` of line `k` at that rank, on the platform |
| Day14.RankInRange | src/bin/day14.rs:107-167 | every tile of the platform is visited by the branch's loops |
| Day14.RankOffset | src/bin/day14.rs:107-213 | no two tiles share a rank, and a roll of `n` steps goes back `n` lines: each branch visits the lines nearer the edge rocks roll towards first |
| Day14.SettledNorth | src/bin/day14.rs:104-122 | tilted north, every round rock is in the top row or right below a tile that is not empty |
| Day14.SweepStart | src/bin/day14.rs:105 | before any visit the sweep's invariant holds |
| Day14.SweepNextLine | src/bin/day14.rs:109-121 | the end of one line of the sweep is the start of the next |
| Day14.KeptNextLine | src/bin/day14.rs:109-121 | the tiles not yet visited stay as on the original across a line change |
| Day14.BlockedNextLine | src/bin/day14.rs:109-121 | the visited rocks stay blocked across a line change |
| Day14.SweepDone | src/bin/day14.rs:104-171 | after the last line every tile is visited, so the platform is settled |
| Day14.CurrentKept | src/bin/day14.rs:111 | the tile about to be visited is still as on the original |
| Day14.VisitedNext | src/bin/day14.rs:109-121 | the tiles visited after the current one are those before it and it |
| Day14.VisitSkip | src/bin/day14.rs:111-113 | a tile without a round rock on the original is skipped |
| Day14.VisitStay | src/bin/day14.rs:115-116 | a round rock that cannot roll stays where it is |
| Day14.AtSet | src/bin/day14.rs:117-118 | setting a tile changes what `at` sees there and nowhere else |
| Day14.RollShape | src/bin/day14.rs:116-119 | a roll keeps the shape, the cubes and the number of round rocks |
| Day14.MoveRock | src/bin/day14.rs:117-118 | moving a round rock to an empty tile keeps the shape, the cubes and the count |
| Day14.RollKept | src/bin/day14.rs:116-119 | both tiles a roll changes are visited once the current one is |
| Day14.BlockedKept | src/bin/day14.rs:117-118 | a roll leaves a rock blocked unless the tile in front of it was the one left |
| Day14.RollStopBlocked | src/bin/day14.rs:115-118 | the rolling rock is blocked where it stops |
| Day14.RollOtherBlocked | src/bin/day14.rs:115-118 | no other visited rock loses its blocker in a roll |
| Day14.RollBlocked | src/bin/day14.rs:115-119 | after a roll every visited rock is blocked |
| Day14.RollUnsettled | src/bin/day14.rs:116 | a platform already settled has no rock that rolls |
| Day14.Visit | src/bin/day14.rs:111-119 | one visit of the sweep keeps its invariant one tile further |
| Day14.Tilted | src/bin/day14.rs:104-171 | the cubes stay, the round rocks are as many, every rock is blocked in the direction, and a platform already tilted that way does not change |
| Day14.TiltedTwice | src/bin/day14.rs:104-171 | tilting twice in one direction comes to the same as tilting once |
| Day14.Circle | src/bin/day14.rs:173-175 | one spin cycle passes through platforms tilted north, west, south and east in turn, each with the contract of `Tilted`, so it keeps the cubes and the number of round rocks and ends tilted east |
| Day14.Score | src/bin/day14.rs:177-194 | the loops add the load of every round rock: the height minus its row |
| Day14.WeightBounds | src/bin/day14.rs:185 | a weight between one and the height puts between `c` and `height * c` on `c` rocks |
| Day14.LoadBounds | src/bin/day14.rs:177-194 | each round rock weighs at least one and at most the height |
| Day14.Target | src/bin/day14.rs:247 | the state chosen lies in the first repetition, at the goal's place modulo the period |
| Day14.RemLeavesMultiple | src/bin/day14.rs:247 | the remainder of a dividend that is not negative is in range and leaves a multiple of the divisor |
| Day14.IterateAdd | src/bin/day14.rs:225-245 | `a + b` spin cycles are `b` cycles after `a` |
| Day14.CycleRepeats | src/bin/day14.rs:231-245 | once state `count` repeats state `start`, every later state is one from the first repetition at the same place modulo the period |
| Day14.TargetIsGoal | src/bin/day14.rs:247-248 | the state `main` scores is the one after the goal's number of spin cycles |
| Day15.HashOf | src/bin/day15.rs:5-12 | the HASH of a label is always below 256 |
| Day15.HashAppend | src/bin/day15.rs:6-9 | the empty label hashes to zero, and one more character adds its code, multiplies by 17 and keeps the remainder by 256 |
| Day15.Hash | src/bin/day15.rs:5-12 | the loop computes the HASH of the input, below 256 |
| Day15.OperationFrom | src/bin/day15.rs:35-43 | `=` is an add and `-` a remove, each exactly |
| Day15.FindOp | src/bin/day15.rs:54 | the position of the first `=` or `-`, none exactly when there is no such character |
| Day15.StepFrom | src/bin/day15.rs:52-68 | the label is the text before the first `=` or `-`, that character is the operation, and only an add has a focal length, parsed from the rest |
| Day15.FindOpAfter | src/bin/day15.rs:54 | after a label without operation characters, the operation character found is the one right after it |
| Day15.StepRoundTrip | src/bin/day15.rs:52-68 | `Step::from` reads back every step it can produce |
| Day15.SplitAtOp | src/bin/day15.rs:54-59 | the label is cut off at the operation character, and the focal length read from what follows it |
| Day15.StepsOf | src/bin/day15.rs:72 | one step per comma-separated piece of the line, in order |
| Day15.Reindexed | src/bin/day15.rs:84 | after the lens at a slot leaves, every later slot moves one down and every earlier one stays |
| Day15.RemovedPresent | src/bin/day15.rs:80-85 | removing a present label deletes its lens and its entry, keeps every other lens with its label and in the same order, and moves the later slots down by one |
| Day15.RemovedSlot | src/bin/day15.rs:82-84 | a label other than the one removed keeps its lens |
| Day15.RemovedAbsent | src/bin/day15.rs:80 | removing an absent label changes nothing |
| Day15.AddedPresent | src/bin/day15.rs:88-90 | adding a present label replaces its lens in place, same slots, same other lenses |
| Day15.AddedNew | src/bin/day15.rs:91-94 | adding a new label puts its lens at the back, in the last slot |
| Day15.RemovedWellIndexed | src/bin/day15.rs:79-86 | removing keeps the index a bijection onto the slots |
| Day15.AddedWellIndexed | src/bin/day15.rs:87-95 | adding keeps the index a bijection onto the slots |
| Day15.StepBox | src/bin/day15.rs:78-96 | one step on its box keeps the index a bijection |
| Day15.StepTable | src/bin/day15.rs:75-96 | one step changes only the box its label hashes to |
| Day15.Run | src/bin/day15.rs:73-97 | every step in order from 256 empty boxes gives 256 well-indexed boxes |
| Day15.RunPrefix | src/bin/day15.rs:75-97 | one more step is one more application to the table |
| Day15.Arrange | src/bin/day15.rs:73-97 | the loop leaves the table equal to running every step in order |
| Day15.PowerUpdate | src/bin/day15.rs:99-103 | changing one box changes the total by that box's change alone |
| Day15.StepPower | src/bin/day15.rs:75-103 | a step changes the focusing power only by what it does to its own box |
| Day15.PowerEmpty | src/bin/day15.rs:99-103 | empty boxes have no focusing power |
| Day15.NoStepsNoPower | src/bin/day15.rs:73-103 | before any step the focusing power is zero |
| Day15.ApplyStep | src/bin/day15.rs:76-96 | the `Remove` and `Add` arms on the box the label hashes to leave the table as one step of the reference |

## Left out

- Reading the input files (`src/lib.rs`): the model takes the lines of a file as a parameter.
- Printing, and every `Debug` impl that serves only for printing. The `Debug` forms that
  parsers read back (day 12 rows, day 14 platforms) are modelled as printers.
- Integer widths: Dafny's integers are unbounded. The solvers' `i32`, `i64`, `u32` and `usize`
  arithmetic is taken not to overflow, and no wrap-around is modelled.
- Panics are preconditions, not error results, because the solvers have no error path: an
  `unwrap` of a missing value, an index out of range, a `usize` underflow.
- Day 1: `main` prints each line's number and then their sum. The sum is a plain fold over
  `number_from_line` and is not modelled.
- Day 2: the sum of the powers in `main` (`src/bin/day2.rs:68`) is not modelled; `power`
  itself is.
- Day 5: every rule must have a positive length, which the source does not demand. Its
  worklist ends for any length, since each leftover it pushes is shorter than the range it
  popped. The model's termination measure, the number of ids still pending, needs the
  restriction, and so does the promise that no id is lost or gained: for a negative length
  the two leftovers overlap. Rules of zero or negative length are therefore left out.
- Day 5: part 2 needs an even number of seeds, because `chunks(2)` would leave a one-element
  group that `seedgroup[1]` cannot index. It also needs lengths that are not negative.
- Day 7: the `HashMap` that counts cards is an association list in first-seen order. Only
  the sorted counts are read afterwards, so the map's iteration order does not matter.
- Day 7: `sort` is modelled as an insertion sort by key. Its stability is not proved; ties
  are hands with the same cards.
- Day 8: part 1 and part 2 require that each walk reaches its target, standing only on nodes
  of the network before then, because the source loops forever otherwise, or panics at
  `nodes[&current]`.
- Day 8: the starters of part 2 are a parameter. Whatever order the network's keys come in,
  they are exactly the nodes ending in `A`.
- Day 9: the `break` inside the `windows(2)` loop (`src/bin/day9.rs:24-26`) can never run,
  so the model leaves it out.
- Day 10: the part 1 answer `result.len() / 2` (`src/bin/day10.rs:260`) is not modelled; the
  model stops at the loop's cells.
- Day 12: the `res` vectors that `possible` fills are never read, and are not kept.
- Day 12: the five-fold unfolding of each line in `main` is not modelled; `Row::new` and
  `possible_variants` are.
- Day 13: splitting the input at empty lines, and the sums over all patterns in `main`, are
  not modelled. One pattern's summary is.
- Day 14: `tilted`'s four branches are one sweep whose visiting order reproduces each
  branch's loops (`Day14.RankCell`, `Day14.RankOffset`).
- Day 14: the `seen`/`indexed` search for the first repeated state
  (`src/bin/day14.rs:223-245`) is left out, because it depends on the input ever repeating.
  What the extrapolation after it relies on is proved for any step function
  (`Day14.CycleRepeats`, `Day14.TargetIsGoal`).
- Day 15: labels are taken to be ASCII, so a character's code is its byte in `as_bytes`.
- Day 15: the index `HashMap` is a Dafny map, and the power sum in `main` is
  `FocusingPower(Run(steps))`.
- Day3.AdjacentNumbers: requires `row >= 1` and `col >= 1`, because `row-1` and `col-1` on
  `usize` (`src/bin/day3.rs:148-149`) underflow and panic for a star in the first row or
  column.
- Day3.GearCell: requires `StarsInside`, for the same underflow.
- Day4.TotalCards: requires that no card wins copies past the last card, because the index
  at `src/bin/day4.rs:43` would panic.
- Day6.Part1: requires at least as many records as times, because `distances[i]`
  (`src/bin/day6.rs:20`) panics otherwise.
- Day8.LcmMultiple: proves that the lcm is a common multiple, not that it is the least one.
- Day9.ConstantTotals: the sums in `main` are proved about only for constant series.
- Day10.FindLoop: the search gets a `fuel` bound on the paths it pops, and its contract only
  says what a non-empty result is. It does not promise that the loop is found.
- Day12.PossibleVariants: the stack-and-memo loop gets `fuel` rounds and gives no answer when
  they run out. It needs the row to be `Scorable`: every `remainder` it takes must stay within
  the groups, which `possible` guarantees for every variant it keeps.
- Day14.Tilted: states that the cubes stay, that as many round rocks remain, that every rock
  is blocked and that a settled platform is unchanged. It does not state that each rock stays
  in its own column, or in its own row for east and west.
- Day14.Circle: its result is four tilts in turn only as far as the contract of `Tilted` says,
  so it is not pinned down to one platform either.

## Findings

| source | as written | input that shows it | evidently intended | confidence | as-written member | corrected member |
|---|---|---|---|---|---|---|
| src/bin/day3.rs:111 | the cell right of a number is looked at only when `col + len + 1 < width` | the row `1#`: the `#` touches the `1` but is not seen, so the program keeps no part number and answers 0 | look at that cell whenever `col + len < width`, and answer 1 | not executed | Day3.HasAdjacentPartAsWritten, Day3.RightEdgeMissed, Day3.RightEdgePartDropped | Day3.HasAdjacentPart |
| src/bin/day5.rs:77-95 | part 1 gives each seed the empty range `[s, s)`, and `apply_range` moves a range only when `end > source` | the rule `50 98 2` and the seed 98: location 98 where it should be 50 | the range `[s, s + 1)` | not executed | Day5.PointRanges, Day5.PointSeedMissed | Day5.UnitRanges, Day5.Part1FixedLowest |
| src/bin/day6.rs:37-54 | part 2 answers `upper - lower + 1` even when no charge wins | a race of 3 against a record of 5: answers 1, where no charge wins | 0 for a race that cannot be won | not executed | Day6.Part2, Day6.UnwinnableRace | Day6.Part2Fixed |

`Day3.SchemaFrom`, and so both day 3 answers, keeps the parts that the check as written finds;
`Day3.PartNumbers` with `Intended` is the scan with the corrected check.
