# Advent of Code 2023, days 1 to 15, in Dafny

This project models the solvers of johann-su's Advent of Code 2023 repository,
written in Rust, one Dafny module per puzzle:

| file | module | puzzle |
|---|---|---|
| `common.dfy` | `Common` | `Option`, sums, powers, decimal parsing and Rust's `str::split` and `str::lines`, shared by the days |
| `day01.dfy` | `Trebuchet` | calibration values from the first and last digit, and the rewrite of spelled-out digits |
| `day02.dfy` | `CubeConundrum` | possible cube games, and the power of the fewest cubes per game |
| `day03.dfy` | `GearRatios` | part numbers and gear ratios around the symbols of a schematic |
| `day04.dfy` | `Scratchcards` | card points, and the cascade of copied cards |
| `day05.dfy` | `SeedMaps` | seeds, then ranges of seeds, through a chain of conversion maps |
| `day06.dfy` | `BoatRace` | the hold times that win a race |
| `day07.dfy` | `CamelCards` | hand types, the hand comparison, the sort and the winnings |
| `day07_joker.dfy` | `JokerCards` | the same with J as a joker |
| `day08.dfy` | `HauntedWasteland` | walks along left/right instructions, and the least common multiple of the walk lengths |
| `day09.dfy` | `MirageMaintenance` | difference tables, extrapolated forwards and backwards |
| `day10.dfy` | `PipeMaze` | the pipe loop through the start tile, and the tiles it encloses |
| `day11.dfy` | `CosmicExpansion` | distances between galaxies after empty rows and columns expand |
| `day12.dfy` | `HotSprings` | spring arrangements counted by expanding every `?` |
| `day13.dfy` | `PointOfIncidence` | mirror lines in patterns, perfect or with one smudge |
| `day14.dfy` | `ParabolicReflectorDish` | rolling stones north, rotating the platform, and the load after 1 000 000 000 spin cycles |
| `day15.dfy` | `LensLibrary` | the HASH algorithm and the 256 ordered lens boxes |

Days 1 and 15 start from the raw input text. Day 1 takes its lines as
Rust's `str::lines` does (`Common.Lines`), and day 15 splits its text on ','
(`Common.Split`). The other solvers receive their input already tokenised. A
game is a list of draws of (count, colour) mentions. A card holds two lists
of numbers. A maze is a list of typed tiles with positions. A platform is a
matrix of characters. Parsing with `nom` and `regex` is not modelled; the
explicit character tables that the parsers use are modelled.

The form of each module follows its source file:

- **Pure computations become functions.** This covers iterator pipelines,
  folds and comparisons, for example the hand comparison of day 7 and
  HASH of day 15.
- **Loops that update variables become methods.** Each method has loop
  invariants and is proved against a specification function.
- **In-place updates.** Day 11's map is a class whose `Expand` method
  inserts rows and columns in place. Day 14's platform is an `array2<char>`
  that `MoveStones`, `RotateMat` and `SpinCycle` change in place. Day 15's
  256 boxes are an array of sequences.

Rust's fixed-width integers (`u32`, `u64`, `i32`, `usize`) are unbounded
integers here.

For day 12, the part-2 test expects 525152, but the code has no engine for
unfolded records. Part 1 enumerates every completion of the record, and
`task_2` returns 0. The model follows the code.

## Model

| member | source | states |
|---|---|---|
| Common.SumAppend | day-12/src/main.rs:25-32 | sums add over concatenation |
| Common.DecimalValueAppend | day-06/src/main.rs:76-85 | concatenating digit strings shifts the first number left by the second's length |
| Common.ParseNat | day-15/src/main.rs:25 | `parse::<u32>` succeeds exactly on an optional '+' followed by at least one decimal digit, and gives the decimal value of those digits |
| Common.Lines | day-01/src/main.rs:36-37 | `lines()` gives no line exactly for the empty text, and no line holds a line feed |
| Common.JoinLines | day-01/src/main.rs:58-62 | taking the lines of lines joined by '\n' gives them back, except an empty last line, which a final line feed does not start |
| Common.Split | day-15/src/main.rs:16-21 | `split(sep)` yields at least one piece, none holding the separator |
| Common.FirstIndex | day-15/src/main.rs:23-37 | `splitn(2, ..)` cuts at the first occurrence of the separator |
| Common.SplitJoin | day-15/src/main.rs:16-21 | joining the pieces with the separator gives back the input |
| Common.JoinSplit | day-15/src/main.rs:16-21 | splitting pieces that hold no separator after joining them gives the pieces back |
| Trebuchet.DigitValue | day-01/src/main.rs:7-14 | a digit character '1'..'9' parses to its value 1..9 |
| Trebuchet.Digits | day-01/src/main.rs:7-10 | the digits of a line, left to right, each between 1 and 9; '0' is not searched for |
| Trebuchet.LineValue | day-01/src/main.rs:12-19 | a line's calibration value is 0 or lies in 11..99 |
| Trebuchet.DigitsAppend | day-01/src/main.rs:8-10 | the digits of a concatenation are the digits of the left part followed by those of the right part |
| Trebuchet.DigitsEmpty | day-01/src/main.rs:8-12 | no digit is found exactly when no character is in '1'..'9' |
| Trebuchet.LineValueZero | day-01/src/main.rs:12-19 | a line is worth 0 exactly when it holds no character '1'..'9' |
| Trebuchet.LineValueFirstLast | day-01/src/main.rs:12-16 | with i the first and j the last digit position, the value is 10 times the digit at i plus the digit at j |
| Trebuchet.SingleDigit | day-01/src/main.rs:13-16 | a line with a single digit d is worth 11 times d |
| Trebuchet.SumValues | day-01/src/main.rs:5-21 | the sum over the lines is at most 99 per line, and 0 exactly when every line is worth 0 |
| Trebuchet.NoDigitLines | day-01/src/main.rs:7-19 | every line is worth 0 exactly when no line holds a character '1'..'9' |
| Trebuchet.Task1 | day-01/src/main.rs:3-22 | part 1 is at most 99 per line of the input, and 0 exactly when no line holds a character '1'..'9' |
| Trebuchet.ExampleValues | day-01/src/main.rs:76-79 | the four example lines are worth 12, 38, 15 and 77 |
| Trebuchet.ExampleSum | day-01/src/main.rs:76-82 | the four example lines sum to 142 |
| Trebuchet.Example1 | day-01/src/main.rs:75-83 | part 1 of the example text (lines joined by newlines) is 142 |
| Trebuchet.Wrapped | day-01/src/main.rs:26-34 | the replacement of a word is the word, its digit, and the word again |
| Trebuchet.MatchIndices | day-01/src/main.rs:42-43 | every reported index is an occurrence of the word at or after the starting position |
| Trebuchet.AllMatches | day-01/src/main.rs:39-45 | every collected match names a table word that occurs at its index |
| Trebuchet.FirstMatch | day-01/src/main.rs:47-51 | the first match after sorting by index is a collected match with the smallest index |
| Trebuchet.LastMatch | day-01/src/main.rs:47-52 | the last match after sorting by index is a collected match with the largest index |
| Trebuchet.PushHits | day-01/src/main.rs:42-44 | pushing the hits of one word appends them, tagged with that word, in order |
| Trebuchet.RewriteLine | day-01/src/main.rs:39-57 | the loop over the table and the two replacements compute the rewrite of the line |
| Trebuchet.RewriteLines | day-01/src/main.rs:36-58 | every line is rewritten, in order |
| Trebuchet.Task2 | day-01/src/main.rs:24-62 | part 2 fails exactly on the empty text, where `reduce(..).unwrap()` finds no line; otherwise it is part 1 applied to the rewritten lines joined by newlines |
| Trebuchet.NoWordUnchanged | day-01/src/main.rs:49-57 | a line containing no digit word is left unchanged |
| Trebuchet.RewriteNoNewline | day-01/src/main.rs:54-59 | a rewritten line contains no newline, so joining and splitting again gives back the lines |
| Trebuchet.Task2Lines | day-01/src/main.rs:59-62 | part 2 is the sum of the values of the rewritten lines |
| Trebuchet.Twone | day-01/src/main.rs:98-101 | "twone" is rewritten to "two2twone1one", which is worth 21: both overlapping words keep their digit |
| CubeConundrum.TallyIsLastMention | day-02/src/main.rs:27-39 | in part 1 a draw's tuple holds, per colour, the count of its last mention, 0 when it is not mentioned |
| CubeConundrum.UnknownColourIgnored | day-02/src/main.rs:32-37 | a mention of another colour word leaves the tuple unchanged |
| CubeConundrum.DrawTotals | day-02/src/main.rs:27-39 | the loop over a draw's mentions yields the draw's tuple |
| CubeConundrum.GameValue | day-02/src/main.rs:41-53 | a game adds its id when it is possible and nothing else; it adds 0 otherwise |
| CubeConundrum.Task1 | day-02/src/main.rs:3-56 | every possible game's id is at most the sum, and the sum is 0 exactly when each game is impossible or has id 0 |
| CubeConundrum.PossibleByMentions | day-02/src/main.rs:4-47 | a game is possible exactly when every draw's last red, green and blue counts are at most 12, 13 and 14 |
| CubeConundrum.Raise | day-02/src/main.rs:73-93 | a mention never lowers the running minimum |
| CubeConundrum.RaiseAllAppend | day-02/src/main.rs:66-96 | scanning two runs of mentions is scanning the first, then the second |
| CubeConundrum.MinOverFlatten | day-02/src/main.rs:65-96 | scanning draw by draw is scanning all mentions of the game in order |
| CubeConundrum.MaxCountIsMaximum | day-02/src/main.rs:74-91 | no mention of the colour exceeds its maximum, and a non-zero maximum is reached by some mention |
| CubeConundrum.RaiseAllIsMax | day-02/src/main.rs:74-91 | from (0, 0, 0) the running tuple holds, per colour, the largest count mentioned |
| CubeConundrum.MinOverIsMax | day-02/src/main.rs:65-98 | the fewest cubes of a game are, per colour, the largest count of any draw |
| CubeConundrum.RaiseAllMonotone | day-02/src/main.rs:66-96 | scanning more mentions never lowers the running minimum |
| CubeConundrum.ScanDraw | day-02/src/main.rs:69-95 | the inner loop raises the running minimum by one draw's mentions |
| CubeConundrum.MinCubes | day-02/src/main.rs:65-98 | the loop over the draws yields the game's fewest cubes |
| CubeConundrum.MissingColourPowerZero | day-02/src/main.rs:65-100 | a game that never shows some colour has power 0 |
| CubeConundrum.Task2 | day-02/src/main.rs:58-101 | no game's power exceeds the sum, and the sum is 0 exactly when every game has power 0 |
| CubeConundrum.SumPowers | day-02/src/main.rs:58-101 | the fold sums the powers of the games' fewest cubes |
| CubeConundrum.FirstGame | day-02/src/main.rs:116 | game 1 of the example is possible and has power 48 |
| CubeConundrum.SecondGame | day-02/src/main.rs:117 | game 2 is possible and has power 12 |
| CubeConundrum.ThirdGame | day-02/src/main.rs:118 | game 3 is impossible and has power 1560 |
| CubeConundrum.FourthGame | day-02/src/main.rs:119 | game 4 is impossible and has power 630 |
| CubeConundrum.FifthGame | day-02/src/main.rs:120 | game 5 is possible and has power 36 |
| CubeConundrum.Example | day-02/src/main.rs:115-136 | the example's part 1 is 8 and its part 2 is 2286 |
| GearRatios.RunStart | day-03/src/main.rs:11-13 | the start of the maximal digit run through position i: all digits from there to i, and no digit just before |
| GearRatios.RunEnd | day-03/src/main.rs:11-13 | the end of the maximal digit run from position i: all digits up to there, and no digit just after |
| GearRatios.CellIsRun | day-03/src/main.rs:7-16 | an expanded cell is numeric exactly when its character is a digit, and then it is the text of the maximal run through it |
| GearRatios.CellsOfRun | day-03/src/main.rs:12-15 | every cell of a maximal run holds the same text, the run itself |
| GearRatios.MatchEnd | day-03/src/main.rs:12-13 | the scan over a run stops at the end of the maximal run |
| GearRatios.OverwriteRun | day-03/src/main.rs:13-15 | overwriting one match sets exactly the cells of the run to the run's text and leaves every other cell as it was |
| GearRatios.ExpandLine | day-03/src/main.rs:4-19 | one cell per character, every digit-run cell replaced by its whole number text |
| GearRatios.SingleChars | day-03/src/main.rs:5-9 | the first loop leaves one single-character cell per character of the line |
| GearRatios.ExpandRuns | day-03/src/main.rs:11-16 | the `find_iter` loop turns every single-character cell into its expanded cell |
| GearRatios.ExpandStep | day-03/src/main.rs:11-16 | one step of the scan keeps the cells before it expanded and those after it untouched, and stops only between runs |
| GearRatios.ExpandRun | day-03/src/main.rs:12-15 | one match overwrites exactly the cells of its maximal digit run and ends at a non-digit or the line end |
| GearRatios.ExpandLines | day-03/src/main.rs:4-20 | every line of the schematic is expanded, in order |
| GearRatios.RowsSize | day-03/src/main.rs:29-30 | the windows of k rows have at most 3k cells |
| GearRatios.RowsOnlyNeighbours | day-03/src/main.rs:29-30 | every cell of the row windows is a cell of those rows in columns y-1..y+1 |
| GearRatios.RowsHaveNeighbours | day-03/src/main.rs:29-30 | every existing cell of those rows in columns y-1..y+1 is in the row windows |
| GearRatios.WindowIsNeighbourhood | day-03/src/main.rs:29-30 | the window holds at most nine cells, exactly the existing cells in rows x-1..x+1 and columns y-1..y+1 |
| GearRatios.ScanFromAppend | day-03/src/main.rs:29-40 | scanning a concatenation scans the first part, then continues with the second |
| GearRatios.ScanProperties | day-03/src/main.rs:27-40 | at most one number per cell; each collected number differs from the one before it (from 0 for the first) and is the value of a scanned cell |
| GearRatios.ScanShape | day-03/src/main.rs:27-40 | at most one number is collected per cell, each differs from the one before it (from 0 for the first), and `last_elem` is the last one collected |
| GearRatios.ScanProvenance | day-03/src/main.rs:30-36 | every collected number is the value of a numeric cell of the window |
| GearRatios.RepeatIgnored | day-03/src/main.rs:33-37 | the same number in the next cell is not collected again |
| GearRatios.EqualNumbersMerged | day-03/src/main.rs:33-37 | a number seen again after a non-number cell is still skipped, since only the last collected number is compared |
| GearRatios.ScanRow | day-03/src/main.rs:30-39 | the inner loop over one row's window continues the scan of the rows before |
| GearRatios.CollectNeighbours | day-03/src/main.rs:27-40 | the neighbours collected are the scan of the cell's window |
| GearRatios.Contribution | day-03/src/main.rs:42-90 | a selected cell adds the sum of its neighbours (part 1) or their product when there are two or more (part 2), never a negative amount |
| GearRatios.GridTotalZero | day-03/src/main.rs:22-46 | rows with no selected cell add nothing |
| GearRatios.Total | day-03/src/main.rs:3-95 | either task panics exactly when a selected cell lies in the first row or column; otherwise its answer is never negative, and it is 0 when no cell is selected |
| GearRatios.Solve | day-03/src/main.rs:22-46 | the double loop computes the total of the selected cells' contributions; a selected cell in row 0 or column 0 panics on the index underflow |
| GearRatios.Task | day-03/src/main.rs:3-95 | either task on the input lines is the total over the expanded schematic |
| GearRatios.NoPanic | day-03/src/main.rs:29 | with nothing selected in the first row and column, the window start never underflows |
| GearRatios.InteriorWindow | day-03/src/main.rs:29-30 | away from the edges the window is the three 3-cell slices of rows x-1, x, x+1 |
| GearRatios.ExpandedRow0 | day-03/src/main.rs:109 | the first example line expands with "467" and "114" in every cell of their runs |
| GearRatios.ExampleExpanded | day-03/src/main.rs:108-118 | the example schematic expands to the expected grid |
| GearRatios.GridTotals | day-03/src/main.rs:108-137 | the example grid totals 4361 for part 1 and 467835 for part 2 |
| GearRatios.Example | day-03/src/main.rs:108-137 | both tasks on the example lines give 4361 and 467835 |
| Scratchcards.NewCard | day-04/src/main.rs:64-71 | a parsed card holds one instance and the two number lists as read |
| Scratchcards.MatchesFromCount | day-04/src/main.rs:20-31 | the matches from position i on are at most as many as the numbers left, and each number occurs among them as often as among the numbers one has when it is winning, else never |
| Scratchcards.MatchesCount | day-04/src/main.rs:20-31 | `get_matches` keeps, in order and with repeats, exactly the numbers one has that are winning numbers |
| Scratchcards.MatchesFromAppend | day-04/src/main.rs:20-31 | the matches of a concatenation are the matches of each part |
| Scratchcards.ScoreIsPower | day-04/src/main.rs:33-42 | the card value is 0 with no match and 2^(k-1) with k matches |
| Scratchcards.Score | day-04/src/main.rs:33-42 | the card value is 0 exactly when the card has no match |
| Scratchcards.Task1 | day-04/src/main.rs:74-82 | no card's value exceeds the sum, and the sum is 0 exactly when no card has a match |
| Scratchcards.Initial | day-04/src/main.rs:90 | one instance count per card, as dealt |
| Scratchcards.Cascade | day-04/src/main.rs:92-102 | after processing cards 0..n-1 there is still one count per card, unless a copy target was past the last card |
| Scratchcards.WinSum | day-04/src/main.rs:95-101 | card i with k matches adds k times its own count to the total |
| Scratchcards.CascadeFails | day-04/src/main.rs:97-100 | the cascade fails exactly when some card's copy target lies past the last card |
| Scratchcards.CascadeFinal | day-04/src/main.rs:92-101 | counts only grow as the cascade proceeds, and a card's count is final once the loop has reached it |
| Scratchcards.AtLeastOnePerCard | day-04/src/main.rs:66-109 | when every card starts with one instance, the total is at least the number of cards |
| Scratchcards.Copies | day-04/src/main.rs:84-110 | the nested loops over the mutable counts compute part 2, or fail where `expect` panics |
| Scratchcards.CascadeStepFails | day-04/src/main.rs:97-100 | a copy target past the last card makes the whole of part 2 fail |
| Scratchcards.Task2 | day-04/src/main.rs:84-110 | part 2 fails exactly when some card's copy target lies past the last card; otherwise it is the total of the instance counts |
| Scratchcards.ExampleMatches | day-04/src/main.rs:125-130 | the example cards have 4, 2, 2, 1, 0 and 0 matches |
| Scratchcards.Points | day-04/src/main.rs:124-134 | part 1 of the example is 13 |
| Scratchcards.Instances | day-04/src/main.rs:137-147 | part 2 of the example is 30 |
| Scratchcards.Example | day-04/src/main.rs:124-147 | the example gives 13 and 30 |
| SeedMaps.ParseConversion | day-05/src/main.rs:27-37 | a map line of at least three numbers gives destination, source and offset in that order; fewer is an error |
| SeedMaps.MinOf | day-05/src/main.rs:77 | the minimum is an element and no element is smaller |
| SeedMaps.FirstCover | day-05/src/main.rs:68-73 | the first conversion from index i on whose closed range [src, src+offset] holds the seed, or none |
| SeedMaps.RemapByFirst | day-05/src/main.rs:67-74 | a seed is shifted by the first covering conversion only, and keeps its value when none covers it |
| SeedMaps.UpperEndIncluded | day-05/src/main.rs:69-70 | the seed src+offset is still covered and moves to dest+offset |
| SeedMaps.RemapAll | day-05/src/main.rs:67-74 | one map keeps the number of seeds |
| SeedMaps.Through | day-05/src/main.rs:66-75 | all maps keep the number of seeds |
| SeedMaps.ThroughIsLocate | day-05/src/main.rs:66-75 | each seed goes through the maps independently of the others |
| SeedMaps.LowestIsLowestLocation | day-05/src/main.rs:62-78 | part 1 fails exactly without seeds; otherwise it is the location of some seed and no seed lands lower |
| SeedMaps.RemapSeeds | day-05/src/main.rs:67-74 | the in-place loop rewrites every seed by one map |
| SeedMaps.Task1 | day-05/src/main.rs:62-78 | the loops over maps and seeds compute the lowest location |
| SeedMaps.SeedRanges | day-05/src/main.rs:80-87 | each "start len" pair becomes the half-open range from start with width len |
| SeedMaps.StepMap | day-05/src/main.rs:98-163 | one map never leaves a non-empty list of ranges empty |
| SeedMaps.ThroughRanges | day-05/src/main.rs:96-164 | the ranges stay non-empty through all maps, so the minimum start exists |
| SeedMaps.InsideShifted | day-05/src/main.rs:103-116 | a range with both ends inside [src, src+offset] is shifted by dest - src |
| SeedMaps.PiecesCover | day-05/src/main.rs:102-156 | a conversion yields no piece exactly when the range lies wholly below or above it; otherwise its pieces are valid and as wide in total as the range |
| SeedMaps.UnmatchedPassThrough | day-05/src/main.rs:159-161 | when no range meets any conversion of a map, the ranges pass through unchanged |
| SeedMaps.UnmatchedDropped | day-05/src/main.rs:150-163 | once some range yields pieces, a range meeting no conversion is dropped |
| SeedMaps.PushConversion | day-05/src/main.rs:103-155 | the four cases on the two ends of a range push the pieces of that conversion |
| SeedMaps.PushPieces | day-05/src/main.rs:102-156 | the loop over the conversions appends the pieces of each, in order |
| SeedMaps.ApplyMap | day-05/src/main.rs:99-163 | one map rebuilds `to` from all ranges, and keeps `from` when nothing was pushed |
| SeedMaps.CollectPieces | day-05/src/main.rs:101-156 | the loop over the ranges of `from` pushes, in order, the pieces each range yields over all conversions |
| SeedMaps.ApplyMaps | day-05/src/main.rs:98-163 | the loop over the maps leaves `from` as the ranges pushed through every map in turn |
| SeedMaps.Task2 | day-05/src/main.rs:89-170 | the loops compute the lowest start over all seed ranges after all maps |
| SeedMaps.ExampleSeeds | day-05/src/main.rs:184-221 | part 1 of the example is 35 |
| SeedMaps.ExampleRanges | day-05/src/main.rs:224-261 | part 2 of the example is 46 |
| SeedMaps.DroppedRangeExample | day-05/src/main.rs:150-161 | two maps where the unmatched pieces left by the first are dropped by the second |
| BoatRace.WinsFrom | day-06/src/main.rs:52-61 | counting winning hold times from b on counts at most the time - b hold times tried |
| BoatRace.WinsFromCounts | day-06/src/main.rs:52-61 | the fold from b counts exactly the hold times b..time-1 that beat the record |
| BoatRace.WinsCountsWinningTimes | day-06/src/main.rs:16-61 | a race's count is the number of hold times 1..time-1 with (time - b) * b above the record |
| BoatRace.WinningTimesSymmetric | day-06/src/main.rs:16-18 | b wins exactly when time - b wins |
| BoatRace.Races | day-06/src/main.rs:31-41 | the i-th time is paired with the i-th record; a missing record is an error and extra records are ignored |
| BoatRace.WinsOf | day-06/src/main.rs:49-62 | one count per race |
| BoatRace.ProductZero | day-06/src/main.rs:63 | a product is 0 exactly when some factor is 0 |
| BoatRace.ProductOfWinsZero | day-06/src/main.rs:49-63 | the product of the per-race counts is 0 exactly when some race cannot be won |
| BoatRace.Task1 | day-06/src/main.rs:46-64 | part 1 is never negative, and it is 0 exactly when some race cannot be won at all |
| BoatRace.ConcatDecimal | day-06/src/main.rs:76-80 | the joined digit groups are digits and read as the positional number of the groups |
| BoatRace.SingleRaceJoinsDigits | day-06/src/main.rs:66-88 | parsing the single race succeeds on digit groups and reads each line as one number |
| BoatRace.Task2 | day-06/src/main.rs:90-103 | part 2 is the number of hold times 1..time-1 that beat the record of the single joined race |
| BoatRace.InnerWins | day-06/src/main.rs:16-18 | every hold time between a winning one and its mirror also wins |
| BoatRace.OuterLoses | day-06/src/main.rs:16-18 | every hold time below a losing one (on the short side) also loses |
| BoatRace.WinsInterval | day-06/src/main.rs:16-102 | with lo the shortest winning hold time, the winners are lo..time-lo, time - 2lo + 1 of them |
| BoatRace.ExamplePart1 | day-06/src/main.rs:117-123 | the example races are won in 4, 8 and 9 ways, product 288 |
| BoatRace.ExampleJoin | day-06/src/main.rs:127-128 | the example's single race is time 71530 and record 940200 |
| BoatRace.ExamplePart2 | day-06/src/main.rs:126-132 | that race can be won in 71503 ways |
| CamelCards.Rank | day-07/src/part1.rs:12-21 | the hand types are ranked 0..6 from high card to five of a kind, in declaration order |
| CamelCards.RankInjective | day-07/src/part1.rs:12-21 | two types share a rank only when they are the same type |
| CamelCards.CardValue | day-07/src/part1.rs:54-63 | a card parses exactly when it is a decimal digit or one of T, J, Q, K, A; its value is at most 14, and 10 or more exactly for the letters |
| CamelCards.FacesAscend | day-07/src/part1.rs:54-63 | the faces 2..9, T, J, Q, K, A have strictly increasing values |
| CamelCards.CountIsMultiplicity | day-07/src/part1.rs:75 | the count of a value in a hand is its multiplicity |
| CamelCards.DistinctProperties | day-07/src/part1.rs:75 | the distinct values of a hand hold no duplicates and are exactly the values in it |
| CamelCards.CountsAreMultiplicities | day-07/src/part1.rs:75 | `counts().into_values()`: one count per distinct value, each the multiplicity of that value |
| CamelCards.InsertDesc | day-07/src/part1.rs:76 | inserting into a descending list keeps it descending and adds exactly that element |
| CamelCards.SortDesc | day-07/src/part1.rs:76 | sorting the counts largest first gives a descending permutation |
| CamelCards.SortDescIsUnique | day-07/src/part1.rs:76 | any descending permutation of the counts is the sorted one |
| CamelCards.SortedHeadIsMax | day-07/src/part1.rs:76-78 | the first sorted count is the largest multiplicity of any value |
| CamelCards.HeadAtLeastMax | day-07/src/part1.rs:76-78 | the first sorted count is at least the multiplicity of every value of the hand |
| CamelCards.HeadAtMostMax | day-07/src/part1.rs:76-78 | the first sorted count is the multiplicity of some value of the hand |
| CamelCards.TypeByMultiplicity | day-07/src/part1.rs:74-93 | four of a kind exactly when the largest multiplicity is 4, five of a kind exactly for a five-card hand of one value, pair types have largest 2 and full house or three of a kind largest 3 |
| CamelCards.MixedNotFive | day-07/src/part1.rs:78-79 | a hand with two different values is not five of a kind |
| CamelCards.CompareCardsFlip | day-07/src/part1.rs:35-49 | the card comparison is antisymmetric, gives None exactly on identical cards and never Equal |
| CamelCards.CompareCardsTransitive | day-07/src/part1.rs:35-49 | the card comparison is transitive |
| CamelCards.CompareCardsPrefix | day-07/src/part1.rs:35-49 | Less exactly when the cards agree up to some position where the first is lower |
| CamelCards.LtIsLexicographic | day-07/src/part1.rs:31-51 | `<` on hands is by type rank first, then by the first differing card |
| CamelCards.CmpFlip | day-07/src/part1.rs:31-51 | `partial_cmp` is antisymmetric, None exactly for equal type and cards, never Equal |
| CamelCards.CmpTotal | day-07/src/part1.rs:31-51 | any two hands with different type or cards are ordered one way or the other |
| CamelCards.LtTransitive | day-07/src/part1.rs:31-51 | `<` on hands is transitive |
| CamelCards.InsertHand | day-07/src/part1.rs:113 | stable insertion keeps the hands sorted and adds exactly the new hand |
| CamelCards.SortHands | day-07/src/part1.rs:113 | `hands.sort()` gives a sorted permutation of the hands |
| CamelCards.SortedUnique | day-07/src/part1.rs:113 | without ties, two sorted permutations of the same hands are equal |
| CamelCards.Winnings | day-07/src/part1.rs:115 | with ranks 1..n, the winnings lie between the sum of the bids and n times it |
| CamelCards.BidSumReordered | day-07/src/part1.rs:113-115 | the sum of the bids does not depend on the order of the hands |
| CamelCards.Task1 | day-07/src/part1.rs:111-116 | sorting only reorders the hands, so part 1 lies between the sum of the bids and the number of hands times it |
| CamelCards.AscendingIsSorted | day-07/src/part1.rs:113 | a strictly ascending arrangement is exactly what the sort returns |
| CamelCards.ExampleTypeOnePair | day-07/src/part1.rs:122 | "32T3K" is one pair |
| CamelCards.ExampleTypes | day-07/src/part1.rs:122-126 | the five example hands get the types the puzzle gives them |
| CamelCards.ExampleSorted | day-07/src/part1.rs:113-126 | the example hands sort into rank order |
| CamelCards.WinningsOfFive | day-07/src/part1.rs:115 | the winnings of five sorted hands are 1, 2, 3, 4 and 5 times their bids |
| CamelCards.ExampleWinnings | day-07/src/part1.rs:121-130 | the example winnings are 6440 |
| JokerCards.JokerCardValue | day-07/src/part2.rs:54-63 | a card parses exactly when it is a decimal digit or one of T, J, Q, K, A; values are at most 13, and the joker value 1 comes from 'J' or from the digit '1' |
| JokerCards.JokerFacesAscend | day-07/src/part2.rs:54-63 | J, 2..9, T, Q, K, A have strictly increasing values, the joker lowest |
| JokerCards.SubstituteAt | day-07/src/part2.rs:99-104 | the substitution keeps the length and every non-joker card, and turns every joker into v |
| JokerCards.SubstituteJokerIdentity | day-07/src/part2.rs:97-104 | substituting the joker value itself leaves the cards unchanged |
| JokerCards.SubstituteGathers | day-07/src/part2.rs:99-104 | after the substitution no joker is left, v occurs as often as v and the jokers did before, and other values keep their multiplicity |
| JokerCards.Stronger | day-07/src/part2.rs:108 | the larger of two types is one of them and ranks at least as high as both |
| JokerCards.StrongestIsMax | day-07/src/part2.rs:97-109 | `max()` over the candidate types is one of them and no candidate ranks higher |
| JokerCards.JokerTypeIsBest | day-07/src/part2.rs:96-109 | with a joker, no value 1..13 the jokers jointly become gives a stronger type than the chosen one |
| JokerCards.JokerTypeAttained | day-07/src/part2.rs:96-109 | with a joker, the chosen type is the type reached by some value 1..13 |
| JokerCards.JokerNeverLowers | day-07/src/part2.rs:95-113 | the joker rule never gives a weaker type than the cards as dealt |
| JokerCards.JokerFour | day-07/src/part2.rs:96-109 | a hand that some substitution makes four of a kind, with two different non-joker values, is typed four of a kind |
| JokerCards.JokerBids | day-07/src/part2.rs:132 | re-typing the hands under the joker rule keeps every bid |
| JokerCards.Task2 | day-07/src/part2.rs:131-142 | part 2 lies between the sum of the dealt bids and the number of hands times it |
| JokerCards.Example32T3K | day-07/src/part2.rs:148 | "32T3K" has no joker and stays one pair |
| JokerCards.ExampleT55J5 | day-07/src/part2.rs:149 | "T55J5" becomes four of a kind |
| JokerCards.ExampleKTJJT | day-07/src/part2.rs:151 | "KTJJT" becomes four of a kind |
| JokerCards.ExampleQQQJA | day-07/src/part2.rs:152 | "QQQJA" becomes four of a kind |
| JokerCards.JokerExampleTypes | day-07/src/part2.rs:92-152 | the example hands get the part-2 types |
| JokerCards.JokerExampleSorted | day-07/src/part2.rs:133-152 | the example hands sort into part-2 rank order, the original cards (J as 1) breaking ties of type |
| JokerCards.JokerExampleWinnings | day-07/src/part2.rs:146-156 | the example winnings are 5905 |
| HauntedWasteland.ParseDirection | day-08/src/main.rs:26-32 | only 'R' and 'L' are instructions, 'R' turning right |
| HauntedWasteland.FindIsFirst | day-08/src/main.rs:71-78 | a lookup finds the first node with that name, and nothing exactly when no node has it |
| HauntedWasteland.StepPeriodic | day-08/src/main.rs:75-147 | the instruction at step i is the one at i modulo their number, so step i + n goes the same way as step i |
| HauntedWasteland.WalkSound | day-08/src/main.rs:74-81 | a walk that arrives reports the step count of the first position at the goal |
| HauntedWasteland.WalkComplete | day-08/src/main.rs:74-81 | a walk whose budget covers the first arrival at the goal reports exactly that step count |
| HauntedWasteland.WalkArrivesAtFirstGoal | day-08/src/main.rs:74-153 | a walk arrives after n steps exactly when position n is the first at the goal and the budget allows n steps |
| HauntedWasteland.WalkMoreFuel | day-08/src/main.rs:74-81 | a larger step budget changes neither an arrival nor a missing name |
| HauntedWasteland.WalkLoop | day-08/src/main.rs:72-155 | the `while` loop stepping until the goal computes the walk, or stops at a missing name |
| HauntedWasteland.Task1 | day-08/src/main.rs:67-84 | part 1 walks from "AAA" to "ZZZ"; no "AAA" is an error |
| HauntedWasteland.StartsMembers | day-08/src/main.rs:140 | the starts of part 2 are exactly the nodes whose name ends in 'A' |
| HauntedWasteland.Task2Walks | day-08/src/main.rs:140-156 | part 2 walks from every start, in network order, to a name ending in 'Z' |
| HauntedWasteland.IndexOfNone | day-08/src/main.rs:123 | the search for a prime's entry fails exactly when no entry has that prime |
| HauntedWasteland.MergeOneExp | day-08/src/main.rs:123-129 | merging one factor keeps one entry per prime, and that prime's exponent becomes the larger of the two |
| HauntedWasteland.MergeAllExp | day-08/src/main.rs:120-131 | merging all factorisations keeps one entry per prime with the largest exponent seen |
| HauntedWasteland.LcmKeepsLargestExponent | day-08/src/main.rs:117-131 | starting from nothing, each prime's exponent is its largest over all inputs |
| HauntedWasteland.PowProductReordered | day-08/src/main.rs:133 | the product of p^e over the merged entries is the same for every order of the entries |
| HauntedWasteland.FindEntry | day-08/src/main.rs:123 | `iter_mut().find` returns the first entry for the prime |
| HauntedWasteland.Lcm | day-08/src/main.rs:117-134 | the nested loops build the merged factors in place and return the product of p^e over them |
| HauntedWasteland.ExampleTwoSteps | day-08/src/main.rs:175-187 | the first example takes 2 steps |
| HauntedWasteland.ExampleSixSteps | day-08/src/main.rs:190-198 | the second example takes 6 steps |
| HauntedWasteland.ExampleGhostWalks | day-08/src/main.rs:203-212 | in the part-2 example the two starts reach a 'Z' node after 2 and 3 steps |
| HauntedWasteland.ExampleLcm | day-08/src/main.rs:214-215 | merging the factors of 2 and 3 gives 6 |
| MirageMaintenance.Diff | day-09/src/main.rs:25-28 | a difference row is one entry shorter than its row (empty for rows of at most one entry) |
| MirageMaintenance.DiffAll | day-09/src/main.rs:26-28 | entry k of the difference row is row[k+1] - row[k] |
| MirageMaintenance.Table | day-09/src/main.rs:21-31 | the table starts with the history and has at most one row more than the history has entries, so the loop ends |
| MirageMaintenance.TableAt | day-09/src/main.rs:23-30 | every row but the last is not all zero, and the row below it is its difference row |
| MirageMaintenance.TableLast | day-09/src/main.rs:23 | the last row is all zero (an empty row counts as all zero) |
| MirageMaintenance.Differences | day-09/src/main.rs:25-28 | the `tuple_windows` loop builds the difference row |
| MirageMaintenance.DifferenceTable | day-09/src/main.rs:20-31 | rows are pushed until the newest one is all zero |
| MirageMaintenance.ExtrapolateForward | day-09/src/main.rs:19-45 | 0 appended to the last row, then last(row) + last(row below) appended from the bottom up, gives the next value of the history |
| MirageMaintenance.ExtrapolateBackward | day-09/src/main.rs:55-81 | first(row) - first(row below) inserted in front from the bottom up gives the previous value of the history |
| MirageMaintenance.Task1 | day-09/src/main.rs:14-48 | part 1 sums the next values of all histories |
| MirageMaintenance.Task2 | day-09/src/main.rs:50-84 | part 2 sums the previous values of all histories |
| MirageMaintenance.NextExtendsDifferences | day-09/src/main.rs:35-43 | appending the next value extends the difference row by its own next value, so the extrapolated history is consistent |
| MirageMaintenance.NextStep | day-09/src/main.rs:39 | the next value of a row not all zero is its last entry plus the next value of its differences |
| MirageMaintenance.PrevStep | day-09/src/main.rs:75 | the previous value of a row not all zero is its first entry minus the previous value of its differences |
| MirageMaintenance.PrevExtendsDifferences | day-09/src/main.rs:71-79 | inserting the previous value extends the difference row in front by its own previous value |
| MirageMaintenance.ArithmeticProgression | day-09/src/main.rs:35-81 | a history a, a+b, a+2b, ... continues with a + b times its length and is preceded by a - b |
| MirageMaintenance.FirstHistory | day-09/src/main.rs:99-109 | 0 3 6 9 12 15 continues with 18 and is preceded by -3 |
| MirageMaintenance.SumsOfThree | day-09/src/main.rs:47-83 | the part 1 and part 2 sums over three histories add up their three next and previous values |
| MirageMaintenance.SecondHistory | day-09/src/main.rs:100-110 | 1 3 6 10 15 21 continues with 28 and is preceded by 0 |
| MirageMaintenance.ThirdHistory | day-09/src/main.rs:101-111 | 10 13 16 21 30 45 continues with 68 and is preceded by 5 |
| MirageMaintenance.Examples | day-09/src/main.rs:97-115 | the example sums are 114 and 2 |
| PipeMaze.ParseTile | day-10/src/main.rs:273-309 | exactly the eight maze characters parse, at the given position; 'S' is the start and '.' is ground |
| PipeMaze.ConnectionShape | day-10/src/main.rs:33-128 | ground connects to nothing and nothing connects to ground, and two tiles connect only along a row or a column |
| PipeMaze.PipeConnects | day-10/src/main.rs:37-112 | a pipe connects to a tile exactly when the pipe opens towards it and the tile opens back; a pipe never connects to the start |
| PipeMaze.StartConnects | day-10/src/main.rs:113-126 | the start connects to every tile in its row or column that is not ground |
| PipeMaze.GetByPositionFrom | day-10/src/main.rs:143-148 | the tile found is in the maze at that position, and nothing is found only when no tile is there |
| PipeMaze.NeighborsAt | day-10/src/main.rs:164-200 | every neighbour is a tile of the maze within one row and one column of the point, not at its position |
| PipeMaze.Connections | day-10/src/main.rs:211-217 | the connections of a tile are exactly its neighbours it can be connected to |
| PipeMaze.FreshShrinks | day-10/src/main.rs:207-219 | visiting a tile not yet visited leaves fewer tiles unvisited, so the search ends |
| PipeMaze.VisitStep | day-10/src/main.rs:207-220 | visiting the front of the queue keeps the search invariant |
| PipeMaze.SkipStep | day-10/src/main.rs:207-210 | skipping an already visited front keeps the search invariant |
| PipeMaze.VisitDistinct | day-10/src/main.rs:208-219 | a tile is visited only once |
| PipeMaze.Turn | day-10/src/main.rs:206-221 | one turn keeps the invariant and either visits a new tile or shortens the queue |
| PipeMaze.Visit | day-10/src/main.rs:210-218 | a tile not yet visited is appended to the visited tiles with its connections queued, and the search invariant still holds |
| PipeMaze.Bfs | day-10/src/main.rs:202-224 | the result starts with the start tile, holds no tile twice, every later tile is a connected neighbour of an earlier one, and every connected neighbour of a visited tile is visited |
| PipeMaze.Row | day-10/src/main.rs:150-162 | the row holds the tiles of the maze in the point's row |
| PipeMaze.LeftOnPath | day-10/src/main.rs:231-234 | the tiles considered are in the row, to the left of the point and on the loop |
| PipeMaze.Crossings | day-10/src/main.rs:226-262 | at most one crossing per tile passed |
| PipeMaze.CrossingsStep | day-10/src/main.rs:235-258 | a tile adds its contribution ('\|' one, 'J' after 'F' one, '7' after 'L' one) and an 'L' or 'F' becomes the last corner |
| PipeMaze.CrossTile | day-10/src/main.rs:235-258 | the loop body keeps the count and the corner list in step with the tiles passed |
| PipeMaze.Intersections | day-10/src/main.rs:226-262 | the count is the crossings of the loop tiles to the left of the point |
| PipeMaze.IsEnclosed | day-10/src/main.rs:264-270 | a loop tile is never enclosed; any other tile is enclosed when its crossing count is odd |
| PipeMaze.CountEnclosed | day-10/src/main.rs:342-345 | at most one count per tile |
| PipeMaze.LoopTilesNotCounted | day-10/src/main.rs:265-267 | tiles of the loop are never counted as enclosed |
| PipeMaze.FindStart | day-10/src/main.rs:136-141 | the first start tile of the maze, or none when there is no start |
| PipeMaze.Task1 | day-10/src/main.rs:329-335 | with a start, half the length of the closed loop found from it; without one, an error |
| PipeMaze.Task2 | day-10/src/main.rs:337-346 | with a start, the number of enclosed tiles of the maze; without one, an error |
| PipeMaze.ExampleCrossings | day-10/src/main.rs:240-247 | "F" then "J" is one crossing, then '\|' is a second |
| PipeMaze.ExampleZigzag | day-10/src/main.rs:237-256 | "L" then "7" is one crossing |
| PipeMaze.ExampleUTurn | day-10/src/main.rs:237-249 | "L-J" turns back and is no crossing |
| PipeMaze.EnqueuedStep | day-10/src/main.rs:211-219 | after a visit every queued tile is linked from the visited tile that queued it |
| PipeMaze.VisitParents | day-10/src/main.rs:207-219 | after a visit every visited tile but the first is reached by a link from an earlier one |
| PipeMaze.VisitClosed | day-10/src/main.rs:207-219 | after a visit every linked neighbour of a visited tile is visited or queued |
| PipeMaze.SearchDone | day-10/src/main.rs:206-223 | once the queue is empty the visited tiles start at the start, hold no tile twice and are closed under links |
| PipeMaze.LeftOnPathStep | day-10/src/main.rs:231-234 | one more tile of the row adds it to the tiles considered exactly when it is left of the point and on the loop |
| CosmicExpansion.Get | day-11/src/main.rs:32-43 | a field is found exactly when the position is inside the map, and it is the field stored there |
| CosmicExpansion.AllGalaxiesAllEqual | day-11/src/main.rs:108-117 | `all_equal` also holds for a row or column of galaxies only, so such a line expands too |
| CosmicExpansion.GetCol | day-11/src/main.rs:62-72 | the loop collects the column exactly when every row reaches it |
| CosmicExpansion.MinWidth | day-11/src/main.rs:62-72 | no row is shorter than the narrowest |
| CosmicExpansion.MinWidthAttained | day-11/src/main.rs:62-72 | some row is exactly as short as the narrowest |
| CosmicExpansion.ColumnPresent | day-11/src/main.rs:62-72 | a column exists exactly when it is left of the narrowest row's end |
| CosmicExpansion.ColumnOf | day-11/src/main.rs:62-72 | a column exists exactly when every row reaches it, and then it holds each row's cell |
| CosmicExpansion.Count | day-11/src/main.rs:107-113 | no more inserted lines than lines |
| CosmicExpansion.Spread | day-11/src/main.rs:107-113 | each flagged line is followed by one inserted line |
| CosmicExpansion.Widen | day-11/src/main.rs:107-113 | the expanded map has one extra line per flagged line |
| CosmicExpansion.WidenStep | day-11/src/main.rs:107-113 | one turn of the insert loop extends the expansion of the lines already passed by one more line |
| CosmicExpansion.SpreadAt | day-11/src/main.rs:108-112 | line x ends up at x plus the number of flagged lines before it |
| CosmicExpansion.WidenAt | day-11/src/main.rs:107-113 | during the loop, lines not yet reached sit unchanged, shifted by the lines inserted so far |
| CosmicExpansion.WidenNone | day-11/src/main.rs:106 | before the first turn the map is unchanged |
| CosmicExpansion.RowFlags | day-11/src/main.rs:108-135 | a row is flagged exactly when all its fields are equal |
| CosmicExpansion.ColumnAt | day-11/src/main.rs:62-72 | the column holds each row's field at that index |
| CosmicExpansion.ColFlags | day-11/src/main.rs:116-140 | one flag per column present in every row |
| CosmicExpansion.ExpandCols | day-11/src/main.rs:115-124 | column expansion keeps the number of rows |
| CosmicExpansion.WidenedRows | day-11/src/main.rs:115-124 | partial column expansion keeps the number of rows |
| CosmicExpansion.WidenedColumn | day-11/src/main.rs:116-123 | during the column loop, each unreached column sits unchanged at its shifted index |
| CosmicExpansion.NextRow | day-11/src/main.rs:107-113 | one turn of the row loop inserts an Empty row of the same length after an all-equal row and skips it |
| CosmicExpansion.NoColumnsYet | day-11/src/main.rs:115 | the column loop starts on the row-expanded map |
| CosmicExpansion.AllColumns | day-11/src/main.rs:116 | when the column loop stops, every column has been expanded |
| CosmicExpansion.InsertedColumn | day-11/src/main.rs:119-121 | inserting a column keeps the number of rows |
| CosmicExpansion.NextColumn | day-11/src/main.rs:116-123 | one turn of the column loop inserts an Empty field in every row after an all-equal column |
| CosmicExpansion.Map.Expand | day-11/src/main.rs:105-125 | the map becomes its rows expanded, then its columns expanded |
| CosmicExpansion.Map.RowLoop | day-11/src/main.rs:106-113 | the row loop leaves the map with every all-equal row doubled |
| CosmicExpansion.Map.RowTurn | day-11/src/main.rs:107-112 | one turn at original row k inserts a blank row after it when its cells are all equal, and moves to the position of original row k + 1 |
| CosmicExpansion.Map.ColumnLoop | day-11/src/main.rs:115-124 | the column loop leaves the map with every all-equal column doubled |
| CosmicExpansion.Map.OriginalColumn | day-11/src/main.rs:116 | the column read at the shifted index is the original column, present exactly while it exists |
| CosmicExpansion.Map.ColumnTurn | day-11/src/main.rs:117-123 | one turn moves the index past the column and its copy and widens the map by one more column |
| CosmicExpansion.Map.GalaxiesPos | day-11/src/main.rs:74-103 | the positions read cell by cell are those of the galaxies scan |
| CosmicExpansion.ScanTurn | day-11/src/main.rs:77-103 | one step of `iter_pos` moves right, wraps to the next row after `line_len`, and keeps the positions found plus those still to be scanned equal to the galaxies scan |
| CosmicExpansion.Map.Expansions | day-11/src/main.rs:127-143 | the indices are those of the all-equal columns and the all-equal rows |
| CosmicExpansion.Map.InsertColumn | day-11/src/main.rs:119-121 | every row gets an Empty field at the index |
| CosmicExpansion.ScanSound | day-11/src/main.rs:74-99 | every position the scan reports is a galaxy within the first row's width, in reading order |
| CosmicExpansion.ScanComplete | day-11/src/main.rs:74-99 | in a rectangular map, every galaxy after the starting point is reported |
| CosmicExpansion.GalaxiesExact | day-11/src/main.rs:94-103 | in a rectangular map, the galaxies are exactly the positions holding a galaxy, in reading order |
| CosmicExpansion.IndicesSnoc | day-11/src/main.rs:131-140 | each further line appends its index when it is all-equal |
| CosmicExpansion.IndicesExact | day-11/src/main.rs:131-140 | an index is recorded exactly when its line is all-equal, once each |
| CosmicExpansion.IndicesIncreasing | day-11/src/main.rs:131-140 | the recorded indices increase |
| CosmicExpansion.Below | day-11/src/main.rs:183-190 | the fold counts at most every recorded index |
| CosmicExpansion.BelowAppend | day-11/src/main.rs:183-190 | counting over two lists adds up |
| CosmicExpansion.BelowMonotone | day-11/src/main.rs:183-190 | a farther coordinate has at least as many expansions before it |
| CosmicExpansion.BelowIndices | day-11/src/main.rs:183-190 | the count before a coordinate is the number of all-equal lines before it |
| CosmicExpansion.BelowLast | day-11/src/main.rs:186 | one index counts exactly when it is below the coordinate |
| CosmicExpansion.TotalAppend | day-11/src/main.rs:97 | galaxy totals add over concatenation |
| CosmicExpansion.TotalSnoc | day-11/src/main.rs:97 | appending a line adds its value |
| CosmicExpansion.TotalSpread | day-11/src/main.rs:110-120 | inserted blank lines add nothing |
| CosmicExpansion.FillersWorthNothing | day-11/src/main.rs:110-120 | lines of Empty hold no galaxy |
| CosmicExpansion.TotalWiden | day-11/src/main.rs:107-124 | expansion keeps the total |
| CosmicExpansion.SameTallies | day-11/src/main.rs:119-121 | maps whose rows hold the same galaxies agree on the count |
| CosmicExpansion.ExpandKeepsGalaxies | day-11/src/main.rs:105-125 | expanding the map keeps the number of galaxies |
| CosmicExpansion.BlankTally | day-11/src/main.rs:110 | an inserted Empty row holds no galaxy |
| CosmicExpansion.ScanCount | day-11/src/main.rs:74-103 | in a rectangular map the scan reports one position per galaxy from the starting point on |
| CosmicExpansion.GalaxiesCounted | day-11/src/main.rs:94-103 | in a rectangular map, one position per galaxy |
| CosmicExpansion.ShiftAll | day-11/src/main.rs:178-213 | shifting keeps one position per galaxy |
| CosmicExpansion.CrossedAll | day-11/src/main.rs:182-206 | one count pair per galaxy |
| CosmicExpansion.TimesIsProduct | day-11/src/main.rs:193-194 | repeated addition is the product |
| CosmicExpansion.TimesMonotone | day-11/src/main.rs:193-194 | the product grows with the count |
| CosmicExpansion.TimesDistributes | day-11/src/main.rs:193-194 | the product distributes over sums and differences |
| CosmicExpansion.ShiftAxis | day-11/src/main.rs:192-212 | on one axis the shifted distance is the plain distance plus (factor - 1) per expansion between the two |
| CosmicExpansion.ShiftDistance | day-11/src/main.rs:181-212 | the shifted distance of a pair is its plain distance plus (factor - 1) times the distance in expansion counts |
| CosmicExpansion.ShiftDistancesFrom | day-11/src/main.rs:178-214 | the same, summed over the pairs with one galaxy |
| CosmicExpansion.ShiftSum | day-11/src/main.rs:178-214 | the part-2 sum is the plain sum plus (factor - 1) times the sum over expansion counts |
| CosmicExpansion.FactorOne | day-11/src/main.rs:193-209 | with factor 1 no galaxy moves |
| CosmicExpansion.Task1 | day-11/src/main.rs:161-171 | the sum of the distances of all pairs of galaxies of the expanded map |
| CosmicExpansion.Task2 | day-11/src/main.rs:173-215 | the sum over all pairs of galaxies of the distances after shifting each by the expandable rows and columns before it |
| CosmicExpansion.ExpandedFirstRow | day-11/src/main.rs:105-113 | expansion keeps the first row first, so part 1's scan has a row to measure |
| CosmicExpansion.Map.constructor | day-11/src/main.rs:158 | the map holds the parsed rows |
| HotSprings.UnknownsPresent | day-12/src/main.rs:12 | a line still has a '?' exactly when its count of unknowns is positive |
| HotSprings.ReplaceFirst | day-12/src/main.rs:16-17 | `replacen(.., 1)` changes only the first '?' and leaves a line without one unchanged |
| HotSprings.ReplaceFirstUnknowns | day-12/src/main.rs:16-17 | each replacement removes exactly one unknown |
| HotSprings.CompletionsCount | day-12/src/main.rs:10-18 | a line with n unknowns has 2^n completions |
| HotSprings.FillsAfterReplace | day-12/src/main.rs:16-17 | a line completes the replaced line exactly when it completes the original and carries the chosen character at the first '?' |
| HotSprings.CompletionsExact | day-12/src/main.rs:10-18 | the completions are exactly the lines that agree with the record outside its '?' and have '#' or '.' at each '?' |
| HotSprings.CompletionsDistinct | day-12/src/main.rs:10-18 | no completion is produced twice |
| HotSprings.RunsAccount | day-12/src/main.rs:21-32 | every group found is at least 1 long and the groups add up to the number of '#' |
| HotSprings.RunsSplit | day-12/src/main.rs:21-32 | a character other than '#' ends a group |
| HotSprings.RunsOfDamaged | day-12/src/main.rs:21-32 | consecutive '#' form one group |
| HotSprings.CountMatching | day-12/src/main.rs:20-39 | the fold counts at most every line |
| HotSprings.CountMatchingAppend | day-12/src/main.rs:20-39 | the fold adds over concatenation |
| HotSprings.CountMatchingPermutation | day-12/src/main.rs:20-39 | the order of the worklist does not change the count |
| HotSprings.NoUnknowns | day-12/src/main.rs:10-39 | a record without '?' has one arrangement when its groups match and none otherwise |
| HotSprings.ArrangementsBound | day-12/src/main.rs:10-39 | a record has at most 2^n arrangements for n unknowns |
| HotSprings.FlatAppend | day-12/src/main.rs:10-18 | the completions of a worklist add over concatenation |
| HotSprings.FlatOne | day-12/src/main.rs:10 | the starting worklist completes to the record's completions |
| HotSprings.FlatLength | day-12/src/main.rs:10-18 | a worklist has at least as many completions as entries |
| HotSprings.FlatDone | day-12/src/main.rs:12 | once no line has a '?', the worklist is its own completion |
| HotSprings.WorklistStep | day-12/src/main.rs:14-17 | removing a line and pushing its two replacements keeps the worklist's completions as a multiset |
| HotSprings.FindUnknown | day-12/src/main.rs:12 | `find_position` gives the first line with a '?', or none when no line has one |
| HotSprings.Expand | day-12/src/main.rs:10-18 | the worklist ends as a permutation of the record's completions, none with a '?' |
| HotSprings.CountArrangements | day-12/src/main.rs:7-39 | the number of completions whose groups of '#' equal the record's sizes |
| HotSprings.Task1 | day-12/src/main.rs:3-42 | the sum of the arrangements of every record |
| HotSprings.Task2 | day-12/src/main.rs:44-46 | part 2 answers 0 for every input; the source has no engine for the unfolded records, so the 525152 its test expects (day-12/src/main.rs:72-83) is never given |
| PointOfIncidence.Columns | day-13/src/main.rs:34-108 | `get_col` gives, for every column, the cell of each row in that column |
| PointOfIncidence.MismatchZero | day-13/src/main.rs:113-162 | two lines of one length differ in no cell exactly when they are equal |
| PointOfIncidence.Pairs | day-13/src/main.rs:37-60 | the outward comparison sees at least one pair and stops at the nearer edge |
| PointOfIncidence.SmudgesGrow | day-13/src/main.rs:113-147 | comparing more pairs never finds fewer differing cells |
| PointOfIncidence.PerfectUpTo | day-13/src/main.rs:38-60 | the first k pairs differ nowhere exactly when each of them is equal |
| PointOfIncidence.Perfect | day-13/src/main.rs:33-91 | a mirror without differing cells is one whose mirrored pairs are all equal, up to the nearer edge |
| PointOfIncidence.OneSmudgeFound | day-13/src/main.rs:113-147 | one differing cell among the first k pairs lies in a single pair, all the others equal |
| PointOfIncidence.OneSmudgeCounted | day-13/src/main.rs:113-147 | one pair differing in one cell, all the others equal, is one differing cell in total |
| PointOfIncidence.OneSmudge | day-13/src/main.rs:106-194 | a mirror with one smudge is one where exactly one mirrored pair differs, in one cell, and every other pair is equal |
| PointOfIncidence.IsMirror | day-13/src/main.rs:34-60 | the part-1 comparison records the mirror exactly when the two sides are equal up to the nearer edge |
| PointOfIncidence.IsSmudgedMirror | day-13/src/main.rs:107-147 | the part-2 comparison records the mirror exactly when the two sides differ in exactly one cell |
| PointOfIncidence.LastMirror | day-13/src/main.rs:33-61 | the mirror that wins the search is the last one with the wanted number of differing cells; none means no mirror has it |
| PointOfIncidence.RecordMirrors | day-13/src/main.rs:33-91 | after a search `res` holds the score of the last mirror found, or its old value when none is |
| PointOfIncidence.Summarize | day-13/src/main.rs:30-202 | one pattern's score: the column search, then the row search over it |
| PointOfIncidence.RowsWin | day-13/src/main.rs:63-91 | when a row mirror exists, the score is 100 times one plus the last row mirror, whatever the columns |
| PointOfIncidence.ColumnsOtherwise | day-13/src/main.rs:33-93 | without a row mirror the score is a column score, below the width, and 0 exactly when there is no column mirror either |
| PointOfIncidence.Total | day-13/src/main.rs:28-95 | the sum of the patterns' scores |
| PointOfIncidence.Task1 | day-13/src/main.rs:25-96 | the sum of the patterns' perfect-reflection scores |
| PointOfIncidence.Task2 | day-13/src/main.rs:98-204 | the sum of the patterns' one-smudge scores |
| ParabolicReflectorDish.Settle | day-14/src/main.rs:23-29 | a rolling stone stops just after the last cell north of it that is not empty ground, or at the edge |
| ParabolicReflectorDish.SettleUnique | day-14/src/main.rs:23-29 | that stop is the only position with empty ground all the way down and no empty ground just north of it |
| ParabolicReflectorDish.Land | day-14/src/main.rs:18-32 | the stone is written at its stop; the cells before stay and the ones after are empty ground |
| ParabolicReflectorDish.Tilt | day-14/src/main.rs:17-34 | tilting keeps the column's length |
| ParabolicReflectorDish.LandFacts | day-14/src/main.rs:18-32 | a landing stone moves no rock, adds one stone and leaves the column settled |
| ParabolicReflectorDish.CountAppend | day-14/src/main.rs:50 | counts add over concatenation |
| ParabolicReflectorDish.CountDots | day-14/src/main.rs:21-23 | empty ground holds nothing else |
| ParabolicReflectorDish.TiltKeepsRocks | day-14/src/main.rs:15-36 | tilting moves no rock and leaves no stone with empty ground north of it |
| ParabolicReflectorDish.TiltCounts | day-14/src/main.rs:15-36 | tilting keeps the number of stones, rocks and empty cells |
| ParabolicReflectorDish.TiltBeforeRock | day-14/src/main.rs:15-36 | north of a rock the tilted column is the tilt of that part alone: a stone stops at the first rock above it |
| ParabolicReflectorDish.StonesStayBehindRocks | day-14/src/main.rs:22-32 | no stone rolls past a rock: the cells north of each rock hold as many stones after the tilt as before |
| ParabolicReflectorDish.TiltSettled | day-14/src/main.rs:15-36 | a settled column does not change when tilted |
| ParabolicReflectorDish.TiltIdempotent | day-14/src/main.rs:15-36 | tilting twice is tilting once |
| ParabolicReflectorDish.Col | day-14/src/main.rs:16-18 | the column holds each row's cell in it |
| ParabolicReflectorDish.TiltNorth | day-14/src/main.rs:15-36 | tilting keeps the platform's shape |
| ParabolicReflectorDish.Cells | day-14/src/main.rs:39-43 | the platform read off the matrix, cell for cell |
| ParabolicReflectorDish.ColumnOf | day-14/src/main.rs:16-18 | the column read off the matrix |
| ParabolicReflectorDish.RollStone | day-14/src/main.rs:18-33 | the stone at row j ends up landed on the cells above it, as `Land` of the column above row j says; rows below j and every other column are unchanged |
| ParabolicReflectorDish.TiltColumn | day-14/src/main.rs:17-34 | the inner loop leaves its column tilted and every other column unchanged |
| ParabolicReflectorDish.TiltStep | day-14/src/main.rs:17-33 | one row of the inner loop extends the tilted prefix of the column by one cell and leaves every other column unchanged |
| ParabolicReflectorDish.MoveStones | day-14/src/main.rs:15-36 | the matrix becomes the platform tilted north |
| ParabolicReflectorDish.TiltedColumn | day-14/src/main.rs:15-36 | each column of the tilted platform is that column tilted |
| ParabolicReflectorDish.TiltNorthIdempotent | day-14/src/main.rs:15-36 | tilting north twice is tilting once |
| ParabolicReflectorDish.TiltNorthKeeps | day-14/src/main.rs:15-36 | tilting north moves no rock and keeps each column's number of stones |
| ParabolicReflectorDish.Rotate | day-14/src/main.rs:56-83 | a quarter turn keeps a square platform square |
| ParabolicReflectorDish.RotateFour | day-14/src/main.rs:56-83 | four quarter turns restore the platform |
| ParabolicReflectorDish.Transpose | day-14/src/main.rs:57-73 | the swap loop leaves cell (r, c) holding the old (c, r) |
| ParabolicReflectorDish.RowOf | day-14/src/main.rs:77 | the row copied off the matrix |
| ParabolicReflectorDish.ReverseRows | day-14/src/main.rs:75-82 | every row is reversed in place |
| ParabolicReflectorDish.RotateMat | day-14/src/main.rs:56-83 | the matrix becomes the platform turned a quarter clockwise |
| ParabolicReflectorDish.ColumnBagOneRow | day-14/src/main.rs:57-73 | the first k columns of one row hold its first k cells |
| ParabolicReflectorDish.ColumnBagLastRow | day-14/src/main.rs:57-73 | the cells of the first k columns add up row by row |
| ParabolicReflectorDish.RowsAndColumns | day-14/src/main.rs:57-73 | a rectangle holds the same cells read by rows as read by columns |
| ParabolicReflectorDish.ReversalBag | day-14/src/main.rs:75-82 | reversing a row keeps its cells |
| ParabolicReflectorDish.RotatedRows | day-14/src/main.rs:56-83 | the first k rows of the turned platform hold the cells of the first k columns |
| ParabolicReflectorDish.RotateKeepsCells | day-14/src/main.rs:56-83 | a quarter turn keeps every cell, as a multiset |
| ParabolicReflectorDish.Load | day-14/src/main.rs:47-109 | the loop sums, row by row, the row's distance from the south edge times its stones |
| ParabolicReflectorDish.RowWeight | day-14/src/main.rs:50 | a row weighs its distance times its number of stones |
| ParabolicReflectorDish.LoadByStones | day-14/src/main.rs:47-51 | the load is the sum, over the stones, of their distance from the south edge |
| ParabolicReflectorDish.Task1 | day-14/src/main.rs:38-54 | the load of the platform tilted north |
| ParabolicReflectorDish.Spin | day-14/src/main.rs:96-97 | one tilt and turn keeps the platform square |
| ParabolicReflectorDish.SpinTimes | day-14/src/main.rs:95-98 | repeated spins keep the platform square |
| ParabolicReflectorDish.Cycle | day-14/src/main.rs:95-98 | a spin cycle keeps the platform square |
| ParabolicReflectorDish.IterateAdd | day-14/src/main.rs:94-113 | a + b cycles are a cycles, then b |
| ParabolicReflectorDish.RepeatLater | day-14/src/main.rs:99-103 | once state k recurs p cycles later, it recurs p cycles after every later state too |
| ParabolicReflectorDish.Periodic | day-14/src/main.rs:99-103 | from the cycle start on, the state after n cycles is the one at start + (n - start) mod length |
| ParabolicReflectorDish.ModSmall | day-14/src/main.rs:103 | a remainder below the divisor is itself |
| ParabolicReflectorDish.MulAtLeast | day-14/src/main.rs:103 | a positive multiple is at least the divisor |
| ParabolicReflectorDish.ModShift | day-14/src/main.rs:103 | subtracting the divisor keeps the remainder |
| ParabolicReflectorDish.SpinCycle | day-14/src/main.rs:95-98 | the matrix becomes the platform after one spin cycle |
| ParabolicReflectorDish.Position | day-14/src/main.rs:99 | the first index of a seen state equal to the current one, or none when it was not seen |
| ParabolicReflectorDish.Trace | day-14/src/main.rs:92-112 | the seen states after n cycles are n + 1 |
| ParabolicReflectorDish.TraceAt | day-14/src/main.rs:92-112 | seen state k is the platform after k cycles |
| ParabolicReflectorDish.LoadOnCycle | day-14/src/main.rs:100-110 | once the state after rounds + 1 cycles equals seen state start, the load read off the seen states is that of the state after 1 000 000 000 cycles |
| ParabolicReflectorDish.Task2 | day-14/src/main.rs:85-114 | the answer is the load after 1 000 000 000 spin cycles; none only when no state repeats within the fuel |
| LensLibrary.Hash | day-15/src/main.rs:3-13 | the HASH of any string is below 256 |
| LensLibrary.HashOfEmpty | day-15/src/main.rs:3-13 | the fold starts from 0 |
| LensLibrary.HashCaseInsensitive | day-15/src/main.rs:7 | because of `to_ascii_lowercase`, lower-casing a string does not change its HASH |
| LensLibrary.HashIgnoresNewlines | day-15/src/main.rs:5 | line feeds are filtered out and do not change the HASH |
| LensLibrary.HashExample | day-15/src/main.rs:3-13 | "rn=1" hashes to 30, and "HASH" hashes like "hash", to 180 |
| LensLibrary.Task1 | day-15/src/main.rs:15-17 | the sum of the steps' HASHes is below 256 per step |
| LensLibrary.SumHashes | day-15/src/main.rs:16 | the sum is below 256 per step, and 0 with no steps |
| LensLibrary.ParseStep | day-15/src/main.rs:22-37 | a step with '=' puts the lens named before the first '='; one without puts none, and takes the lens named before the first '-'; a bad focal length or a step with neither character fails |
| LensLibrary.Position | day-15/src/main.rs:30-42 | the first lens carrying the name, or none when no lens does |
| LensLibrary.PutReplacesInPlace | day-15/src/main.rs:30-32 | `name=n` on a box holding the name swaps that lens for the new one in its slot and touches nothing else |
| LensLibrary.PutAppendsNew | day-15/src/main.rs:33-35 | `name=n` on a box without the name appends the lens at the back |
| LensLibrary.PutLookup | day-15/src/main.rs:28-35 | after `name=n` the box holds n for that name, every other name keeps its focal length, and labels stay distinct |
| LensLibrary.PositionByLabels | day-15/src/main.rs:30 | the position of a name depends only on the labels |
| LensLibrary.LookupByLabels | day-15/src/main.rs:30 | boxes with the same labels and the same lens for a name agree on it |
| LensLibrary.LookupAppend | day-15/src/main.rs:34 | appending a lens leaves earlier names where they were and finds the new name at the back |
| LensLibrary.TakeIsFilter | day-15/src/main.rs:40-44 | on a box with distinct labels, `name-` removes exactly the lenses with that name and keeps the rest in order |
| LensLibrary.TakeCons | day-15/src/main.rs:42-44 | a lens before the removed one stays in front |
| LensLibrary.Without | day-15/src/main.rs:42-44 | the filtered box holds no lens with the name |
| LensLibrary.NoneAfter | day-15/src/main.rs:42-44 | with distinct labels, no lens after the first carries its name |
| LensLibrary.WithoutAbsent | day-15/src/main.rs:42-44 | filtering out an absent name changes nothing |
| LensLibrary.PutKeepsInvariant | day-15/src/main.rs:22-35 | `name=n` keeps every lens of box HASH(name) carrying that HASH, under distinct labels |
| LensLibrary.TakeKeepsInvariant | day-15/src/main.rs:36-45 | `name-` keeps the box invariant |
| LensLibrary.RemoveAtKeepsInvariant | day-15/src/main.rs:43 | removing one slot keeps the box invariant |
| LensLibrary.Apply | day-15/src/main.rs:21-46 | a step changes only box HASH(name) of the 256 |
| LensLibrary.Arrange | day-15/src/main.rs:20-46 | the steps leave 256 boxes |
| LensLibrary.ArrangeInvariant | day-15/src/main.rs:20-46 | after any steps, every box b holds only lenses whose name hashes to b, each name once |
| LensLibrary.ParseSteps | day-15/src/main.rs:21-45 | one parsed step per piece |
| LensLibrary.Boxes.constructor | day-15/src/main.rs:20 | 256 empty boxes |
| LensLibrary.Boxes.Put | day-15/src/main.rs:22-35 | the boxes become the old boxes after the `name=n` step, keeping the box invariant |
| LensLibrary.Boxes.Take | day-15/src/main.rs:36-45 | the boxes become the old boxes after the `name-` step, keeping the box invariant |
| LensLibrary.Boxes.FocusingPower | day-15/src/main.rs:48-53 | the sum over every lens of (box + 1) * (slot + 1) * focal length |
| LensLibrary.Task2 | day-15/src/main.rs:19-54 | the focusing power of the boxes after all steps in order; an error when some step does not parse |
| LensLibrary.ParseStepsFailure | day-15/src/main.rs:23-37 | one unparsable step makes the whole part fail |
| LensLibrary.SumHashesAppend | day-15/src/main.rs:16 | the sum of the HASHes over two runs of steps put together is the sum of the two sums |
| LensLibrary.SumOfTwo | day-15/src/main.rs:16 | the sum over two steps is the sum of their two HASHes |
| LensLibrary.SumOfThree | day-15/src/main.rs:16 | the sum over three steps is the sum of their three HASHes |
| LensLibrary.ExampleHashesA | day-15/src/main.rs:69 | "rn=1", "cm-" and "qp=3" hash to 30, 253 and 97 |
| LensLibrary.ExampleHashesB | day-15/src/main.rs:69 | "cm=2", "qp-" and "pc=4" hash to 47, 14 and 180 |
| LensLibrary.ExampleHashesC | day-15/src/main.rs:69 | "ot=9", "ab=5" and "pc-" hash to 9, 197 and 48 |
| LensLibrary.ExampleHashesD | day-15/src/main.rs:69 | "pc=6" and "ot=7" hash to 214 and 231 |
| LensLibrary.ExampleSumFirst | day-15/src/main.rs:69 | the first six example steps hash to 621 in total |
| LensLibrary.ExampleSum | day-15/src/main.rs:67-73 | the example steps hash to 1320 in total |
| LensLibrary.Example1 | day-15/src/main.rs:67-73 | part 1 of the example text is 1320 |

## Left out

### Whole parts of the repository

- I/O is not modelled:
  - every `main`, with its `include_str!` and `println!`;
  - `print_mat` of day 14;
  - the `dbg!` calls of day 7 part 2 and day 13.
- Text parsing is not modelled for days 2 to 14: the `nom` combinators, the regular expressions of days 2 and 3, and the line and space splitting. Those models start from tokenised values. Days 1 and 15 start from the raw text.
- Common.Lines: only '\n' ends a line. Rust's `lines()` also drops a '\r' before a '\n'; the model keeps it in the line. The inputs are taken to have '\n' line endings.
- GearRatios.ExpandLine: only ASCII '0'..'9' are digits, and positions are character indices. The source's `\d+` also matches other Unicode decimal digits, and `find_iter` reports byte offsets. The two agree on ASCII input only.
- day-16/src/main.rs is not part of this model, because it is unfinished: `task_1` ends in `todo!()`.
- day-07/src/main.rs is not part of this model, because it only wires the two parts together.
- The derived `Ord` of day 7's `Hand` is not modelled. The sort uses the hand-written `partial_cmp` through `<`, and only that comparison is modelled.
- `prime_factors` of day 8 is not modelled, because its loop bound is an `f64` square root. `HauntedWasteland.Lcm` takes the factorisations of the walk lengths as input.
- The `HashMap`s of day 1 and day 8 are association lists.
  - Day 1: iteration order does not matter, because no two digit words match at the same index.
  - Day 8: the model merges the factors of each number in one fixed order. Each order gives one entry per prime, holding its largest exponent (`HauntedWasteland.LcmKeepsLargestExponent`). Only the order of the entries can differ, and the product of p^e does not depend on it (`HauntedWasteland.PowProductReordered`).

### Integer widths and underflow

- Overflow of Rust's fixed-width integers is not modelled: the `u32`/`u64` sums and products of every day, the `i32` coordinate shifts of day 11, and the range check of `parse::<u32>` (`Common.ParseNat` accepts values above 4294967295, where the source fails).
- Index underflow is kept as a precondition or an error value:
  - the `x - 1`/`y - 1` underflow of day 3 on the first row or column is an error (`GearRatios.Solve`);
  - `expansion_factor - 1` of day 11 needs `factor >= 1` (`CosmicExpansion.Task2`).

### Walks bounded by fuel

- HauntedWasteland.Task1: the source walks until it reaches the goal and may never stop. The model walks at most `fuel` steps and answers `Exhausted` after that.
- HauntedWasteland.Task2Walks: the same fuel bound applies to each walk.
- HauntedWasteland.Step: the model requires a non-empty instruction list. The source's `% len` would panic on an empty one, and its parser reads at least one instruction.
- ParabolicReflectorDish.Task2: at most `fuel` spin cycles are run, with `fuel <= 1 000 000 000`. `None` means that no state repeated within the fuel; the source would keep looping.

### Preconditions taken from the source's data types

- CosmicExpansion.Map.Expand: needs a non-empty map. With no rows, every column counts as present and the source's column loop never ends.
- CosmicExpansion.Map.GalaxiesPos needs a non-empty first row, where the source would panic (`unwrap` and `len() - 1` on row 0).
- CosmicExpansion.Task1 has the same requirement.
- CosmicExpansion.GalaxiesExact: exact for rectangular maps only. `iter_pos` reads every row as wide as row 0.
- CosmicExpansion.GalaxiesCounted is likewise proved for rectangular maps only.
- PointOfIncidence.Summarize: needs a rectangular pattern with at least one non-empty row. That is the shape `simple_matrix::Matrix` gives it.
- PointOfIncidence.Task1 and PointOfIncidence.Task2 need the same shape for every pattern.
- ParabolicReflectorDish.RotateMat: needs a square platform. The transpose loop of `rotate_mat` visits (i, j) for j <= i only. With more rows than columns, `get(j, i)` is out of range and the `unwrap` panics. With fewer rows than columns, every access succeeds, but only the leading rows-by-rows square is transposed. The rows are then reversed whole, so the result is no quarter turn. The model does not capture that case.
- ParabolicReflectorDish.Task2 needs a square platform for the same reason. `CycleStep` leaves a non-square platform unchanged only so that the cycle algebra is total.
- PipeMaze.Intersections: needs the point to be in the maze, since `get_row(..).unwrap()` requires its row to exist.
- CamelCards.SortHands: all hands are assumed to have the same number of cards, and so are CamelCards.Cmp, CamelCards.Lt, CamelCards.Task1, JokerCards.Task2 (through `DealSize`) and the lemmas about them. The parser (`many1(parse_card)`) accepts hands of any size. Hands of different types compare by type alone, whatever their sizes. On equal types the source reads the other hand's card at each position of this hand: it panics when the other hand is shorter and all earlier cards agree, and answers `None` when this hand is a prefix of the other. That behaviour on hands of different sizes is not modelled.

### Weaker results

- HotSprings.Task2: the `task_2` stub returns 0, so the test that expects 525152 does not hold against the code. No counting engine for the unfolded records is modelled, since the code has none.
- CamelCards.SortHands: a stable insertion sort, like `slice::sort`: a later hand goes after every hand it is not `<`, and identical hands (`partial_cmp` gives `None`, so neither is `<`) keep their input order. Its ensures state sorted and a permutation but not stability, so they fix the order only without ties (`CamelCards.SortedUnique` under `NoTies`). Two identical hands with different bids make part 1 depend on that unstated order.
- SeedMaps.Task2 is stated as the code behaves: once a map produced any output, ranges that no conversion touches are dropped.

### Worked examples not proved

These examples are too costly to evaluate symbolically:

- PipeMaze.Task1 and PipeMaze.Task2: the results 8, 4, 4 and 10.
- CosmicExpansion.Task1 and CosmicExpansion.Task2: the results 374, 1030 and 8410.
- HotSprings.Task1: the result 21.
- PointOfIncidence.Task1 and PointOfIncidence.Task2: the results 405 and 400.
- ParabolicReflectorDish.Task1 and ParabolicReflectorDish.Task2: the results 136 and 64.
- LensLibrary.Task2: the result 145.
- Trebuchet.Task2: the result 281 for the seven example lines. Only the rewrite and value of the single line "twone" are proved (`Trebuchet.Twone`).
