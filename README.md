# Advent of Code 2024 solvers, modelled in Dafny

This project models the puzzle solvers of an Advent of Code 2024 repository
written in Rust. Each `src/day_N.rs` file of that repository parses its puzzle
input and runs one deterministic algorithm on it. Each such file becomes one
Dafny module `DayN` in `dayN.dfy`. Where a day has worked examples, they sit
in a second module `DayNExamples` in `dayN_examples.dfy`. Parsing helpers that
several days share live in module `Common` in `common.dfy`, and powers of two
and bitwise XOR on natural numbers in module `Bits` in `bits.dfy`. Day 13 of
the repository is an empty stub and has no module.

The shape of each module follows the shape of its Rust file:

- Code that computes a value from a value becomes datatypes, functions and
  lemmas.
- Code that loops over mutable variables, or objects whose methods update
  their fields, becomes methods with loop invariants, or classes with
  `modifies` clauses.
- Each such method is proved against a specification function, and the
  puzzle's properties are proved about that function.

Integers are unbounded throughout. Where the Rust code relies on a fixed
width, the module says how that width is handled.

## Model

| member | source | states |
|---|---|---|
| Common.SplitOnce | src/day_1.rs:25 | on success the two halves joined by the separator are the line, and the separator first occurs right after the first half; failure means it occurs nowhere |
| Common.ParseU32 | src/day_1.rs:27-28 | a text parses as an unsigned 32-bit number exactly when it is an optional `+` and decimal digits whose value is below 2^32 |
| Common.Sort | src/day_1.rs:35 | the result is ascending and a permutation of the input |
| Common.SortIsUnique | src/day_1.rs:35 | any ascending permutation of the input is the sorted sequence |
| Common.Min | src/day_21.rs:153 | the minimum of a non-empty list is one of its elements and no larger than any |
| Common.Digits | src/day_21.rs:347-350 | keeps only decimal digit characters, is no longer than the text, and is empty exactly when the text has none |
| Common.DigitsAppend | src/day_21.rs:347-350 | the digits of a concatenation are the digits of the first part followed by those of the second |
| Common.DigitsSingle | src/day_21.rs:347-350 | one character keeps itself exactly when it is a decimal digit; with DigitsAppend, the result is the text's digits in their order |
| Common.SumAppend | src/day_21.rs:368-375 | summing a concatenation adds the two sums |
| Common.ParseU64 | src/day_11.rs:30 | a number exactly when the text is a decimal literal below 2^64, and then its value |
| Common.Trim | src/day_11.rs:28 | no whitespace left at either end, and never longer than the input |
| Common.TrimRemovesEnds | src/day_11.rs:28 | the trimmed text is a contiguous slice of the input, and everything before and after that slice is whitespace |
| Common.ParseU8 | src/day_17.rs:154-161 | a piece parses as a program byte exactly when it is a decimal number below 256, and then it is that number |
| Common.U32Pieces | src/day_2.rs:25-27 | no more numbers than pieces, each below 2^32, and a number occurs exactly when some piece parses to it |
| Common.U32PiecesAppend | src/day_2.rs:25-27 | the numbers of two runs of pieces are those of the first run followed by those of the second |
| Common.U32PiecesSingle | src/day_2.rs:25-27 | one piece gives its number when it parses as a u32 and nothing otherwise; with U32PiecesAppend, the parsed pieces in their order |
| Day1.ParseLine | src/day_1.rs:24-29 | a line without the three-space separator is skipped; otherwise both sides parse as u32 to the returned ids, and a side that does not parse is reported as malformed |
| Day1.WithSeparator | src/day_1.rs:24-25 | every kept line holds the separator and comes from the input, every input line holding it is kept, and no more lines are kept than the input has |
| Day1.WithSeparatorAppend | src/day_1.rs:24-25 | filtering is done line by line: the kept lines of two parts are the kept lines of each, concatenated, so order is kept |
| Day1.WithSeparatorSingle | src/day_1.rs:24-25 | a single line is kept exactly when it holds the three-space separator |
| Day1.ParseInput | src/day_1.rs:20-32 | fails exactly when some line has the separator but a side that is not a u32; otherwise the k-th left and right ids are the two sides of the k-th kept line |
| Day1.SortedPairs | src/day_1.rs:34-38 | the k-th pair is the k-th smallest left id with the k-th smallest right id, as long as the shorter column |
| Day1.Zip | src/day_1.rs:35 | zip stops at the shorter input and pairs elements position by position |
| Day1.SortedPairsAreSorted | src/day_1.rs:34-38 | the first and second components each form an ascending permutation of their column |
| Day1.SumDiffs | src/day_1.rs:40-42 | the total distance: the sum over the pairs of the absolute difference of their two ids |
| Day1.SumDiffsZero | src/day_1.rs:40-42 | the total distance is zero exactly when every pair has equal ids |
| Day1.Similarity | src/day_1.rs:44-47 | the similarity score: each left id times the number of times it occurs in the right column, summed |
| Day1.SimilarityAppend | src/day_1.rs:44-47 | the score of a split left column is the sum of the scores of its parts |
| Day1.SimilaritySnocRight | src/day_1.rs:45-46 | one more right id x adds x for every occurrence of x on the left |
| Day1.SimilaritySymmetric | src/day_1.rs:44-47 | swapping the two columns leaves the score unchanged |
| Day1.SimilarityOfPermutedRight | src/day_1.rs:45 | the score depends on the right column only through its counts |
| Day1.ExampleSortedPairs | src/day_1.rs:73-86 | the example columns give the six sorted pairs of the test |
| Day1.ExampleSumDiffs | src/day_1.rs:88-101 | the example pairs have total distance 11 |
| Day1.ExampleSimilarity | src/day_1.rs:103-109 | the example columns have similarity score 31 |
| Day2.ParseReport | src/day_2.rs:25-27 | every level is below 2^32; the order and content are those of Common.U32Pieces on the space-separated pieces |
| Day2.ParseReportValues | src/day_2.rs:25-27 | a number is a level of the report exactly when some space-separated piece of the line parses to it as a u32 |
| Day2.ParseInput | src/day_2.rs:29-31 | one report per line, the k-th being the k-th line parsed |
| Day2.FirstBadFrom | src/day_2.rs:33-49 | none exactly when every pair from i on is in range and keeps the direction of the first pair; otherwise the first pair from i on that does not |
| Day2.FirstBad | src/day_2.rs:33-49 | none exactly when every adjacent pair differs by 1 to 3 in the direction of the first pair; otherwise the least failing pair index |
| Day2.FirstBadLevelPair | src/day_2.rs:33-49 | the loop over adjacent pairs returns the first failing pair as the specification defines it |
| Day2.WithoutIndex | src/day_2.rs:51-56 | the report one shorter, levels before idx unchanged and those after shifted down by one |
| Day2.AnyRemovalSafe | src/day_2.rs:61-63 | true exactly when removing one of the levels lo..hi leaves a safe report |
| Day2.Dampened | src/day_2.rs:58-67 | a safe report passes, and a passing report is safe or becomes safe with one level removed |
| Day2.RemovalOutsideWindowUnsafe | src/day_2.rs:60-61 | removing a level outside the window around the first bad pair leaves the report unsafe |
| Day2.DampenerExact | src/day_2.rs:58-67 | the dampener passes a report exactly when it is safe or some single removal makes it safe |
| Day2.CountSafe | src/day_2.rs:69-74 | the number of reports that are safe |
| Day2.CountDampened | src/day_2.rs:76-81 | the number of reports that pass the dampener |
| Day2.DampenerCountsMore | src/day_2.rs:69-81 | the dampened count is at least the safe count and at most the number of reports |
| Day2.ExampleFirstBad | src/day_2.rs:113-122 | the first bad pair of each test report |
| Day2.ExampleDampener2 | src/day_2.rs:127 | the report 1 2 7 8 9 fails the dampener |
| Day2.ExampleDampener3 | src/day_2.rs:128 | the report 9 7 6 2 1 fails the dampener |
| Day2.ExampleDampener4 | src/day_2.rs:129 | the report 1 3 2 4 5 passes the dampener |
| Day2.ExampleDampener5 | src/day_2.rs:130 | the report 8 6 4 4 1 passes the dampener |
| Day2.ExampleDampener7 | src/day_2.rs:132 | the report 5 3 4 7 9 passes the dampener |
| Day2.ExampleCountSafe | src/day_2.rs:135-138 | two of the example reports are safe |
| Day2.ExampleCountDampened | src/day_2.rs:140-143 | four of the example reports pass the dampener |
| Day3.SumMuls | src/day_3.rs:52-60 | the sum of the products of every `Mul`, the switches ignored |
| Day3.Step | src/day_3.rs:65-71 | a product is added only while active; `Do` switches on, `Dont` off, a `Mul` leaves the switch alone |
| Day3.Fold | src/day_3.rs:62-74 | the left fold of Step over the instructions from a given state |
| Day3.SumInstructions | src/day_3.rs:62-74 | the sum of the fold that starts at zero, enabled |
| Day3.FoldBounded | src/day_3.rs:62-74 | folding never loses what was summed and adds at most the sum of all products |
| Day3.SumInstructionsAtMostSumMuls | src/day_3.rs:52-74 | the conditional sum never exceeds the sum of all products |
| Day3.FoldWithoutDont | src/day_3.rs:65-72 | without a `Dont` the fold stays active and adds every product |
| Day3.SumsAgreeWithoutDont | src/day_3.rs:52-74 | without a `Dont` both sums agree |
| Day3.FoldSnoc | src/day_3.rs:65 | folding one more instruction is one more step |
| Day3.FoldIsEnabledProducts | src/day_3.rs:62-74 | the fold's sum is the sum of products whose latest preceding switch is not `Dont`, and its flag is that switch |
| Day3.SumInstructionsCountsEnabled | src/day_3.rs:62-74 | `sum_instructions` counts exactly the products of enabled `Mul`s |
| Day3.ExampleSums | src/day_3.rs:103-117 | the example instructions sum to 161 unconditionally and 48 with the switches |
| Day4.ParseWordsearch | src/day_4.rs:102-109 | one row of cells per line of the text, each row being that line's characters |
| Day4.ApplyDelta | src/day_4.rs:30-37 | the moved coordinate when both components stay non-negative, none otherwise |
| Day4.CharAt | src/day_4.rs:77-79 | the cell's letter exactly when the coordinate is on the grid |
| Day4.GetWord | src/day_4.rs:70-75 | never longer than the requested length |
| Day4.GetWordInside | src/day_4.rs:70-75 | when every step stays on the grid the word has the full length and its m-th letter is the cell m steps away |
| Day4.GetWordOutside | src/day_4.rs:70-75 | a step off the grid makes the word shorter than requested |
| Day4.GetWordFirst | src/day_4.rs:70-75 | from an on-grid start the word begins with the start's letter |
| Day4.GetWordPrefix | src/day_4.rs:70-75 | a shorter word in the same direction is a prefix of a longer one |
| Day4.WordsFrom | src/day_4.rs:53-68 | eight words, the k-th read in the k-th of the fixed directions |
| Day4.FindAll | src/day_4.rs:40-51 | the nested loops over rows and columns collect the row-major list of matching cells |
| Day4.RowMatchesExact | src/day_4.rs:43-48 | a row scan yields exactly that row's matching cells, left to right |
| Day4.MatchesExact | src/day_4.rs:40-51 | the scan of the first n rows yields exactly their matching cells in row-major order |
| Day4.AllMatchesExact | src/day_4.rs:40-51 | a coordinate is listed exactly when its cell holds the letter, and the list is row-major |
| Day4.CountEqual | src/day_4.rs:85-86 | the number of words equal to the search word: its multiplicity among the words, so never more than the words |
| Day4.WordCount | src/day_4.rs:81-88 | none for the empty word; otherwise the number of words equal to it read from every cell that holds its first letter |
| Day4.WordCountIsOccurrences | src/day_4.rs:81-88 | the count aborts exactly for the empty word; otherwise it equals the number of (cell, direction) pairs over the whole grid that spell the word |
| Day4.IsXMas | src/day_4.rs:90-99 | the centre holds A and both diagonals through it, read from their upper end, spell MAS or SAM |
| Day4.IsXMasByNeighbours | src/day_4.rs:90-99 | an X-MAS centre is an 'A' with an M and an S at the ends of each diagonal |
| Day4.DiagonalWord | src/day_4.rs:91-98 | a three-letter diagonal reads MAS or SAM exactly when its middle is 'A' and its ends are M and S in either order |
| Day4Examples.ExampleFindAll | src/day_4.rs:139-145 | the four X cells of the small example, in row-major order |
| Day4Examples.ExampleWordsFrom | src/day_4.rs:147-162 | the eight words of length four read from (2, 0) |
| Day4Examples.ExampleWordCount | src/day_4.rs:165-172 | XMAS occurs four times in the small example |
| Day4Examples.ExampleIsXMas | src/day_4.rs:186-190 | (1, 1) is not an X-MAS centre and (4, 2) is |
| Day5.RuleLineOf | src/day_5.rs:37-40 | a line without '\|' adds no rule; otherwise the rule is the two sides read as u32, and a side that does not parse aborts |
| Day5.ParseRules | src/day_5.rs:33-46 | fails exactly when some rule line has a side that is not a u32; otherwise the map built line by line equals the rules of all lines |
| Day5.RulesOf | src/day_5.rs:33-46 | the rule map built line by line: each rule a\|b adds b to the set of pages that must follow a |
| Day5.RulesOfExact | src/day_5.rs:33-46 | b is in a's rule set exactly when some line is the rule a\|b, and no page has an empty rule set |
| Day5.ParseUpdates | src/day_5.rs:48-53 | one update per line, the comma-separated pieces that parse as u32 |
| Day5.ParseInput | src/day_5.rs:55-59 | no blank line aborts; otherwise the rules of the text before the first blank line and the updates after it |
| Day5.Valid | src/day_5.rs:61-74 | no page is preceded by a page that its rule says must come after it |
| Day5.ValidateUpdate | src/day_5.rs:61-74 | the loop over the pages with the set of pages seen returns true exactly when no page comes after a page its rule says it must precede |
| Day5.NotNamedByAll | src/day_5.rs:66-68 | a page passes the seen-set check exactly when no earlier page is in its rule set |
| Day5.CheckedIsValid | src/day_5.rs:61-74 | the page-by-page check and the all-pairs definition of a valid update agree |
| Day5.GetMiddle | src/day_5.rs:76-79 | defined exactly for non-empty updates, and then the page at index (len - 1) / 2 |
| Day5.SumValidMiddles | src/day_5.rs:81-87 | the sum of the middle pages of the valid updates, aborting on an empty valid update |
| Day5.SumValidMiddlesFails | src/day_5.rs:81-87 | the sum aborts exactly when some valid update is empty |
| Day5.Compare | src/day_5.rs:94-104 | Less exactly when a's rule names b; Greater exactly when it does not and b's rule names a |
| Day5.SortPages | src/day_5.rs:89-108 | a stable insertion sort of the update by Compare |
| Day5.InsertPermutes | src/day_5.rs:89-108 | inserting a page adds exactly that page |
| Day5.SortPermutes | src/day_5.rs:89-108 | the sorted pages are a permutation of the update |
| Day5.SumSortedInvalidMiddles | src/day_5.rs:110-117 | the sum of the middle pages of the invalid updates once sorted |
| Day5.InvalidMiddle | src/day_5.rs:110-117 | the middle of a sorted invalid update is one of its pages (which page is fixed by InvalidMiddleOfValidOrder) |
| Day5.SortKeepsValid | src/day_5.rs:89-108 | sorting an already valid update leaves it unchanged |
| Day5.InsertValid | src/day_5.rs:89-108 | where the rules order every two pages, inserting a page into a valid update keeps it valid |
| Day5.SortIsValid | src/day_5.rs:89-108 | where the rules order every two pages, the sorted update is valid |
| Day5.ValidUnique | src/day_5.rs:89-108 | where the rules order the pages totally, two valid orders of the same pages are equal |
| Day5.SortIsOnlyValidOrder | src/day_5.rs:89-108 | where the rules order the pages totally, every valid reordering of an update is the sorted update, so any sort that obeys the rules gives it |
| Day5.InvalidMiddleOfValidOrder | src/day_5.rs:110-117 | where the rules order the pages totally, the middle page added for an invalid update is the middle page of any valid reordering of it |
| Day5Examples.ExampleValid | src/day_5.rs:186-196 | the three valid example updates are valid |
| Day5Examples.ExampleMiddles | src/day_5.rs:198-206 | the middle pages 61, 53 and 29 |
| Day5Examples.ExampleSumValid | src/day_5.rs:208-214 | the valid middles sum to 143 |
| Day5Examples.ExampleSorts | src/day_5.rs:216-228 | the three invalid updates sort to the orders of the test |
| Day5Examples.ExampleSumSorted | src/day_5.rs:230-236 | the sorted invalid middles sum to 123 |
| Day6.Turn | src/day_6.rs:36-45 | a turn moves one place along the cycle up, right, down, left |
| Day6.FourTurns | src/day_6.rs:37-44 | four turns are the identity and fewer never are |
| Day6.Lab.constructor | src/day_6.rs:47-52 | a lab with the given size and obstructions |
| Day6.Lab.WithObstruction | src/day_6.rs:55-57 | the cell joins the obstructions, and the result says whether it was new |
| Day6.Lab.WithoutObstruction | src/day_6.rs:59-61 | the cell leaves the obstructions, and the result says whether it was there |
| Day6.NextPosition | src/day_6.rs:102-115 | the cell ahead, defined for a guard in bounds exactly when that cell is on the grid |
| Day6.TakeStep | src/day_6.rs:92-100 | none off the grid; an obstruction ahead turns the guard in place; otherwise the guard moves ahead keeping its direction |
| Day6.StepInBounds | src/day_6.rs:92-115 | a guard in bounds stays in bounds after a step |
| Day6.Iterate | src/day_6.rs:153-162 | the guard after n steps, none once it has left the grid |
| Day6.IterateInBounds | src/day_6.rs:153-162 | a guard that starts in bounds is in bounds after any number of steps |
| Day6.Loops | src/day_6.rs:164-176 | the guard is still on the grid after any number of steps |
| Day6.RepeatLoops | src/day_6.rs:164-176 | a state that recurs keeps the guard on the grid forever |
| Day6.Walk | src/day_6.rs:178-187 | the guard's states step by step, at most n of them, ending with the state whose step leaves the grid |
| Day6.GetPath | src/day_6.rs:178-187 | the path lists the guard's states step by step until the step that leaves the grid |
| Day6.CountGuardPositions | src/day_6.rs:153-162 | the number of distinct cells on the guard's walk |
| Day6.PositionsBounded | src/day_6.rs:153-162 | at most one cell per step, all of them inside the lab |
| Day6.WillLoop | src/day_6.rs:164-176 | true exactly when the guard never leaves the grid |
| Day6.TriedCellsCons | src/day_6.rs:192-196 | the cells tried along a path are the next cells of its states |
| Day6.LoopCountBounded | src/day_6.rs:189-206 | no more loops are counted than distinct cells tried |
| Day6.LoopCount | src/day_6.rs:189-206 | along the path, each cell ahead not yet tried and not obstructed counts once when obstructing it makes the guard loop from that point |
| Day6.CountLoops | src/day_6.rs:189-206 | walking the path, each untried free cell ahead is obstructed, tested for a loop and cleared again; the count is that of the specification over the path |
| Day6.ParseInput | src/day_6.rs:118-151 | aborts without lines or without a guard; otherwise the width of the first line, the line count, every '#' as an obstruction, and the last '^' facing up |
| Day6.CellStep | src/day_6.rs:126-139 | one more character adds its obstruction or moves the guard to it |
| Day6Examples.ExampleSteps | src/day_6.rs:251-273 | the steps of the test: moves, turns at obstructions and exits at the edges |
| Day7.Checked | src/day_7.rs:51-57 | `checked_add`/`checked_mul` give the exact result when it fits in an i64 and none otherwise |
| Day7.Apply | src/day_7.rs:39-57 | defined exactly when a number remains, the operation does not overflow and the new total is at most the target; then the target is kept, the total is the operation's result and the first number is consumed |
| Day7.Compare | src/day_7.rs:60-69 | fewer remaining numbers compare lower; equal counts compare by target minus total |
| Day7.CompareConsistent | src/day_7.rs:60-76 | the ordering is antisymmetric and transitive, as `Ord` requires |
| Day7.Solvable | src/day_7.rs:93-112 | the equation is solved, or adding or multiplying the next number leads to a solvable equation |
| Day7.SolvableIsSomeChoice | src/day_7.rs:93-112 | an equation is solvable exactly when some left-to-right choice of + and × consumes every number, never passes the target and ends on it |
| Day7.PopMax | src/day_7.rs:96-98 | the popped equation is a greatest one and the rest is the heap without it |
| Day7.ChildrenSolvable | src/day_7.rs:98-108 | an unfinished equation is solvable exactly when one of its two successors is |
| Day7.ChildrenWork | src/day_7.rs:102-108 | the successors have strictly less search left, so the loop ends |
| Day7.SearchStep | src/day_7.rs:96-108 | popping an unfinished equation and pushing its successors keeps whether a solvable equation is on the heap |
| Day7.IsSolveable | src/day_7.rs:93-112 | the heap search returns true exactly when the equation is solvable |
| Day7.CalibrationTotal | src/day_7.rs:114-120 | the sum of the targets of the solvable equations |
| Day7.CalculateCalibrationTotal | src/day_7.rs:114-120 | the sum of the targets of the solvable equations |
| Day7.ParseCalibration | src/day_7.rs:78-87 | aborts without ": ", with a target that is not an i64 or with no number; otherwise the target and the numbers in order, the first as the running total |
| Day7.ParseInput | src/day_7.rs:89-91 | aborts exactly when some line does; otherwise one equation per line |
| Day7Examples.ExampleApply | src/day_7.rs:189-204 | the add and multiply cases of the test, overflowing the target or running out of numbers giving none |
| Day7Examples.ExampleOrder | src/day_7.rs:169-187 | the example equations in the test's ascending order |
| Day7Examples.ExampleCalibrationTotal | src/day_7.rs:206-209 | the solvable example targets sum to 3749 |
| Day8.RowPositionsExact | src/day_8.rs:39-46 | a cell is listed for a line exactly when it lies in that row and holds the character |
| Day8.GridPositionsExact | src/day_8.rs:38-47 | a cell is listed exactly when it is in the text and holds the character |
| Day8.ParseInput | src/day_8.rs:32-51 | aborts only on empty text; otherwise the first line's length as width, the line count as height, and for each character other than '.' exactly its cells in reading order |
| Day8.FindAntinodesForPair | src/day_8.rs:53-70 | at most two antinodes, all inside the grid |
| Day8.PairExact | src/day_8.rs:53-70 | a cell is returned exactly when it is inside the grid and lies beyond one antenna at the pair's distance |
| Day8.PairSymmetric | src/day_8.rs:53-70 | swapping the antennas swaps the order and keeps the same antinodes |
| Day8.FindAntinodesForFrequency | src/day_8.rs:72-81 | every antinode is inside the grid |
| Day8.FrequencyExact | src/day_8.rs:72-81 | a cell is listed exactly when it is an antinode of some unordered pair of the frequency's antennas |
| Day8.AllAntinodes | src/day_8.rs:83-91 | the set of antinodes of every frequency |
| Day8.CountAntinodesForMap | src/day_8.rs:83-91 | the number of distinct antinodes over all frequencies, at most the number of cells |
| Day8.AllAntinodesExact | src/day_8.rs:83-91 | a cell counts exactly when it is inside the grid and an antinode of a pair of one frequency |
| Day8.GridCellsSize | src/day_8.rs:83-91 | the grid has height times width cells |
| Day8Examples.ExamplePairs | src/day_8.rs:130-148 | the antinodes of the test's pairs, cut off at the grid's edge |
| Day8Examples.ExampleFrequency | src/day_8.rs:150-156 | the antinodes of the test's three antennas |
| Day8Examples.ExampleCount | src/day_8.rs:158-161 | the example map has 14 distinct antinodes |
| Day9.ParseInput | src/day_9.rs:46-52 | one value below ten per decimal digit, everything else dropped |
| Day9.ParseRender | src/day_9.rs:46-52 | parsing the digits of a disk map gives the map back |
| Day9.ParseAppend | src/day_9.rs:46-52 | parsing works character by character, so text split anywhere parses to the two parts' values |
| Day9.GetDiskPointers | src/day_9.rs:54-60 | the start pointer is the first entry, a file; the end pointer is the last entry, a file exactly when its index is even |
| Day9.Expand | src/day_9.rs:62-105 | the disk block by block: entry i is a run of file i / 2 at even i and of free blocks at odd i |
| Day9.Compact | src/day_9.rs:62-105 | block-by-block compaction: trailing free blocks are dropped, a leading file block stays, and a leading free block takes the last file block |
| Day9.CompactPermutes | src/day_9.rs:62-105 | block-by-block compaction keeps every file block, as often as before, and nothing else |
| Day9.CompactNoneSuffix | src/day_9.rs:62-105 | free blocks at the end of the disk do not change the compaction |
| Day9.CompactSwap | src/day_9.rs:84-90 | a free block in front takes the last file block |
| Day9.FileRun | src/day_9.rs:68-72 | a file run in front is laid out as it is |
| Day9.Numbered | src/day_9.rs:62-105 | the k-th id laid out at position k |
| Day9.DiskBlocksFragmented | src/day_9.rs:62-105 | the pointer loop lays out, from position 0, the block-by-block compaction of the expanded disk |
| Day9.FillAsWritten | src/day_9.rs:73-91 | the free-space loop as written never moves the end pointer right |
| Day9.DiskBlocksFragmentedAsWritten | src/day_9.rs:62-105 | the loop as written, aborting on an empty map |
| Day9.FilesBelow | src/day_9.rs:107-133 | the files among entries 0..e: each non-empty file entry, and the trailing entry of an odd-length map, at its offset |
| Day9.FilesBelowListed | src/day_9.rs:107-133 | each listed file is entry 2 × id at that entry's offset with that entry's size; the files are in order, apart, and end before entry e |
| Day9.GapsBelow | src/day_9.rs:107-133 | the gaps among entries 0..e: each non-empty free entry at its offset |
| Day9.GapsBelowListed | src/day_9.rs:107-133 | each listed gap is non-empty and ends before entry e; the gaps are in order and apart |
| Day9.GetUsage | src/day_9.rs:107-133 | the loop over (file, free) pairs and the trailing file of an odd-length map list exactly the files and gaps of the specification |
| Day9.FileListed | src/day_9.rs:117-130 | a file entry is listed exactly when it is non-empty or the trailing entry of the map |
| Day9.GapListed | src/day_9.rs:122-125 | a gap is listed exactly when it is a non-empty free entry at its offset |
| Day9.FirstFit | src/day_9.rs:140-143 | the leftmost gap at least as large as the file and left of it, or none when no gap is |
| Day9.FindGap | src/day_9.rs:140-143 | the search over the free list finds the leftmost gap that fits |
| Day9.Shrink | src/day_9.rs:148-153 | a gap filled exactly is removed; a larger one keeps its place and loses the file's size from its left end |
| Day9.ShrinkKeepsGood | src/day_9.rs:148-153 | shrinking keeps the gaps non-empty, ordered and apart |
| Day9.Destination | src/day_9.rs:139-158 | a file only ever moves left: to the start of a gap that fits, or stays where it is |
| Day9.Place | src/day_9.rs:139-158 | one file's blocks are a run of its id from its destination; without a fitting gap the free list is unchanged |
| Day9.PlaceAll | src/day_9.rs:135-162 | the files placed from the last to the first, each by Place against the free list left by the files after it |
| Day9.PlaceAllIds | src/day_9.rs:135-162 | every file keeps all its blocks: the ids laid out are the files' runs, last file first |
| Day9.PlaceAllLeft | src/day_9.rs:135-162 | every block lies no further right than the file it belongs to |
| Day9.PlaceKeepsGood | src/day_9.rs:139-158 | placing a file keeps the free list non-empty, ordered and apart |
| Day9.PlaceFile | src/day_9.rs:139-158 | one iteration appends the file's blocks and updates the free list as the specification places the file |
| Day9.DiskBlocksUnfragmented | src/day_9.rs:135-162 | the loop over the files from the last places each one as the specification does |
| Day9.Checksum | src/day_9.rs:164-166 | the sum of position times id over the blocks |
| Day9.ChecksumPermutation | src/day_9.rs:164-166 | the checksum does not depend on the order of the blocks |
| Day9.CalculateChecksum | src/day_9.rs:164-166 | the sum of position times id over the chosen layout |
| Day9Examples.EndPastStart | src/day_9.rs:54-60 | on the map 1 1 the loop as written lays out file 0 twice, where compaction gives one block |
| Day9Examples.FillPastStart | src/day_9.rs:84-88 | on the map 1 3 1 3 1 the loop as written moves the end pointer below entry 0 |
| Day9Examples.FillPastStartCorrected | src/day_9.rs:62-105 | the same map compacts to files 0, 2, 1 |
| Day10.ParseInput | src/day_10.rs:104-116 | one row per line, holding the values of that line's digit characters in order |
| Day10.ParseRender | src/day_10.rs:104-116 | parsing a map of digits written one row per line gives the map back |
| Day10.Get | src/day_10.rs:99-101 | None exactly off the map, else the stored height |
| Day10.Adjacent | src/day_10.rs:86-97 | the on-map neighbours up, right, down and left of a cell, with their heights |
| Day10.AdjacentExact | src/day_10.rs:86-97 | the neighbours listed are exactly the on-map cells sharing a side, with their heights, each once, in the order up, right, down, left |
| Day10.Trailheads | src/day_10.rs:28-39 | exactly the height-0 cells, each once, in reading order |
| Day10.Peaks | src/day_10.rs:45-57 | a peak gives itself; below a peak, the union of the peaks of the neighbours exactly one higher |
| Day10.Score | src/day_10.rs:41-43 | the number of distinct peaks reachable from the cell |
| Day10.Rating | src/day_10.rs:66-77 | 1 on a peak; below a peak, the sum of the ratings of the neighbours exactly one higher |
| Day10.ClimbStep | src/day_10.rs:45-57 | below a peak, the peaks and the rating come from the neighbours exactly one higher |
| Day10.PeaksAreTrailEnds | src/day_10.rs:45-57 | a cell is among the peaks of p exactly when some hiking trail from p (a climb of one unit per step ending on 9) ends on it |
| Day10.TrailsExact | src/day_10.rs:66-77 | the trails enumerated along the `rate_points` recursion are exactly the hiking trails from p |
| Day10.RatingCountsTrails | src/day_10.rs:66-77 | the rating of a cell is the number of distinct hiking trails from it |
| Day10.ScoreAtMostRating | src/day_10.rs:41-77 | a cell's score never exceeds its rating |
| Day10.TotalScore | src/day_10.rs:59-64 | the sum of the scores of the trailheads |
| Day10.TotalRating | src/day_10.rs:79-84 | the sum of the ratings of the trailheads |
| Day10.TotalScoreAtMostRating | src/day_10.rs:59-84 | the total score never exceeds the total rating |
| Day10Examples.SmallTrailheads | src/day_10.rs:168-170 | the small map's only trailhead is (0, 0) |
| Day10Examples.AdjacentInside | src/day_10.rs:192-195 | the neighbours of (1, 1) on the small map, in order |
| Day10Examples.AdjacentCorner | src/day_10.rs:197 | the neighbours of the corner (0, 0) on the small map |
| Day10Examples.AdjacentEdge | src/day_10.rs:199-202 | the neighbours of (3, 2) on the small map's edge |
| Day10Examples.ScoreAndRating | src/day_10.rs:205-224 | on the larger map the trailhead (0, 2) has score 5 and rating 20 |
| Common.ShowValue | src/day_11.rs:42 | the decimal text of a stone reads back as the stone and has exactly as many digits as it needs, so no leading zeros |
| Day11.DigitCount | src/day_11.rs:42-43 | a number from 10^(k-1) up to 10^k is written with k digits |
| Day11.DecimalSplit | src/day_11.rs:44-45 | cutting a digit string in two gives a front and a back whose values recombine as front times 10^(length of back) plus back |
| Day11.Halves | src/day_11.rs:43-45 | the two halves of an even-length decimal text read as the quotient and the remainder by 10^(half the length) |
| Day11.BlinkStone | src/day_11.rs:37-49 | 0 becomes 1; a stone with an even number of digits becomes its quotient and remainder by 10^(half the digits); any other stone is multiplied by 2024 |
| Day11.Blink | src/day_11.rs:35-52 | every stone becomes one or two stones, so the row grows to between its length and twice its length |
| Day11.BlinkAppend | src/day_11.rs:35-52 | stones change independently and keep their order: blinking a concatenation is concatenating the blinked parts |
| Day11.BlinkPrefix | src/day_11.rs:35-52 | blinking one more stone of the row appends exactly what that stone becomes |
| Day11.BlinkTimes | src/day_11.rs:73-80 | the row after n blinks |
| Day11.BlinkTimesAppend | src/day_11.rs:73-80 | after any number of blinks, a row split in two evolves as its two parts side by side |
| Day11.Count | src/day_11.rs:54-71 | one stone counts 1 after no blinks, otherwise the count of what it becomes after one fewer blink |
| Day11.CountAll | src/day_11.rs:62-65 | the sum of the counts of the stones of a row |
| Day11.CountAllAppend | src/day_11.rs:73-80 | the stone-by-stone count of a concatenated row is the sum of the counts of its parts |
| Day11.CountAllIsLength | src/day_11.rs:54-80 | counting stone by stone, one blink at a time, gives the length of the row after n blinks |
| Day11.CountIsLength | src/day_11.rs:54-71 | the count for one stone is the length of the row that one stone grows into after n blinks |
| Day11.StoneCounter.constructor | src/day_11.rs:74 | the shared cache starts empty, which trivially holds only true counts |
| Day11.StoneCounter.CountForStone | src/day_11.rs:54-71 | returns the true count; the cache only grows, keeps only true counts, gains the key (stone, blinks) when blinks > 0, and is unchanged on a hit |
| Day11.CountAllSnoc | src/day_11.rs:62-65 | the sum over one more stone adds that stone's count |
| Day11.CountAfterBlinks | src/day_11.rs:73-80 | the total is the number of stones in the row after n blinks |
| Day11.ParseInput | src/day_11.rs:27-33 | the trimmed text split at spaces, each piece a u64, and none when one is not |
| Day11.ParseAll | src/day_11.rs:27-33 | a row exactly when every space-separated piece is a u64 literal, holding their values in order |
| Day11Examples.BlinkMixed | src/day_11.rs:96-99 | 0 1 10 99 999 blinks to 1 2024 1 0 9 9 2021976 |
| Day11Examples.BlinkStep1 | src/day_11.rs:100 | 125 17 blinks to 253000 1 7 |
| Day11Examples.BlinkStep2 | src/day_11.rs:101 | 253000 1 7 blinks to 253 0 2024 14168 |
| Day11Examples.BlinkStep3 | src/day_11.rs:102-105 | the third blink of the row gives 512072 1 20 24 28676032 |
| Day11Examples.BlinkStep4 | src/day_11.rs:106-109 | the fourth blink gives 512 72 2024 2 0 2 4 2867 6032 |
| Day11Examples.BlinkStep5 | src/day_11.rs:110-113 | the fifth blink gives the 13 stones 1036288 7 2 20 24 4048 1 4048 8096 28 67 60 32 |
| Day11Examples.BlinkStep6 | src/day_11.rs:114-122 | the sixth blink gives the listed 22 stones |
| Day11Examples.CountSixBlinks | src/day_11.rs:127 | 125 17 grows to 22 stones in six blinks, and the stone-by-stone count agrees |
| Day12.Add | src/day_12.rs:35-37 | adding two offsets adds their row and column parts |
| Day12.ApplyTo | src/day_12.rs:39-42 | an offset leads to a plot exactly when neither coordinate drops below zero, and then to the plot moved by the offset; otherwise None |
| Day12.ConcaveDelta | src/day_12.rs:54-61 | the diagonal offset of a side is its outward offset plus the offset along the fence clockwise |
| Day12.TurnsAreInverse | src/day_12.rs:76-92 | turning clockwise and turning counter-clockwise undo each other, in both orders |
| Day12.FourTurns | src/day_12.rs:76-92 | four turns the same way return to the starting side |
| Day12.OutwardsRotate | src/day_12.rs:63-74 | the outward offset of the next side clockwise is the outward offset rotated a quarter turn clockwise, and no two sides share an outward offset |
| Day12.Turns | src/day_12.rs:117-128 | every segment at which the clockwise fence walk turns is a fence segment of the region |
| Day12.SidesAtMostPerimeter | src/day_12.rs:139-151 | a region never has more sides than fence segments |
| Day12.NextAroundInside | src/day_12.rs:117-123 | at an inside corner the diagonal plot's side turned counter-clockwise is again a fence segment |
| Day12.NextStraight | src/day_12.rs:124-125 | going straight on, the next plot along carries a fence on the same side |
| Day12.NextAroundOutside | src/day_12.rs:126-127 | at an outside corner the same plot carries a fence on the next side clockwise |
| Day12.TurnsVisited | src/day_12.rs:110-127 | marking one more segment visited adds one to the turns visited exactly when that segment is a turn |
| Day12.Region.constructor | src/day_12.rs:155-161 | a new region has its crop, no plots and perimeter 0 |
| Day12.Region.WalkPerimeter | src/day_12.rs:103-129 | the walk only marks fence segments, marks its starting segment, and the count it returns grows by exactly the number of turn segments it newly marks |
| Day12.Region.CountEdges | src/day_12.rs:139-151 | the number of edges counted is the number of segments where the fence turns, whatever order the plots are taken in |
| Day12.Region.VisitSides | src/day_12.rs:143-147 | after the four sides of a plot are tried, every fence segment of that plot is visited, and the count is the number of turns visited |
| Day12.OnBoundary | src/day_12.rs:144 | a side of a region's plot carries a fence exactly when the plot beyond it is not in the region |
| Day12.Get | src/day_12.rs:170-172 | the crop is found exactly for a plot on the garden, and is the crop grown there |
| Day12.Adjacent | src/day_12.rs:174-185 | at most four neighbours are listed, each a neighbour of the plot on the garden, with its own crop |
| Day12.AdjacentComplete | src/day_12.rs:174-185 | every neighbour on the garden is listed with its crop |
| Day12.FenceCount | src/day_12.rs:199-204 | the fence segments of one plot, plus its neighbours on the garden, make four plus its neighbours of another crop: the walk adds `4 - len` at the plot and one per other-crop neighbour |
| Day12.FencePairsUnion | src/day_12.rs:187-205 | the fence of two disjoint sets of plots is the sum of their fences, so the perimeter is a sum over the plots |
| Day12.ConnectedSelf | src/day_12.rs:207-209 | a plot on the garden is connected to itself |
| Day12.ConnectedStep | src/day_12.rs:202-204 | a same-crop neighbour of a plot connected to the start is connected to the start |
| Day12.ConnectedThrough | src/day_12.rs:187-205 | two plots connected to a common plot are connected to each other |
| Day12.ComponentsMeet | src/day_12.rs:213-230 | if the components of two plots share a plot, the second plot is in the first's component |
| Day12.WalkStaysInside | src/day_12.rs:187-205 | a set closed under same-crop neighbours contains every same-crop walk that starts in it |
| Day12.ComponentInside | src/day_12.rs:187-205 | such a set contains the whole component of any plot in it |
| Day12.FenceIsBoundary | src/day_12.rs:189-200 | for a closed set of one crop, the segments fenced against the garden's edge or another crop are exactly the segments with no plot of the set beyond them |
| Day12.WalkRegionIter | src/day_12.rs:187-205 | the walk keeps the crop, only adds plots connected to the start, adds a same-crop plot it is called on, leaves every added plot with its same-crop neighbours added, and grows the perimeter by one for another crop plus the fence of the added plots |
| Day12.WalkNeighbours | src/day_12.rs:202-204 | walking the listed neighbours adds every same-crop one and grows the perimeter by the other-crop ones plus the fence of the added plots |
| Day12.WalkRegion | src/day_12.rs:207-211 | the region of a plot is exactly its connected component, of its crop, and its perimeter is the number of fence segments of that component |
| Day12.ComponentSame | src/day_12.rs:213-230 | a plot in a component has that same component |
| Day12.SumOverRemove | src/day_12.rs:232-244 | the summed cost of a set of regions does not depend on the order in which the regions are taken |
| Day12.PriceOfListed | src/day_12.rs:232-244 | summing the costs of listed regions that are pairwise apart gives the cost of the set of them |
| Day12.PriceOfStarts | src/day_12.rs:232-244 | any list of starts that covers the garden with pairwise separate regions prices the garden at the cost of all its regions |
| Day12.NewRegionApart | src/day_12.rs:219-224 | a plot not yet visited starts a region apart from every region found so far |
| Day12.FindRegions | src/day_12.rs:213-230 | the regions found are the components of their starts with counted perimeters, pairwise disjoint, and every plot of the garden lies in one of them |
| Day12.FindInRow | src/day_12.rs:217-227 | after a row, every plot up to the end of that row is in a region found, and the regions stay pairwise apart |
| Day12.TotalFencingCost | src/day_12.rs:232-237 | the total is the sum over the garden's regions of area times perimeter |
| Day12.TotalFencingCostWithDiscount | src/day_12.rs:239-244 | the total is the sum over the garden's regions of area times number of sides |
| Day12.ParseInput | src/day_12.rs:247-251 | one row of the garden per line of the input |
| Day12.ParseRoundTrip | src/day_12.rs:247-251 | a garden written one row per line reads back unchanged |
| Day12Examples.SinglePlot | src/day_12.rs:359-364 | a lone plot has four fence segments and four sides |
| Day12Examples.RowOfFour | src/day_12.rs:366-371 | four plots in a row have ten fence segments and four sides |
| Day12Examples.RegionD | src/day_12.rs:299-303 | region D of the example garden is the single plot at (1, 3), with perimeter 4 |
| Day12Examples.RegionAPlots | src/day_12.rs:284-288 | region A of the example garden is the top row |
| Day12Examples.RegionA | src/day_12.rs:284-288 | region A has perimeter 10 and four sides |
| Day14.TruncRem | src/day_14.rs:84-85 | Rust's signed `%`: the remainder lies strictly between minus the modulus and the modulus, has the sign of the dividend and is congruent to it |
| Day14.Shifted | src/day_14.rs:84-85 | the shifted velocity component is positive, below twice the bound, and congruent to the original component modulo the bound |
| Day14.Simulate | src/day_14.rs:78-91 | a simulated robot keeps its velocity and ends inside the bounds |
| Day14.SimulateIsModular | src/day_14.rs:84-87 | the simulated position is (row + row velocity times steps) mod rows and (column + column velocity times steps) mod columns, with the signed velocity, so the shift to a non-negative velocity changes nothing |
| Day14.SimulateCompose | src/day_14.rs:78-91 | simulating a seconds and then b seconds equals simulating a + b seconds |
| Day14.SimulateZero | src/day_14.rs:78-91 | zero seconds leave a robot inside the bounds unchanged |
| Day14.SimulatePeriod | src/day_14.rs:78-91 | after rows times columns seconds a robot inside the bounds is back where it started |
| Day14.SimulateRobots | src/day_14.rs:97-102 | the robots keep their number and order, and each is simulated on its own |
| Day14.SimulateRobotsCompose | src/day_14.rs:97-102 | simulating all robots a seconds and then b seconds equals simulating them a + b seconds |
| Day14.SimulateRobotsPeriod | src/day_14.rs:97-102 | robots inside the bounds are unchanged after zero seconds and after rows times columns seconds |
| Day14.PartitionPosition | src/day_14.rs:104-119 | a position has no quadrant exactly when it is on the middle row or the middle column |
| Day14.PartitionByHalves | src/day_14.rs:104-119 | the quadrant is the row's half (top or bottom of the middle row) combined with the column's half (left or right of the middle column) |
| Day14.Quadrants | src/day_14.rs:132-134 | the quadrants of the robots that stand in one, in robot order, never more than there are robots |
| Day14.Tally | src/day_14.rs:134 | the counts map has exactly the quadrants that occur as keys, each with its number of occurrences, which is positive |
| Day14.ProductRemove | src/day_14.rs:135-136 | the product of the counts does not depend on the order the map yields them in: any key may be taken first |
| Day14.ProductOfQuadrants | src/day_14.rs:135-136 | the product of the counts is the product over the four quadrants, with 1 for a quadrant that has no entry |
| Day14.TotalSafetyFactor | src/day_14.rs:130-137 | the product of the per-quadrant robot counts, over the quadrants that hold a robot |
| Day14.SafetyFactorByQuadrant | src/day_14.rs:130-137 | the safety factor is the product of the four quadrants' robot counts with empty quadrants omitted rather than counted as zero, and so at least 1 |
| Day14.TotalSafetyFactorAfterSteps | src/day_14.rs:121-128 | the safety factor of the robots after the given number of seconds |
| Day14.Frames | src/day_14.rs:145-152 | the frames from second k start with the current configuration |
| Day14.NextFrame | src/day_14.rs:146 | one more second turns frame k into frame k + 1, and rows times columns seconds bring back the first frame |
| Day14.FramesAreSeconds | src/day_14.rs:145-152 | frame i is the robots after k + i seconds, no frame after the first equals the start, and one second after the last frame the start returns |
| Day14.IteratePositions | src/day_14.rs:139-153 | the frames start with the robots, frame i is the robots after i seconds, no later frame repeats the start, and the number of frames is a period of the motion |
| Day14.FramesCycle | src/day_14.rs:139-153 | every configuration repeats one cycle of frames later, so the frames are all the configurations the robots reach |
| Day14.CycleReduce | src/day_14.rs:139-153 | any number of whole cycles later the robots are where they were |
| Day14.FirstMinimum | src/day_14.rs:156-159 | `min_by_key`: the index holds a smallest key, and every earlier key is strictly larger |
| Day14.SafetyFactors | src/day_14.rs:158 | one safety factor per frame, in frame order |
| Day14.GuessTreeFrame | src/day_14.rs:155-162 | the guess is a frame of the cycle with the lowest safety factor, and no earlier frame reaches that factor |
| Day14.GuessIsLowest | src/day_14.rs:155-162 | the guessed second has the lowest safety factor over all seconds, not only over one cycle, and every earlier second has a higher factor |
| Day14.ParsePartReads | src/day_14.rs:60-69 | "name=x,y" is read as the pair (y, x) |
| Day14.ParseRobotSwaps | src/day_14.rs:59-74 | the line "p=x,y v=dx,dy" gives the robot at row y and column x with velocity (dy, dx) |
| Day14.ParseRobot | src/day_14.rs:59-74 | a line splits at its first space into "p=…" and "v=…" parts, each read as a pair; missing when either part does not parse |
| Day14.ParseLines | src/day_14.rs:93-95 | the robots are parsed one per line, in order, and parsing fails exactly when some line does not parse |
| Day14.ParseInput | src/day_14.rs:93-95 | one robot per input line; the result is missing exactly when some line does not parse |
| Day14Examples.SimulateOneRobot | src/day_14.rs:238-247 | the robot at (4, 2) moving (-3, 2) in a 7 by 11 room is at (4, 2), (1, 4), (5, 6), (2, 8), (6, 10) and (3, 1) after 0 to 5 seconds |
| Day14Examples.SimulateExample | src/day_14.rs:249-269 | after 100 seconds the twelve example robots stand at the listed positions, including two at (0, 6) and two at (5, 4) |
| Day14Examples.PartitionExample | src/day_14.rs:271-293 | the positions after 100 seconds fall in the listed quadrants, with none for those on the middle row or column |
| Day14Examples.MovedQuadrants | src/day_14.rs:271-293 | the robots after 100 seconds yield nine quadrants, three robots being on a middle line |
| Day14Examples.SafetyFactorExample | src/day_14.rs:295-301 | the safety factor of the example after 100 seconds is 12 |
| Day15.ParseMove | src/day_15.rs:27-39 | a character that parses as a move is exactly the arrow that move is written as; every other character is rejected |
| Day15.ParseMoveChar | src/day_15.rs:27-39 | each of the four moves parses back from its arrow character |
| Day15.ApplyTo | src/day_15.rs:41-58 | stepping succeeds exactly when both new coordinates are non-negative and below the bounds, and then lands on the position plus the move's delta |
| Day15.StepNearsEdge | src/day_15.rs:51-58 | every successful step brings the position one cell closer to the edge it heads for, which is why pushing a run of boxes ends |
| Day15.StepsNearEdge | src/day_15.rs:126-139 | k successful steps bring the position k cells closer to the edge, so they never return to the start |
| Day15.Steps | src/day_15.rs:126-139 | the position k steps along a move, missing once a step leaves the grid |
| Day15.BoxRun | src/day_15.rs:126-139 | the k - 1 cells beyond pos along the move are all boxes and none is a wall |
| Day15.BoxRunTail | src/day_15.rs:126-139 | a run of k boxes starting at pos continues as a run of k - 1 boxes from the next cell |
| Day15.Pushed | src/day_15.rs:126-139 | the boxes after pushing the box at pos: missing at the edge or a wall, the box moved when the next cell is free, the next box pushed first otherwise |
| Day15.PushShiftsRun | src/day_15.rs:126-139 | pushing a run of boxes whose far end opens onto a free cell moves the first box of the run into that free cell, which leaves the same cells occupied as shifting the whole run |
| Day15.PushBlocked | src/day_15.rs:126-139 | pushing a run of boxes whose far end meets a wall or the edge fails |
| Day15.PushedShape | src/day_15.rs:126-139 | every successful push empties the pushed cell and fills one free cell some steps further on |
| Day15.PushKeepsCount | src/day_15.rs:126-139 | a successful push keeps the number of boxes |
| Day15.MoveRobot | src/day_15.rs:141-156 | moving the robot keeps the walls and the bounds, and the robot either stays or takes one step in the direction of the move |
| Day15.MoveIntoEmpty | src/day_15.rs:141-156 | a step onto a cell holding neither wall nor box moves only the robot |
| Day15.MoveIntoWall | src/day_15.rs:141-156 | a step off the grid or into a wall changes nothing |
| Day15.MoveIntoBoxes | src/day_15.rs:141-156 | a step into a run of boxes shifts the run and moves the robot when the cell beyond the run is free, and changes nothing when it is a wall or off the grid |
| Day15.MoveKeepsValid | src/day_15.rs:141-156 | a move keeps walls and boxes apart, keeps the robot off both and keeps the number of boxes |
| Day15.PushKeepsValid | src/day_15.rs:148-152 | after a successful push the robot may stand on the cell it pushed from and the warehouse stays well formed |
| Day15.Grid.constructor | src/day_15.rs:63-69 | a grid built from a warehouse holds exactly its walls, boxes, robot and bounds |
| Day15.Grid.MoveBox | src/day_15.rs:126-139 | the recursive in-place push reports success exactly when the pure push succeeds, leaves the boxes as the pure push computes them (or untouched on failure) and changes nothing else |
| Day15.Grid.MoveRobotCopy | src/day_15.rs:141-156 | the move works on a fresh copy of the grid, whose contents afterwards are what the pure move computes |
| Day15.ReadCell | src/day_15.rs:83-92 | reading one more character adds it to the walls on '#', to the boxes on 'O', moves the robot there on '@', and ignores anything else |
| Day15.ReadRow | src/day_15.rs:82-94 | reading one line adds every wall, box and robot of that line and grows the largest column index to cover it |
| Day15.FromStr | src/day_15.rs:74-104 | parsing a picture gives the walls at every '#', the boxes at every 'O', the robot at the last '@' (or (0, 0) when there is none), and bounds one past the largest row and column index |
| Day15.ParsesUnique | src/day_15.rs:74-104 | a picture describes exactly one warehouse |
| Day15.ParsedIsValid | src/day_15.rs:74-104 | a parsed picture with a robot is well formed: walls and boxes are disjoint and the robot stands on neither |
| Day15.ParseMoves | src/day_15.rs:164 | the list of moves is never longer than the text it comes from |
| Day15.ParseMovesAppend | src/day_15.rs:164 | parsing concatenated text gives the concatenation of the parsed parts |
| Day15.ParseShowMoves | src/day_15.rs:164 | writing moves as arrows and parsing them back gives the same moves |
| Day15.ParseMovesSkips | src/day_15.rs:164 | a character that is not an arrow, such as a line break, is dropped from the moves |
| Day15.ParseInput | src/day_15.rs:159-166 | the input splits at the first blank line into a picture, parsed as a grid, and arrows, parsed as moves; without a blank line there is no result |
| Day15Examples.MoveUpIntoEmpty | src/day_15.rs:222-229 | in the small example, moving up takes the robot to (1, 2) and leaves walls and boxes alone |
| Day15Examples.MoveRightIntoEmpty | src/day_15.rs:231-235 | in the small example, moving right takes the robot to (2, 3) |
| Day15Examples.MoveDownIntoEmpty | src/day_15.rs:237-241 | in the small example, moving down takes the robot to (3, 2) |
| Day15Examples.MoveLeftIntoEmpty | src/day_15.rs:243-247 | after moving up, moving left takes the robot to (1, 1) |
| Day15Examples.BlockedByWall | src/day_15.rs:250-256 | in the small example, moving left into the wall changes nothing |
| Day15Examples.PushOneBox | src/day_15.rs:258-270 | moving right from (1, 2) pushes the box at (1, 3) to (1, 4) |
| Day15Examples.PushTwoBoxes | src/day_15.rs:272-279 | moving right again pushes the run of two boxes, so (1, 3) empties and (1, 6) fills |
| Day15Examples.PushAgainstWall | src/day_15.rs:281-283 | with the run against the wall, moving right changes nothing |
| Day15Examples.ParseExampleMoves | src/day_15.rs:207-219 | the example's fifteen arrows parse to the listed moves |
| Day16.ManhattanDistance | src/day_16.rs:36-43 | the distance is zero exactly when the two tiles are the same |
| Day16.ManhattanSymmetric | src/day_16.rs:36-43 | the distance from a to b is the distance from b to a |
| Day16.ManhattanTriangle | src/day_16.rs:36-43 | going through a third tile is never shorter |
| Day16.RotationsInverse | src/day_16.rs:127-144 | turning clockwise and then counterclockwise, or the other way round, gives back the facing |
| Day16.FourClockwiseTurns | src/day_16.rs:128-135 | four clockwise quarter turns give back the facing |
| Day16.RotationsArePerpendicular | src/day_16.rs:127-144 | each rotation switches between vertical and horizontal, and the two rotations give different facings |
| Day16.Forwards | src/day_16.rs:146-160 | the step forward lands on the tile directly ahead, inside the bounds and not a hedge; it is None exactly when the tile ahead is off the grid or a hedge |
| Day16.AheadIsAdjacent | src/day_16.rs:146-160 | the tile ahead is at distance one |
| Day16.StartingPosition | src/day_16.rs:108-116 | the search starts facing East with score 0, and the starting position is consistent: visited is the start alone and the distance is the distance to the end |
| Day16.Next | src/day_16.rs:173-198 | there are two or three successors, three exactly when the tile ahead is open, and each scores more than the position by at most 1000 |
| Day16.NextMembers | src/day_16.rs:173-198 | the successors are exactly the quarter turns in place, scoring 1000 more with tile, distance and visited tiles unchanged, and the step onto the open tile ahead, scoring 1 more with the new distance and the tile added to the visited ones |
| Day16.NextConsistent | src/day_16.rs:173-198 | successors stay consistent: visited runs from the start over open tiles one step at a time to the current tile, and the score is one per step plus a multiple of 1000 |
| Day16.RouteConsistent | src/day_16.rs:173-198 | every position reached from the starting position by successors is consistent |
| Day16.RouteVisited | src/day_16.rs:186-192 | the visited tiles of a position are exactly the tiles its route stood on |
| Day16.Compare | src/day_16.rs:217-230 | one position is ordered above another exactly when it scores less, or scores the same and is nearer the end; they are equal exactly when score and distance agree |
| Day16.CompareAntisymmetric | src/day_16.rs:217-224 | a is above b exactly when b is below a |
| Day16.PopsBeforeTransitive | src/day_16.rs:217-224 | the queue order is transitive |
| Day16.Greatest | src/day_16.rs:59 | the position taken off the queue has no queued position ordered above it |
| Day16.LowestScoringRoute | src/day_16.rs:54-72 | positions leave the queue in ascending score; the answer is the score of the first position popped on the end tile, and a route from the start reaches the end with that score; with no answer no popped position was on the end tile; the loop ends because each pass either marks a new (tile, facing) pair or shrinks the queue |
| Day16.CountVisitedByBestRoutes | src/day_16.rs:73-106 | positions leave the queue in ascending score; the lowest score is at most `u32::MAX` and no popped position on the end tile scores less; every recorded route runs from the start to the end with that score; the count is the number of distinct tiles those routes stand on; the loop ends because the queue's weight falls at each pass |
| Day16.TilesOfBest | src/day_16.rs:105 | counting the distinct tiles of the recorded visited lists counts the tiles the best routes stand on |
| Day16.ParseInput | src/day_16.rs:232-260 | parsing a picture gives the hedges at every '#', the start at the last 'S' and the end at the last 'E' (each (0, 0) when missing), and bounds one past the largest row and column index |
| Day16.ReadCell | src/day_16.rs:241-248 | reading one more character adds a hedge on '#', moves the start on 'S', moves the end on 'E' and ignores anything else |
| Day16.ReadRow | src/day_16.rs:240-250 | reading one line adds its hedges, start and end and grows the largest column index to cover it |
| Day16.ParsesUnique | src/day_16.rs:232-260 | a picture describes exactly one maze |
| Day16Examples.DistanceExamples | src/day_16.rs:340-345 | the distances 0, 24 and 23 of the example tiles |
| Day16Examples.StartExample | src/day_16.rs:108-116 | the example starts on (13, 1) facing East with score 0, 24 tiles from the end |
| Day16Examples.NextFromStart | src/day_16.rs:347-357 | from the start the successors are the turns South and North at 1000 and the step East to (13, 2) at 1, 23 tiles from the end |
| Day16Examples.NextAgainstHedge | src/day_16.rs:359-383 | facing North on (9, 1) below a hedge, the successors are only the turns East and West at 1004 |
| Bits.XorBits | src/day_17.rs:77-80 | the lowest bit of `^` is set exactly when the lowest bits differ, and the higher bits are the exclusive or of the higher bits |
| Bits.XorCommutes | src/day_17.rs:102-105 | exclusive or does not depend on the order of its operands |
| Bits.XorSelfInverse | src/day_17.rs:77-80 | applying `^ y` twice gives back the value |
| Bits.XorZero | src/day_17.rs:102-105 | a value exclusive-or itself is zero |
| Bits.XorBelow | src/day_17.rs:77-80 | the exclusive or of two k-bit numbers is a k-bit number, so `bxl` and `bxc` keep a register within its width |
| Bits.Pow2SixtyFour | src/day_17.rs:29-31 | 2^64 is the number of `usize` values |
| Day17.Fetch | src/day_17.rs:44-49 | there is an instruction exactly when the pointer and the position after it are inside the program, and it is the opcode and operand found there |
| Day17.Combo | src/day_17.rs:56-64 | operands 0 to 3 are literal, 4 to 6 read registers A to C, and 7 or more have no value (the source panics) |
| Day17.Quotient | src/day_17.rs:70-73 | the division instructions have a result exactly when the combo operand is valid and its low 32 bits are below 64 (otherwise `2usize.pow` overflows) |
| Day17.ShiftRight | src/day_17.rs:70-73 | halving never makes A larger, and a shift by at least one bit that leaves something makes it strictly smaller |
| Day17.ShiftRightDivides | src/day_17.rs:70-73 | halving e times is `a / 2.pow(e)` |
| Day17.Exponent | src/day_17.rs:70-73 | `as u32` gives a value below 2^32 and leaves smaller values alone |
| Day17.Step | src/day_17.rs:128-146 | a step halts exactly when no whole instruction is left, faults exactly when the instruction would panic, keeps the program, and outputs only three-bit values |
| Day17.StepValid | src/day_17.rs:27-34 | every instruction keeps the registers within `usize` |
| Day17.Execute | src/day_17.rs:128-146 | a run keeps the program, outputs only values below 8, halts only with no instruction left and faults only on an instruction that panics |
| Day17.ExecuteStep | src/day_17.rs:128-146 | a run outputs what its first instruction outputs followed by what the rest of the run outputs |
| Day17.ExecuteEnds | src/day_17.rs:128-146 | a run that cannot take a step ends where it started with no output |
| Day17.ExecuteMoreFuel | src/day_17.rs:128-146 | a run that ended within its bound ends the same way with a larger bound |
| Day17.ExecuteValid | src/day_17.rs:27-34 | a run from registers within `usize` ends with registers within `usize` |
| Day17.Computer.constructor | src/day_17.rs:27-34 | the new computer holds the given registers, program and pointer |
| Day17.Computer.WithRegisterA | src/day_17.rs:37-42 | a fresh copy of the computer that differs only in register A |
| Day17.Computer.Adv | src/day_17.rs:70-73 | A becomes A shifted right by the combo operand and the pointer moves on by two; nothing else changes |
| Day17.Computer.Bxl | src/day_17.rs:77-80 | B becomes B exclusive-or the literal operand and the pointer moves on by two |
| Day17.Computer.Bst | src/day_17.rs:84-87 | B becomes the combo operand mod 8 and the pointer moves on by two |
| Day17.Computer.Jnz | src/day_17.rs:92-98 | with A nonzero the pointer jumps to the literal operand; with A zero it moves on by two |
| Day17.Computer.Bxc | src/day_17.rs:102-105 | B becomes B exclusive-or C and the pointer moves on by two |
| Day17.Computer.Out | src/day_17.rs:109-112 | the output is the combo operand mod 8, below 8, and the pointer moves on by two |
| Day17.Computer.Bdv | src/day_17.rs:116-119 | B becomes A shifted right by the combo operand; A is unchanged |
| Day17.Computer.Cdv | src/day_17.rs:123-126 | C becomes A shifted right by the combo operand; A is unchanged |
| Day17.Computer.Perform | src/day_17.rs:131-142 | dispatching on the opcode changes the computer exactly as one step of the machine does and outputs what that step outputs |
| Day17.Computer.Run | src/day_17.rs:128-146 | the loop ends in the state and with the outputs, in order, of the run of the machine it started as |
| Day17.CandidateBelow | src/day_17.rs:185-205 | a value reproducing the last k digits has at most k octal digits |
| Day17.ExtendMembers | src/day_17.rs:192-200 | one partial quine's extensions are in increasing order and are exactly the values partial * 8 + d, d < 8, whose first output is the digit |
| Day17.ExpandMembers | src/day_17.rs:190-203 | the next list of partial quines is increasing and holds exactly the matching values whose value / 8 was a partial quine |
| Day17.CandidateStep | src/day_17.rs:187-203 | reproducing k + 1 digits means the first output is the next digit from the end and A / 8 reproduces the k digits after it |
| Day17.ReverseEngineerQuine | src/day_17.rs:185-205 | Found is the least A that reproduces the whole program digit by digit; NoCandidate means there is no such A; Stuck names an A below 8^n whose run did not halt |
| Day17.StuckBelow | src/day_17.rs:192-195 | every value tried at stage k is below 8^n |
| Day17.ParseRegister | src/day_17.rs:149-152 | a register line reads as a number that fits in `usize` |
| Day17.ParseBytes | src/day_17.rs:154-161 | the pieces parse as bytes one to one and in order |
| Day17.ParseProgram | src/day_17.rs:154-161 | a program line reads as a nonempty list of bytes |
| Day17.ParseInput | src/day_17.rs:163-174 | a parsed input has registers within `usize`, bytes for the program and the pointer at 0 |
| Day17.ParseShowInput | src/day_17.rs:163-174 | writing out a machine with a program of digits and parsing the text gives the machine back |
| Day17Examples.BstSample | src/day_17.rs:236-245 | with C = 9 the program 2,6 halts without output and with B = 1 |
| Day17Examples.OutSample | src/day_17.rs:248-256 | with A = 10 the program 5,0,5,1,5,4 outputs 0,1,2 |
| Day17Examples.BxcSample | src/day_17.rs:272-281 | with B = 2024 and C = 43690 the program 4,0 leaves 44354 in B |
| Day17Examples.ShiftLoop | src/day_17.rs:128-146 | the program 0,k,5,4,3,0 prints A shifted right by k, mod 8, round after round, and halts with A at zero |
| Day17Examples.HalvingSample | src/day_17.rs:260-269 | with A = 2024 the program 0,1,5,4,3,0 outputs 4,2,5,6,7,7,7,7,3,1,0 and leaves A at 0 |
| Day17Examples.ExampleRun | src/day_17.rs:283-284 | the example computer outputs 4,6,3,5,6,3,5,2,1,0 |
| Day17Examples.ExampleParse | src/day_17.rs:222-231 | the example input parses as the example computer |
| Day17Examples.QuineCandidates | src/day_17.rs:288-298 | for the quine sample the values reproducing all six digits are 117440 to 117447 |
| Day17Examples.QuineOfSample | src/day_17.rs:288-298 | `reverse_engineer_quine` on the quine sample gives 117440 |
| Day18.Manhattan | src/day_18.rs:36-41 | the distance between two cells is zero exactly when they are the same cell |
| Day18.ManhattanSymmetric | src/day_18.rs:36-41 | the distance from a to b is the distance from b to a |
| Day18.ManhattanTriangle | src/day_18.rs:36-41 | going through a third cell is never shorter, so the estimate never drops by more than the step taken |
| Day18.ManhattanAsWritten | src/day_18.rs:36-41 | the `u8` sum of the two differences, when it does not overflow, is the distance |
| Day18.ManhattanAsWrittenAgrees | src/day_18.rs:36-41 | on a grid smaller than 128 by 128 the `u8` sum never overflows and equals the distance |
| Day18.ManhattanOverflows | src/day_18.rs:36-41 | for a memory space of size 128 the estimate of the start (distance 256) overflows the `u8` sum |
| Day18.CheckedAddSigned | src/day_18.rs:47-48 | a signed step of a `u8` succeeds exactly when the result stays within 0..=255, and is then the sum |
| Day18.Step | src/day_18.rs:43-51 | within a goal that fits `u8`, a step succeeds exactly when both coordinates stay between 0 and the bounds, and gives the moved cell |
| Day18.AdjacentDelta | src/day_18.rs:124 | the cells one step apart are exactly the cells one of the four deltas away |
| Day18.StartingPosition | src/day_18.rs:90-93 | the starting position is a route of no steps on the start cell, whatever bytes have fallen |
| Day18.NextMembers | src/day_18.rs:123-138 | a position is a successor exactly when it moves one step to a neighbouring cell of the area, with one more step travelled, the distance to the goal as estimate and the cell appended to the visited cells |
| Day18.NextCovers | src/day_18.rs:123-138 | every neighbouring cell of the area has a successor on it |
| Day18.NextRoute | src/day_18.rs:123-138 | a successor onto a cell that is not corrupted extends a route to a route |
| Day18.NextCostsMore | src/day_18.rs:123-138 | a successor never costs less than its position, so queued costs never fall along a route |
| Day18.Compare | src/day_18.rs:155-159 | the ordering is reversed on steps plus estimate: a position is greater exactly when it costs less |
| Day18.CompareAntisymmetric | src/day_18.rs:155-159 | a is greater than b exactly when b is less than a |
| Day18.Greatest | src/day_18.rs:67 | the popped position costs no more than any queued position |
| Day18.WalkLength | src/day_18.rs:90-93 | a walk takes at least as many steps as the distance from the start to its end |
| Day18.RouteLength | src/day_18.rs:90-93 | no route is shorter than the distance from the start, so the start's estimate never overstates |
| Day18.StepsToGoal | src/day_18.rs:61-88 | the search ends; a position it returns is a route to the goal that avoids the first `bytes` bytes, and it returns one exactly when such a walk exists |
| Day18.PushNext | src/day_18.rs:72-84 | queuing the successors keeps the queued positions routes, records every open neighbour of the popped cell, and shrinks the set of step counts still open or leaves it and the queue alone |
| Day18.NoRouteLeft | src/day_18.rs:67-87 | with the queue empty the goal cannot be reached, so None is the right answer |
| Day18.ClosedHoldsReachable | src/day_18.rs:61-88 | a set of cells holding the start and closed under open steps holds every reachable cell |
| Day18.ClosedCutsOff | src/day_18.rs:61-88 | a cell outside such a closed set cannot be reached |
| Day18.RecordShrinks | src/day_18.rs:77-83 | recording fewer steps for a cell than before removes a pair from the finite set of step counts still open |
| Day18.BlockedStep | src/day_18.rs:64 | one more fallen byte blocks exactly one more cell |
| Day18.BlockedPrefix | src/day_18.rs:64 | the cells blocked by the first n bytes are those of the first n bytes |
| Day18.ReachableFewer | src/day_18.rs:95-111 | a cell reachable after m bytes have fallen is reachable after fewer |
| Day18.CutOffUnique | src/day_18.rs:95-111 | past the byte that cuts a cell off no count of bytes reaches it, and before it every count does |
| Day18.FirstOnRoute | src/day_18.rs:98-104 | the search finds the least index from `bytes` on whose byte lies on the route, or reports that none does |
| Day18.RouteAvoiding | src/day_18.rs:98-104 | a route that avoids the bytes up to the found index stays a walk with those bytes fallen |
| Day18.RouteAvoids | src/day_18.rs:106-107 | a route with a byte fallen does not hold its cell unless the cell is the start |
| Day18.RouteBlockedAt | src/day_18.rs:95-111 | given a route to the goal, the answer is the byte whose fall first cuts the goal off: the goal is reachable with the bytes before it and not with it; a panic when no byte lies on the route means the goal stays reachable, and recursion for ever happens only when a byte lands on the start |
| Day18.ParseInput | src/day_18.rs:173-183 | the goal is (size, size) and fits `u8` |
| Day18.ParseShownCoordinate | src/day_18.rs:167-171 | the text "x,y" parses as the pair (x, y) |
| Day18.ParseShownLines | src/day_18.rs:174-177 | the lines of a list of bytes parse back as that list, each pair swapped into (row, column) |
| Day18.ParseShownInput | src/day_18.rs:173-183 | writing the bytes out one per line and parsing them gives back the memory space |
| Day18Examples.NextFromStart | src/day_18.rs:261-268 | from the start the successors are the cells to the right and below, with estimate 11 |
| Day18Examples.NextInside | src/day_18.rs:270-279 | from (1, 1) all four neighbours are successors, with estimates 11, 9, 9 and 11 |
| Day18Examples.NextFromGoal | src/day_18.rs:281-288 | from the goal the successors are the cells above and to the left, with estimate 1 |
| Day18Examples.ExampleReachability | src/day_18.rs:291-298 | the goal can be reached with 12 and with 20 bytes fallen and not with 21 |
| Day18Examples.ExampleSteps | src/day_18.rs:293-295 | with 12 bytes fallen the search finds a route, at least 12 steps long |
| Day18Examples.ExampleBlocker | src/day_18.rs:293-297 | the blocker found from the route for 12 bytes and index 0 is (1, 6), the 21st byte |
| Day18Examples.ExampleParse | src/day_18.rs:225-256 | the example input parsed with size 6 is the example memory space |
| Day19.ParseColour | src/day_19.rs:39-50 | a character is a colour exactly when it is one of w, u, b, r, g; any other is the `unreachable!()` case, None here |
| Day19.ParseShowColour | src/day_19.rs:39-50 | each colour reads back from its letter, and a letter read as a colour is that colour's letter |
| Day19.ParseColours | src/day_19.rs:130 | a text reads as colours exactly when every character is a colour letter, one colour per character, in order |
| Day19.Child | src/day_19.rs:109-117 | `get_node` returns the child stored for the colour, which is smaller than the node |
| Day19.WithChild | src/day_19.rs:80-104 | replacing the child for one colour keeps the marks and every other child |
| Day19.Accepts | src/day_19.rs:78-107 | following a pattern's colours from a node ends on a node marked as a match |
| Day19.Insert | src/day_19.rs:78-107 | inserting keeps the root mark, and a non-empty pattern leaves the node's own match mark alone |
| Day19.InsertAccepts | src/day_19.rs:78-107 | after inserting p the trie holds exactly what it held before and p |
| Day19.InsertReusesChildren | src/day_19.rs:80-104 | `get_or_insert_with` reuses the existing child for the first colour and leaves the other children alone |
| Day19.InsertNoRootBelow | src/day_19.rs:66-76 | the nodes insert creates are never marked as the root |
| Day19.InsertAllAccepts | src/day_19.rs:124-133 | the trie built from the root holds exactly the inserted patterns, and only its top node is marked as the root |
| Day19.ParsePieces | src/day_19.rs:128-130 | the pattern list parses exactly when every piece is made of colour letters, one pattern per piece |
| Day19.ParsePatterns | src/day_19.rs:124-133 | the parsed trie is marked as the root, no node below it is, and it holds exactly the ", "-separated patterns; None when a letter is not a colour |
| Day19.PatternTreeHolds | src/day_19.rs:124-133 | the patterns inserted from the root are exactly what the trie holds |
| Day19.MatchesImpl | src/day_19.rs:148-166 | finish the current pattern and restart at the root, or follow the next colour; at the end of the design only the root succeeds |
| Day19.MatchesImplComposable | src/day_19.rs:148-166 | from the root the rest of the design matches exactly when it is a concatenation of patterns; from inside a pattern, exactly when some stretch finishes it and the rest is a concatenation |
| Day19.Matches | src/day_19.rs:168-172 | `matches` holds exactly when the design is a concatenation of the trie's patterns |
| Day19.CountMatches | src/day_19.rs:174-179 | the count of makeable designs is at most the number of designs, and zero exactly when none can be made |
| Day19.Count | src/day_19.rs:213-218 | the number of ways to cut a design into patterns: one for the empty design, otherwise summed over the first piece |
| Day19.CountPositive | src/day_19.rs:213-218 | a design can be made exactly when it can be made in at least one way, so `combinations` is positive exactly when `matches` holds |
| Day19.Ways | src/day_19.rs:181-211 | `combinations_impl` without its cache: the ways that finish the pattern here and restart at the root plus the ways that follow the next colour |
| Day19.WaysCount | src/day_19.rs:181-211 | the recursion counts the cuts: from the root, every cut of the rest of the design; from inside a pattern, every cut that finishes it |
| Day19.CombinationsImpl | src/day_19.rs:181-211 | with a cache whose entries are the counts from the root at their positions, the result is the uncached count and the cache stays correct and only grows |
| Day19.Combinations | src/day_19.rs:213-218 | `combinations` is the number of ways to cut the design into patterns, positive exactly when the design matches |
| Day19.SumCombinations | src/day_19.rs:220-225 | the loop adds up the counts of all the designs |
| Day19.MatchesBelowTotal | src/day_19.rs:174-225 | the number of makeable designs never exceeds the summed number of ways |
| Day19.ParseDesigns | src/day_19.rs:135-140 | the text reads exactly when every line is colour letters, and then gives one design per line, the i-th being the i-th line's colours |
| Day19.ParseInput | src/day_19.rs:142-146 | None exactly when there is no blank line or a letter of either half is not a colour (where the source panics); otherwise a root trie holding exactly the listed patterns, and the designs below the blank line |
| Day19Examples.ExampleTreeHolds | src/day_19.rs:231-275 | the test's hand-built tree holds exactly the eight patterns of "r, wr, b, g, bwu, rb, gb, br" |
| Day19Examples.DesignBrwrr | src/day_19.rs:311-378 | brwrr can be made, in 2 ways |
| Day19Examples.DesignBggr | src/day_19.rs:311-378 | bggr can be made, in 1 way |
| Day19Examples.DesignGbbr | src/day_19.rs:311-378 | gbbr can be made, in 4 ways |
| Day19Examples.DesignRrbgbr | src/day_19.rs:311-378 | rrbgbr can be made, in 6 ways |
| Day19Examples.DesignUbwu | src/day_19.rs:311-378 | ubwu cannot be made, and has 0 ways |
| Day19Examples.DesignBwurrg | src/day_19.rs:311-378 | bwurrg can be made, in 1 way |
| Day19Examples.DesignBrgr | src/day_19.rs:311-378 | brgr can be made, in 2 ways |
| Day19Examples.DesignBbrgwb | src/day_19.rs:311-378 | bbrgwb cannot be made, and has 0 ways |
| Day19Examples.CountMatchesExample | src/day_19.rs:342-348 | six of the eight example designs can be made |
| Day19Examples.SumCombinationsExample | src/day_19.rs:380-386 | the example designs can be made in 16 ways in all |
| Day20.Apply | src/day_20.rs:36-44 | a signed step gives a cell exactly when neither coordinate would go below zero, and then moves each coordinate by its delta |
| Day20.Manhattan | src/day_20.rs:47-52 | the distance between two cells is zero exactly when they are the same cell |
| Day20.ManhattanSymmetric | src/day_20.rs:47-52 | the distance is the same in both directions |
| Day20.ManhattanTriangle | src/day_20.rs:47-52 | the distance obeys the triangle inequality |
| Day20.DeltaAdjacent | src/day_20.rs:74 | each of the four steps the walk tries lands on a cell at distance 1 |
| Day20.AdjacentIsDelta | src/day_20.rs:74 | every cell at distance 1 is reached by one of the four steps |
| Day20.FirstMoveFrom | src/day_20.rs:74-84 | the first step, from the k-th on, that lands on the course and not on the cell just left; None only when none of those steps can be taken |
| Day20.NextMove | src/day_20.rs:74-84 | the step the inner loop takes from a cell, given the cell just left; NextMoveExists states it moves exactly when some course neighbour other than that cell exists |
| Day20.NextMoveExists | src/day_20.rs:74-84 | the walk moves exactly when some neighbour on the course is not the cell it has just left |
| Day20.FirstFinish | src/day_20.rs:68-71 | a walk that ever stands on the end has a first pass that does |
| Day20.FinishesAtUnique | src/day_20.rs:68-71 | that first pass is unique |
| Day20.StuckStays | src/day_20.rs:74-84 | once no step can be taken, the walk stays where it is for every later pass |
| Day20.State | src/day_20.rs:63-88 | the walk's position and previous cell after i passes of the outer loop; WalkSteps states every pass before the end moves to an adjacent course cell, StuckStays that a stuck walk stays put |
| Day20.WalkSteps | src/day_20.rs:63-88 | before it reaches the end, every pass moves to an adjacent course cell other than the one just left, and remembers where it came from |
| Day20.Step | src/day_20.rs:74-84 | the inner loop tries up, right, down, left in order and takes the first step that can be taken, updating position and prev; with none it changes nothing |
| Day20.GetTrackPositions | src/day_20.rs:63-88 | the list holds the walk's cells numbered from 0, up to and including the first pass on the end, which no earlier pass reaches |
| Day20.Saving | src/day_20.rs:96-104 | a pair of track cells gives a cheat exactly when the cells are at most max_cheat apart and closer than their distance along the track; the saving is positive and is the track distance less the jump |
| Day20.CoversAll | src/day_20.rs:94-105 | once every first index is done, every pair of the track is covered |
| Day20.CoversRow | src/day_20.rs:94-105 | finishing the second indices for one first index covers every pair that starts there |
| Day20.CoversStart | src/day_20.rs:94-105 | a first index starts with no pair of its own visited |
| Day20.AddCheatKeeps | src/day_20.rs:94-105 | adding one pair's cheat keeps every entry explained by a pair and covers that pair |
| Day20.CollectRowKeeps | src/day_20.rs:94-105 | the pairs with one first index keep every entry explained and cover that index |
| Day20.CollectFromKeeps | src/day_20.rs:94-105 | all pairs from a first index on keep every entry explained and end up covering every pair |
| Day20.CheatsOf | src/day_20.rs:93-106 | the map collected from every pair i < j of the path in `tuple_combinations` order, later pairs replacing earlier ones; CheatsOfSpec states which keys it holds and that each value is a saving of a pair with those cells |
| Day20.CheatsOfSpec | src/day_20.rs:90-107 | the collected map has an entry for a pair of cells exactly when some pair of track positions i < j with those cells gives a cheat, and its value is that pair's saving |
| Day20.CheatsGrow | src/day_20.rs:90-107 | every cheat allowed at a shorter max_cheat is still there at a longer one |
| Day20.Cheats | src/day_20.rs:90-107 | `cheats` collects the cheats of the walk from the start up to its first pass on the end |
| Day20.Above | src/day_20.rs:110-114 | the cheats whose saving reaches the threshold; AboveShrinks states that a higher threshold keeps no more of them |
| Day20.AboveShrinks | src/day_20.rs:109-115 | raising the threshold never counts more cheats |
| Day20.AboveOne | src/day_20.rs:109-115 | with threshold 1 every collected cheat counts, since every saving is positive |
| Day20.CountCheatsFrom | src/day_20.rs:109-115 | the count is the number of cheats of the walk whose saving reaches the threshold |
| Day20.ParsesUnique | src/day_20.rs:118-143 | a picture determines the track it reads as |
| Day20.ReadCell | src/day_20.rs:124-137 | reading one character adds a '.', 'S' or 'E' cell to the course, records an 'S' as the start and an 'E' as the end, and ignores anything else |
| Day20.ReadRow | src/day_20.rs:123-138 | reading a row leaves the course, start and end read up to the end of that row |
| Day20.ReadNone | src/day_20.rs:119-121 | before reading, the course is empty and the start and end are (0, 0) |
| Day20.ReadNextRow | src/day_20.rs:122-139 | the end of one row is the start of the next |
| Day20.ReadAll | src/day_20.rs:118-143 | having read every row gives the track of the whole picture |
| Day20.ParseInput | src/day_20.rs:118-143 | the course is every '.', 'S' and 'E' cell; the start is the last 'S' and the end the last 'E' in reading order, each (0, 0) when missing |
| Day21.ApplyMove | src/day_21.rs:100-117 | one step of a direction button on u8 coordinates, missing when it would leave 0..255 |
| Day21.ApplyMoveUndo | src/day_21.rs:103-118 | a move that stays on the grid is undone by the opposite move |
| Day21.Coordinate | src/day_21.rs:231-245 | the grid position of each button of the numeric keypad (and, at lines 299-307, of the directional keypad) |
| Day21.Contains | src/day_21.rs:247-253 | a cell belongs to the numeric keypad when it is in its 4 by 3 box and not the gap at (3, 0); the directional pad likewise at lines 309-315 |
| Day21.CoordinatesAreButtons | src/day_21.rs:231-253 | every button of a keypad sits at a coordinate the keypad contains, and distinct buttons sit at distinct coordinates |
| Day21.Rep | src/day_21.rs:187-195 | repeating a move `n` times gives `n` moves |
| Day21.RepAll | src/day_21.rs:187-195 | every move of `n` repeats is the repeated move |
| Day21.Repeat | src/day_21.rs:187-195 | the moves from coordinate a to b along one axis: |b - a| copies of the positive move when a < b, of the negative move otherwise |
| Day21.SameMovesIsPermutation | src/day_21.rs:143-146 | two move lists count every direction equally exactly when they are permutations of each other |
| Day21.MovesPointAtTarget | src/day_21.rs:138-142 | the moves between two buttons are the Manhattan distance in number, all vertical ones point at the target row and all horizontal ones at the target column, and following them reaches the target |
| Day21.Arrangements | src/day_21.rs:143-146 | every listed ordering holds exactly the required number of vertical and horizontal moves |
| Day21.ArrangementsComplete | src/day_21.rs:143-146 | every ordering of those moves is listed, so the listing is the set of distinct permutations |
| Day21.Candidates | src/day_21.rs:138-146 | every ordering of the vertical and horizontal moves between two buttons |
| Day21.CandidatesArePermutations | src/day_21.rs:138-146 | a move list is a candidate for a button pair exactly when it is a permutation of the moves between them, and then has the Manhattan length |
| Day21.SafeWalkVisitsButtons | src/day_21.rs:160-175 | a move list is accepted exactly when every prefix of the walk stays on the grid and lands on a button |
| Day21.CheckMoves | src/day_21.rs:160-175 | the loop accepts a move list exactly when its walk never leaves the keypad's buttons |
| Day21.LShapedRouteIsSafe | src/day_21.rs:143-150 | between two buttons at least one of the two L-shaped routes avoids the keypad's gap |
| Day21.SafeCandidateExists | src/day_21.rs:143-150 | some candidate for every button pair passes the check, so the minimum in `expand_pair` always exists |
| Day21.Bracket | src/day_21.rs:124-131 | the bracketed code is two keys longer than the code; its content is stated by Day21.BracketParts |
| Day21.BracketParts | src/day_21.rs:124-131 | the bracketed code starts and ends with the activate button and holds the code in between |
| Day21.PairsCostIsSumOfPairs | src/day_21.rs:124-131 | the running total of `key_presses` is the sum of the costs of the consecutive pairs |
| Day21.KeyPressesSumsPairs | src/day_21.rs:124-131 | pressing a code costs the sum over the pairs of the code bracketed by the activate button, one pair more than keys; an empty code costs one activation |
| Day21.DirectPresses | src/day_21.rs:124-131 | at direct entry, pressing a code costs one press per key, the activation, and the Manhattan length of the walk |
| Day21.IterateCost | src/day_21.rs:177-185 | a move list followed by activate costs one press per button at direct entry, and otherwise its key presses one level down |
| Day21.ExpandCost | src/day_21.rs:133-158 | the cost of a button pair is the cheapest safe candidate, pressed one level down |
| Day21.MinPresses | src/day_21.rs:124-131 | the cost of a code is the sum of the costs of its consecutive pairs, starting from activate |
| Day21.DirectEntryCost | src/day_21.rs:183 | at direct entry a button pair costs its Manhattan distance plus one activation, one press for a repeated button |
| Day21.AllCostsAreDistance | src/day_21.rs:143-157 | at direct entry every candidate costs the same, the distance plus one |
| Day21.KeyPressesAtLeast | src/day_21.rs:124-131 | on a directional keypad a code of `n` keys never costs fewer than `n + 1` presses |
| Day21.DeeperChainNeverCheaper | src/day_21.rs:361-366 | adding robots to the chain never lowers the number of presses for a code |
| Day21.ParseCode | src/day_21.rs:345-355 | a line parses exactly when it holds a digit; the buttons are one per digit character and the value is the decimal number of the digits, the `A` being dropped |
| Day21.ParseCodeText | src/day_21.rs:345-355 | writing a non-empty code's digits followed by `A` parses back to that code |
| Day21.ParseCodes | src/day_21.rs:357-359 | the input parses exactly when each line does, to one code per line in order |
| Day21.ParseInput | src/day_21.rs:357-359 | the input is read one code per line |
| Day21.ComplexityMonotone | src/day_21.rs:368-375 | the sum of complexities never falls as the chain grows |
| Day21.KeyPadChain.NewHuman | src/day_21.rs:213-219 | a keypad pressed directly, with an empty cache |
| Day21.KeyPadChain.Chain | src/day_21.rs:361-366 | a chain of the given number of directional keypads, at least one, behind the numeric keypad, every cache empty |
| Day21.KeyPadChain.Recall | src/day_21.rs:268-274 | a cached count is always the minimal cost of that pair at that depth |
| Day21.KeyPadChain.RememberNumeric | src/day_21.rs:259-266 | storing a count adds exactly that entry to the numeric cache and keeps every cached count minimal |
| Day21.KeyPadChain.RememberDirectional | src/day_21.rs:321-328 | storing a count adds exactly that entry to that link's cache and keeps every cached count minimal |
| Day21.KeyPadChain.KeyPresses | src/day_21.rs:124-131 | the presses counted for a code are the minimal number over all safe move orders at every link |
| Day21.KeyPadChain.AddTransition | src/day_21.rs:127-129 | each fold step adds the next pair's minimal cost to the running total |
| Day21.KeyPadChain.ExpandPair | src/day_21.rs:133-158 | the count for a pair is minimal, is cached afterwards, and a cache hit changes nothing |
| Day21.KeyPadChain.CheapestCandidate | src/day_21.rs:143-157 | the minimum over the safe candidates, each pressed on the next link followed by activate, is the pair's minimal cost |
| Day21.KeyPadChain.Iterate | src/day_21.rs:177-185 | pressing a move list on the next link, or directly at the end of the chain, costs its minimal number of presses |
| Day21.KeyPadChain.CountKeyPresses | src/day_21.rs:368-375 | the total is the sum over the codes of minimal presses times the code's value |
| Day21Examples.Code029 | src/day_21.rs:426-435 | with two robots, code 029A costs 68 presses |
| Day21Examples.Code980 | src/day_21.rs:426-435 | with two robots, code 980A costs 60 presses |
| Day21Examples.Code179 | src/day_21.rs:426-435 | with two robots, code 179A costs 68 presses |
| Day21Examples.Code456 | src/day_21.rs:426-435 | with two robots, code 456A costs 64 presses |
| Day21Examples.Code379 | src/day_21.rs:426-435 | with two robots, code 379A costs 64 presses |
| Day21Examples.ExampleComplexity | src/day_21.rs:437-443 | the sum of complexities of the five example codes is 126384 |
| Day21Examples.DirectCode029 | src/day_21.rs:418-424 | pressed directly, code 029A costs 12 presses |
| Day22.PruneModulusIsPow2 | src/day_22.rs:39-41 | the prune modulus 16777216 is 2^24 |
| Day22.Mix | src/day_22.rs:35-37 | the bitwise exclusive or of secret and value; MixUndo states that mixing the same value twice gives the secret back |
| Day22.MixUndo | src/day_22.rs:35-37 | mixing is exclusive or: mixing the same value in twice gives the secret back |
| Day22.Prune | src/day_22.rs:39-41 | a pruned secret is below 16777216, and a secret already below it is unchanged |
| Day22.PruneIdempotent | src/day_22.rs:39-41 | pruning twice is pruning once |
| Day22.NextSecretOf | src/day_22.rs:43-56 | the next secret is always below 16777216 |
| Day22.DivideStageInRange | src/day_22.rs:49-50 | mixing a secret below 2^24 with itself divided by 32 stays below 2^24 |
| Day22.NextSecret | src/day_22.rs:43-56 | updating the local number through mix and prune three times gives the next secret, below 16777216 |
| Day22.Secret | src/day_22.rs:59-61 | every element of `pseudorandom` after the seed is below 16777216 |
| Day22.SecretShift | src/day_22.rs:59-61 | going on n steps from the m-th element is the (m + n)-th element |
| Day22.IterateAndSum | src/day_22.rs:63-68 | the sum over the seeds of the 2000th secret after each; IterateAndSumBound bounds it by the number of seeds times 16777215 |
| Day22.IterateAndSumBound | src/day_22.rs:63-68 | the sum of the 2000th secrets is at most the number of seeds times 16777215 |
| Day22.Prices | src/day_22.rs:72-74 | a buyer has 2000 prices, each the last decimal digit of the secret at that position |
| Day22.FirstSale | src/day_22.rs:72-81 | the price at which a change sequence sells among the first k windows; FirstSaleSpec states it is the last price of the first window showing the changes, and None exactly when no window does |
| Day22.Bananas | src/day_22.rs:72-81 | what one buyer pays for a change sequence: its first-sale price, or 0; PopulateSequenceScores adds exactly this to each score |
| Day22.FirstSaleSpec | src/day_22.rs:70-82 | a change sequence is sold exactly when some window shows it, and then at the last price of the first window that does |
| Day22.PopulateSequenceScores | src/day_22.rs:70-82 | each change sequence's score grows by what the buyer pays for it, once, at its first showing; the map gains an entry exactly for the sequences shown |
| Day22.MaxValue | src/day_22.rs:90 | the result is no less than any score and is one of them, or 0 for an empty map |
| Day22.TotalBananas | src/day_22.rs:84-88 | what a change sequence earns summed over all buyers; BananasFromBestDiffSequence states its answer bounds this for every sequence and is attained |
| Day22.BananasFromBestDiffSequence | src/day_22.rs:84-91 | the result is the most bananas any change sequence earns across all buyers, and 0 when nothing sells |
| Day22.ParseSeeds | src/day_22.rs:93-95 | the lines read as seeds exactly when every line is a `u64`, one seed per line in order |
| Day22.ParseInput | src/day_22.rs:93-95 | the input reads exactly when every line is a `u64`, and then gives one seed per line, the i-th being the i-th line's value |
| Day22Examples.MixExample | src/day_22.rs:112-117 | 42 mixed with 15 is 37 |
| Day22Examples.PruneExample | src/day_22.rs:119-124 | 100000000 pruned is 16113920 |
| Day22Examples.ParseExample | src/day_22.rs:101-110 | the four-line example reads as the seeds 1, 10, 100 and 2024 |
| Day22Examples.Secrets123 | src/day_22.rs:127-134 | the ten secrets after 123 are 15887950, 16495136, 527345, 704524, 1553684, 12683156, 11100544, 12249484, 7753432 and 5908254 |
| Day23.LessIrreflexive | src/day_23.rs:37 | no name sorts before itself |
| Day23.LessTransitive | src/day_23.rs:37 | the order `sorted` uses on names is transitive |
| Day23.LessTotal | src/day_23.rs:37 | any two different names are ordered one way or the other |
| Day23.LessAsymmetric | src/day_23.rs:37 | no two names each sort before the other |
| Day23.Less | src/day_23.rs:37 | Rust's order on `&str`, lexicographic with a proper prefix first; LessIrreflexive, LessTransitive, LessTotal and LessAsymmetric state it is a strict total order |
| Day23.NotAfterTransitive | src/day_23.rs:37 | "not after" is transitive, so sorted order is consistent |
| Day23.InsertName | src/day_23.rs:37 | inserting a name into a sorted list keeps it sorted and adds exactly that name |
| Day23.SortNames | src/day_23.rs:37 | sorting gives the same names, as a multiset, in non-decreasing order |
| Day23.NonDecreasingUnique | src/day_23.rs:37 | two sorted lists of the same names are equal |
| Day23.SortNamesPermutation | src/day_23.rs:37 | the sorted trio does not depend on the order the three names came in |
| Day23.TrioOfSwap | src/day_23.rs:35-39 | the pair (a, b) and the pair (b, a) record the same trio |
| Day23.TrioOf | src/day_23.rs:37 | the cluster recorded for a start and two of its neighbours, the three names sorted; TrioShape and SortNamesPermutation state it holds exactly those names, ascending, whatever their order |
| Day23.DistinctAscending | src/day_23.rs:37 | a sorted list without repeats is strictly ascending |
| Day23.DoneStep | src/day_23.rs:35-41 | taking a as first element and pairing it with every remaining neighbour completes all pairs that involve a |
| Day23.PairedStep | src/day_23.rs:35-41 | one more second element b adds the trio of a and b exactly when b is linked to a |
| Day23.TriosFrom | src/day_23.rs:34-41 | the clusters gain exactly the sorted trios of the start with two different neighbours linked to each other |
| Day23.Trios | src/day_23.rs:31-43 | a cluster is recorded exactly when some computer has two different neighbours linked to each other, and the cluster is the sorted three names |
| Day23.TriosExact | src/day_23.rs:31-43 | in a network with symmetric links and no self-links, the recorded clusters are exactly the strictly ascending triples of mutually linked computers |
| Day23.FoundIsTrio | src/day_23.rs:36-39 | a recorded trio has three different computers in ascending order, each linked to the other two |
| Day23.TrioIsFound | src/day_23.rs:36-39 | every ascending triple of mutually linked computers is recorded from its first member |
| Day23.TrioShape | src/day_23.rs:37 | three different names sort to three different names, each one of them |
| Day23.ClustersContaining | src/day_23.rs:45-51 | the result is exactly the recorded trios with a member whose name starts with the given text |
| Day23.Grow | src/day_23.rs:60-66 | growing a clique from pc over the computers in key order gives the greedy clique |
| Day23.Greedy | src/day_23.rs:60-66 | the clique after each computer of the key order, in turn, joins when it is linked to every member; GreedyGrows and GreedyMaximal state it stays a clique and is maximal |
| Day23.GreedyGrows | src/day_23.rs:60-66 | greedy growth keeps a clique a clique, keeps its members, only adds computers of the order, and leaves no computer of the order that is linked to every member |
| Day23.GreedyMaximal | src/day_23.rs:55-66 | the clique grown from a computer holds it, is pairwise linked, and no other computer of the network can join it |
| Day23.SpellsUnique | src/day_23.rs:68-74 | a clique spells exactly one password |
| Day23.SpellPassword | src/day_23.rs:70-74 | the password is the clique's names, each once, sorted and joined with commas |
| Day23.FindLanPassword | src/day_23.rs:53-75 | no password for an empty network; otherwise the password of the greedy clique that is largest, the last one when several tie |
| Day23.ListedStep | src/day_23.rs:81-84 | one more line "a-b" adds exactly the links a to b and b to a |
| Day23.DescribesStep | src/day_23.rs:81-84 | recording a line's link at both ends keeps the map equal to the links the lines so far list |
| Day23.ParseInput | src/day_23.rs:78-87 | no network when a line has no "-"; otherwise each computer's set holds exactly the computers some line links it to, every key has one, and links are symmetric |
| Day23.DescribesSymmetric | src/day_23.rs:78-87 | a network read from lines records every link from both ends |
| Day24.OpQuiet | src/day_24.rs:75-79 | AND, OR and XOR all give false on two false inputs |
| Day24.Op | src/day_24.rs:75-79 | the gate's output for its two inputs, AND, OR or XOR; OpQuiet and EvalDriven state what the rest of the model uses of it |
| Day24.NewGate | src/day_24.rs:40-49 | a new gate keeps its type and wire names and starts with both inputs false, so its output is false |
| Day24.SetKeepsShapes | src/day_24.rs:67-73 | setting a gate's input value changes no gate's type or wire names |
| Day24.MonitoringDevice.UpdateGate | src/day_24.rs:67-84 | the wiring is unchanged; the call aborts exactly when `update_gate`'s propagation reaches a wire with no list, and otherwise leaves the gates and output bits as that propagation defines them |
| Day24.MonitoringDevice.ApplyInput | src/day_24.rs:86-94 | aborts on a wire with no list; otherwise delivers the value to each entry of the wire's list in order, and the new state is the propagation function's result |
| Day24.MonitoringDevice.ApplyInputWires | src/day_24.rs:96-100 | applies each input wire's value in the given order; the new state is the fold of `apply_input` over that order, and the call aborts exactly when one application does |
| Day24.Update | src/day_24.rs:67-84 | `update_gate` on values: sets one input of the gate, computes its output and passes it to the out wire; any result keeps every gate's type and wires; UpdateSets and PropUpdate state what it sets and keeps |
| Day24.Apply | src/day_24.rs:86-94 | `apply_input` on values: None for a wire with no list, else the value delivered to each entry of its list; any result keeps every gate's type and wires; ApplySets states every reader then holds the value |
| Day24.ApplyFrom | src/day_24.rs:87-93 | the delivery loop from entry k on, stopping at the first abort; DeliverKeeps states one delivery leaves the other entries alone |
| Day24.Deliver | src/day_24.rs:88-92 | one entry of the list: a gate input goes through `update_gate`, an output bit takes the value; FrameApply states what a delivery cannot reach stays unchanged |
| Day24.ApplyAll | src/day_24.rs:96-100 | `apply_input_wires` on values, each name of the order applied in turn; Outcome states the settled values it leaves on a fresh device |
| Day24.FrameApply | src/day_24.rs:67-94 | propagating a value from a wire leaves unchanged every gate input and output bit fed by a wire it cannot reach |
| Day24.DeliverKeeps | src/day_24.rs:88-92 | delivering to one entry of a wire's list sets that place and leaves the wire's other entries as they were |
| Day24.ApplySets | src/day_24.rs:86-94 | after `apply_input`, every gate input and output bit that reads the wire holds the value |
| Day24.UpdateSets | src/day_24.rs:67-84 | `update_gate` sets exactly the chosen input, keeps the other, and leaves the gate's new output on everything that reads its out wire |
| Day24.PropApply | src/day_24.rs:67-94 | propagation from a wire keeps every gate below it passing its output on to its readers |
| Day24.PropUpdate | src/day_24.rs:67-84 | after `update_gate`, every gate below the changed input passes its output on to its readers |
| Day24.OthersKeep | src/day_24.rs:67-94 | a gate at or above the propagating wire, other than that wire's driver, keeps its inputs and its readers' values |
| Day24.FeedOne | src/day_24.rs:86-94 | applying an input wire that no gate writes keeps every gate's output passed on, and records the wire's value on its readers |
| Day24.FeedAll | src/day_24.rs:96-100 | after applying the input wires in order, every gate's output is passed on and each unwritten wire's readers hold its input value |
| Day24.EvalDriven | src/day_24.rs:76-80 | the formula value of a gate's out wire is the gate's type applied to the formula values of its two inputs |
| Day24.Eval | src/day_24.rs:67-100 | the value a wire carries once the circuit settles, as a formula over the input wires; EvalDriven, Settled and Outcome tie it to the propagation |
| Day24.Settled | src/day_24.rs:67-94 | once every gate passes its output on and every unwritten wire its input value, whatever reads a wire holds that wire's formula value |
| Day24.FreshSettles | src/day_24.rs:96-100 | from a device with all values false, applying every input wire leaves every gate's output passed on and every input delivered |
| Day24.Outcome | src/day_24.rs:96-100 | from a fresh device, after `apply_input_wires` in any order, each output bit and each gate input holds the formula value of the wire that feeds it |
| Day24.OutputValue | src/day_24.rs:102-108 | the sum of 2^i over the set output bits i is below 2^n for n bits |
| Day24.OutputValueFront | src/day_24.rs:102-108 | bit 0 counts once and the other bits count double their value one place lower |
| Day24.OutputValueBits | src/day_24.rs:102-108 | the binary digits of the output value, lowest first, are the output bits |
| Day24.OutputValueInjective | src/day_24.rs:102-108 | two different output vectors of one length give different values |
| Day24.TypeName | src/day_24.rs:114-119 | each gate type's keyword reads back as that type |
| Day24.ParseType | src/day_24.rs:114-119 | exactly "AND", "OR" and "XOR" name a gate type; any other word is the `unreachable!` abort |
| Day24.ParseGate | src/day_24.rs:111-126 | a line reads exactly when it has at least five space-separated pieces and the second names a gate type; the gate starts with both inputs false |
| Day24.ParseFormatGate | src/day_24.rs:111-126 | a gate written as "left TYPE right -> out" reads back as that gate, fresh |
| Day24.Without | src/day_24.rs:139 | `replace("z", "")` leaves no "z" and keeps exactly the other characters |
| Day24.WithoutAppend | src/day_24.rs:139 | taking out "z" works piece by piece, so the other characters keep their order |
| Day24.WithoutAbsent | src/day_24.rs:139 | text without a "z" is unchanged |
| Day24.MaxOut | src/day_24.rs:131-151 | `max_out` is at least every output bit number and equals one of them, or is 0 when there is none |
| Day24.ReadsStep | src/day_24.rs:133-141 | one more gate adds exactly its two input entries and its output bit entry to the wire lists |
| Day24.Push | src/day_24.rs:133-141 | `entry(id).or_default().push(w)` adds exactly w to id's list and changes no other list |
| Day24.RegisterListing | src/day_24.rs:130-154 | the loop body keeps each wire's list holding exactly the entries that read it |
| Day24.Register | src/day_24.rs:134-146 | one pass of the `parse_device` loop: the gate joins its two input wires' lists, and its output bit, if any, its out wire's list; RegisterListing states each list then holds exactly its readers |
| Day24.ParseDevice | src/day_24.rs:128-154 | aborts exactly when a line is no gate or a "z" wire's number does not read; otherwise gate k comes from line k, each wire lists exactly its readers, and there are max_out + 1 output bits, all false |
| Day24.DescribedCircuit | src/day_24.rs:128-154 | a parsed device lists each gate on both input wires, every list entry names a gate that reads the wire or an existing output bit, and all values start false |
| Day24.ParsedOutcome | src/day_24.rs:96-154 | a parsed acyclic device with one driver per wire, after its input wires are applied, holds on each output bit the formula value of its "z" wire |
| Day24.InputPairs | src/day_24.rs:156-164 | every line is read, in order, into a name and whether its value is not "0"; None exactly when a line has no ": " |
| Day24.InputLine | src/day_24.rs:159-162 | one line of the wire section: its name and whether its value is not "0"; None without ": "; InputPairs states the lines read in order |
| Day24.Collect | src/day_24.rs:157-163 | `collect` into a `HashMap`, later pairs replacing earlier ones; CollectNames and CollectLast state its keys are the names and each maps to its last value |
| Day24.ParseInputWires | src/day_24.rs:156-164 | the wire section reads exactly when every line has ": " |
| Day24.CollectNames | src/day_24.rs:160-163 | the map holds exactly the names on the lines |
| Day24.CollectLast | src/day_24.rs:160-163 | each name maps to the value of its last line |
| Day24.ParseInput | src/day_24.rs:166-170 | aborts exactly when there is no blank line or either half does not read; otherwise returns the parsed wire values and the parsed device |
| Picture.Width | src/day_15.rs:81-94 | the width is the length of the longest line: no line is longer and some line reaches it |
| Picture.CellsBeforeAll | src/day_15.rs:81-96 | the cells read before the end of the picture are all the cells showing that character |
| Picture.LastStep | src/day_15.rs:90 | a variable overwritten at every matching character holds the last match in reading order, or (0, 0) when nothing matched yet |
| Picture.IsLastUnique | src/day_15.rs:90 | the last match in reading order is unique |

## Left out

- Reading the puzzle input files, the `run()` entry points and the timing of each part are left out; every model starts from the input text or the parsed values.
- Integer widths (`u8`, `u32`, `usize`, `i64`) are unbounded integers except where a module says otherwise; overflow panics in debug builds are not modelled.
- Common.IsSpace: ASCII whitespace only (space, tab, line feed, vertical tab, form feed, carriage return); the non-ASCII whitespace that Rust's `trim` also drops, such as U+0085 or U+00A0, is not modelled, because the puzzle inputs are ASCII.
- Day4, Day6, Day8: grid widths and positions are counted in characters where the source's `len()` and byte offsets count bytes; the two agree on the ASCII puzzle inputs and differ on multi-byte characters, which are not modelled.
- Day1.SumDiffs: the `u32` sum is unbounded, so a total above 2^32 - 1, which the source would overflow, is not modelled.
- `extract_instructions` in src/day_3.rs (a regular-expression scan) is not modelled; the model starts from the recovered instruction list.
- Day4Examples: the count of 18 on the 10 by 10 example grid is not evaluated, because the literal grid is too large for the verifier; the count on the small example is.
- Day5.SortPages: the stable merge sort behind `sort_by` is modelled as a stable insertion sort. Where the rules order an update's pages totally there is only one valid order, and Day5.SortIsOnlyValidOrder proves that sorting lands on it whatever the sort. Where they do not, the two sorts may order the pages differently, and the model does not say how `sort_by` orders them.
- Day6Examples: the example counts 41 and 6 are not evaluated, because the walk on the 10 by 10 example is too deep for the verifier; single guard steps are.
- Day7.IsSolveable: the `BinaryHeap` is modelled as a sequence with a maximum-removing step; the order in which equal elements leave the heap is not modelled, and the answer does not depend on it.
- Day7: the `i64` calibration sum is unbounded; the parse example is not evaluated.
- Day9: block positions and file numbers are unbounded rather than `usize`, and digit sizes are not `u8`-wrapped; the checksum is unbounded.
- Day9.DiskBlocksFragmented: an empty disk map gives no blocks, where the source indexes an empty vector and panics.
- Day9Examples: the usage, the checksum 1928 and the checksum 2858 of the 19-entry example disk are not evaluated, because that literal is too large for the verifier; the pointers of the example and the two findings inputs are.
- Day10: heights are bytes, and a cell of height 255 has no higher neighbour here, where the source's `n + 1` would overflow; parsed maps only hold digits.
- Day10Examples: the trailheads of the larger map and its totals 36 and 81 are not evaluated, because they take the whole 8 by 8 map through the verifier; the trailhead (0, 2) is worked out cell by cell.
- Day10Examples: the parse of the small map's text is not evaluated; `ParseRender` covers parsing in general.
- Day11.BlinkStone: stones are unbounded, so the `u64` overflow of `stone * 2024` (a panic in a debug build) is not modelled; blink counts are unbounded where the source uses `u8`, and counts where it uses `usize`.
- Day11Examples: the count of 55312 after 25 blinks is not evaluated, because it takes rows of tens of thousands of stones through the verifier; the count of 22 after six blinks is.
- Day11Examples: the parse of `0 1 10 99 999` with its newline is not evaluated; `Day11.ParseAll` covers the pieces in general.
- Day11.ParseInput: `unwrap` on a piece that is not a `u64` panics in the source; the model returns None.
- Day12.Region.CountEdges: the source takes the plots in hash-set order; the model takes them in an arbitrary order (`:|`), and its contract holds for every order.
- Day12.Turns: the number of sides is taken to be the number of fence segments where the clockwise fence turns; that each straight side ends in exactly one such segment is not proved about a separate notion of side.
- Day12.FindRegions: the visited set is grown by one set union rather than one insertion per plot; the order of the regions found is not stated.
- Day12.WalkRegionIter: recursion depth is not modelled; `usize` perimeters, areas and costs are unbounded.
- Day12Examples: the totals 140, 772, 1930, 80, 436, 1206, 236 and 368, the 20 sides of the enclave region and the regions B, C and E of the example are not evaluated, because they need every component of a whole example garden; the single plot, the row of four and regions A and D are.
- Day12Examples: the parse of the four-line example garden is not evaluated; `Day12.ParseRoundTrip` covers parsing in general.
- Day14.Simulate: `usize` arithmetic is unbounded in the model; the overflow of `dr * steps` and `r + dr * steps` in the source for very large step counts is not modelled.
- Day14.ParseRobot: a part without `=` or `,`, or a number that does not parse, panics in the source (`unwrap`); the model returns None, as for a line without a space.
- Day14.TotalSafetyFactor: the product of the counts is taken over the map in any order (`:|`), so it is a ghost function, as is everything built on it (`GuessTreeFrame`).
- Day14Examples: the guess of 7 for the example is not evaluated, because it needs the safety factor of every frame of a cycle of up to 77 frames; `Day14.GuessIsLowest` states what the guess is in general.
- Day14Examples: the parse of the twelve example lines is not evaluated; `Day14.ParseRobotSwaps` covers the line format in general.
- `dump_robots` only prints and is not part of this model.
- Day14.Frames, Day14.IteratePositions, Day14.GuessTreeFrame: these require every robot to start inside the room; for a robot outside it the source's `iterate_positions` never sees the starting positions again and loops forever, which the model does not represent.
- Day15.ParseInput: a missing blank line panics in the source (`unwrap`); the model returns None. `Grid::from_str` never fails, as in the source.
- Day15.Grid: the hash sets of walls and boxes are sets; their iteration order plays no part in the source's behaviour.
- `Grid::render` only prints and is not part of this model; `run` only reads the input file.
- Day15Examples: the parse of the eight-line example picture is not evaluated; `Day15.FromStr` and `Day15.ParsesUnique` cover the picture format in general, and the fifteen example moves are evaluated by `Day15Examples.ParseExampleMoves`.
- Day16.LowestScoringRoute: the answer is proved to be the score of a real route and the first popped on the end tile, not the lowest of all routes; a (tile, facing) pair is marked when a position for it is queued, not when it is popped, so a later and cheaper arrival at a marked pair is dropped, and minimality would need more than the search order gives.
- Day16.CountVisitedByBestRoutes: the recorded routes are proved to be routes of the lowest score found, not to be all such routes; a stored score is compared with the popped position's score rather than the successor's, as in the source.
- Day16: scores are unbounded; the `u32` addition of 1000 or 1 is not checked for overflow. The queue is a sequence with a maximum-extraction step; `BinaryHeap`'s choice among equal positions is left open.
- Day16.LowestScoringRoute: the `unreachable!` panic when the queue runs dry is the result None.
- Day16Examples: the route scores 7036 and 11048 and the tile counts 45 and 64 are not evaluated, because they need the whole search on the 15-by-15 and 17-by-17 mazes; the parse of the example pictures is not evaluated either.
- Day17.Execute: `run` has no bound on the number of instructions; the model takes a fuel bound and reports OutOfFuel when it is used up, so a program that never halts is not modelled beyond the bound.
- Day17.Execute: an opcode above 7 or a combo operand of 7 panics in the source (`unreachable!`), as does a power of two that overflows in `2usize.pow`; the model stops the run with Faulted instead.
- Day17.Execute: the `u8` cast of a jump target and the `usize` overflow of `instruction_pointer + 2` are not modelled; pointers are unbounded.
- Day17.ReverseEngineerQuine: a candidate whose run does not halt within the fuel makes the model stop with Stuck; the source would panic or run for ever. Found is proved least among the values that reproduce the program digit by digit (as the search builds them), not among all A whose whole output is the program.
- Day17.ParseInput: each `unwrap` that panics in the source (no blank line, fewer than three register lines, a number that does not parse) gives None.
- Day17.ParseShowInput: the round trip is stated for programs of single digits (opcodes and operands 0 to 9), which is every program the puzzle uses; wider bytes are not written out.
- `brute_force_quine` is dead code in the source (it is allowed unused and only its test calls it) and is not part of this model.
- Day17Examples: the quine sample is run with a bound of 18 instructions, enough for every A below 8^6; the Rust test of `brute_force_quine` is not evaluated.
- Day18.StepsToGoal: the route returned is not proved to be a shortest one (the 22 steps of the example are not evaluated); a cell's step count is recorded when a successor is queued, and the optimality of A* with this bookkeeping is not claimed. `BinaryHeap`'s choice among equal costs is left open: the queue is a sequence with a least-cost extraction step.
- Day18: steps and estimates are unbounded; the `u32` step count cannot overflow within a `u8` grid, and the `u8` overflow of the distance is the finding below.
- Day18.RouteBlockedAt: the tail recursion is a loop; the `unwrap` panic is the result NoBlocker and the endless recursion when a byte lands on the start is the result Endless. Its statements about reachability hold when the position passed in is a route to the goal with the first `bytes` bytes fallen, which is how the source calls it.
- Day18.ParseInput: input lines without two `u8` pieces are skipped, as the `flat_map` skips them; `str::lines` is shared with the other days.
- Day18Examples.ExampleSteps: states that the route found with 12 bytes fallen has at least 12 steps, not that it has 22, because the search is not proved optimal (see StepsToGoal above).
- Day19.Trie: the `Rc<RefCell<TreeNode>>` nodes are values, so `insert` returns the new trie instead of updating shared nodes in place; nothing in day 19 shares a node between two parents.
- Day19.MatchesImpl, Day19.Ways, Day19.CombinationsImpl: these require a root holding no empty pattern; for a pattern list with an empty piece (such as a trailing ", ") the source recurses from the root back to the root forever, which the model does not represent.
- Day19Examples: the text of the example pattern line is not parsed in the model; Day19.ParsePatterns states in general that the parsed trie holds exactly the listed patterns, and Day19Examples.ExampleTreeHolds that the test's tree holds the eight example patterns.
- Day19: `usize` counts are unbounded integers.
- Day20.Apply: `checked_add_signed` also fails on overflow past `usize::MAX`; coordinates are unbounded here, so only the step below zero fails.
- Day20.GetTrackPositions, Day20.Cheats, Day20.CountCheatsFrom: these require that the walk reaches the end; on a track where it never does, the source loops forever.
- Day20.CheatsOfSpec: states that each entry's value is the saving of some pair of track positions with those two cells, not which one when several pairs share the cells (the source keeps the last in `tuple_combinations` order); the walk of a puzzle track never revisits a cell, and then there is only one.
- Day20: the tests on the 15 by 15 example track (its 85 positions, 44 cheats and the cheat counts) are not evaluated: the walk of 84 passes is beyond what the verifier evaluates in reasonable time.
- Day20: `usize` indices and savings are unbounded integers.
- Day21.Candidates: `permutations()` in the source lists repeated orderings of equal moves; the model lists each distinct ordering once, which gives the same minimum.
- Day21.ParseCode: a line without digits makes the source panic on `unwrap`; the model returns `None`. The value is an unbounded integer, so the `usize` overflow of a line with more than about twenty digits is not modelled.
- Day21: the chain of `Rc<RefCell<...>>` keypads is modelled as one object holding one cache per link.
- Day22.NextSecret: the source multiplies in `u64`, which overflows for seeds from 2^58 on (a panic in a debug build); the model multiplies unbounded numbers. Only the lowest 24 bits survive the prune, so a wrapping multiplication would give the same secrets.
- Day22Examples: the tests that need 2000 secrets per buyer are not evaluated. These are the 2000th secrets of 1, 10, 100 and 2024, their sum 37327623 and the best total of 23. Day22.IterateAndSumBound and Day22.BananasFromBestDiffSequence state the general properties instead.
- Day22: prices are the digits 0 to 9 held as `i8`, and changes lie between -9 and 9; the model uses unbounded integers for both.
- Day23.FindLanPassword: the source walks `links.keys()` in the order of a hash map, which the model takes as a parameter listing the keys. The greedy cliques, and so the password, depend on that order; the model states the result for any order, not that the clique is a largest one of the network.
- Day23.Trios: the source needs each neighbour to be a key of the map (`get(a).unwrap()`); the model requires symmetric links, which `parse_input` produces. The source returns a `HashSet<Vec<&str>>` and `clusters_containing` a `Vec`; the model returns sets of sequences, which holds the same clusters since the set has no repeats.
- Day23.TriosExact: assumes no computer links to itself. A line "a-a" would make the source record a two-name or a repeated-name trio.
- Day23: the example network, its twelve trios, the seven trios with a name starting with "t" and the password "co,de,ka,ta" are not evaluated; the general properties are stated instead.
- Day24: circuits with a cycle are not modelled. Every propagation member takes a ranking of the wires that puts each gate's inputs below its output and bounds the ranks; on a cyclic circuit the source recurses without end.
- Day24.MonitoringDevice.ApplyInputWires: the source walks the input `HashMap` in its hash order, which the model takes as a parameter listing the names. `Outcome` shows the final output bits do not depend on that order.
- Day24.Outcome: assumes no gate writes an input wire, each wire has one driver at most and each output bit is read from one wire. The puzzle's circuits satisfy these. Without them, later propagations can overwrite earlier ones and the result depends on order.
- Day24.OutputValue: does not model the `usize` shift overflow for output bits 64 and above. A debug build panics on `<< id` there.
- Day24.ParseDevice: states exactly which entries each wire's list holds, not their order within the list (gate order, left input before right). The order matters only while a propagation is under way. The `max_out + 1` overflow at the largest `usize` is not modelled.
- Day24: the test devices, the parsed example and the example outputs 4 and 2024 are not evaluated; the general properties are stated instead.

## Findings

| source | as written | input that shows it | evidently intended | confidence | as-written member | corrected member |
|---|---|---|---|---|---|---|
| src/day_9.rs:54-60 | the end pointer starts at the last entry of the disk map even when that entry is free space, so the compaction loop copies the last file it reaches from the front a second time | disk map `11`: one file block and one free block | the end pointer starts at the last file entry, giving one block of file 0 | not executed | Day9Examples.EndPastStart | Day9.DiskBlocksFragmented |
| src/day_9.rs:73-91 | the loop that fills free space takes blocks from the end without checking the start pointer, so `end.index -= 2` underflows once the files run out | disk map `13131` | the fill stops at the start pointer, giving blocks of files 0, 2, 1 | not executed | Day9Examples.FillPastStart | Day9Examples.FillPastStartCorrected |
| src/day_18.rs:36-41 | the distance adds the two `u8` differences as `u8` and casts only the sum to `u32`, so the sum overflows once it reaches 256 (a panic in a debug build, a wrong estimate otherwise) | a memory space of size 128: the estimate of the starting position, from (0, 0) to (128, 128), is 256 | the differences are cast to `u32` before they are added | not executed | Day18.ManhattanOverflows | Day18.Manhattan |
