# Advent of Code 2024, days 1 to 3, in Dafny

This project models three small C++ puzzle solvers and proves properties of the model.

- **Day 1** (`day1.dfy`) reads lines that each hold two integers separated by spaces, and builds a left list and a right list from them. It sorts both lists. It then computes two results:
  - the sum of the distances between the values of equal rank;
  - a similarity score: each left value times the number of times it occurs in the right list, summed.

  The reading loop, the insertion sort on an `array`, the summing loop and the two-pointer similarity scan are all methods. Each is proved against a function that specifies it.
- **Day 2** (`day2.dfy`) treats each line as a report of levels. A report is safe when its levels all rise or all fall, by 1 to 3 at each step. It is tolerated when removing one level makes it safe. The model has three methods:
  - `isSafeReport`, which scans the report once with the direction fixed by its first pair;
  - `isSafeReportWithTolerance`, which tries every removal;
  - `toString`, which renders a report with an optional `[x]` marker.

  It also models the splitting of a line on spaces into levels, and the counting loop of `main`. The project proves these loops against direction-free definitions of "safe" and "tolerated". It also proves that parsing a rendered report gives back its levels.
- **Day 3** is split over four modules:
  - `day3_automaton.dfy` models the character classifier `CharToState` and the `StateMachine` prefix tree. The tree's nodes are an index table, and `Accept` works on the class's cursor fields.
  - `day3_driver.dfy` models the loop of `main`. It feeds characters to the machine, counts accepted characters, accumulates the arguments of a `mul` digit by digit, and acts on a completed `do()`, `don't()` or `mul(A,B)`.
  - `day3_phrases.dfy` and `day3_reference.dfy` give an independent reading of the same input in terms of the three phrases alone (`Scan`). The main theorem is that the driver's `result` equals `Scan(input).total` for every input.
  - `day3_samples.dfy` applies that reading to the puzzle's two sample inputs (161 and 48) and to a doubled letter.

`charconv.dfy` models `std::from_chars` and `std::to_string` on `int`. `wrappers.dfy` holds an `Option` type.

## Model

| member | source | states |
|---|---|---|
| CharConv.FromChars | day1/day1.cpp:45 | a parse succeeds only on a leading digit, or on a '-' followed by a digit, and only with a value in the 32-bit `int` range |
| CharConv.FromCharsOfToString | day2/day2.cpp:143 | parsing the text `std::to_string` prints for any 32-bit value gives that value back |
| CharConv.IntToString | day2/day2.cpp:34 | the text is the decimal digits of the magnitude, preceded by '-' exactly when the value is negative |
| CharConv.NatToStringValue | day2/day2.cpp:34 | the printed digits denote the number, with no leading zero |
| CharConv.FromCharsSame | day1/day1.cpp:63 | a parse depends only on the characters between its bounds, wherever they sit in the line |
| Day1.SkipSpacesStops | day1/day1.cpp:40-41 | the skipped characters are all spaces, and the stop is past the end or on a non-space |
| Day1.TokenEndStops | day1/day1.cpp:43-44 | the token holds no space, and it ends at the end of the line or at a space |
| Day1.ReadField | day1/day1.cpp:37-53 | the loops find the field the `Field` and `FieldEnd` functions describe, and the next field is searched one past its end |
| Day1.ParseLine | day1/day1.cpp:33-69 | a line yields the pair of its first two fields, or nothing when either field fails to parse |
| Day1.LineFieldsOfTokens | day1/day1.cpp:37-69 | a line made of spaces, a token, spaces, a token and spaces yields the parses of the two tokens |
| Day1.LineFieldsOfPrinted | day1/day1.cpp:37-69 | any two 32-bit values printed on a line with spaces around them are read back exactly |
| Day1.ColumnsAreFields | day1/day1.cpp:70-71 | the two lists exist exactly when every line parses, and position k of each list is field 1 or field 2 of line k |
| Day1.ReadLists | day1/day1.cpp:30-73 | the reading loop stops with nothing at the first line that fails, and otherwise returns the two columns |
| Day1.ColumnsOfPrefix | day1/day1.cpp:45-50 | once a line fails, the whole read fails, whatever follows |
| Day1.SortedOfIsSortedPermutation | day1/day1.cpp:81-82 | the sorting function returns an ordered rearrangement of its input |
| Day1.SortedPermutationIsUnique | day1/day1.cpp:81-82 | two ordered rearrangements of the same values are equal, so the sort's result is determined by its input |
| Day1.SortInPlace | day1/day1.cpp:81-82 | the array is sorted in place into an ordered rearrangement of its old contents |
| Day1.SortedCopy | day1/day1.cpp:81-82 | sorting a copy of a list in an array gives the sorting function's result |
| Day1.Distance | day1/day1.cpp:92 | the distance is the non-negative one of the two differences |
| Day1.SumDistances | day1/day1.cpp:85-97 | the loop sums the distances of the pairs of equal rank |
| Day1.SumDistNonNegative | day1/day1.cpp:85-97 | the total distance is never negative |
| Day1.SumDistSymmetric | day1/day1.cpp:85-97 | swapping the two lists does not change the total distance |
| Day1.SumDistPrefix | day1/day1.cpp:88 | only the first `list1.size()` values of the right list take part |
| Day1.CountIsMultiplicity | day1/day1.cpp:107-125 | the matches the scan counts in a slice are the value's multiplicity in that slice |
| Day1.CountInScannedRun | day1/day1.cpp:107-125 | in a sorted list, the run between the first index not below the value and the first index above it holds every occurrence of the value |
| Day1.SimilarityScore | day1/day1.cpp:99-134 | on sorted lists, the two-pointer scan computes the sum of each left value times its multiplicity on the right |
| Day1.SimScorePermutation | day1/day1.cpp:81 | the similarity score does not depend on the order of the left list, so sorting it first changes nothing |
| Day1.SimScoreRemove | day1/day1.cpp:103-131 | taking one left value out lowers the score by exactly that value times its multiplicity on the right |
| Day1.ScanAsWritten | day1/day1.cpp:107-125 | the do-while as written reads past the end exactly when it starts at `list2.size()`; otherwise it stops at an index between its start and the end |
| Day1.ScanAsWrittenStops | day1/day1.cpp:107-125 | a scan started before the end stops at the first right value above the left one, or at the end; every value it passed is at most the left one, and it added the left value once for each equal right value it passed |
| Day1.OuterAsWrittenIs | day1/day1.cpp:103-131 | entered at rank `i` with the score of the first `i` left values and the start index the earlier passes leave, the `for` loop as written reads past the end exactly when the whole lists show the pattern of `Day1.SimilarityAsWrittenIs`; otherwise it ends with the similarity score |
| Day1.SimilarityAsWrittenIs | day1/day1.cpp:99-134 | on sorted lists, part 2 as written reads past the end of `list2` exactly when `list1` is non-empty and either `list2` is empty or some left value at least the last right value is followed by a greater left value; otherwise it gives the similarity score |
| Day1.SimilarityAsWrittenReadsPastEnd | day1/day1.cpp:107-125 | with left [1, 5] and right [1, 1], the do-while as written reads past the end of the right list, while the score is 2 |
| Day1.Solve | day1/day1.cpp:30-134 | a failed read gives nothing; otherwise part 1 is the total distance of the sorted lists, and part 2 is the similarity of the lists as read, computed by the corrected scan of the Findings row (`Day1.SimilarityScore`) |
| Day2.RemoveAt | day2/day2.cpp:107-108 | the copy is one shorter and keeps every other level in order |
| Day2.IsSafeReport | day2/day2.cpp:45-99 | the single scan, with its direction fixed by the first pair, answers true exactly when the levels all rise or all fall by 1 to 3 |
| Day2.BadStepIsUnsafe | day2/day2.cpp:69-72 | a step out of range in the direction of the first pair makes the report unsafe |
| Day2.FirstPairFixesDirection | day2/day2.cpp:62-65 | the first pair decides the only direction a safe report can have, and a report whose first two levels are equal is unsafe |
| Day2.IsSafeReportWithTolerance | day2/day2.cpp:103-118 | the loop answers true exactly when removing some single level leaves a safe report, and never for an empty report |
| Day2.SafeIsTolerant | day2/day2.cpp:103-118 | every non-empty safe report is also tolerated |
| Day2.AppendValue | day2/day2.cpp:32-36 | one level is appended as its decimal text, in brackets when it is the marked one |
| Day2.ToString | day2/day2.cpp:27-41 | the loop builds the rendering of the report |
| Day2.RenderIsJoin | day2/day2.cpp:27-41 | the rendering is the levels' texts joined by single spaces, with brackets around the marked level only |
| Day2.RenderEdges | day2/day2.cpp:37-38 | the rendering neither starts nor ends with a space |
| Day2.RenderEmpty | day2/day2.cpp:27-41 | the rendering is empty exactly when the report is |
| Day2.Pieces | day2/day2.cpp:140 | cutting a line at every space gives at least one piece, even for an empty line |
| Day2.PiecesHaveNoSpace | day2/day2.cpp:140 | no piece cut from a line holds a space |
| Day2.JoinPieces | day2/day2.cpp:140 | the pieces joined by single spaces give the line back, so cutting loses no character |
| Day2.PiecesOfJoin | day2/day2.cpp:140 | cutting a join of space-free pieces gives those pieces back, empty ones included |
| Day2.SplitOnSpace | day2/day2.cpp:140 | an empty line has no piece at all; any other line is cut into space-free pieces that rejoin to it |
| Day2.ParseLevel | day2/day2.cpp:141-150 | a level is always a 32-bit value, and it is -1 when the piece does not start with a digit or with '-' and a digit |
| Day2.PiecesAppend | day2/day2.cpp:140 | splitting on spaces distributes over a join by one space |
| Day2.ParseRendered | day2/day2.cpp:140-152 | splitting and parsing the unmarked rendering of 32-bit levels gives the levels back |
| Day2.NonEmptyLineHasLevels | day2/day2.cpp:140-152 | a non-empty line always yields at least one level, so only an empty line gives an empty report |
| Day2.CountSafeReports | day2/day2.cpp:133-163 | the counters hold the number of safe reports and the number of safe or tolerated reports, and the first never exceeds the second |
| Day2.CountsStep | day2/day2.cpp:153-161 | one more line adds one to the first count when it is safe, and to the second count when it is safe or tolerated |
| Day2.ToleratedCountOfNonEmptyReports | day2/day2.cpp:153-161 | when no report is empty, the second count is just the number of tolerated reports |
| Day3Automaton.CharToState | day3/day3.cpp:76-97 | a digit maps to `Digit`; the eleven letters and punctuation marks map to their own states; everything else maps to `Invalid` |
| Day3Automaton.WithNextNodeKeepsTree | day3/day3.cpp:125-130 | adding a child appends one node with no children to the table, links it to its parent and changes no other node |
| Day3Automaton.AddChainIs | day3/day3.cpp:125-163 | a chain of `AddNextNode` calls gives its parent the chain's first node as last child, changes no other old node, and appends the new nodes in order, each the only child of the one before and the last one childless |
| Day3Automaton.BuiltTreeIsTree | day3/day3.cpp:134-165 | the constructor's four chains of child additions build exactly the 18-node table of the three branches |
| Day3Automaton.OnlyThreePaths | day3/day3.cpp:137-162 | the tree has exactly three root-to-leaf paths: the mul path, the do path and the don't path |
| Day3Automaton.TreeLabels | day3/day3.cpp:137-162 | the paths spell `mul(`, digit, `,`, digit, `)`, and `do()` and `don't()`, and the last two share their first two letters |
| Day3Automaton.TreeBounds | day3/day3.cpp:142-144 | only the two digit nodes may repeat, up to 3 times each; every other node occurs once, and the root is `Invalid` |
| Day3Automaton.FindChild | day3/day3.cpp:182-201 | a child the search finds is one of the children and is labelled with the state |
| Day3Automaton.FindChildNone | day3/day3.cpp:182-201 | the search finds nothing exactly when none of the remaining children has that label |
| Day3Automaton.FirstChild | day3/day3.cpp:182-201 | the loop over the children returns the first child with the wanted label |
| Day3Automaton.Step | day3/day3.cpp:172-208 | `Invalid` is never accepted; a refusal puts the cursor back at the root and leaves the flag as passed in; the flag changes only from false to true, on an accepted character that completes a phrase, and that puts the cursor back at the root; an accepted repeat in place adds one to the count |
| Day3Automaton.StateMachine.constructor | day3/day3.cpp:134-165 | a new machine holds the built tree and is valid, with its cursor at the root and a zero count |
| Day3Automaton.StateMachine.Accept | day3/day3.cpp:172-208 | the call keeps the machine valid (a forward-linked table, and a cursor on a node within its bound); it moves the cursor, and answers accepted and end of phrase, as `Step` says |
| Day3Phrases.MulArgsBound | day3/day3.cpp:142-144 | the arguments of a `mul` have at most 3 digits, so each is at most 999 and the product at most 998001 |
| Day3Phrases.MulSplitUnique | day3/day3.cpp:141-145 | a `mul` phrase splits into its two arguments in only one way |
| Day3Phrases.PhraseByLength | day3/day3.cpp:263-275 | a phrase has 4 characters exactly when it is `do()`, 7 exactly when it is `don't()`, and at least 8 exactly when it is a `mul` |
| Day3Phrases.ReachedIsOk | day3/day3.cpp:172-208 | every cursor reached on a partial phrase is a valid position in the tree |
| Day3Phrases.StepFollowsPhrases | day3/day3.cpp:172-208 | from any reached cursor, the machine accepts a character exactly when the text read so far, plus that character, is still part of a phrase; it ends a phrase exactly when the text completes one |
| Day3Phrases.TreeFollowsPhrases | day3/day3.cpp:137-162 | the built tree follows the three phrases at every cursor |
| Day3Phrases.ReachedIsProperPrefix | day3/day3.cpp:172-208 | the text behind any reached cursor is a proper beginning of some phrase |
| Day3Phrases.ProperPrefixIsReached | day3/day3.cpp:137-162 | every proper beginning of a phrase is reached by some cursor |
| Day3Reference.ScanFromAppend | day3/day3.cpp:239-296 | reading two texts in turn is reading their concatenation |
| Day3Reference.ProperPrefixNotPhrase | day3/day3.cpp:186-192 | no proper beginning of a phrase is itself a phrase, so a phrase ends only at a leaf |
| Day3Reference.ScanPhrase | day3/day3.cpp:263-280 | reading a whole phrase enables (`do()`), disables (`don't()`) or adds the product when enabled (`mul`), and leaves nothing pending |
| Day3Reference.ScanDeadEnd | day3/day3.cpp:204-207 | a text that leaves the phrases on its last character is dropped with that character, with no effect |
| Day3Reference.ScanJunk | day3/day3.cpp:204-207 | text holding no `m` and no `d` has no effect |
| Day3Reference.ScanDo | day3/day3.cpp:270-274 | `do()` enables `mul` and keeps the total |
| Day3Reference.ScanDont | day3/day3.cpp:265-269 | `don't()` disables `mul` and keeps the total |
| Day3Reference.ScanPieces | day3/day3.cpp:239-296 | reading text made of whole phrases, refused beginnings and junk has the net effect of its pieces |
| Day3Reference.NetAppend | day3/day3.cpp:239-296 | the effect of two runs of pieces is the second run's effect applied after the first's |
| Day3Driver.Absorb | day3/day3.cpp:251-261 | the accumulators change, but the cursor, the result, the count and the enabled flag do not |
| Day3Driver.MulEndsWithArgs | day3/day3.cpp:251-261 | when a `mul` phrase ends, the comma was seen and the accumulated arguments are the phrase's two numbers |
| Day3Driver.AbsorbFollows | day3/day3.cpp:250-261 | the accumulators, after a digit or comma is accepted, still hold the arguments and count of the text read so far |
| Day3Driver.RefusedRefines | day3/day3.cpp:286-294 | on a refused character the driver and the reference stay in step |
| Day3Driver.ContinuesRefines | day3/day3.cpp:281-284 | on an accepted character inside a phrase the driver and the reference stay in step |
| Day3Driver.EndsRefines | day3/day3.cpp:263-280 | at the end of a phrase the driver's count picks the same effect as the phrase itself |
| Day3Driver.PassRefines | day3/day3.cpp:241-294 | one pass of the loop body keeps the driver in step with the reference |
| Day3Driver.DriverRunRefines | day3/day3.cpp:239-296 | after any input the driver is in step with the reference reading of the same input |
| Day3Driver.RunMatchesScan | day3/day3.cpp:229-296 | with the constructor's tree, the driver's result is the reference total for every input |
| Day3Driver.RunDriver | day3/day3.cpp:229-296 | the loop of `main` over the input computes the sum of the products of the enabled `mul(A,B)` phrases |
| Day3Driver.Feed | day3/day3.cpp:241-294 | one pass calls `Accept` on the character's state and updates the loop's variables as the pass function says |
| Day3Samples.ScanDoubledLetter | day3/day3.cpp:176-207 | in `mmul(2,3)` the second `m` is refused and dropped, so nothing is added |
| Day3Samples.AllEnabledText | day3/day3.cpp:229-296 | the pieces of the first sample spell `xmul(2,4)%&mul[3,7]!@^do_not_mul(5,5)+mul(32,64]then(mul(11,8)mul(8,5))` |
| Day3Samples.ToggledText | day3/day3.cpp:229-296 | the pieces of the second sample spell `xmul(2,4)&mul[3,7]!^don't()_mul(5,5)+mul(32,64](mul(11,8)undo()?mul(8,5))` |
| Day3Samples.ScanAllEnabled | day3/day3.cpp:229-296 | the first sample input adds 161 |
| Day3Samples.ScanToggled | day3/day3.cpp:229-296 | the second sample input, with `don't()` and `do()`, adds 48 |
| Day3Samples.RunSamples | day3/day3.cpp:229-296 | the loop of `main` gives 0, 161 and 48 on `mmul(2,3)` and on the text of the two samples |

## Left out

- File input, `getline` and `peek`, and `file.get()` are left out. Day 1 and day 2 take the lines their do-while loops read, as a sequence. Day 3 takes the characters before EOF as a string.
- All logging and printing (`LogError`, `LogInfo`, `LogDebug`, `std::cout`) is left out. The model returns the values that are printed.
- Day2.IsSafeReport: the `inLog` and `inLogError` parameters are kept but only choose what is logged, so they play no part in the contract.
- Fixed-width arithmetic is not modelled: the integers are unbounded, so overflow of `sumDistances`, `similarityScore`, the day 2 `diff`, and the day 1 and day 2 counters is not represented. Day 3's products are bounded by 998001 (`Day3Phrases.MulArgsBound`), so its `int` multiplication cannot overflow.
- `std::from_chars` is modelled as an optional '-', then the longest run of decimal digits, then a check of the 32-bit range. Accepting a partial parse of the field follows its behaviour on a prefix. The `errc` codes and the `ptr` of the result are not modelled.
- `std::isdigit` is modelled as the ten ASCII digits. Locale-dependent digits are not modelled.
- The `new` and `delete` of `StateMachine::Node` become an index table of nodes, and a node pointer becomes an index. Destructors and memory ownership are not modelled.
- `std::sort` is specified by its result, a sorted rearrangement (`Day1.SortedOf`). `Day1.SortInPlace` is an insertion sort. The algorithm of the standard library is not modelled.
- The day 1 size check (`day1/day1.cpp:75-79`) is not a separate branch. Both lists get one value per line, so `Day1.Columns` always gives them equal lengths, and the error can never be raised.
- `Day1.Solve` takes any sequence of lines, including none. The source's do-while always reads at least one line.
- `Day1.Solve`: part 2 is computed by the corrected scan (`Day1.SimilarityScore`), not by the do-while as written. On lists where `Day1.ReadsPastEnd` holds, such as the lines "1 1" and "5 1", the source reads `list2` past its end (see the Findings row), and `Day1.Solve` does not model that read.
- The three day 3 sample inputs are stated as concatenations of pieces (whole phrases, refused beginnings and junk). This lets their totals be proved from the pieces. `Day3Samples.AllEnabledText` and `Day3Samples.ToggledText` write each sample as one short string literal per pair of pieces, joined with `+`, rather than as a single literal.
- Day2.ParseLevel: the contract gives the range of a level and the shapes that become -1; the value of an accepted parse is `CharConv.FromChars`, and `Day2.ParseRendered` states that printed levels are read back.

## Findings

| source | as written | input that shows it | evidently intended | confidence | as-written member | corrected member |
|---|---|---|---|---|---|---|
| day1/day1.cpp:107-125 | the do-while reads `list2[rightIndex]` before it tests `rightIndex < list2.size()`. A left value at least the last right value runs the scan to `list2.size()`; if a greater left value follows, its scan starts there and reads one past the end. An empty right list is read at index 0 at once | left [1, 5] and right [1, 1]: the second pass reads `list2[2]`; left [5, 6] and right [1, 2] likewise | test the bound before each read, and stop at the end of the right list | not executed | Day1.SimilarityAsWrittenIs, Day1.SimilarityAsWrittenReadsPastEnd | Day1.SimilarityScore |
