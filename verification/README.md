# Models of chat parsing, quantisation, adapters and codecs in llama.cpp

Dafny models of the parts of llama.cpp whose correctness is hardest to see from the code, with proofs of what
they promise. Each module follows one component; `dafny verify dfyconfig.toml` verifies all of them.

| files | component |
|---|---|
| `MarkerDiff` | splitting two rendered templates into shared prefix, differing middles and shared suffix |
| `JsonText`, `QuoteNormalizer`, `ValueTokens` | JSON escaping and brace depth; Python-style quotes to JSON |
| `ToolCallMapper`, `ToolCallRuns` | the event-driven mapper that assembles tool calls, and whole streams of events |
| `JsonValues`, `Gemma4Printer`, `MinimaxM3Printer` | printing complete and partial syntax trees as JSON |
| `ArgumentOrders` | the grammar that takes parsers in any order |
| `MessageDelta`, `MessageStreams` | the deltas that bring a client from one message to the next, and the messages of a parse as they arrive |
| `ToolResultOrder`, `TokenSpans` | reordering tool results; splitting a token stream at delimiters |
| `WeightedFit`, `QpQuants`, `QkxQuants`, `QxQuants`, `KQuantBlocks` | the quantiser searches over exact reals, and whole blocks |
| `BlockPacking`, `KQuantReading`, `BlockBatches`, `LowGpuCodes` | the byte layouts of the blocks, the values read back from them, whole buffers of them, and the packed 3-bit codes |
| `Tensors`, `LoraProduct`, `LoraIndexing`, `LoraShapes`, `LoraJoining`, `LoraRuns`, `DenseMeaning` | adapters kept as two factors, and what the dense operations they are compared with mean |
| `GgmlEntries`, `GgmlScan`, `GgmlFile` | reading legacy model files |
| `Base64`, `CsvRow` | a codec and a row parser |
| `Wrappers` | optional values and results, shared by the others |

Code that works step by step is a method (a class where it updates fields) that is proved against a function;
the promises are proved about that function, for all inputs. `hide` statements only keep definitions that a proof
does not need away from the verifier.

## Where the code does less than one would expect

Each of these is stated exactly, as an if and only if on the input or for every input, and what goes wrong is shown
on an input:

- The template split can eat a segment twice; then prefix, middle and suffix do not give the inputs back
  (`MarkerDiff.CalculateDiffSplit`, `MarkerDiff.SplitFailsExamples`).
- The comment on quote normalisation says that escape sequences are handled properly; an escaped single quote
  inside double quotes is passed on, and the result is not JSON (`ValueTokens.NormalizationPreservesTokens`,
  `ValueTokens.DoubleQuotedTickFails`). The streamed normal form only grows outside two kinds of cut
  (`QuoteNormalizer.NormalizedPrefix`, `QuoteNormalizer.HarmfulCutExamples`).
- An empty string node behind another one of the same argument comes out as a quote, and raw values whose braces
  are not balanced close with the wrong number of braces (`ToolCallRuns.ClosedIsObject`,
  `ToolCallRuns.NotObjectExamples`).
- Two branches of the mapper that flush a named waiting call cannot be reached (`ToolCallRuns.WaitingCallUnnamed`).
- A step that takes back the end of a text sends nothing, so the client keeps the longer text
  (`MessageDelta.StepReconstructs`, `MessageDelta.ShrinkingTextIgnored`). An event that takes something back from a
  named call makes the messages of a parse no growing run (`MessageStreams.RunGrows`, `MessageStreams.RenamedExample`).
- A skip that begins inside another one stops the skip iterator for good; all skips take effect exactly when they
  are disjoint (`TokenSpans.EffectiveDisjoint`, `TokenSpans.OverlapExample`).
- For adapters with unit leading dimensions on A: an inner ellipsis (`LoraIndexing.EllipsisExact`,
  `LoraIndexing.InnerEllipsisExample`), an integer index other than 0 and -1 and a plain slice along a leading
  dimension (`LoraIndexing.GetItemExact`, `LoraIndexing.GetSliceExact`, `LoraIndexing.LeadIndexExamples`), two
  trailing integers (`LoraIndexing.TwoIntegersWrong`, `LoraIndexing.TwoIntegersExample`), and concatenation along a
  leading dimension (`LoraJoining.CatLeadExact`, `LoraJoining.LeadJoinExample`).
- The file reader does not look at the bytes of the last tensor (`GgmlFile.FileRead`,
  `GgmlFile.MissingBytesExample`). Its 64-bit byte count is wrong exactly from 2^63 bytes on, and negative exactly
  when the sign bit is set (`GgmlEntries.CountExact`); then byte ranges are out of order (`GgmlFile.FileInOrder`,
  `GgmlFile.NegativeCountExample`), and a scan that comes to an offset twice never ends (`GgmlScan.EndlessExact`,
  `GgmlFile.EndlessExample`).

## Model

| member | source | states |
|---|---|---|
| `MarkerSegments.SegmentizeMarkers` | common/chat-auto-parser-helpers.cpp:269-299 | the marker scan computes `Segments` |
| `MarkerSegments.SegmentsLossless` | common/chat-auto-parser-helpers.cpp:269-299 | the segments spell the text again, and none is empty |
| `MarkerSegments.SegmentsShape` | common/chat-auto-parser-helpers.cpp:269-299 | a MARKER is a whole closed marker; a TEXT holds no opener, except a last one that was never closed |
| `MarkerSegments.MarkerFirst` | common/chat-auto-parser-helpers.cpp:269-299 | a closed marker in front of any text is its first segment, and the rest is segmented on its own |
| `MarkerSegments.SegmentsUnique` | common/chat-auto-parser-helpers.cpp:269-299 | the segmentation is the only list of segments that spells the text, has no empty segment and this shape, with a marker or an unclosed one behind every text |
| `MarkerSegments.SegmentsExample` | common/chat-auto-parser-helpers.cpp:269-299 | both kinds of brackets, each closed by its own closer, and a marker that is never closed |
| `MarkerDiff.CommonPrefixLen` | common/chat-auto-parser-helpers.cpp:69-76 | the loop counts the longest shared beginning |
| `MarkerDiff.CommonSuffixLen` | common/chat-auto-parser-helpers.cpp:78-85 | the loop counts the longest shared ending |
| `MarkerDiff.CalculateDiffSplit` | common/chat-auto-parser-helpers.cpp:87-207 | written on the two segment lists: with segments to spare on both sides, all shared segments go to prefix and suffix, then the longest shared ending and after it the longest shared beginning of what is left, each only between texts, so that no shared character is left at such an end; a side that the shared ends cover has nothing left over, and where the cut goes is stated; equal inputs have no difference; and prefix + left + suffix and prefix + right + suffix give the two inputs back exactly when no segment is eaten twice (`SplitFails`, a condition on the two lists) |
| `MarkerDiff.PromisedEnds` | common/chat-auto-parser-helpers.cpp:175-187 | with segments to spare and something left on both sides: where both ends have text, the first and the last characters left differ; where one has a marker, prefix or suffix holds exactly the shared segments |
| `MarkerDiff.OneCharacterSplit` | common/chat-auto-parser-helpers.cpp:87-207 | two texts without markers that differ in one character are split around it |
| `MarkerDiff.TextEndExample` | common/chat-auto-parser-helpers.cpp:175-187 | `Hello A!` and `Hello B!` have prefix `Hello `, middles `A` and `B` and suffix `!` |
| `MarkerDiff.EatRound` | common/chat-auto-parser-helpers.cpp:114-139 | one round of the four-iterator loop keeps what both ends have shared so far, and moves one segment at each matching end into prefix and suffix |
| `MarkerDiff.StoppedWhenEatenTwice` | common/chat-auto-parser-helpers.cpp:114-165 | the loop can leave a side consumed with a segment still to be matched again only halfway through a list that begins and ends the other one |
| `MarkerDiff.BothDifferReconstruct` | common/chat-auto-parser-helpers.cpp:87-207 | whenever both sides keep something of their own, the split adds up to the inputs |
| `MarkerDiff.SplitFailsExamples` | common/chat-auto-parser-helpers.cpp:87-207 | two inputs on which the split does not add up, one for each way of counting a segment twice |
| `JsonText.QuoteRoundTrip` | common/chat-peg-parser.cpp:72-79 | a JSON string reader gets back exactly the string that was escaped, and what followed it |
| `JsonText.EscapePrefix` | common/chat-peg-parser.cpp:72-79 | escaping a beginning of a string gives a beginning of its escaped form |
| `JsonText.JsonBraceDepth` | common/chat-peg-parser.cpp:44-70 | the loop computes the brace depth outside string literals |
| `JsonText.DepthCounts` | common/chat-peg-parser.cpp:44-70 | without quotes the depth changes by the opening braces less the closing ones |
| `JsonText.QuoteScans` | common/chat-peg-parser.cpp:44-79 | a string literal never changes the brace depth, whatever it holds |
| `QuoteNormalizer.NormalizeQuotesToJson` | common/chat-peg-parser.cpp:86-188 | the character loop computes the normal form `Normalized` |
| `QuoteNormalizer.NormalizedIdempotent` | common/chat-peg-parser.cpp:81-188 | normalising twice is normalising once, on every string |
| `QuoteNormalizer.NormalizedPrefix` | common/chat-peg-parser.cpp:98-181 | for every string and every cut: the normal form of the part is a prefix of the whole normal form exactly when the cut is harmless (not behind a backslash that escapes a single quote in a single-quoted string, and not inside an unquoted word that only begins like True, False or None) |
| `QuoteNormalizer.HarmfulCutExamples` | common/chat-peg-parser.cpp:98-181 | a cut of each harmful kind: `T` of the word `Tx`, and a backslash in a single-quoted string in front of its single quote |
| `ValueTokens.NormalizationPreservesTokens` | common/chat-peg-parser.cpp:81-188 | on every value that reads as Python tokens, the normal form reads as the same JSON tokens exactly when no double-quoted string escapes a single quote, and otherwise does not read as JSON at all |
| `ValueTokens.DoubleQuotedTickFails` | common/chat-peg-parser.cpp:123-129 | a Python value whose normal form is not JSON: an escaped single quote between double quotes |
| `ValueTokens.BodyPreserved` | common/chat-peg-parser.cpp:98-158 | inside one string literal, the strict Python reading and the JSON reading of the normal form agree |
| `ToolCallMapper.PegMapper.Map` | common/chat-peg-parser.cpp:317-458 | one event takes the mapper from its state to `Next` of that state, for all fields; for a call that was discarded only events that do not touch it are allowed until the next tool opens |
| `ToolCallMapper.PegMapper.NameTool` | common/chat-peg-parser.cpp:360-375 | a tool name takes over the buffered arguments and moves the pending call into the message |
| `ToolCallMapper.PegMapper.NameArgument` | common/chat-peg-parser.cpp:390-403 | an argument name writes its separator, key and colon to the active target |
| `ToolCallMapper.PegMapper.CloseTool` | common/chat-peg-parser.cpp:435-457 | closing a tool flushes the buffer, the owed quote and the open braces, and drops a call without a name |
| `ToolCallMapper.TrimTrailingSpace` | common/chat-peg-parser.cpp:14-24 | what is kept is a beginning that does not end in white space, and what is removed is white space only |
| `ToolCallMapper.TrimIs` | common/chat-peg-parser.cpp:14-42 | of a name at most one leading space goes, and all trailing ones |
| `ToolCallMapper.Unquoted` | common/chat-peg-parser.cpp:317-358 | of an id one pair of quotes around it goes, and nothing else |
| `ToolCallMapper.Ignored` | common/chat-peg-parser.cpp:317-458 | tool events outside a call, whole arguments that do not begin with a brace and the end of an argument that owes no quote change nothing |
| `ToolCallRuns.WaitingCallUnnamed` | common/chat-peg-parser.cpp:289-300 | in every run of events a call that still waits has no name, so the flush at the end of a parse never adds a call |
| `ToolCallRuns.CallBuilt` | common/chat-peg-parser.cpp:317-458 | in whatever order the names, ids, whole arguments and argument events of a call come (every value behind an argument name, string and raw nodes mixed or not), closing adds exactly the call with the last name, the last id and the closed text; a call without a name adds nothing |
| `ToolCallRuns.CallAssembled` | common/chat-peg-parser.cpp:317-458 | wherever among the argument events the name and the id arrive, a whole call adds one tool call with both; its arguments are exactly the JSON object of its arguments if and only if no string has an empty node behind its first one and one brace is found open at the close, as with balanced raw values |
| `ToolCallRuns.WholeCallAssembled` | common/chat-peg-parser.cpp:377-388 | arguments that come as a whole are the arguments of the call, with a closing brace added for each one left open, and unchanged exactly when none is |
| `ToolCallRuns.ClosedIsObject` | common/chat-peg-parser.cpp:405-449 | when what was written for the arguments, closed by the counted braces, is their JSON object: every empty later node adds a quote, every unbalanced raw value changes the count |
| `ToolCallRuns.NotObjectExamples` | common/chat-peg-parser.cpp:405-449 | two calls whose arguments do not come out as their object: a string with an empty second node, a raw value with a stray brace |
| `ToolCallRuns.ArgumentsText` | common/chat-peg-parser.cpp:390-433 | the argument events spell the object text up to its closing brace |
| `ToolCallRuns.ArgumentsStream` | common/chat-peg-parser.cpp:360-433 | once the name is known, the last call has the last name and id so far after every further event, and its arguments are a prefix of the final ones |
| `ToolCallRuns.ArgumentsStreamInValue` | common/chat-peg-parser.cpp:405-426 | the same while a value node is still arriving, at every cut of a string (a later node not empty) and every harmless cut of a raw one |
| `ToolCallRuns.ObjectBalanced` | common/chat-peg-parser.cpp:446-449 | one brace short of the object exactly one brace is open, so closing adds exactly one |
| `ToolCallRuns.MessageAssembled` | common/chat-peg-parser.cpp:317-458 | a message comes out as its thoughts, its words and its calls, each in order, however they alternate |
| `JsonValues.PrintReads` | common/chat-peg-parser.cpp:966-1059 | the JSON text of a value reads back as that value, with nothing left over |
| `Gemma4Printer.CutPrefix` | common/chat-peg-parser.cpp:966-1059 | cutting a tree along its last branch, with the cut nodes marked partial, makes the printed text a prefix |
| `Gemma4Printer.CompleteTreeReads` | common/chat-peg-parser.cpp:966-1059 | the text of a complete tree is JSON that reads back as the tree's value |
| `Gemma4Printer.ArrivingTreeExtends` | common/chat-peg-parser.cpp:966-1059 | what is printed while a value arrives is a beginning of the JSON of the whole value |
| `Gemma4Printer.ArrivedPrinted` | common/chat-peg-parser.cpp:966-1059 | every cut of a tree prints exactly what has arrived of its value (`Arrived`, on the value): whole elements and members, the separator, and so much of the last one, at any depth |
| `Gemma4Printer.ObjectBegun` | common/chat-peg-parser.cpp:1033-1050 | once member k of an object has begun, the brace, all members in front, the separator and what has arrived of it are printed |
| `Gemma4Printer.ArrayBegun` | common/chat-peg-parser.cpp:1020-1032 | the same for the elements of an array |
| `Gemma4Printer.CityExample` | common/chat-peg-parser.cpp:966-1059 | an object whose only member has come as far as `Par` prints its key and the beginning of the string |
| `MinimaxM3Printer.ContainerCutPrefix` | common/chat-peg-parser.cpp:1100-1177 | a container that is not closed prints a prefix of what it prints once more of it has arrived |
| `MinimaxM3Printer.ValueCutPrefix` | common/chat-peg-parser.cpp:1179-1200 | the same for any value, with the flag for the closing quote or bracket |
| `MinimaxM3Printer.CollectCut` | common/chat-peg-parser.cpp:1100-1112 | collecting the entries of a cut node gives a cut of the entries of the node |
| `MinimaxM3Printer.CompleteCallReads` | common/chat-peg-parser.cpp:1129-1200 | the arguments of a complete call read back as the object they stand for |
| `MinimaxM3Printer.ArrivingCallExtends` | common/chat-peg-parser.cpp:1100-1200 | while a call arrives, its printed arguments are a beginning of the final ones |
| `MinimaxM3Printer.ArrivedPrinted` | common/chat-peg-parser.cpp:1100-1200 | every cut of a value's tree prints exactly what has arrived of it, closed or not |
| `MinimaxM3Printer.ArrivedCall` | common/chat-peg-parser.cpp:1129-1177 | the arguments of an arriving call are exactly what has arrived of the object |
| `MinimaxM3Printer.TreeRepresents` | common/chat-peg-parser.cpp:1100-1200 | every JSON value has a tree that stands for it |
| `ArgumentOrders.Permute` | common/chat-peg-parser.cpp:241-276 | up to the limit the grammar takes the parsers in every order, each exactly once, and nothing else; above it in the given order only |
| `ArgumentOrders.RuleTable.RemainingOf` | common/chat-peg-parser.cpp:255-275 | the memoised rule for a set of parsers takes exactly the orders of that set, and the table never changes an entry |
| `ArgumentOrders.OrderLists` | common/chat-peg-parser.cpp:241-276 | an order of a set is a list of its elements without repetition |
| `MessageDelta.ComputeDiffs` | common/chat.cpp:266-332 | the vector of deltas, or the first error, in the order of the code; it throws exactly when a text, or the arguments of the last call, do not go on from what was there nor fall back to a beginning of it, when that call has a name that does not go on, or when there are fewer calls, with the error that comes first (`Refusal`, on the two messages) |
| `MessageDelta.DiffsThrow` | common/chat.cpp:56-68 | the same for the deltas as a function: no other pair of messages throws |
| `MessageDelta.StepReconstructs` | common/chat.cpp:266-332 | the deltas of a step are computed and take the client to the new message exactly when texts and calls only extend (`Extends`, on the two messages) |
| `MessageDelta.RunReconstructs` | common/chat.cpp:266-332 | on every growing run no step fails, and the client holds each message of the run in turn, starting from nothing |
| `MessageDelta.ShrinkingTextIgnored` | common/chat.cpp:60-65 | a step that only takes back the end of a text sends deltas that change nothing |
| `MessageDelta.DiffsFolded` | common/chat.cpp:266-332 | for any two messages whose deltas are computed, what the client holds after folding them |
| `MessageDelta.DeltasSent` | common/chat.cpp:266-332 | exactly which deltas are sent, from the two messages: a text only if it changed, the last call only if it brings something new, its name and id only if one of them changed, every new call as it is; nothing for equal messages |
| `MessageStreams.StepExtends` | common/chat-peg-parser.cpp:317-458 | when calls have names, an event makes the message an extension of the one before exactly when it takes nothing back from the last call: no second name that does not go on from the first, no lost id, no whole arguments that do not go on from those that are there |
| `MessageStreams.RunGrows` | common/chat.cpp:266-332 | the messages after the events of a parse form a growing run exactly when every event takes nothing back |
| `MessageStreams.RenamedExample` | common/chat.cpp:303-313 | events that name a call twice, on which computing the delta throws |
| `MessageStreams.PollsReconstruct` | common/chat.cpp:266-332 | however a message is polled while it arrives, with any node incomplete at a poll, no delta throws, and after each poll the client holds the message as parsed then |
| `MessageStreams.MessageOrderly` | common/chat-peg-parser.cpp:317-458 | the events of a message take nothing back exactly when those of each of its calls do not |
| `MessageStreams.MessageDelivered` | common/chat.cpp:266-332 | after the last poll the client holds the thoughts, words and calls of the message |
| `MessageStreams.TaggedSteady` | common/chat-peg-parser.cpp:317-458 | a call with one name and no empty id takes nothing back |
| `ToolResultOrder.SortToolResults` | common/chat.cpp:2041-2102 | the in-place loop, with the call order carried from block to block; in every maximal block the result whose call comes first among the calls of the nearest assistant message that has some comes first, an unknown or empty id counting as call 0, and results of the same call keep their order (`ByCalls`, on the messages) |
| `ToolResultOrder.ReorderedByCalls` | common/chat.cpp:2041-2102 | the same for the reordering as a function, for every list of messages |
| `ToolResultOrder.CallIndexLast` | common/chat.cpp:2051-2058 | the index of a call is the last one of its id among the calls |
| `ToolResultOrder.SwappedExample` | common/chat.cpp:2086-2092 | the results of calls `a` and `b` that arrive as `b`, `a` are put in order |
| `ToolResultOrder.RewriteBlock` | common/chat.cpp:2080-2096 | gathering, sorting and writing back the results of a block equals sorting the block, all else unchanged |
| `ToolResultOrder.CollectBlock` | common/chat.cpp:2068-2078 | the maximal user/tool block and the positions of its results |
| `ToolResultOrder.BuildOrder` | common/chat.cpp:2051-2058 | the call order holds exactly the ids that are not empty, each with its last index |
| `ToolResultOrder.ReorderedKeeps` | common/chat.cpp:2041-2102 | the result is a permutation with the role at every index unchanged and all other messages in place |
| `ToolResultOrder.BlockSorted` | common/chat.cpp:2080-2096 | the results of every block are the same ones, untouched while no call is known, otherwise sorted by call index with equal indices in their old order |
| `ToolResultOrder.ReorderedAt` | common/chat.cpp:2063-2098 | each block is sorted by the calls known where it begins |
| `ToolResultOrder.ReorderedTwice` | common/chat.cpp:2041-2102 | reordering twice is reordering once |
| `ToolResultOrder.StableSortCorrect` | common/chat.cpp:2086-2092 | the sort is sorted, a permutation, and stable |
| `TokenSpans.FindMatches` | common/chat.cpp:153-172 | the scan with its skip iterator finds the delimiter matches outside the skips that take effect; it ends because tokens or skips decrease |
| `TokenSpans.FindRole` | common/chat.cpp:162-170 | the role of the first listed delimiter that matches at a position; none exactly when no delimiter does |
| `TokenSpans.Split` | common/chat.cpp:152-184 | the spans between the matches, up to the end of the tokens |
| `TokenSpans.SpansTile` | common/chat.cpp:152-184 | for any skips: the spans tile exactly from the first match to the end, each starts outside every effective skip with the first matching role, and no match is missed |
| `TokenSpans.EffectiveDisjoint` | common/chat.cpp:155-161 | all skips take effect exactly when they are disjoint |
| `TokenSpans.EffectiveExact` | common/chat.cpp:155-161 | a skip takes effect exactly when every skip up to it begins where the one before it has ended |
| `TokenSpans.OverlapExample` | common/chat.cpp:153-172 | three skips, one of them inside the first: a delimiter in the third one starts a span |
| `TokenSpans.MatchesExactly` | common/chat.cpp:156-172 | a position is a match exactly when a delimiter begins there outside the skips |
| `WeightedFit.BestScaleOptimal` | convert_escha_to_gguf.py:200-202 | sum_lx / sum_l2 is the best scale for the levels, and its error is the weighted square less the gain |
| `WeightedFit.ErrorQuadratic` | convert_escha_to_gguf.py:102-123 | the weighted error of a scale and an offset is the quadratic in the six weighted sums |
| `QpQuants.MakeQpQuants` | convert_escha_to_gguf.py:133-202 | for a nonnegative row: levels in range, the best scale for them, an error no larger than that of any grid point, and the levels that five sweeps reach from the first of the best grid points, with the grid, the rounding and every step of a sweep written out on the row (`WrittenOut`); a row that is zero for all practical purposes gives zeros |
| `QpQuants.GridSearch` | convert_escha_to_gguf.py:143-167 | the inverse scale kept has the least error of the nine grid points |
| `QpQuants.Sweep` | convert_escha_to_gguf.py:175-196 | one sweep keeps the incremental sums equal to the sums over the levels, keeps levels in range, reports a change exactly when some level had a better target, and then strictly raises the gain |
| `QpQuants.MovedSums` | convert_escha_to_gguf.py:178-195 | one step moves a level exactly when its target raises the quotient of the sums, compared without division, and updates both sums |
| `QpQuants.MovedIsStep` | convert_escha_to_gguf.py:178-195 | a step of the sweep, written out: the level nearest to the best real value, taken only when it strictly raises the quotient |
| `QpQuants.SumsAfterMove` | convert_escha_to_gguf.py:180-195 | the incremental updates are the sums over the changed levels |
| `QpQuants.GainCompared` | convert_escha_to_gguf.py:190-192 | the cross-multiplied comparison is the comparison of gains |
| `QpQuants.TargetOptimal` | convert_escha_to_gguf.py:182-186 | the unrounded target is the best real value for one level: no other reaches a higher gain |
| `QpQuants.Sweeps` | convert_escha_to_gguf.py:175-202 | up to five sweeps never lower the gain, change nothing exactly when every level is already at its target, and end with the best scale, which is not negative |
| `QpQuants.NoWorse` | convert_escha_to_gguf.py:175-202 | the best scale for levels of at least the same gain does no worse than any scale for the others |
| `QpQuants.SweepAllRows` | convert_escha_to_gguf.py:175-198 | sweeping many rows together until none changes gives each row what it gets on its own |
| `QxQuants.MakeQxQuants` | convert_escha_to_gguf.py:205-250 | signed levels in range; whatever the row, the scale is the best for them; and unless the row is zero for all practical purposes they are the levels of the first grid point, written out on the row (`WrittenOut`), that no other does better than with any scale |
| `QxQuants.Trial` | convert_escha_to_gguf.py:231-247 | a trial is accepted exactly when its gain is larger than the best so far |
| `QkxQuants.MakeQkx3Quants` | convert_escha_to_gguf.py:64-130 | for either way of measuring the error, the result is the last of a run of fits written out on the row: it begins with the even grid, and trial j rounds and clips the row with the inverse scale (rmin + rdelta * j + nmax) / span and the offset kept so far, and keeps its least-squares line exactly when its error is smaller; the error of the result is no larger than that of the line of any trial |
| `QkxQuants.CandidateOptimal` | convert_escha_to_gguf.py:101-119 | every candidate is the weighted least-squares optimum for its levels: over all scales and offsets when its offset is negative, over all offsets that are not positive when it was clamped to zero |
| `QkxQuants.SearchImproves` | convert_escha_to_gguf.py:121-128 | the error of what is kept, absolute or squared as the caller chose, never grows |
| `QkxQuants.SearchCovers` | convert_escha_to_gguf.py:92-128 | with any trial from 0 to nstep written out, the line of its levels has no smaller error than the result, in the measure the caller chose |
| `QkxQuants.SearchOptimal` | convert_escha_to_gguf.py:92-128 | whichever measure was chosen: the result is the even grid it started from, or no scale and no offset that is not positive has a smaller squared error for its levels |
| `QkxQuants.SearchScale` | convert_escha_to_gguf.py:64-130 | the scale is not negative as long as the first and the last inverse scale that are tried are not |
| `QkxQuants.CovarianceNonNegative` | convert_escha_to_gguf.py:97-113 | Chebyshev's sum inequality for the sums of the code: levels in the order of the values do not vary against them |
| `QkxQuants.FlatRowExact` | convert_escha_to_gguf.py:74-84 | a row without a span is reproduced exactly |
| `QkxQuants.HalfStep` | convert_escha_to_gguf.py:79-88 | the even grid leaves no value further off than half a step |
| `KQuantBlocks.FitGroups` | convert_escha_to_gguf.py:268-273 | the scales and offsets of all groups come out nonnegative, which quantising them in turn demands |
| `KQuantBlocks.QuantizeFields` | convert_escha_to_gguf.py:268-294 | the fields of a Q2_K or Q4_K block come from the fits of its groups and from quantising their scales and offsets, fit their bits, and every final level is the closest for the step and offset that are stored |
| `KQuantBlocks.RequantisedClosest` | convert_escha_to_gguf.py:286-294 | no level in range decodes closer to the value |
| `KQuantBlocks.QuantizeQ2Block` | convert_escha_to_gguf.py:253-308 | a block of values becomes fields that the Q2_K layout can hold |
| `KQuantBlocks.QuantizeQ4Block` | convert_escha_to_gguf.py:311-369 | a block of values becomes fields that the Q4_K layout can hold |
| `KQuantBlocks.QuantizeQ6Block` | convert_escha_to_gguf.py:372-428 | a block of values becomes fields that the Q6_K layout can hold: the fits of its groups, scaled by the largest, and every level the closest for its stored step |
| `KQuantBlocks.SubScaleInRange` | convert_escha_to_gguf.py:388-400 | the stored group scales fit a signed byte |
| `BlockPacking.Q2RoundTrip` | convert_escha_to_gguf.py:284-305 | ggml's reader gets back all levels, scales and offsets of a Q2_K block |
| `BlockPacking.Q2RoundTripBytes` | ggml/src/ggml-quants.c:1342-1372 | every 84 bytes are the packing of the block that is read from them |
| `BlockPacking.Q2ScaleBytes` | convert_escha_to_gguf.py:284-305 | which byte of a Q2_K block holds which scale and offset, as numbers |
| `BlockPacking.Q2LevelBytes` | convert_escha_to_gguf.py:296-305 | which byte holds which four levels |
| `BlockPacking.Q4RoundTrip` | convert_escha_to_gguf.py:342-366 | the 12-byte field gives back all eight scales and offsets, and the level bytes all 256 levels |
| `BlockPacking.Q4RoundTripBytes` | ggml/src/ggml-quants.c:1261-1268 | every 144 bytes are the packing of the block that is read from them |
| `BlockPacking.Q4ScaleBytes` | convert_escha_to_gguf.py:342-366 | the twelve scale bytes of a Q4_K block as numbers: six bits of the first four groups, the other groups split over nibbles and top bits |
| `BlockPacking.Q4LevelBytes` | convert_escha_to_gguf.py:359-366 | which byte holds which two levels |
| `BlockPacking.Q6RoundTrip` | convert_escha_to_gguf.py:409-425 | low nibbles and top bits give back all 256 six-bit levels |
| `BlockPacking.Q6RoundTripBytes` | ggml/src/ggml-quants.c:2320-2349 | every 210 bytes are the packing of the block that is read from them |
| `BlockPacking.Q6LowBytes` | convert_escha_to_gguf.py:409-415 | which byte of a Q6_K block holds the low nibbles of which two levels |
| `BlockPacking.Q6TopBytes` | convert_escha_to_gguf.py:416-419 | which byte holds the top bits of which four levels |
| `KQuantReading.DequantizeQ2` | ggml/src/ggml-quants.c:1342-1372 | ggml's reader loops give, at position i, step times level less offset with the scale and offset of group i / 16 of the block that is read |
| `KQuantReading.DequantizeQ4` | ggml/src/ggml-quants.c:1910-1934 | the same for Q4_K, with the 6-bit scale and offset of group i / 32 |
| `KQuantReading.DequantizeQ6` | ggml/src/ggml-quants.c:2320-2349 | the in-place reader writes every one of the 256 values, step times signed group scale times the level less 32 |
| `KQuantReading.QuantizeAndReadQ2` | convert_escha_to_gguf.py:253-308 | quantising a block of values, packing it and reading the bytes gives at each position the chosen level under the stored step and offset of its group, and, unless that step is zero, no level of the field comes closer to the value that went in |
| `KQuantReading.QuantizeAndReadQ4` | convert_escha_to_gguf.py:311-369 | the same for Q4_K, with groups of 32 |
| `KQuantReading.QuantizeAndReadQ6` | convert_escha_to_gguf.py:372-428 | the same for Q6_K, over levels from -32 to 31 and without an offset |
| `KQuantReading.Q2Decoded` | ggml/src/ggml-quants.c:1342-1372 | the value at each position of a block that holds quantised fields is the closest one to the value that was quantised, unless the step of its group is zero |
| `KQuantReading.Q4Decoded` | ggml/src/ggml-quants.c:1910-1934 | the same for Q4_K |
| `KQuantReading.Q6Decoded` | ggml/src/ggml-quants.c:2320-2349 | the same for Q6_K |
| `LowGpuCodes.CodeIsBits` | convert_escha_to_gguf.py:463-473 | code `j` of a row is bits 3j to 3j+2 of its bytes, least significant first |
| `LowGpuCodes.RowOfCodes` | convert_escha_to_gguf.py:463-473 | every row of bytes is the packing of its codes |
| `LowGpuCodes.CodesOfRow` | convert_escha_to_gguf.py:463-473 | every row of codes is read back from its packing |
| `LowGpuCodes.DequantAll` | convert_escha_to_gguf.py:834-840 | reading in chunks gives all rows at once, whatever the chunk size; no rows is an error |
| `BlockBatches.PackInBatches` | convert_escha_to_gguf.py:259-305 | row by row the buffer holds the packed blocks, whatever the batch size |
| `BlockBatches.PackQ2Blocks` | convert_escha_to_gguf.py:253-308 | every row of the buffer is the Q2_K packing of its block, and ggml's reader gets that block back from it |
| `BlockBatches.PackQ4Blocks` | convert_escha_to_gguf.py:311-369 | the same for Q4_K |
| `BlockBatches.PackQ6Blocks` | convert_escha_to_gguf.py:372-428 | the same for Q6_K |
| `LoraProduct.ProductReindexed` | convert_lora_to_gguf.py:34-53 | re-indexing B, and choosing columns of A, does the same to the product B·A |
| `LoraProduct.ProductElement` | convert_lora_to_gguf.py:34-53 | an element of the product is the sum of a row of B times a column of A, leading dimensions of size 1 broadcast |
| `LoraProduct.SumAdded` | convert_lora_to_gguf.py:34-53 | the sum is additive |
| `LoraProduct.SumOnly` | convert_lora_to_gguf.py:34-53 | a sum with one term that is not zero is that term |
| `LoraShapes.TransposeRefines` | convert_lora_to_gguf.py:168-180 | exchanging the transposed factors transposes the product |
| `LoraIndexing.IndexFactorsRefines` | convert_lora_to_gguf.py:98-112 | with one index for each dimension, indexing the factors is indexing the product |
| `LoraIndexing.EllipsisExact` | convert_lora_to_gguf.py:81-96 | an inner ellipsis is expanded to what it means exactly when the other indices are half of the dimensions, or fewer with only full slices behind it |
| `LoraIndexing.InnerEllipsisExample` | convert_lora_to_gguf.py:81-96 | on four dimensions an ellipsis and one index behind it index the second dimension, where they mean the last |
| `LoraIndexing.GetTupleRefines` | convert_lora_to_gguf.py:77-112 | a tuple that is understood (no ellipsis, a last one, or the case above) indexes the product |
| `LoraIndexing.TwoIntegersWrong` | convert_lora_to_gguf.py:98-112 | two trailing integers get through exactly for rank 1, indices in range and some other index in front, and then the result has one dimension too many |
| `LoraIndexing.TwoIntegersExample` | convert_lora_to_gguf.py:98-112 | an adapter of rank 1 on which two trailing integers get through, with two dimensions left instead of one |
| `LoraIndexing.GetItemExact` | convert_lora_to_gguf.py:67-71 | an integer index works for the first and last position only; there it indexes the product |
| `LoraIndexing.GetSliceExact` | convert_lora_to_gguf.py:72-76 | a slice along a leading dimension fits exactly when it keeps the one position of A, or none of B; then it slices the product |
| `LoraIndexing.LeadIndexExamples` | convert_lora_to_gguf.py:67-76 | of three leading positions the middle one and the last one, counted from the front, are refused, and slicing off the first leaves factors that do not fit |
| `LoraIndexing.GetRowsRefines` | convert_lora_to_gguf.py:72-76 | a slice of a matrix adapter takes rows of the product |
| `LoraShapes.ReshapeRefines` | convert_lora_to_gguf.py:136-160 | a reshape that keeps the last dimension, with -1 filled in, reshapes the product |
| `LoraShapes.PermuteRefines` | convert_lora_to_gguf.py:168-180 | a permutation that keeps the last dimension, or exchanges those of a matrix, permutes the product |
| `LoraShapes.PieceRefines` | convert_lora_to_gguf.py:190-206 | each piece of a split along any dimension, by one size or by a list of sizes, is that piece of the product |
| `LoraShapes.ScaleRefines` | convert_lora_to_gguf.py:211-219 | scaling B from the output side, with broadcasting either way, scales the product |
| `LoraRuns.StepRefines` | convert_lora_to_gguf.py:58-219 | one supported operation means that operation on the product and keeps rank and unit leading dimensions |
| `LoraRuns.RunRefines` | convert_lora_to_gguf.py:58-259 | any combination of supported operations on any number of adapters, concatenation and stacking included, gives an adapter whose product and shape equal the same combination of the dense products |
| `DenseMeaning.DenseMeans` | convert_lora_to_gguf.py:58-219 | every dense operation that the adapters are compared with is what it is called, element by element: an index selects, a slice reads every step-th position, a reshape keeps row-major order, a permutation moves indices, piece `which` of a split is shifted by the sizes before it, scaling multiplies |
| `DenseMeaning.PieceDenseMeans` | convert_lora_to_gguf.py:190-207 | the element of a piece is the element of the whole moved along the dimension by the sum of the sizes before it |
| `DenseMeaning.PiecesTile` | convert_lora_to_gguf.py:190-207 | the pieces of a split take the positions 0 to n - 1 once each, in order |
| `DenseMeaning.SizesSplit` | convert_lora_to_gguf.py:190-207 | equal pieces of the given size and a smaller last one, or the sizes as listed; they add up to the dimension |
| `DenseMeaning.SplitJoined` | convert_lora_to_gguf.py:190-207 | joining all pieces of a split along the first dimension gives the tensor back |
| `DenseMeaning.ReshapeOrdered` | convert_lora_to_gguf.py:136-160 | the element at a row-major position is the same before and after a reshape |
| `DenseMeaning.JoinMeans` | convert_lora_to_gguf.py:243-257 | an element of a concatenation is that of the tensor it falls into, behind the sizes of those in front |
| `DenseMeaning.StackingMeans` | convert_lora_to_gguf.py:234-242 | an element of a stack is that of the tensor its first index names |
| `DenseMeaning.StepSucceeds` | convert_lora_to_gguf.py:58-219 | a supported operation that succeeds on the product succeeds on the adapter; integer indices are those of `LoraIndexing.GetItemExact` |
| `LoraRuns.DenseSame` | convert_lora_to_gguf.py:58-219 | the dense operations do not tell equal tensors apart, so refinements compose |
| `LoraJoining.CatRefines` | convert_lora_to_gguf.py:253-257 | matrix adapters are concatenated exactly when they share A, and that concatenates their products |
| `LoraJoining.CatLeadExact` | convert_lora_to_gguf.py:248-252 | with leading dimensions the concatenated factors fit together exactly when there are as many leading positions as adapters (for adapters that are not empty: one each) or one adapter; then the product is the concatenation of the products |
| `LoraJoining.LeadJoinExample` | convert_lora_to_gguf.py:248-252 | two adapters of two experts each, whose concatenated factors do not fit |
| `LoraJoining.EmptyAdapterExample` | convert_lora_to_gguf.py:248-252 | an adapter without leading positions before one with two: the factors fit, and the product is wrong |
| `LoraJoining.JoinSame` | convert_lora_to_gguf.py:243-257 | concatenating tensors that are equal one by one gives equal tensors |
| `LoraJoining.StackRefines` | convert_lora_to_gguf.py:234-242 | stacking adapters of one shape stacks their products |
| `Tensors.PickedInside` | convert_lora_to_gguf.py:58-114 | a selection reads only inside the tensor |
| `Tensors.ReshapeWithin` | convert_lora_to_gguf.py:136-160 | a reshape to the same number of elements reads only inside the tensor |
| `Tensors.UnflatInside` | convert_lora_to_gguf.py:136-160 | row-major positions and indices correspond one to one |
| `Base64.Encode` | common/base64.hpp:80-144 | the encoder loop writes `Encoded`: four characters for three bytes, and the padding |
| `Base64.Decode` | common/base64.hpp:200-244 | the decoder loops compute `Decoded`: the bytes, or nothing on an error |
| `Base64.DecodeInPlace` | common/base64.hpp:294-312 | decoding into the buffer of the text gives what decoding elsewhere gives; whether or not it fails, the buffer then holds the bytes decoded up to there and behind them what it held before |
| `Base64.DecodedEmitted` | common/base64.hpp:200-244 | what decoding returns is what it has written |
| `Base64.RoundTrip` | common/base64.hpp:80-244 | decoding an encoding gives the data back, for both alphabets, explicit or detected, moderate or loose |
| `Base64.Vectors` | common/base64.hpp:80-144 | the test vectors of section 10 of RFC 4648 for f, fo, foo and foobar, and two bytes that show the alphabets apart |
| `Base64.BodyDecodes` | common/base64.hpp:200-244 | the same with any amount of padding |
| `Base64.EncodedSize` | common/base64.hpp:338-341 | the encoded length is the required encode size |
| `Base64.DecodedSize` | common/base64.hpp:324-327 | the output never exceeds the maximal decode size |
| `Base64.AutoIsUnion` | common/base64.hpp:344-389 | automatic detection accepts exactly what one of the two alphabets accepts, with the same bytes |
| `Base64.LooseExtends` | common/base64.hpp:231-241 | what moderate decoding accepts, loose decoding accepts with the same bytes |
| `Base64.AcceptedExactly` | common/base64.hpp:200-244 | under one alphabet a text is accepted exactly when all characters before the first padding belong to the alphabet and, in moderate decoding, only padding is behind them; n characters give 6n / 8 bytes |
| `Base64.DecodedEncodes` | common/base64.hpp:200-244 | whole groups of four characters that are accepted are the encoding of what they decode to |
| `Base64.DecodedPrefix` | common/base64.hpp:200-244 | the bytes of a beginning of a text are the first bytes of the whole |
| `Base64.ValueOfChar` | common/base64.hpp:344-389 | the value of a character written under an alphabet, read under it or under detection |
| `GgmlFile.FileRead` | convert_llama_ggml_to_gguf.py:59-200 | loading what a writer wrote, in any of the three formats, gives back hyperparameters, vocabulary and tensor directory, also when any number of bytes of the last tensor is missing |
| `GgmlFile.Model.Load` | convert_llama_ggml_to_gguf.py:180-200 | loading sets the fields to what is in the file, fails without the feed-forward tensor, leaves them alone when the file does not load, and does not end when the scan does not |
| `GgmlFile.LoadVocab` | convert_llama_ggml_to_gguf.py:84-98 | the loop reads the items one after the other, or fails at the first that cannot be read |
| `GgmlFile.FileInOrder` | convert_llama_ggml_to_gguf.py:180-200 | in any file that loads, every byte range starts behind the vocabulary and at least twelve bytes behind the end before it, on 32-byte boundaries in the newest format, and all but the last end before the end of the data; the ranges are in order if and only if no number of bytes has the sign bit modulo 2^64 |
| `GgmlFile.EndlessWrapped` | convert_llama_ggml_to_gguf.py:189-194 | a file whose scan never ends has a count that wrapped around to a negative number |
| `GgmlFile.EndlessExample` | convert_llama_ggml_to_gguf.py:124-131 | a file of 96 bytes whose one entry sends the scan back to its own start, for ever |
| `GgmlFile.NegativeCountExample` | convert_llama_ggml_to_gguf.py:124-131 | a file that loads although its one range ends before it starts |
| `GgmlFile.MissingBytesExample` | convert_llama_ggml_to_gguf.py:180-200 | a file that loads without any byte of its only tensor |
| `GgmlScan.ScanTensors` | convert_llama_ggml_to_gguf.py:189-194 | the loop, with an offset that may go backwards and in front of the data, computes the directory, or tells that it does not end |
| `GgmlScan.EndlessExact` | convert_llama_ggml_to_gguf.py:189-194 | the scan does not end if and only if it comes to some offset twice; 2n + 1 rounds over n bytes decide it |
| `GgmlScan.StepAdvances` | convert_llama_ggml_to_gguf.py:124-131 | a round goes forward exactly when the range ends behind the offset and the 64-bit sum does not wrap around |
| `GgmlScan.AdvancingEnds` | convert_llama_ggml_to_gguf.py:189-194 | the scan ends when every round goes forward |
| `GgmlScan.FittingEnds` | convert_llama_ggml_to_gguf.py:189-194 | the scan ends when no count that it comes to has the sign bit |
| `GgmlScan.DirectoryInOrder` | convert_llama_ggml_to_gguf.py:110-131 | the order of the ranges, as for a file, for any directory that is read from any offset |
| `GgmlEntries.CountExact` | convert_llama_ggml_to_gguf.py:126-128 | the 64-bit byte count is the true one if and only if the blocks have fewer than 2^63 bytes, and negative if and only if their number of bytes modulo 2^64 is at least 2^63, wherever on the way products wrapped around |
| `GgmlEntries.TensorRead` | convert_llama_ggml_to_gguf.py:110-131 | the fields of a written tensor give its entry back |
| `GgmlEntries.ReadWords` | convert_llama_ggml_to_gguf.py:110-120 | little-endian words are read back from where they were written |
| `GgmlFile.HeaderRead` | convert_llama_ggml_to_gguf.py:145-166 | each written header gives its format and version back |
| `GgmlFile.HeaderExact` | convert_llama_ggml_to_gguf.py:145-166 | a header is accepted exactly when its bytes are one of the known magic numbers and versions |
| `GgmlFile.BuildMap` | convert_llama_ggml_to_gguf.py:189-194 | a name is in the table exactly when an entry has it, and with the last index of such an entry |
| `CsvRow.ParseCsvRow` | common/arg.cpp:1513-1555 | the character loop computes `Fields` |
| `CsvRow.RowRead` | common/arg.cpp:1509-1555 | reading a row of quoted fields, with any characters, and of plain ones, with any but commas and no quote in front, gives exactly the fields back |
| `CsvRow.FieldCount` | common/arg.cpp:1513-1555 | there is one field more than commas met outside quotes |

## Left out

Not modelled:

- The PEG engine, the Jinja runtime, the JSON library and the schema-to-grammar translation: the mapper's events and
  the printers' syntax trees are inputs, and JSON string escaping is a function on characters.
- The per-model chat parameter builders, the autoparser generator and the heuristics of the diff analyzer.
- Option tables, downloads, environment handling, logging, GGUF writing and the checkpoint readers.
- UTF-8 validity: text is a sequence of characters, or of byte codes in the codecs.
- Floating-point rounding, half precision and numpy types: the searches work on exact reals, and storing a half is a
  parameter of the block quantisers. The square roots in the weights are not computed; weights are inputs.
- `until_common_prefix`, `after_common_suffix` and the trimming helpers beside the template split: a search for a
  substring each, which would add only easy members.
- The codebook table and tensor reconstruction of the escha codec, which are bit tricks without a stated promise.
- Dropping reasoning that is only white space at the end of a parse (common/chat-peg-parser.cpp:302-314).
- Vectorisation: the searches are modelled for one row; that rows do not influence each other is proved where the
  code lets them (`QpQuants.SweepAllRows`), the other searches use no value of another row.
- Library calls: `std::stable_sort` is an insertion sort that is proved stable, sums and maxima over a row are
  functions, and the in-place message list of `SortToolResults` is a local sequence that the loop reassigns.

Contracts that say less than the code does:

- ToolCallMapper.PegMapper.Map: events for a call that was discarded are excluded until the next tool opens, because
  the code then holds a pointer to a call that no longer exists.
- ToolCallRuns.CallAssembled: the value nodes of one argument are all strings or all raw, because only then is there
  an object to compare with; `ToolCallRuns.CallBuilt` gives the text for any mixture.
- MessageDelta.ComputeDiffs: the texts that an error message quotes are not modelled.
- DenseMeaning.StepSucceeds: tuples are left out; they succeed where indexing the factors does, which is stated
  with each of them.
- MessageStreams.PollsReconstruct: an incomplete node is a beginning of the complete one for texts, names, whole
  arguments and values; a name that is only white space so far, and incomplete argument names, are not polled.
- KQuantBlocks.QuantizeQ2Block: the half-precision encoding is a parameter, so the contract does not say how far the
  stored step is from the exact one; the same holds for QuantizeQ4Block and QuantizeQ6Block. Reading a half is a
  parameter of the readers in `KQuantReading` too.
- LoraIndexing.GetTupleRefines: index tensors inside a tuple are not modelled.
- LoraShapes.ReshapeRefines: the dense reshape is to the shape after every -1 is filled in, also where the dense
  operation would refuse more than one; the rank is positive.
- LoraShapes.ScaleRefines: a factor with more dimensions than the adapter is an error, as in the constructor; the
  dense operation would then have those dimensions too.
- LoraRuns.RunRefines: what is operated on or joined has unit leading dimensions in A, which only stacking and
  joining along a leading dimension undo (`StaysUnit`), each operation is within the conditions of `Supported`, and
  ranks are positive.
- LoraJoining.CatLeadExact: when the counts agree although some adapter is empty, the product can be wrong
  (`LoraJoining.EmptyAdapterExample`); when it happens to be right depends on the numbers in the factors.
- GgmlScan.DirectoryInOrder: files are shorter than 2^60 bytes, here and in the other results on order and
  termination, so that offsets of entries that are read do not wrap around themselves.
- GgmlFile.Model.Load: which exception is raised is not modelled, and scores are four raw bytes.
