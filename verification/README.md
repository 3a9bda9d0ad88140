# Verified models of the converter, chat and codec cores

A Dafny model of the self-contained algorithms of the repository, with proofs of what they promise.
`dafny verify dfyconfig.toml` checks everything. Where the code does not meet its own promise, the model
keeps the code, a lemma gives an input on which the promise fails, and another lemma states exactly when
it holds.

## What is modelled

**LoRA tensor algebra** (`convert_lora_to_gguf.py`). A weight `W = B @ A` is kept as its two factors. `Tensors.dfy`
has dense tensors (row-major buffer and shape, exact arithmetic) and the torch operations used, `TorchLaws.dfy` what
they mean entry by entry; `Lora.dfy`, `LoraPieces.dfy`, `LoraSplitAxis.dfy`, `LoraJoin.dfy`, `LoraCat.dfy` and
`LoraChain.dfy` have the operations on factors, with `Materialise` as the meaning of a pair; the chains of
`LoraChain.dfy` include indexing, which is in `Selections.dfy` (dense), `LoraIndex.dfy`, `LoraGetitem.dfy`,
`LoraTuples.dfy` and `LoraEllipsis.dfy`. `SplitSizes.dfy` has the pieces of a split one by one, `LoraAccepts.dfy`
exactly which operations are accepted, and `LoraWitnesses.dfy` inputs on which an accepted operation is wrong. A pair
is `Valid` when the leading axes of A are those of B or have length one; a result that is not `Valid` does not stand
for the tensor its shape property reports.

**Differential splitter** (`common/chat-auto-parser-helpers.cpp`): `Segments.dfy`, `Affixes.dfy`, `DiffSplit.dfy`, and
`DiffTight.dfy` (nothing shared is left in the middle). The splitter loses text on some inputs; the exact condition is
`DiffSplit.CountsTwice`, and the variant whose post-loop branches are skipped for a used-up side never does.

**Streaming chat output**. `JsonText.dfy` (string escaping, section 7 of RFC 8259, and the brace scanner),
`Quotes.dfy` and `QuoteLaws.dfy` (the Python-quote normaliser), `Ast.dfy`, `GemmaJson.dfy` and `MiniMaxJson.dfy`
(argument emitters) and `Streaming.dfy` (the Gemma 4 and MiniMax M3 mappers); `ToolMapper.dfy`, `MapperReads.dfy`,
`MapperOrder.dfy`, `MapperRuns.dfy`, `MapperObject.dfy`, `MapperStream.dfy` and `MapperTrees.dfy` (the tag-driven
mapper that the other formats use); `MessageDiff.dfy` and `DiffLaws.dfy` (deltas and their replay) and `Pipeline.dfy`,
which joins them: growing parse trees give growing messages, whose deltas rebuild the last message. `StreamCuts.dfy`
has cuts of an output as instances. At the end of a cut output the engine reports characters, repetitions and text
before a possible delimiter as complete, and keeps nodes of alternatives that were only tried. So growth (`Ast.Grows`)
makes only nodes with a closing mark final, and lets nodes that write nothing yet go again. The tag-driven mapper
visits enclosing nodes before what they enclose, so a parse is compared by what is read of it (`MapperReads.Digest`):
texts of wrapping nodes do not matter.

What is written is read back by readers that know nothing of the writers. `JsonReader.dfy` is a reader of JSON (RFC
8259), and `GemmaReads.dfy`, `MiniMaxReads.dfy` and `MapperCalls.dfy` show that it gets from finished arguments the
values that the nodes stand for; for cut ones, `GemmaCuts.dfy` and `MiniMaxCuts.dfy` show that only closing marks are
missing. `QuoteTokens.dfy` compares a reader of Python literals on the input of the normaliser with one of JSON on its
output, `BraceCount.dfy` counts braces by the same tokens, and `VisitorCalls.dfy` says what the visiting mappers make
of each node.

**Ordering and grammar pieces**. `Delimiters.dfy` (splitting at role delimiters), `ToolResults.dfy` and `ToolLaws.dfy`
(stable reordering of tool results), `Masks.dfy`, `Peg.dfy`, `Permute.dfy` and `PermuteOrders.dfy` (the any-order
grammar and what it parses).

**Codecs, files and retries**. `Base64.dfy` and `Base64Laws.dfy` (the alphabets and bits of RFC 4648), `CsvRow.dfy`,
`GgmlBytes.dfy`, `GgmlFile.dfy`, `GgmlLoader.dfy` and `GgmlRefusals.dfy` (the legacy GGML, GGMF and GGJT files),
`FitRetry.dfy`.

Loops that change variables are methods proved against specification functions; objects whose methods change their
fields are classes; the remaining members are functions and lemmas about them.

## Findings

Each entry names the lemma with the failing input and, where it is another one, the lemma with the exact condition.

- `calculate_diff_split` reports no difference between `<a><b>` and `<a><b><b>`: a side used up by the loop
  is consumed again by the branches after it (`DiffSplit.CountsTwiceWitness`, `DiffSplit.SplitConservesExactlyWhen`).
- `reshape` of a rank-0 pair may change the number of entries of W unnoticed (`LoraWitnesses.EmptyRankReshapes`),
  and several lengths of -1, which torch refuses, are all taken for the missing one
  (`LoraWitnesses.SeveralInferredReshape`); nothing else goes wrong (`Lora.ReshapeCommutes`).
- `permute` and `split` can accept axis numbers outside `-ndim` to `ndim - 1` that torch refuses
  (`LoraWitnesses.WrongAxisPermutes`, `Lora.PermuteCommutes`; `LoraWitnesses.WrongAxisSplits`,
  `LoraSplitAxis.SplitExactlyWhen`).
- `__getitem__` expands an ellipsis to as many axes as the tuple has other entries, whatever the number of
  axes: on three axes `W[..., s]` slices rows (`LoraEllipsis.LastAxisSliceIsWrong`,
  `LoraEllipsis.EllipsisRightExactlyWhen`), and with more than half as many other entries as axes it is refused
  (`LoraTuples.UsedWhenDotsInside`).
- A range on a leading axis that A also carries is applied to B alone (`LoraWitnesses.LeadingRangeIsDropped`,
  `LoraGetitem.FullExactlyWhen`).
- `cat` of three-axis parts can give a pair that is no weight (`LoraWitnesses.BroadcastPartsMisfit`,
  `LoraJoin.CatExactlyWhen`), and with an empty part one that is a weight and the wrong one
  (`LoraWitnesses.EmptyPartMisleadsCat`, `LoraCat.CatRightExactlyWhen`).
- A token skip that begins inside an earlier one is never met and keeps every later skip from being taken
  (`Delimiters.OverlapBlocksLaterSkips`, `Delimiters.SkipsRespectedExactlyWhen`).
- The any-order grammar can report that it needs more input although another ordering is complete
  (`PermuteOrders.OverlapHidesOrder`, `PermuteOrders.OrderHiddenExactlyWhen`).
- A streamed argument value cut inside a word that may still become a Python literal can be taken back, so that no
  delta rebuilds it (`MapperStream.CutWordRetracts`, `MapperStream.GrownNodeExactlyWhen`).
- The normaliser passes an escaped apostrophe in double quotes on as it is, and `\'` is no JSON escape
  (`QuoteTokens.ApostropheWitness`, `QuoteTokens.NormalizeKeepsTokensExactlyWhen`).
- A MiniMax M3 argument with several types may begin as one of them and turn out to be another, and what was written
  is then taken back (`StreamCuts.UnionRetracts`, `StreamCuts.UnionExactlyWhen`).
- `GGMLModel.load` accepts a file whose last tensor is cut short; it then stops beyond the end of the data
  (`GgmlFile.SmallestFileIsCut`, `GgmlFile.StopsAtEndExactlyWhenWhole`).

`common/fit-kvarn-tail.h` says that candidate identities are kept until one is accepted; the code has no statement
that clears them, so in the model they stay (`FitRetry.RejectedStayRejected`).

## Model

| member | source | states |
|---|---|---|
| Tensors.CatOfSplit | convert_lora_to_gguf.py:190-206 | whatever their sizes, the chunks of a split along an axis concatenate back to the tensor |
| SplitSizes.SplitEach | convert_lora_to_gguf.py:190-206 | with one size s and an axis of n entries the pieces number ceil(n/s), one if n is 0; piece i shows min(s, n - i s) entries from i s on; s = 0 is refused unless n is 0 |
| SplitSizes.SplitListed | convert_lora_to_gguf.py:190-206 | listed sizes are accepted exactly when they fill the axis, and piece i shows as many entries as the i-th size says, after those of the pieces before it |
| SplitSizes.LoraSplitEach | convert_lora_to_gguf.py:190-206 | the factored split has those pieces of W, each a valid pair, and is accepted in the same cases |
| SplitSizes.LoraSplitListed | convert_lora_to_gguf.py:190-206 | the same for listed sizes |
| TorchLaws.RowMajor | convert_lora_to_gguf.py:136-160 | the buffer that a reshape keeps holds the entries in the order of their indices, the first axis deciding first |
| TorchLaws.PermuteMeans | convert_lora_to_gguf.py:168-179 | a dense permute accepts exactly the lists that name every axis once, from either end; axis i of the result is axis dims[i] of the tensor, in length and for every entry |
| TorchLaws.SelOfMeans | convert_lora_to_gguf.py:64-112 | which subscripts an axis accepts, and that a range shows every step-th entry between its clipped bounds and no other |
| TorchLaws.SelectedMeans | convert_lora_to_gguf.py:64-112 | numbers drop their axis; each axis that stays has the length of its range and shows its positions |
| LoraAccepts.ReshapeDenseMeans | convert_lora_to_gguf.py:144-149 | a dense reshape keeps the buffer and gives the one shape that has the lengths asked for and as many entries, if one length at most is open and none is 0 beside it |
| LoraAccepts.ReshapeAccepts | convert_lora_to_gguf.py:136-160 | with entries in both factors and at most one -1, a factored reshape is accepted exactly when W accepts it, two axes or more are asked for, W's last axis stays, and A has no leading axes but of length one |
| LoraAccepts.PermuteAccepts | convert_lora_to_gguf.py:168-179 | of the permutations W accepts, exactly those are accepted that leave the last axis where A has no leading axes but of length one, or transpose a matrix |
| LoraAccepts.TransposeAccepts | convert_lora_to_gguf.py:181-185 | which pairs of axes are accepted: all on a matrix; otherwise both or neither must be the last, and A without leading axes |
| LoraAccepts.TransposeMeans | convert_lora_to_gguf.py:181-185 | a dense transpose swaps the two axes in the shape and in every index |
| LoraAccepts.ScaleAccepts | convert_lora_to_gguf.py:211-219 | exactly the numbers and column-shaped operands that broadcast with B without adding axes are accepted |
| LoraAccepts.StackAccepts | convert_lora_to_gguf.py:234-242 | exactly non-empty lists with equal shapes of all A and of all B |
| LoraAccepts.CatAccepts | convert_lora_to_gguf.py:243-259 | exactly non-empty lists in which all axes of both factors but the first agree, or, for matrices, those of B, and A is the same throughout |
| LoraAccepts.FullAccepts | convert_lora_to_gguf.py:94-112 | a subscript for every axis is accepted exactly when W accepts each and rows and columns are both ranges, or both numbers where the last kept leading axis of A happens to have the length of the rank |
| Lora.ReshapeCommutes | convert_lora_to_gguf.py:136-160 | an accepted factored reshape gives a pair whose product is the reshaped W, if and only if at most one length is -1 and the rank is positive or the number of entries is unchanged |
| Lora.PermuteCommutes | convert_lora_to_gguf.py:168-179 | an accepted factored permute gives a pair whose product is the permuted W, if and only if every axis number is one torch accepts |
| Lora.TransposeCommutes | convert_lora_to_gguf.py:181-185 | an accepted transpose of the factors transposes W, for any two axes |
| Lora.ProductTransposed | convert_lora_to_gguf.py:176-177 | the transpose of B A is the transpose of A times the transpose of B |
| LoraPieces.SplitCommutes | convert_lora_to_gguf.py:190-206 | along any axis torch knows, a factored split is accepted exactly when that of W is; its pieces are valid, their products are the chunks of W, and these concatenate to W; the rows on `SplitSizes` say which chunks |
| LoraSplitAxis.SplitExactlyWhen | convert_lora_to_gguf.py:190-206 | for every axis number: an accepted split is right in that sense if and only if torch knows the axis |
| LoraJoin.ScaleCommutes | convert_lora_to_gguf.py:211-219 | multiplying B by a number or a column-shaped factor multiplies W by it, with broadcasting; whatever is accepted is right |
| LoraJoin.StackCommutes | convert_lora_to_gguf.py:234-242 | stacking the factors stacks the products |
| LoraJoin.CatCommutes | convert_lora_to_gguf.py:243-259 | first-axis concatenation of the factors, or of the B factors over one common 2-D A, concatenates the products |
| LoraJoin.CatExactlyWhen | convert_lora_to_gguf.py:248-252 | with three or more axes the concatenated pair is valid if and only if the first axis of the concatenated A is one or that of the concatenated B; for two or more non-empty parts, if and only if no A factor broadcasts there |
| LoraCat.CatRightExactlyWhen | convert_lora_to_gguf.py:243-252 | an accepted concatenation of parts with three or more axes is right for all weights of these shapes if and only if no A factor broadcasts along the first axis, or the A factors have one row in all, or as many as the B factors while W has no entry or the rank is 0 |
| LoraWitnesses.BroadcastPartsMisfit | convert_lora_to_gguf.py:248-252 | an accepted concatenation of two parts, each with one leading entry in A for two in B, that is no weight |
| LoraWitnesses.EmptyPartMisleadsCat | convert_lora_to_gguf.py:248-252 | an empty part and a part of two rows whose accepted concatenation is a weight and not the concatenation of the products |
| LoraChain.StepExactlyWhen | convert_lora_to_gguf.py:64-219 | an accepted operation on the factors is right (a weight, accepted by W too, with the same result) if and only if it is fair: the conditions of the rows above, one for each operation |
| LoraChain.StepKeepsWeight | convert_lora_to_gguf.py:136-219 | accepted reshape, permute, transpose and scaling keep the pair a valid weight even where they are not right; chunks and indexing keep it where they are |
| LoraChain.ChainCommutes | convert_lora_to_gguf.py:64-219 | any accepted chain of fair operations (reshape, permute, transpose, scaling, taking a chunk of a split, indexing with or without an ellipsis) is accepted by W too and gives the same tensor |
| LoraChain.RankMakesFair | convert_lora_to_gguf.py:64-219 | with positive rank the shapes alone make a chain fair: axis numbers that torch knows, one -1 at most in a reshape, and subscripts that are faithful and show the same entries as the ones meant; no condition on entry counts or entries is left |
| LoraIndex.SelectionCommutes | convert_lora_to_gguf.py:98-112 | selecting rows of B, columns of A and matching leading parts of both selects the same part of W |
| LoraGetitem.FullExactlyWhen | convert_lora_to_gguf.py:94-112 | with a subscript for every axis, an accepted result stands for the same part of W if and only if rows and columns are ranges and each leading range keeps its whole axis or meets a length-one axis of A |
| LoraGetitem.NumberCommutes | convert_lora_to_gguf.py:67-71 | a single number is accepted exactly when both factors have that entry on three or more axes, and then selects it from W |
| LoraGetitem.RowSliceCommutes | convert_lora_to_gguf.py:75-76 | on two axes a slice of B's rows is that slice of W's rows |
| LoraGetitem.SliceExactlyWhen | convert_lora_to_gguf.py:72-74 | on three or more axes a slice of both factors is right if and only if A carries the first axis, or keeps its single entry, or nothing is kept |
| LoraTuples.PlainTupleExactlyWhen | convert_lora_to_gguf.py:77-112 | a tuple without an ellipsis leaves the axes it does not mention whole, and is right if and only if it is faithful in the sense above |
| LoraEllipsis.EllipsisRightExactlyWhen | convert_lora_to_gguf.py:77-112 | an accepted tuple with an ellipsis inside is right for all weights of these shapes if and only if the subscripts used are faithful and show the same entries, in the same places, as the ones meant; with rank 0 the shape is enough |
| LoraTuples.EllipsisExactlyWhen | convert_lora_to_gguf.py:81-96 | as a list of subscripts, the expansion used is the one meant if and only if the axes number twice the other entries or only whole axes follow the ellipsis; different lists may still select the same part |
| LoraTuples.DotsTupleExactlyWhen | convert_lora_to_gguf.py:77-112 | any accepted tuple with one ellipsis is right for a weight if and only if the subscripts used are faithful and select from W what the ones meant select |
| LoraTuples.UsedWhenDotsInside | convert_lora_to_gguf.py:81-96 | an ellipsis before the last place is refused when the other entries are more than half the axes, and otherwise stands for as many axes as there are other entries |
| LoraTuples.LastAxisSliceTakesRows | convert_lora_to_gguf.py:81-96 | on three axes a slice after an ellipsis is read as a slice of the row axis, where the last is meant |
| LoraEllipsis.LastAxisSliceIsWrong | convert_lora_to_gguf.py:81-96 | a weight of two rows and two columns for which that is accepted and the result is not the part asked for |
| LoraWitnesses.EmptyRankReshapes | convert_lora_to_gguf.py:136-160 | a rank-0 pair of two rows accepted as three rows, which dense reshape refuses |
| LoraWitnesses.SeveralInferredReshape | convert_lora_to_gguf.py:144-149 | a rank-1 pair accepted for the shape (-1, -1, 1), which torch refuses |
| LoraWitnesses.WrongAxisPermutes | convert_lora_to_gguf.py:168-171 | a three-axis pair permuted with axis 4, which dense permute refuses |
| LoraWitnesses.WrongAxisSplits | convert_lora_to_gguf.py:190-206 | a three-axis pair split along axis -6, which dense split refuses |
| LoraWitnesses.LeadingRangeIsDropped | convert_lora_to_gguf.py:98-112 | an accepted range on a leading axis that leaves factors whose leading axes no longer match |
| Segments.SegmentizeMarkers | common/chat-auto-parser-helpers.cpp:269-299 | the one-pass loop computes the recursive segmentation |
| Segments.SegmentsRebuildText | common/chat-auto-parser-helpers.cpp:269-299 | the segments concatenate to the text and divide it properly: a marker is one bracket run closed by its own bracket, a text has no opener or is a run left unclosed at the end, and two texts adjoin only where the second is that run; only the empty text has no segment |
| Segments.SegmentationUnique | common/chat-auto-parser-helpers.cpp:269-299 | every proper division of a text is the one segmentize_markers makes |
| Affixes.CommonPrefixLen | common/chat-auto-parser-helpers.cpp:69-76 | length of the longest common prefix: equal before it, different at it |
| Affixes.CommonSuffixLen | common/chat-auto-parser-helpers.cpp:78-85 | length of the longest common suffix, by the same two conditions from the end |
| Affixes.UntilMeans | common/chat-auto-parser-helpers.cpp:210-234 | the first search gives what stands before the first place of all that both sides begin with, and nothing if they share no beginning or it is not there |
| Affixes.AfterMeans | common/chat-auto-parser-helpers.cpp:236-267 | the second gives what stands after the last place of all that both sides end with |
| Affixes.AfterMirrorsUntil | common/chat-auto-parser-helpers.cpp:210-267 | the two searches are mirror images: reversing all inputs of one reverses the result of the other |
| DiffSplit.MatchSegments | common/chat-auto-parser-helpers.cpp:102-139 | the four-iterator loop closes in as the recursive specification does |
| DiffSplit.CalculateDiffSplit | common/chat-auto-parser-helpers.cpp:87-207 | the loops and branches compute the specified split; prefix, part and suffix rebuild both inputs if and only if neither side is counted twice |
| DiffTight.SplitIsTight | common/chat-auto-parser-helpers.cpp:87-207 | for non-empty inputs that are not counted twice the difference is minimal: the remainders share no first or last segment where both still have one, and no first or last character where both begin or end in text; then the two repairs |
| DiffTight.EqualInputs | common/chat-auto-parser-helpers.cpp:87-207 | equal inputs are all prefix |
| DiffTight.EmptyInput | common/chat-auto-parser-helpers.cpp:87-207 | an empty input leaves the other one as its part |
| DiffSplit.SplitConservesExactlyWhen | common/chat-auto-parser-helpers.cpp:114-207 | for all pairs of texts: conserved if and only if it is not the case that a post-loop branch fires with just one side used up by the loop, save where the final repair restores the inputs |
| DiffSplit.GuardedSplitConserves | common/chat-auto-parser-helpers.cpp:114-207 | with the branches skipped for a used-up side, both inputs are always conserved |
| DiffSplit.CountsTwiceWitness | common/chat-auto-parser-helpers.cpp:111-165 | a concrete pair on which the code as written drops a tag |
| JsonText.QuotedReadsBack | common/chat-peg-parser.cpp:73-84 | a reader of JSON strings gets back exactly the text that was escaped, and what followed it |
| JsonText.JsonBraceDepth | common/chat-peg-parser.cpp:44-70 | the loop computes the depth that the string-aware scanner reaches |
| BraceCount.DepthCountsBraces | common/chat-peg-parser.cpp:44-70 | that depth is the number of opening braces less that of closing ones among the JSON tokens outside strings |
| JsonText.QuotedStays | common/chat-peg-parser.cpp:44-84 | a quoted string neither changes the depth nor leaves a string open, whatever it contains |
| Quotes.NormalizeQuotes | common/chat-peg-parser.cpp:86-188 | the loop with its look-ahead computes the recursive normaliser |
| QuoteTokens.NormalizeKeepsTokensExactlyWhen | common/chat-peg-parser.cpp:86-188 | a JSON reader of the output sees the tokens that a Python reader sees in the input (True, False and None by their JSON names, whole or cut, strings with the same content, other text unchanged), if and only if no apostrophe is escaped in double quotes |
| QuoteTokens.ApostropheWitness | common/chat-peg-parser.cpp:98-181 | a string for which it fails |
| QuoteLaws.NormalizeIdempotent | common/chat-peg-parser.cpp:86-188 | normalising twice is normalising once, on every string |
| QuoteLaws.NormalizeMonotoneExactlyWhen | common/chat-peg-parser.cpp:98-181 | the output for a cut text is a prefix of the output for the whole, if and only if the continuation does not revise an undecided end: an escape pending in single quotes or a literal word outgrown |
| QuoteLaws.NormalizeKeepsStructure | common/chat-peg-parser.cpp:44-188 | the JSON scanner sees in the output the same depth and open string as a Python scanner sees in the input |
| Ast.FindGrows | common/peg-parser.cpp:136-149 | a name or argument node found by tag in a tree is found again, possibly grown, when the tree grows along its last spine, also where complete nodes grow and tried ones go |
| GemmaJson.GemmaGrows | common/chat-peg-parser.cpp:964-1057 | as a tree grows, the emitted argument text grows only by appending, also where the cut is inside a key, before a possible delimiter or before a value that is not a string |
| GemmaJson.FinishedBalances | common/chat-peg-parser.cpp:964-1057 | a finished tree emits text with balanced braces and no open string |
| GemmaReads.GemmaReadsBack | common/chat-peg-parser.cpp:964-1057 | a JSON reader gets from the text of a finished tree of the grammar the value it stands for: numbers, booleans and null by their text, strings by their content, arrays and objects by their elements and keys in order |
| GemmaCuts.CutReadsBack | common/chat-peg-parser.cpp:964-1057 | for a tree cut at its end, closing marks alone are missing before the text reads as all that the tree holds |
| VisitorCalls.MessageInOrder | common/chat-peg-parser.cpp:1059-1105 | what each node adds to the message of a visiting mapper: reasoning, content, its call, or what is inside, before what follows |
| VisitorCalls.GemmaCallReadsBack | common/chat-peg-parser.cpp:1073-1105 | a Gemma 4 call has its name, and arguments that read as the members of its dictionary in order |
| VisitorCalls.CutGemmaCallReadsBack | common/chat-peg-parser.cpp:1073-1105 | the same with closing marks added where the arguments are cut |
| MiniMaxReads.ValueReadsBack | common/chat-peg-parser.cpp:1127-1198 | for every nest of values, the text written for the nodes that the grammar makes of it reads back as that nest |
| MiniMaxReads.CallReadsBack | common/chat-peg-parser.cpp:1200-1234 | a finished MiniMax M3 call has its name, and arguments that read as one object of all members in order |
| MiniMaxCuts.CutCallReadsBack | common/chat-peg-parser.cpp:1127-1234 | the same with closing marks added where the call is cut |
| MiniMaxJson.ContainerGrows | common/chat-peg-parser.cpp:1127-1198 | the same for objects and arrays of the MiniMax emitters, also where the cut is between entries or a tried entry goes again; a container closes only once it is final |
| MiniMaxJson.EntryGrows | common/chat-peg-parser.cpp:1127-1135 | members and items grow only by appending |
| MessageDiff.ComputeDiffsInto | common/chat.cpp:266-332 | the vector-filling code computes the specified deltas or the same error |
| DiffLaws.DiffsExactly | common/chat.cpp:56-332 | which error compute_diffs gives and exactly when, and otherwise which deltas, in which order: one for each text that changed, one for the last earlier call with name and id only if one is new, and every new call whole |
| MessageDiff.ReplayExactlyWhen | common/chat.cpp:56-332 | deltas exist and replaying them gives the new message, if and only if it continues the previous one: texts by prefix, earlier calls frozen, the last call by prefix |
| MessageDiff.StreamReplays | common/chat.cpp:56-332 | over any continuing stream no delta fails and folding all of them gives the last message |
| Streaming.VisitAllGrows | common/chat-peg-parser.cpp:1059-1234 | a growing parse yields a message that continues the previous one, for both formats; nodes at the end that add nothing may be gone |
| Pipeline.PipelineReplays | common/chat-peg-parser.cpp:286-1234 | end to end, for the Gemma 4, MiniMax M3 and tag-driven mappers: from the empty message, the deltas of all growing parse trees rebuild the message of the last parse |
| StreamCuts.KeyCutGrows | common/chat.cpp:1573-1580 | such a step: a Gemma 4 call cut inside a key, for any key and any longer one |
| StreamCuts.ValueCutGrows | common/chat-peg-parser.cpp:967-1057 | such a step: the empty string node that the first alternative leaves before a value makes place for the value, of any rule |
| StreamCuts.MarkerCutGrows | common/peg-parser.cpp:690-700 | such a step for all three mappers: content cut before what may be a marker goes on, and the nodes tried for the marker are gone |
| StreamCuts.ArrayEndGrows | common/chat.cpp:2845-2852 | such a step: a MiniMax M3 array cut in a tag that may open an item and then closes the array |
| StreamCuts.UnionRetracts | common/chat.cpp:2822-2836 | an argument whose object alternative gives way to a number, and whose message is not continued |
| StreamCuts.UnionExactlyWhen | common/chat.cpp:2822-2836 | when another alternative takes the place of a value, the message continues if and only if what was written of the first begins what is written of the second |
| ToolMapper.FlushNeverFires | common/chat-peg-parser.cpp:286-458 | in every run a pending call has no name, so neither the flush after the visit nor a close of a pending call ever emits one |
| MapperRuns.StepKeeps | common/chat-peg-parser.cpp:317-458 | every node of a well-formed stream keeps the invariant: open string exactly when a closing quote is due, finished calls settled |
| MapperReads.DigestRuns | common/chat-peg-parser.cpp:317-458 | a run depends on nothing but the nodes with an effect, and of opening and closing nodes on the tag alone |
| MapperRuns.WellFormedRuns | common/chat-peg-parser.cpp:286-458 | where the read nodes are well-formed, every emitted call is named, every call but the open one has balanced braces and no open string, and after a close or whole JSON arguments all have |
| MapperRuns.CutRuns | common/chat-peg-parser.cpp:286-458 | the same but for the call being written wherever the output is cut, also inside JSON arguments: earlier calls are balanced, all are named unless the cut is before a name |
| MapperCalls.CallsAsRead | common/chat-peg-parser.cpp:317-458 | where the read nodes are well-formed the calls shown are those read: each with its name and id, and with arguments that are "{", the members (quoted key, colon, value text) with one comma between neighbours, and "}", or the JSON text that came whole; the call still open likewise as far as it goes |
| MapperCalls.MessageAsRead | common/chat-peg-parser.cpp:286-315 | the message of a finished stream has the texts read, without reasoning that is blank, and those calls |
| MapperCalls.ArgumentsReadBack | common/chat-peg-parser.cpp:387-458 | a JSON reader gets from the arguments of a call the trimmed names and the values of its members in order |
| MapperCalls.TrimExactlyWhen | common/chat-peg-parser.cpp:14-40 | trimming takes one white space at the beginning and all at the end, and nothing else |
| MapperCalls.TrimTrailingExactlyWhen | common/chat-peg-parser.cpp:14-24 | trimming the end takes all white space there and nothing else |
| MapperCalls.UnquoteExactlyWhen | common/chat-peg-parser.cpp:353-357 | an id loses one pair of enclosing quotes, or nothing |
| MapperOrder.RunTracks | common/chat-peg-parser.cpp:317-458 | for nodes in order, whatever their texts: no discarded call is read, and a call is shown as soon as it is named, with arguments that are not empty |
| MapperObject.PegMapper.Map | common/chat-peg-parser.cpp:317-458 | one node updates the object's fields as the specified step, whose runs the rows on `MapperCalls` describe |
| MapperObject.PegMapper.FromAst | common/chat-peg-parser.cpp:286-315 | a whole parse, visited in order, updates the fields as the run of all its nodes, the flush and the check for blank reasoning |
| MapperStream.GrownNodeExactlyWhen | common/chat-peg-parser.cpp:286-458 | for two parses read alike but for more text in the last read node: the message continues the previous one, if and only if the text only adds to a shown call: no id emptied, no written arguments replaced, no argument name changed, no value retracted |
| MapperStream.NextNodeExactlyWhen | common/chat-peg-parser.cpp:286-458 | with one read node more the message continues the previous one, if and only if the node does not empty the id of a shown call, rename it or replace its arguments |
| MapperStream.IdPairExactlyWhen | common/chat.cpp:1848-1852 | where the id encloses the name and both grow, the message continues if and only if the id is the same or not empty |
| MapperStream.CutWordRetracts | common/chat-peg-parser.cpp:98-181 | a cut argument value whose message the longer value does not continue |
| MapperTrees.TreeFollows | common/peg-parser.cpp:717-772 | when a parse tree grows along its last spine, whatever its nodes enclose and whatever unread nodes at its end go, what is read of it grows at its end |
| MapperTrees.TreeMessageGrows | common/chat-peg-parser.cpp:286-458 | and where what is read only adds, the message continues the previous one |
| MapperTrees.OpenCallGrows | common/chat-peg-parser.cpp:508-515 | such a growth: a string argument deep inside a tool node, all of whose enclosing nodes grow with it, may gain any text |
| Delimiters.FindMatches | common/chat.cpp:152-172 | the scan ends, also for zero-length skips, and records in order exactly the unskipped positions where a delimiter occurs, with the first listed one's role |
| Delimiters.Split | common/chat.cpp:152-184 | spans are non-empty and back to back, the last reaches the end, and one starts at each unskipped position with a delimiter and nowhere else |
| Delimiters.SplitUnique | common/chat.cpp:152-184 | that description determines the list of spans |
| Delimiters.SpansCover | common/chat.cpp:174-181 | a token is in a span exactly when some match is at or before it, and never in two |
| Delimiters.SkipsRespectedExactlyWhen | common/chat.cpp:155-161 | no span starts inside a skip on any input, if and only if the skips that are reached cover the others; disjoint skips always do |
| Delimiters.OverlapBlocksLaterSkips | common/chat.cpp:155-161 | overlapping skips for which it fails |
| ToolResults.RecordOrder | common/chat.cpp:2100-2109 | each non-empty id maps to the position of its last call |
| ToolResults.StableSortUnique | common/chat.cpp:2137-2143 | sorted with equal keys in their order leaves one result, so the library's algorithm does not matter |
| ToolResults.GuardIsOptimisation | common/chat.cpp:2131 | where the guard skips the sort, sorting would change nothing |
| ToolResults.RunEndsSorted | common/chat.cpp:2118-2148 | each maximal run of user and tool messages ends with its tool messages stably sorted by the order of the last message that made calls |
| ToolResults.OthersStay | common/chat.cpp:2144-2146 | all but tool messages stay at their index, and tool messages move only onto tool positions |
| ToolResults.MessagesPreserved | common/chat.cpp:2090-2151 | the multiset of messages is preserved |
| ToolResults.SortingTwice | common/chat.cpp:2090-2151 | reordering again changes nothing |
| ToolResults.SortToolResults | common/chat.cpp:2090-2151 | the slot-rewriting loop computes the reordering the lemmas are about |
| ToolResults.ConversationSorted | common/chat.cpp:2090-2151 | the four properties above together for a whole conversation |
| ToolLaws.AnswersInCallOrder | common/chat.cpp:2090-2151 | in a stretch of user and tool messages, answers stand in the order of the last calls with their ids in the last message before it that made calls, those to no call with the first, and answers of one place in the order they came |
| ToolLaws.NothingMovesBeforeCalls | common/chat.cpp:2131 | before any call nothing moves |
| Peg.FlatSeqKeeps | common/peg-parser.cpp:1054-1066 | splicing nested sequences changes neither outcome, end nor nodes |
| Peg.FlatChoiceKeeps | common/peg-parser.cpp:1086-1098 | splicing nested choices keeps the alternative that is taken |
| Permute.Permuter.RemainingOf | common/chat-peg-parser.cpp:251-273 | the recursion on a smaller mask adds to the memo exactly the rules of the non-empty subsets of what remains |
| Permute.BuildPermute | common/chat-peg-parser.cpp:241-276 | nothing, the given sequence, or the rule of the full set with one rule for each non-empty subset |
| Permute.RuleCount | common/chat-peg-parser.cpp:251-275 | 2^n - 1 rules for two to six parsers and none otherwise |
| PermuteOrders.PermuteTakesLeastOrder | common/chat-peg-parser.cpp:241-276 | the grammar fails exactly where every ordering fails, and otherwise has the outcome, end and nodes of the lexicographically least ordering that does not fail |
| PermuteOrders.PermuteKeepsGivenOrder | common/chat-peg-parser.cpp:243-249 | with at most one or more than six parsers only the given order is tried |
| PermuteOrders.EachUsedOnce | common/chat-peg-parser.cpp:241-276 | whatever their number, a parse that does not fail runs each parser exactly once in some order |
| PermuteOrders.EveryOrderAccepted | tests/test-chat-peg-parser.cpp:1056-1064 | up to six parsers of which at most one can match at any position may come in any order: the one present is the one parsed |
| PermuteOrders.OverlapHidesOrder | common/peg-parser.cpp:331-355 | two parsers for which a complete ordering is hidden by an earlier one still waiting for input |
| PermuteOrders.OrderHiddenExactlyWhen | common/peg-parser.cpp:331-355 | where some ordering is complete, the grammar misses it if and only if the least ordering that does not fail wants more input |
| Base64.Encode | common/base64.hpp:80-144 | the loop over the input writes the specified text |
| Base64.EncodeSize | common/base64.hpp:338-341 | the length of an encoding is required_encode_size of the input's length |
| Base64.RoundTrip | common/base64.hpp:80-244 | decoding an encoding with its own or the detected alphabet gives the bytes back |
| Base64.DecodeExactlyWhen | common/base64.hpp:200-244 | decoding succeeds if and only if the characters before the padding fit one alphabet and the tail is acceptable, and it yields as many bytes as the bits allow |
| Base64.DecodedSize | common/base64.hpp:324-327 | n data characters give floor(3n/4) bytes, at most max_decode_size |
| Base64Laws.CharMeans | common/base64.hpp:80-144 | every six-bit value is written as its character in the tables of RFC 4648 |
| Base64Laws.ValueMeans | common/base64.hpp:344-389 | every character is read as its place in the table of the alphabet, or of either when detecting, and others are refused |
| Base64Laws.EncodeMeans | common/base64.hpp:80-144 | an encoding has the bits of the input in order, then only zeros up to a whole character, then pads up to a multiple of four |
| Base64Laws.DecodeMeans | common/base64.hpp:200-244 | the bytes decoded have the bits of the data characters, but for the last that make no whole byte |
| Base64.NeverMixed | common/base64.hpp:344-389 | detection never accepts text that mixes the two alphabets |
| Base64.DecodeInPlace | common/base64.hpp:309-313 | decoding into the buffer that is read gives the out-of-place result and leaves the rest of the buffer alone |
| Base64.DecodeOutOfPlace | common/base64.hpp:254-264 | the same loop into a separate output |
| CsvRow.ParseCsvRow | common/arg.cpp:1650-1692 | the character loop with its quote flag computes the recursive parser |
| CsvRow.RowReadsBack | common/arg.cpp:1650-1692 | any row in which each field is quoted with inner quotes doubled, or safe to leave raw, reads back as its fields |
| CsvRow.AlwaysQuotedReadsBack | common/arg.cpp:1646-1692 | in particular for the printer that quotes every field |
| CsvRow.MinimallyQuotedReadsBack | common/arg.cpp:1646-1692 | and for the one that quotes only where a comma or quote demands it |
| CsvRow.RawExactlyWhen | common/arg.cpp:1659-1666 | a single field reads back unquoted if and only if it has no comma and does not begin with a quote |
| CsvRow.FormsReadBack | common/arg.cpp:1650-1692 | rows of fields that are unquoted, quoted at their beginning with any text after, or quoted to the end of the row read back as those fields |
| CsvRow.EveryRowIsWritten | common/arg.cpp:1650-1692 | and every row is written so, which fixes the fields of any row |
| CsvRow.QuoteFreeSplits | common/arg.cpp:1679-1688 | without quotes a row is split at its commas |
| GgmlFile.LoadInvertsWrite | convert_llama_ggml_to_gguf.py:180-200 | loading a written header, vocabulary and tensor list returns them, finds every tensor's data, and stops at the last byte |
| GgmlFile.ItemsReadBack | convert_llama_ggml_to_gguf.py:84-98 | vocabulary entries read back, with or without scores |
| GgmlFile.TensorReadsBack | convert_llama_ggml_to_gguf.py:110-131 | a tensor record reads back at any offset, padded or not, and its data lies where the record says |
| GgmlFile.RecordsLaidOut | convert_llama_ggml_to_gguf.py:190-194 | in every file that loads, data ranges increase without overlap and with room for each head, are 32-aligned in GGJT, and the number of records is bounded by the data |
| GgmlFile.IndexIsLast | convert_llama_ggml_to_gguf.py:193 | a name's index is that of the last tensor with the name |
| GgmlFile.StopsAtEndExactlyWhenWhole | convert_llama_ggml_to_gguf.py:180-200 | a load never stops before the end of the data, and stops exactly there if and only if every tensor lies inside it |
| GgmlFile.CutFileLoads | convert_llama_ggml_to_gguf.py:180-200 | every written file whose last tensor has data loads to the same model without its last byte, and the load then stops one byte past the data |
| GgmlFile.SmallestFileIsCut | convert_llama_ggml_to_gguf.py:180-200 | a concrete such file |
| GgmlRefusals.HeaderExactly | convert_llama_ggml_to_gguf.py:145-166 | the four magics, spelled out, the versions each allows, and which error any other beginning gives |
| GgmlRefusals.HparamsExactly | convert_llama_ggml_to_gguf.py:59-73 | seven little-endian integers in order, and the file types that exist |
| GgmlRefusals.ConvertibleExactly | convert_llama_ggml_to_gguf.py:168-178 | which formats and file types are converted |
| GgmlRefusals.ItemExactly | convert_llama_ggml_to_gguf.py:84-98 | what an entry holds, how far it reaches, and when it is refused |
| GgmlRefusals.TensorExactly | convert_llama_ggml_to_gguf.py:110-131 | the same of a tensor record, with the bounds of its counts and the place and length of its data |
| GgmlLoader.Hyperparameters.Load | convert_llama_ggml_to_gguf.py:59-73 | the fields take the seven integers; short data and unknown types are refused; n_ff is untouched |
| GgmlLoader.Hyperparameters.SetNFf | convert_llama_ggml_to_gguf.py:53-57 | n_ff becomes the second dimension of the last feed-forward tensor, or one of two errors leaves it alone |
| GgmlLoader.Vocab.Load | convert_llama_ggml_to_gguf.py:84-98 | appends the entries read and returns how far it got |
| GgmlLoader.TensorRecord.Load | convert_llama_ggml_to_gguf.py:110-131 | the fields take the record, aligned when padding is used, and at least 12 bytes are consumed |
| GgmlLoader.GGMLModel.ValidateHeader | convert_llama_ggml_to_gguf.py:145-166 | format and version follow the magic, every other file is refused with the fields unchanged |
| GgmlLoader.GGMLModel.LoadTensors | convert_llama_ggml_to_gguf.py:190-194 | the record loop ends with one new object for each record read and the index of their names |
| GgmlLoader.GGMLModel.Load | convert_llama_ggml_to_gguf.py:168-200 | the object holds what was read, with the conversion rules applied; errors found before the end leave its parts unchanged |
| FitRetry.FitRetryState.Observe | common/fit-kvarn-tail.cpp:6-32 | one call updates the rejected identities and the margins as the specified step, including the half-done overflow |
| FitRetry.ActionExactlyWhen | common/fit-kvarn-tail.cpp:6-32 | which of the four answers a call gets, and whether its candidate is rejected afterwards, for all states and calls |
| FitRetry.RetriesBounded | common/fit-kvarn-tail.cpp:6-32 | with identities from a pool of N, any run retries at most N times |
| FitRetry.MarginsAccount | common/fit-kvarn-tail.cpp:6-32 | over any run margins never decrease or wrap, and each is its start plus what every call added to it: a retry its positive shortfall, an overflow the part before the failing entry, the others nothing |
| FitRetry.RejectedStayRejected | common/fit-kvarn-tail.cpp:17-19 | a rejected candidate is not retried after any later calls |

## Left out

- Floating point, dtype conversion and integer overflow of torch and numpy: arithmetic on tensors is exact (`real`).
- GgmlLoader.TensorRecord.Load: does not model int64 wrap-around of the element product, because byte counts are exact; termination of the record loop rests on that.
- `__getitem__` with tensors, booleans, two ellipses or unknown subscript types, and the operations that raise `NotImplementedError` beyond the fact that they do.
- The parsing engine is reduced to sequence and choice over opaque parsers; streaming results assume that successive parse trees grow along the last spine, as `Ast.Grows` and `MapperTrees.Lengthens` say; that names are atomic, as the builder makes them; and that nothing is read inside a node whose text is read but the name inside an id (`MapperTrees.Apart`).
- Rule names are taken to be unique to one call of the any-order builder; tree nodes that wrap rules are not modelled, only the nodes of the given parsers in order.
- nlohmann JSON: parsing, UTF-8 validation and type errors of fields; messages are plain records.
- Message fields the deltas do not carry (role, content parts, tool name, tool call id), and the server code that sets call ids.
- ToolMapper.FlushNeverFires: considers runs in which no node reads a discarded call (`Safe`), because the code would read through a dangling pointer there; well-formed streams never do.
- Base64.DecodeInPlace: says nothing of the buffer's contents after a refused decode.
- Overflow of positions (`size_t`) in the delimiter scan, which would need more tokens than memory holds.
- Jinja rendering, template comparison and the analysis heuristics built on the splitter, and grammar text output.
- DiffTight.SplitIsTight: says nothing of inputs of which a side is counted twice, because text is then lost.
- LoraAccepts.ReshapeAccepts: asks for entries in both factors and for one -1 at most; outside of that the two findings on `reshape` apply.
- Enum and name tables, `break_str_into_lines`, command-line and configuration code: easy or I/O.
- KVarN kernels and cache: not part of this model.
