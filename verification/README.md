# Verified models of four benchmark kernels and of the design-space explorer

A Dafny model of the algorithm kernels under `software/simple_benchmarks` and of the parts of `dse/MDP` that decide
what the explorer does, with proofs of what each of them is for. `dafny verify dfyconfig.toml` checks the whole
project.

**Adaptive arithmetic coder** (`BitStream`, `FrequencyModel`, `CodeInterval`, `ArithmeticEncoder`, `ArithmeticDecoder`,
`ArithmeticRoundTrip`, `DeferredBits`, `NestedIntervals`). Encoder, decoder and frequency model are classes over the
arrays and fields of the C files. The frequency tables are refined to a pure model; the rescaling of the code interval
becomes a trace of operations (zero, one, middle), which the encoder writes with deferred bits and the decoder follows
by shifting its register. Every message is decoded from its own code; the decoder loop ends on every input, either with
a text or with the outcome that stands for the program's "Bad input file" exit. What is written, what is pending and
the window together mean an interval of code values: rescaling does not move it, each further byte cuts a part out of
it, and different messages end in disjoint intervals.

**Connect-4 solver** (`Connect4Board`, `Connect4Game`, `Connect4Threats`, `Connect4Hash`, `Connect4Keys`,
`Connect4Search`, `Connect4Draw`). The game is defined by its rules alone: four aligned stones on a 7 by 6 grid, and
the minimax value over all moves. The class `Solver` holds the bitboards, heights, move list and two-slot table of the
program and runs its search. The main result needs no assumption about hash collisions: the program's table of 8306069
entries is smaller than 2^23, so two position codes can share lock and index (`CollisionExists` is such a pair), but
then they differ by exactly the table size and the larger one shows four of the mover's stones on top of each other
(`CollisionHasFour`). The search never asks the table about such a position, so `Solve` returns the minimax value of
every unfinished position. It is exact if and only if the board is not full or the opponent has won: on a full board
that nobody has won the program answers LOSS although the game is drawn. Such boards are reached by legal moves
(`FullBoardReached`).

**AES-128** (`AesField`, `AesCipher`, `AesBlock`, `AesKeys`, `AesCode`, `AesExample`). The cipher, its inverse and the
key expansion are written from FIPS 197 (sections 4.1, 4.2, 5.1, 5.2 and 5.3) on a state of bytes. The row-sliced words
of the program, two rounds a turn of the loop, are proved to compute them, and decryption to undo encryption under any
eleven round keys. The program's substitution table is shown to be the standard's: the affine map of the field inverse.
The data of the program's main function is the example of appendix B, and its first block is encrypted to the words
that the standard gives.

**IMA ADPCM** (`Adpcm`, `AdpcmCodec`). Coder and decoder loops over the state that the programs carry between calls.
The decoder retraces the coder exactly. A sample is decoded within an eighth of the step (and two) if and only if it is
no further from the prediction than the largest change a code can make and that bound: everything nearer than two steps
is. Coding a decoded signal again passes through the same states if and only if every code `Stays`: its value was not
limited to 16 bits, or the limit is so near that the magnitude for its distance reaches it too, with the same index (at
the lower limit itself the eighth of the step must be zero, too). `ClampedAgain` is an input where it is not.
`adpcm2.c` holds the same coder and decoder.

**MDP explorer** (`ValueIteration`, `StrategySolver`, `PathReturns`, `ParetoFront`, `MetricPartition`,
`ProbabilityTree`, `OutcomePaths`, `ProbabilityGraph`). Value iteration over the exploration graph with an arbitrary
reward, the non-dominated set, the partition of metric intervals, and the probability tree of an action. Real numbers
stand for `float` and `double`. The comment at `dse/MDP/MDPSolver.cpp:538-548` speaks of reverse topological order,
leaves first; the code inserts at the front of the list, so its sweeps go from the root down, and that is what is
modelled: it costs one sweep a level, which is why the bound on the sweeps is the height of the graph plus one. The
strategy keeps the best single transition, each weighted by its own probability, not the expectation over an action's
outcomes; the model does the same. In terms of the worths alone, the optimum of a configuration is the greatest
weighted descent along a path, and every configuration that can descend gets a strategy.

Machine words of the C code are bit vectors of the same width where bits matter (boards, AES words and bytes) and
integers elsewhere; where an integer could overflow, the bounds are proved or the gap is listed at the end.

## Model

| member | source | states |
|---|---|---|
| ArithmeticRoundTrip.RoundTrip | software/simple_benchmarks/adaptivearcod.c:315-336 | for every byte string, decoding its code returns exactly that string and stops; with N expansions the encoder writes N + 2 bits, the decoder takes N + 16, at most two bytes past the end of the file |
| ArithmeticRoundTrip.EncodeThenDecode | software/simple_benchmarks/adaptiveardecod.c:315-333 | the two programs one after the other give the message back and report success |
| ArithmeticRoundTrip.DecodeFollows | software/simple_benchmarks/adaptivearcod.c:198-232 | decoding from any stable window retraces the encoder from the same model and window, whatever bits follow the code, and consumes exactly what was written |
| ArithmeticRoundTrip.CodeInside | software/simple_benchmarks/adaptivearcod.c:123-172 | the sixteen bits a decoder would hold lie inside the encoder's window at every point of every message |
| ArithmeticRoundTrip.RefillFollows | software/simple_benchmarks/adaptivearcod.c:211-230 | the decoder's rescaling shifts in exactly the bits that the encoder's rescaling wrote and keeps its register on the rest of the code |
| ArithmeticRoundTrip.FinishInside | software/simple_benchmarks/adaptivearcod.c:156-160 | the final two bits put the code inside the window whatever bits follow |
| ArithmeticRoundTrip.SymbolUnique | software/simple_benchmarks/adaptivearcod.c:203-206 | a register inside a symbol's subinterval is decoded to that symbol |
| DeferredBits.DeferredBitInvariant | software/simple_benchmarks/adaptivearcod.c:136-172 | bits of value B written and f bits pending put the window's zero at B*2^(16+f) + (2^f - 1)*Half, which is where the rescalings have moved it |
| DeferredBits.CodeInNestedInterval | software/simple_benchmarks/adaptivearcod.c:156-172 | the finished code is a number inside the interval of every state on the way: after each beginning of the message, its next symbol and any number of that symbol's rescalings, whatever bits follow |
| NestedIntervals.ExpandKeepsPlace | software/simple_benchmarks/adaptivearcod.c:132-150 | a rescaling doubles the scale and leaves the interval of written bits, pending bits and window where it is |
| NestedIntervals.ExpandedKeepsPlace | software/simple_benchmarks/adaptivearcod.c:132-150 | so do any number of rescalings, each scale a power of two |
| NestedIntervals.SharesTile | software/simple_benchmarks/adaptivearcod.c:127-131 | the symbols' shares tile the window: each ends where the one before it begins, the first and last at its ends |
| NestedIntervals.SharesApart | software/simple_benchmarks/adaptivearcod.c:127-131 | the shares of two symbols are disjoint, the greater number below |
| NestedIntervals.Nested | software/simple_benchmarks/adaptivearcod.c:123-172 | the interval of a longer text lies inside that of each of its beginnings, in the share of its next byte |
| NestedIntervals.MessagesDisjoint | software/simple_benchmarks/adaptivearcod.c:315-336 | different messages end in disjoint intervals, on any scale fine enough for both |
| NestedIntervals.CodeOwned | software/simple_benchmarks/adaptivearcod.c:315-336 | a message's code, whatever bits follow it, is a number in the interval the message owns |
| NestedIntervals.FirstByteOrder | software/simple_benchmarks/adaptivearcod.c:315-336 | the intervals of messages lie in the descending order of their first bytes |
| NestedIntervals.FirstWindow | software/simple_benchmarks/adaptivearcod.c:127-131 | after one byte the window is one of 257 equal parts, counted from above, rounded down |
| NestedIntervals.EndFirst | software/simple_benchmarks/adaptivearcod.c:330-333 | a message's interval lies before those of all messages that continue it |
| NestedIntervals.ShareProportional | software/simple_benchmarks/adaptivearcod.c:127-131 | a symbol's share is its part of the window by its count, both ends rounded down |
| NestedIntervals.ClosingQuarter | software/simple_benchmarks/adaptivearcod.c:156-160 | the closing bits name the second quarter exactly when the window starts below it, else the third |
| CodeInterval.TargetFindsSymbol | software/simple_benchmarks/adaptivearcod.c:203-206 | a value lies in a symbol's narrowed interval if and only if the computed target lies between the symbol's cumulative counts |
| CodeInterval.NarrowValid | software/simple_benchmarks/adaptivearcod.c:127-131 | no symbol's interval is empty, it stays inside the window, and the products stay below 2^31 |
| CodeInterval.StableRange | software/simple_benchmarks/adaptivearcod.c:132-150 | a window that needs no rescaling has at least a quarter of all values and two more, which exceeds the largest total count |
| CodeInterval.ExpandValid | software/simple_benchmarks/adaptivearcod.c:132-150 | each rescaling keeps the window inside the full range and exactly doubles it: the loop ends |
| CodeInterval.NarrowShrinks | software/simple_benchmarks/adaptivearcod.c:127-131 | narrowing strictly shrinks the window: what bounds the decoder's loop between two bits |
| CodeInterval.EmittedAppend | software/simple_benchmarks/adaptivearcod.c:165-172 | deferred bits compose: what a run of rescalings writes is what its parts write, with the pending bits carried over |
| FrequencyModel.UpdateValid | software/simple_benchmarks/adaptivearcod.c:71-98 | every update, halving or not, keeps counts positive, sorted and bounded, and the two symbol tables inverse bijections |
| FrequencyModel.UpdateCounts | software/simple_benchmarks/adaptivearcod.c:71-98 | renumbering is invisible: each byte's own count is what it was (halved when the total was at its maximum), the coded byte's one more |
| FrequencyModel.ScaledValid | software/simple_benchmarks/adaptivearcod.c:74-82 | halving all counts at the maximum keeps the model valid and the total below the maximum |
| FrequencyModel.StartValid | software/simple_benchmarks/adaptivearcod.c:55-66 | the start model is valid |
| FrequencyModel.StartOrder | software/simple_benchmarks/adaptivearcod.c:57-60 | the bytes are numbered in their order, byte b as symbol b + 1, all before the end-of-file symbol |
| FrequencyModel.UpdateNumbers | software/simple_benchmarks/adaptivearcod.c:83-92 | the coded byte comes to the first place of its count, the byte from there takes its old place, all others keep theirs |
| FrequencyModel.CountsOccurrences | software/simple_benchmarks/adaptivearcod.c:55-98 | for the first 16126 bytes every count is one more than the occurrences of its byte, the total 257 more than the length, and the end of file counts one |
| FrequencyModel.FirstHalving | software/simple_benchmarks/adaptivearcod.c:74-82 | the byte after those halves every count, rounding up, before it is counted itself |
| FrequencyModel.AdaptiveModel.constructor | software/simple_benchmarks/adaptivearcod.c:55-66 | the four tables hold the start model |
| FrequencyModel.AdaptiveModel.StartNumbering | software/simple_benchmarks/adaptivearcod.c:57-60 | the two symbol tables of the start model, which number the bytes in their order |
| FrequencyModel.AdaptiveModel.StartCounting | software/simple_benchmarks/adaptivearcod.c:61-65 | the counts of the start model and their cumulative counts |
| FrequencyModel.AdaptiveModel.Update | software/simple_benchmarks/adaptivearcod.c:71-98 | the tables, cumulative counts included, hold the updated model |
| FrequencyModel.AdaptiveModel.Halve | software/simple_benchmarks/adaptivearcod.c:74-82 | the counts are halved rounding up and the cumulative counts rebuilt, when the total is at its maximum |
| FrequencyModel.AdaptiveModel.MoveToFront | software/simple_benchmarks/adaptivearcod.c:83-92 | the symbol changes places with the first of its equals, in both tables |
| FrequencyModel.AdaptiveModel.Increment | software/simple_benchmarks/adaptivearcod.c:93-97 | one count and all cumulative counts above it grow by one |
| ArithmeticEncoder.Encoder.OutputBit | software/simple_benchmarks/adaptivearcod.c:294-302 | appends one bit to the written bits, a byte to the file at every eighth |
| ArithmeticEncoder.Encoder.BitPlusFollow | software/simple_benchmarks/adaptivearcod.c:165-172 | appends the bit and the pending opposite ones, leaving none pending |
| ArithmeticEncoder.Encoder.constructor | software/simple_benchmarks/adaptivearcod.c:286-289 | nothing written, nothing pending, the full window |
| ArithmeticEncoder.Encoder.NarrowRegion | software/simple_benchmarks/adaptivearcod.c:127-131 | the window is the symbol's share of the old one |
| ArithmeticEncoder.Encoder.ExpandOnce | software/simple_benchmarks/adaptivearcod.c:133-149 | one rescaling with the bits it writes, or none when the window is stable |
| ArithmeticEncoder.Encoder.ExpandRegion | software/simple_benchmarks/adaptivearcod.c:132-150 | all rescalings with all their bits |
| ArithmeticEncoder.Encoder.EncodeSymbol | software/simple_benchmarks/adaptivearcod.c:123-151 | narrows to the symbol and writes what the rescaling of that window emits, leaving a stable window |
| ArithmeticEncoder.Encoder.DoneEncoding | software/simple_benchmarks/adaptivearcod.c:156-160 | writes the two bits that select a quarter |
| ArithmeticEncoder.Encoder.DoneOutputingBits | software/simple_benchmarks/adaptivearcod.c:307-309 | the file is the packing of all written bits, the last byte filled with zeros |
| ArithmeticEncoder.EncodeByte | software/simple_benchmarks/adaptivearcod.c:322-329 | one byte coded and the model updated: what remains to be written is the trace of the remaining message |
| ArithmeticEncoder.Finish | software/simple_benchmarks/adaptivearcod.c:331-333 | the end mark and the last bits complete the packed file |
| ArithmeticEncoder.Encode | software/simple_benchmarks/adaptivearcod.c:315-336 | the file is the packing of the code bits of the message |
| ArithmeticDecoder.Decoder.InputBit | software/simple_benchmarks/adaptivearcod.c:255-272 | takes the next bit of the file, then of the made-up ones, and fails exactly when too many of those were asked for |
| ArithmeticDecoder.Decoder.MoveBitIn | software/simple_benchmarks/adaptivearcod.c:229 | the next bit becomes the lowest of the register, or there is none |
| ArithmeticDecoder.Decoder.constructor | software/simple_benchmarks/adaptivearcod.c:247-250 | the bits to come are those of the file and the allowed made-up ones |
| ArithmeticDecoder.Decoder.LoadByte | software/simple_benchmarks/adaptivearcod.c:257-267 | the next byte or end mark, and failure exactly when no more are allowed |
| ArithmeticDecoder.Decoder.NarrowRegion | software/simple_benchmarks/adaptivearcod.c:207-210 | the window is the symbol's share of the old one |
| ArithmeticDecoder.Decoder.ExpandOnce | software/simple_benchmarks/adaptivearcod.c:212-229 | one rescaling of window and register, one bit taken in, or none when the window is stable |
| ArithmeticDecoder.Decoder.ExpandRegion | software/simple_benchmarks/adaptivearcod.c:211-230 | all rescalings, the failure included |
| ArithmeticDecoder.Decoder.StartDecoding | software/simple_benchmarks/adaptivearcod.c:185-193 | the register holds the first sixteen bits |
| ArithmeticDecoder.Decoder.FindSymbol | software/simple_benchmarks/adaptivearcod.c:206 | the search loop stops at the symbol whose cumulative counts enclose the target |
| ArithmeticDecoder.Decoder.DecodeSymbol | software/simple_benchmarks/adaptivearcod.c:198-232 | one step of the decoding specification, the failure included |
| ArithmeticDecoder.Decode | software/simple_benchmarks/adaptiveardecod.c:315-333 | text and success are those of the decoding specification, on every file; the loop ends |
| ArithmeticDecoder.DecodeByte | software/simple_benchmarks/adaptiveardecod.c:323-330 | one turn of the decoding specification: a byte, the end, or the failure |
| ArithmeticDecoder.DecodedMore | software/simple_benchmarks/adaptivearcod.c:198-232 | what was decoded is decoded from the same bits whatever follows them |
| ArithmeticDecoder.FourteenBytes | software/simple_benchmarks/adaptivearcod.c:255-272 | fourteen bytes of ones are served past the end of a file: it is decoded if and only if some number of them up to that is enough |
| BitStream.UnpackPack | software/simple_benchmarks/adaptivearcod.c:255-309 | reading bits from the packed bytes gives the bits back and then the zeros of the last byte |
| BitStream.PackedBit | software/simple_benchmarks/adaptivearcod.c:294-302 | every bit is found in its byte, the first of eight in the lowest place |
| Connect4Board.HasWonIsFour | software/simple_benchmarks/SearchGame.c:123-136 | the bit test is true exactly when four aligned stones lie on the grid: no shift wraps around a column's end |
| Connect4Board.BitIsShift | software/simple_benchmarks/SearchGame.c:117-120 | the table of single bits is the shift of one |
| Connect4Board.CellIsBit | software/simple_benchmarks/SearchGame.c:61-70 | the cell in a column and row of the grid is bit 7 * column + row |
| Connect4Game.PlayOk | software/simple_benchmarks/SearchGame.c:152-156 | a move keeps the colours disjoint, the columns contiguous from the bottom and the counts right, and adds one stone of the mover |
| Connect4Game.WithOnBoard | software/simple_benchmarks/SearchGame.c:111-120 | a board with one more stone passes the sentinel test unless that stone overflows its column |
| Connect4Game.FlipTwice | software/simple_benchmarks/SearchGame.c:144-156 | putting a stone on and taking it off restores the board |
| Connect4Game.Minimax | software/simple_benchmarks/SearchGame.c:299-411 | the value of the rules: a game that goes on is won exactly if some move leaves the opponent lost, lost exactly if all moves leave the opponent winning |
| Connect4Search.After | software/simple_benchmarks/SearchGame.c:86-93 | after any legal run of moves from the empty board the position is well formed and has as many plies as moves |
| Connect4Search.Solver.MakeMove | software/simple_benchmarks/SearchGame.c:152-156 | the arrays hold the position after the move and the move is recorded |
| Connect4Search.Solver.BackMove | software/simple_benchmarks/SearchGame.c:144-150 | the arrays hold again the position before the last recorded move |
| Connect4Search.Solver.Reset | software/simple_benchmarks/SearchGame.c:86-93 | the board is empty and no move recorded |
| Connect4Search.Solver.constructor | software/simple_benchmarks/SearchGame.c:84-93 | an empty board and a table that is sound because it is empty |
| Connect4Threats.LegalIsPlayable | software/simple_benchmarks/SearchGame.c:111-120 | the sentinel test on one more stone tells whether the column, or the square on top, has room |
| Connect4Threats.IgnoredThreat | software/simple_benchmarks/SearchGame.c:318-326 | a threat that is not answered loses |
| Connect4Threats.BuriedThreat | software/simple_benchmarks/SearchGame.c:317-329 | playing under a winning square of the opponent loses |
| Connect4Threats.QuietAfter | software/simple_benchmarks/SearchGame.c:313-340 | a move that answers all threats hands on a position in which the mover has no win at once: the search's assumption holds again |
| Connect4Threats.LastMove | software/simple_benchmarks/SearchGame.c:309-310 | with one square left and no win on it the game is drawn |
| Connect4Threats.LastTwoMoves | software/simple_benchmarks/SearchGame.c:333-334 | with two squares left and a move that leaves no win the game is drawn |
| Connect4Hash.CodeInjective | software/simple_benchmarks/SearchGame.c:95-100 | no two positions have the same code |
| Connect4Hash.MirrorCode | software/simple_benchmarks/SearchGame.c:201-206 | the code of the mirrored board is the code with its columns reversed |
| Connect4Hash.MirrorValue | software/simple_benchmarks/SearchGame.c:198-210 | a position and its mirror image have the same minimax value |
| Connect4Hash.NormCodeIff | software/simple_benchmarks/SearchGame.c:198-210 | two positions are looked up under one code if and only if they are equal, or mirror images within the first ten plies |
| Connect4Keys.ReversedIsMirror | software/simple_benchmarks/SearchGame.c:203-204 | seven rounds of the loop reverse the columns |
| Connect4Keys.RestIsZero | software/simple_benchmarks/SearchGame.c:203 | the loop makes exactly seven rounds on every position code |
| Connect4Keys.LockFits | software/simple_benchmarks/SearchGame.c:158-209 | a code fits in 49 bits and its lock in the 26-bit field |
| Connect4Keys.KeyCollision | software/simple_benchmarks/SearchGame.c:208-209 | codes share lock and index if and only if they are equal, or share the lock and differ by exactly the table size |
| Connect4Keys.CollisionHasFour | software/simple_benchmarks/SearchGame.c:158-210 | the larger of two colliding codes has four of the mover's stones on top of each other |
| Connect4Keys.CollisionExists | software/simple_benchmarks/SearchGame.c:158-210 | lock and index alone do not identify a code: two well-formed boards that collide |
| Connect4Keys.SharedKeyValue | software/simple_benchmarks/SearchGame.c:198-224 | unwon positions that share lock and index are equal or early mirror images, and have the same value |
| Connect4Search.Solver.Hash | software/simple_benchmarks/SearchGame.c:198-210 | lock and index are those of the symmetry-normalised code |
| Connect4Search.Solver.Transpose | software/simple_benchmarks/SearchGame.c:212-224 | the score that the board's entry has under the board's lock, in the big slot first, or none; with a sound table a sound bound for the board |
| Connect4Search.StoreSound | software/simple_benchmarks/SearchGame.c:226-241 | a bound of one position is sound for every position that reads it under the same key |
| Connect4Search.Solver.TransStore | software/simple_benchmarks/SearchGame.c:226-241 | the entry is replaced in the slot that the lock and the work select, nothing else changes, the score is what is found there next under that lock, and the table stays sound |
| Connect4Search.DoubleThreat | software/simple_benchmarks/SearchGame.c:318-326 | two threats, or one under another, cannot be stopped |
| Connect4Search.ForcedMove | software/simple_benchmarks/SearchGame.c:321-326 | a single threat leaves its answer as the only candidate |
| Connect4Search.FreeMoves | software/simple_benchmarks/SearchGame.c:313-330 | without threats all moves but those under a winning square are candidates |
| Connect4Search.Solver.NextThreat | software/simple_benchmarks/SearchGame.c:323-325 | the next column in which the opponent threatens to win, if any |
| Connect4Search.Solver.ScanMoves | software/simple_benchmarks/SearchGame.c:312-332 | either the position is lost, or the kept moves hand on quiet positions and all others lose |
| Connect4Search.Solver.BestHistory | software/simple_benchmarks/SearchGame.c:357-363 | the first of the remaining moves with the highest history |
| Connect4Search.Solver.MoveDown | software/simple_benchmarks/SearchGame.c:364-366 | the picked move comes first, the others keep their order |
| Connect4Search.RotatedElements | software/simple_benchmarks/SearchGame.c:356-366 | reordering loses and repeats no move |
| Connect4Search.Solver.TryMove | software/simple_benchmarks/SearchGame.c:366-368 | the sound score of a move, with board, move list and table kept |
| Connect4Search.OnlyMove | software/simple_benchmarks/SearchGame.c:335-340 | with one candidate the position is worth what that move is |
| Connect4Search.Exhausted | software/simple_benchmarks/SearchGame.c:356-382 | with all candidates tried the best score bounds the value from above |
| Connect4Search.Solver.SearchMoves | software/simple_benchmarks/SearchGame.c:354-382 | trying the moves with cutoffs and a narrowing window gives a sound score, one-sided only against a draw bound of the window |
| Connect4Search.Solver.Ab | software/simple_benchmarks/SearchGame.c:299-393 | the score bounds the minimax value as its name says, DRAWLOSS only if alpha is DRAW and DRAWWIN only if beta is DRAW; board, move list and soundness of the table are kept |
| Connect4Search.Solver.Solve | software/simple_benchmarks/SearchGame.c:395-411 | the result is the minimax value if and only if the board is not full or the opponent has won; otherwise it is LOSS and the value DRAW |
| Connect4Draw.FullBoardReached | software/simple_benchmarks/SearchGame.c:395-411 | the exception is met: a legal run of 42 moves fills the board and nobody has won |
| Connect4Search.Solver.LogPositions | software/simple_benchmarks/SearchGame.c:385-386 | the stored work is the logarithm of the number of stores |
| AesField.SboxIsAffineOfInverse | software/simple_benchmarks/AES.c:25-60 | each entry is the affine map of its index's inverse in the field, as section 5.1.1 of FIPS 197 defines it |
| AesField.SboxInverse | software/simple_benchmarks/AES.c:63-97 | the second table undoes the first |
| AesField.InvSboxInverse | software/simple_benchmarks/AES.c:63-97 | the first table undoes the second |
| AesBlock.XtimeDoubles | software/simple_benchmarks/AES.c:23 | the packed doubling is four doublings in the field, with no carry between bytes |
| AesBlock.GatherRows | software/simple_benchmarks/AES.c:220-235 | the masks and shifts turn the columns of a block into row words |
| AesBlock.GatherColumns | software/simple_benchmarks/AES.c:320-335 | the same masks turn the rows of the state into the words of the output block |
| AesBlock.SubRows | software/simple_benchmarks/AES.c:239-254 | the table look-ups are SubBytes and ShiftRows |
| AesBlock.InvSubRows | software/simple_benchmarks/AES.c:369-384 | the inverse look-ups are InvShiftRows and InvSubBytes |
| AesBlock.MixWords | software/simple_benchmarks/AES.c:255-266 | the word sums are MixColumns and the key addition |
| AesBlock.UnmixWords | software/simple_benchmarks/AES.c:385-407 | the word sums, with shared doublings, are InvMixColumns |
| AesCipher.MixColumnsInverse | software/simple_benchmarks/AES.c:385-407 | the inverse mixing undoes the mixing, for every state |
| AesCipher.RoundsUndone | software/simple_benchmarks/AES.c:338-484 | after n inverse rounds the state is the one that 9 - n rounds had led to, substituted and shifted |
| AesCipher.CipherInverse | software/simple_benchmarks/AES.c:208-484 | decryption undoes encryption, for every block and every eleven round keys |
| AesKeys.RoundKeyStep | software/simple_benchmarks/AES.c:176-193 | each round key of the standard's expansion follows from the one before, row by row, as running sums |
| AesKeys.RconIsPower | software/simple_benchmarks/AES.c:103-108 | the round constants are the powers of x |
| AesKeys.NextKeyWords | software/simple_benchmarks/AES.c:179-186 | the four words of the next round key |
| AesKeys.KeySchedule | software/simple_benchmarks/AES.c:145-204 | the 44 words are the key expansion of section 5.2 of FIPS 197, each round key by rows |
| AesCode.LoadBlock | software/simple_benchmarks/AES.c:220-235 | the block by rows with a round key added |
| AesCode.StoreBlock | software/simple_benchmarks/AES.c:320-335 | the rows of the state as the columns of the block |
| AesCode.Round | software/simple_benchmarks/AES.c:239-266 | one full round of the cipher |
| AesCode.InvSubAdd | software/simple_benchmarks/AES.c:369-384 | the inverse look-ups and the key addition of an inverse round |
| AesCode.EncryptBlock | software/simple_benchmarks/AES.c:208-336 | the output block holds the cipher of the input under the round keys in the expanded key |
| AesCode.DecryptBlock | software/simple_benchmarks/AES.c:338-484 | the output block holds the inverse cipher of the input |
| AesCode.EncryptThenDecrypt | software/simple_benchmarks/AES.c:132-133 | what was encrypted under any expanded key is decrypted to the same four words |
| AesCode.Encrypt | software/simple_benchmarks/AES.c:129-132 | key schedule and encryption together are AES-128 of the block under the key |
| AesExample.KnownAnswer | software/simple_benchmarks/AES.c:117-132 | the cipher of the main function's block under its key, the example of appendix B of FIPS 197, is the block given there |
| AesExample.FirstTurn | software/simple_benchmarks/AES.c:117-133 | the first turn of the main loop: those words encrypted, and decrypted to what they were |
| Adpcm.UnpackPack | software/simple_benchmarks/adpcm.c:175-186 | two codes a byte, signed: all codes come back, also when their number is odd |
| Adpcm.PackedPair | software/simple_benchmarks/adpcm.c:175-186 | a byte without its sign is sixteen times the first code of its pair and the second, zero if there is none |
| Adpcm.StepLaw | software/simple_benchmarks/adpcm.c:77-88 | each step but the last is eleven tenths of the one before, within eight tenths |
| Adpcm.StepIncreasing | software/simple_benchmarks/adpcm.c:77-88 | the steps are strictly increasing |
| Adpcm.IndexMonotone | software/simple_benchmarks/adpcm.c:170-172 | a greater magnitude never leads to a smaller index, whatever the signs |
| Adpcm.IndexMoves | software/simple_benchmarks/adpcm.c:72-75 | a magnitude below four moves the index one down, four two up, each further one two more, within 0..88 |
| Adpcm.ChangeInEighths | software/simple_benchmarks/adpcm.c:244-250 | magnitude m stands for 2m + 1 eighths of the step, short of them by division remainders only |
| Adpcm.QuantizeGreatest | software/simple_benchmarks/adpcm.c:121-153 | the sign is that of the difference, and the magnitude the greatest whose step, half and quarter do not exceed it |
| Adpcm.ErrorBound | software/simple_benchmarks/adpcm.c:121-165 | the error is at most step/8 + 2, clamping included, if and only if the sample is no further from the prediction than the largest change and that bound |
| Adpcm.SignalError | software/simple_benchmarks/adpcm.c:118-181 | in a whole run a sample is decoded within the bound if and only if it is within that reach of its prediction |
| Adpcm.ReachTwoSteps | software/simple_benchmarks/adpcm.c:121-153 | everything nearer than two steps is within reach |
| Adpcm.Saturated | software/simple_benchmarks/adpcm.c:135-153 | a sample further away gets the largest magnitude and its own sign |
| Adpcm.Requantized | software/simple_benchmarks/adpcm.c:121-173 | coding the value an unclamped code led to leads there again, with the same code unless it stood for no change |
| Adpcm.StaysExactly | software/simple_benchmarks/adpcm.c:121-173 | coding the value a code led to leads to the same state if and only if the value was not limited, or its limit is near enough to be reached with the same index |
| Adpcm.Projection | software/simple_benchmarks/adpcm.c:230-264 | a decoded signal, coded from the same state, passes through the same states if and only if every code of the run stays in that sense |
| Adpcm.RetracedSignal | software/simple_benchmarks/adpcm.c:230-264 | then it decodes to itself and ends in the same state |
| Adpcm.UnclampedStays | software/simple_benchmarks/adpcm.c:161-165 | a run that was never limited is such a run |
| Adpcm.ClampedAgain | software/simple_benchmarks/adpcm.c:161-165 | with clamping it need not: an input whose second coding decodes differently |
| Adpcm.CodingInPieces | software/simple_benchmarks/adpcm.c:289-298 | coding in two calls, the first of even length, gives the same bytes and state as one call |
| AdpcmCodec.Divide | software/simple_benchmarks/adpcm.c:121-153 | the compare-and-subtract steps find sign and magnitude, and the change that the decoder will make of them |
| AdpcmCodec.Predict | software/simple_benchmarks/adpcm.c:155-165 | the new prediction, limited to 16 bits |
| AdpcmCodec.NewIndex | software/simple_benchmarks/adpcm.c:170-172 | the new place in the step table, limited to 0..88 |
| AdpcmCodec.CodeSample | software/simple_benchmarks/adpcm.c:119-173 | a turn of the coder picks the code and takes the decoder's step for it |
| AdpcmCodec.DecodeCode | software/simple_benchmarks/adpcm.c:230-261 | a turn of the decoder takes that step |
| AdpcmCodec.Code | software/simple_benchmarks/adpcm.c:89-190 | the bytes are the packed codes, the coder's own predictions are what those codes decode to, and the state is carried on; the rest of the buffer is untouched |
| AdpcmCodec.Decode | software/simple_benchmarks/adpcm.c:192-269 | the samples are the signal of the codes in the bytes, and the state is carried on |
| AdpcmCodec.CodeThenDecode | software/simple_benchmarks/adpcm2.c:192-269 | the decoder yields exactly the coder's predictions and ends in its state, for any number of samples |
| StrategySolver.MDPSolver.ComputeStrategy | dse/MDP/MDPSolver.cpp:534-605 | the values after the first sweep that changes nothing, within height + 1 sweeps; each value V is between 0 and the best return under V, which is at most (1 + eps) V; exactly the vertices of positive value have a strategy, whose return is at least V |
| StrategySolver.MDPSolver.BestEdge | dse/MDP/MDPSolver.cpp:571-590 | the best return over all transitions, at least zero, and the first transition that attains it |
| StrategySolver.VisitRaises | dse/MDP/MDPSolver.cpp:562-604 | what a sweep changes is not below the sweep's level, and stays settled: why the sweeps end |
| StrategySolver.ConsistentAfter | dse/MDP/MDPSolver.cpp:594-601 | raising one value keeps all values within their best returns and all chosen transitions good |
| StrategySolver.ExactValues | dse/MDP/MDPSolver.cpp:534-605 | with eps = 0 the values are the optimum, and the chosen transition attains it wherever it is positive |
| StrategySolver.ValuesAtMostOptimal | dse/MDP/MDPSolver.cpp:534-605 | with any eps the values do not exceed the optimum |
| StrategySolver.ValueLoss | dse/MDP/MDPSolver.cpp:534-605 | values at most d below their best returns are below the optimum by at most d a level of height, each level weakened by the greatest weight of a transition |
| StrategySolver.ThresholdLoss | dse/MDP/MDPSolver.cpp:534-605 | with the threshold eps and no value above M, that is height * eps * M at most when no transition weighs more than one |
| ValueIteration.FixpointIsOptimal | dse/MDP/MDPSolver.cpp:534-548 | the Bellman equations have one solution |
| PathReturns.OptimalIsBestPath | dse/MDP/MDPSolver.cpp:534-605 | the optimum is the most that any path collects: the descents in worth, weighted by the probabilities and discounts on the way |
| PathReturns.OptimalIsDescent | dse/MDP/MDPSolver.cpp:580-584 | with certain, undiscounted transitions it is the worth of the vertex less the least worth reachable |
| PathReturns.DescentHasStrategy | dse/MDP/MDPSolver.cpp:580-601 | a vertex with a possible transition to lower worth has a strategy and a positive value |
| PathReturns.NoDescentNoStrategy | dse/MDP/MDPSolver.cpp:580-601 | a vertex from which no path descends anywhere has value zero and no strategy |
| ParetoFront.OfferedFront | dse/MDP/MDPSolver.cpp:797-815 | offering a solution keeps the set pairwise non-dominating |
| ParetoFront.OfferedCovers | dse/MDP/MDPSolver.cpp:797-815 | whatever was covered by a member stays covered, and the offered solution is covered |
| ParetoFront.DominatesTransitive | dse/MDP/systemConfig.cpp:56-63 | domination is transitive |
| ParetoFront.OfferedValid | dse/MDP/MDPSolver.cpp:797-815 | the three properties of the set together survive an offer |
| ParetoFront.MembersBest | dse/MDP/MDPSolver.cpp:797-815 | no member is worse than a solution that was offered: nowhere smaller and somewhere larger |
| ParetoFront.MembersCover | dse/MDP/MDPSolver.cpp:797-815 | every solution that was offered has a member that is at most as large in every metric |
| ParetoFront.OfferedInNumbers | dse/MDP/MDPSolver.cpp:797-815 | an offer changes nothing when some member is at most as large in every metric; else it enters, and those members stay that are smaller somewhere |
| ParetoFront.Explorer.Undominated | dse/MDP/MDPSolver.cpp:805-811 | the loop keeps exactly the members that the new solution does not dominate, in order |
| ParetoFront.Explorer.UpdateNonDominated | dse/MDP/MDPSolver.cpp:797-815 | over any run of calls: a non-dominating set of offered, marked solutions that covers every solution ever offered; the order of the kept ones is kept; in numbers, the members are the best of all that were offered |
| MetricPartition.PartitionMetrics | dse/MDP/MDPSolver.cpp:499-530 | refuses exactly reversed or negative intervals; otherwise the pieces tile the interval, all but the last exactly lambda times the centre wide and the last no wider, or, where the branch limit does not allow that, as many as it allows, all of one width |
| MetricPartition.WidthIs | dse/MDP/MDPSolver.cpp:514-518 | the width is lambda times the centre, or that which makes the limit's number of pieces if more would be needed |
| ProbabilityTree.ProductComplete | dse/MDP/ProbFunction.cpp:391-430 | the enumerated outcomes are exactly the combinations of one interval for each metric |
| ProbabilityTree.ProductDistinct | dse/MDP/ProbFunction.cpp:391-430 | no combination is enumerated twice unless an interval is listed twice |
| ProbabilityTree.ExtendedAt | dse/MDP/ProbFunction.cpp:400-421 | the order of the enumeration: the last metric's intervals change fastest |
| ProbabilityTree.ShareIs | dse/MDP/ProbFunction.cpp:472-484 | a probability times all samples is the leaf's samples |
| ProbabilityGraph.ProbGraph.CreateUniformGraph | dse/MDP/ProbFunction.cpp:391-430 | the leaves are the enumerated outcomes in order, each with the same probability, which sum to one; every inner vertex has a branch for each interval of its level's metric |
| ProbabilityGraph.ProbGraph.Level | dse/MDP/ProbFunction.cpp:400-421 | one level extends every outcome by every interval of a metric, and every vertex offers its level's metric |
| ProbabilityGraph.ProbGraph.Branch | dse/MDP/ProbFunction.cpp:403-420 | one leaf gets a child for each interval, last in the order of leaves; nothing else changes |
| ProbabilityGraph.ProbGraph.SetUniform | dse/MDP/ProbFunction.cpp:425-429 | every leaf gets the same probability and samples |
| ProbabilityGraph.ProbGraph.FindLeaf | dse/MDP/ProbFunction.cpp:440-451 | the leaf reached by the first matching branch at each vertex, for every outcome that has one wherever it gets |
| OutcomePaths.PathCell | dse/MDP/ProbFunction.cpp:440-451 | a vertex reached by following an outcome stands for intervals of that outcome |
| OutcomePaths.OutcomeReached | dse/MDP/ProbFunction.cpp:440-451 | in a created graph every combination of intervals reaches a leaf, and that leaf stands for exactly that combination |
| OutcomePaths.RegularKept | dse/MDP/ProbFunction.cpp:434-488 | a created graph stays one when samples and probabilities change |
| OutcomePaths.ReachedKept | dse/MDP/ProbFunction.cpp:434-488 | and an outcome keeps reaching the same leaf, in any graph |
| OutcomePaths.GradedStep | dse/MDP/ProbFunction.cpp:403-420 | a level half done: one leaf more has its branches, and all other vertices keep theirs |
| ProbabilityGraph.ProbGraph.FindBranch | dse/MDP/ProbFunction.cpp:443-450 | the first child on the outcome's branch |
| ProbabilityGraph.ProbGraph.Rescale | dse/MDP/ProbFunction.cpp:462-484 | every leaf's probability is its share of all samples |
| ProbabilityGraph.ProbGraph.AddVirtualSample | dse/MDP/ProbFunction.cpp:434-488 | the leaf the outcome reaches gets the samples and no other does, each leaf's probability becomes its share of all samples, and they sum to one; created graphs stay such, so calls can follow each other |
| ProbabilityGraph.ProbGraph.GetNewVertices | dse/MDP/ProbFunction.cpp:493-522 | one outcome a leaf, in order, read off the way to the root, with the leaf's probability |
| ProbabilityGraph.ProbGraph.WalkUp | dse/MDP/ProbFunction.cpp:503-518 | the intervals on the way from a leaf up to the root |

## Left out

- Files and consoles: inputs and outputs are sequences or arrays; reading, writing, printing, timing and table statistics (`htstat`) are not modelled.
- The arithmetic coder's count of pending bits is unbounded here; in C it is a `long` and could overflow only on messages of more than 2^31 rescalings.
- The program exit on too many made-up bits (`exit(-1)`) is an outcome of the decoder, not an exit.
- `inithistory`: the history scores that order the moves are arbitrary integers, so the results hold for any of them; how they are raised and lowered is modelled, what they are worth is not.
- Connect4Search.Solver.MakeMove: requires that the column has room, because the C function does not test it and its callers in the search do.
- Connect4Search.Solver.TransStore: the work and store counts are unbounded; in C they have 6 and 64 bits, and the work of a 64-bit count fits in 6.
- The search is split into methods at the comments of the C function (scanning the moves, picking the next one, trying a move); the C function is one body.
- The tables of `AES.c` and `adpcm.c` are functions of the index, entry by entry.
- Samples and codes of the ADPCM loops are integers; that they fit in `short` and `signed char` is proved for what the loops write, not required of what they read.
- StrategySolver.MDPSolver.ComputeStrategy: vertices are numbered in the order of the topological sort, which is not modelled; metric centroids and objective function are one number a vertex; probabilities, gamma and eps are required to be non-negative.
- MetricPartition.PartitionMetrics: requires a positive lambda; in real arithmetic the interval at zero is not divided, where C divides zero by zero and compares the result as false. `MDPSolver.cpp` calls `abs` unqualified on floating-point numbers: the real-valued one is meant here, not the integer one.
- ProbabilityGraph.ProbGraph.AddVirtualSample: requires an outcome that has a branch at every inner vertex on its own way, because the C loop does not end on any other, and a positive number of samples; a metric that the outcome does not name counts as the interval (0, 0), as in C, but the entry that the C look-up adds to the caller's map for it is not modelled.
- `Probability::updateGraph` and the functions it calls (`dse/MDP/ProbFunction.cpp:170-387`): redistribution of samples when the number of intervals changes, with rounding that carries no clean conservation law.
- `createExplorationGraph`, `applyStrategy`, the simulator client, the plugins, `dse/MOMH`, the configuration parsers, `blit.c`, `bcnt.c`, `lib/systemc`, the Python tools and the TLM components: driven by external programs or easy by comparison.
