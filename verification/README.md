# Verified models of the QR Code encoder, the chain store and the batch guard

A Dafny model of three components of the repository, with proofs.

* **QR Code encoder** (`external/qrcodegen/QrCode.cpp`, after ISO/IEC 18004). The whole pipeline: segments and bit stream,
  Reed-Solomon coding over GF(2^8/0x11D), block interleaving, function patterns, zigzag placement, masking with penalties,
  format and version information. The main theorems are round trips: a reader defined beside the encoder takes the final grid
  of modules apart again and finds error correction level, mask, data codewords and payloads. `Encoder.EncodingRoundTrip`,
  `Encoder.EncodeText` and `Encoder.EncodeBinary` state it end to end, for every input that fits.
* **Chain store** (`src/blockchain_db/blockchain_db.cpp`, with the table primitives as `src/blockchain_db/lmdb/db_lmdb.cpp`
  keeps them). `pop_block` against `add_block`, and what every run of adds and pops keeps. Also the relay method flags.
* **Batch guard** (`src/blockchain_db/locked_txn.h`, with the batch calls as `src/blockchain_db/lmdb/db_lmdb.cpp` has them).
  Nested scopes with calls on any guard in scope, which may throw before or after they have ended the batch, and exceptions
  that leave scopes.

## How the model is laid out

| files | component |
|---|---|
| `Bits`, `Division`, `Counting`, `Wrappers` | bits of naturals, division, sizes of sets, results |
| `Gf256`, `Polynomials`, `ReedSolomon` | the field, polynomials over it, generator and remainder |
| `Exponents`, `FieldPowers`, `FieldOrder` | the order of 2 in the field |
| `Versions`, `Interleaving`, `ErrorCorrection` | tables and capacities, block layout, blocks with error correction |
| `Zigzag`, `ScanOrder` | placement, the order of the scan |
| `FunctionPatterns`, `AlignmentTable`, `FormatInfo` | function modules and their number, alignment positions, format and version words |
| `Penalty`, `SymbolPenalty`, `PenaltyLaws` | penalty of a line, penalty of a symbol, what both come to |
| `Symbols`, `MaskPatterns`, `PatternShapes`, `QrCode` | the symbol as a value with its reader, what masks and fixed patterns look like, and the class that draws it |
| `Packing`, `Segments`, `CharacterValues`, `SegmentParsing`, `ModeChoice`, `DataBits`, `Encoder`, `PaddedData` | segments, character values, their reader, the mode of a text, padding and packing, `encodeSegments`, the data codewords |
| `Rollback`, `Histories` | steps taken back, and what a stack of them keeps, for any states and steps |
| `ChainTables`, `ChainSpec`, `ChainStore` | tables of the chain store, what its operations do to them, and the class that does it |
| `ChainInverse`, `BlockInverse` | removing transactions and popping blocks undoes adding them, and exactly when |
| `ChainRuns`, `ChainRestore`, `ChainReplay`, `ChainSafety`, `RctConservation`, `ChainAdmission`, `ChainRecords`, `ChainExamples` | what every run keeps, exactly which blocks are added, what is recorded of them, and counterexamples |
| `RelayMethods`, `LockedTransactions` | relay flags, batch guard |

Code that works in place is modelled in place: `QrCode`, `BitBuffer`, `BlockchainDb`, `TxMeta`, `Database` and `LockedTxn` are
classes, and the loops of the source are loops. Each method is proved against a function of the old state, and the laws are
proved about those functions. A throw is a result value (`Result`, `Outcome`, or a boolean); the source's internal
"Assertion error" checks appear as assertions and are proved.

Where the code and its documentation differ, the model follows the code:

* The comment on `upgrade_relay_method` says it returns true if the method is now the requested one. The code returns false
  when it already was; `RelayMethods.TxMeta.UpgradeRelayMethod` gives the exact condition.
* `add_transaction` stores outputs under amount 0 when some input is a generating one and the version is 2, while
  `remove_tx_outputs` looks for them under amount 0 only when the generating input is the only one. For a version 2 transaction
  with a generating input and others, be it the miner's or another one, `pop_block` does not undo `add_block` unless all its
  output amounts are 0: `ChainInverse.RemoveUndoesAdd` and `BlockInverse.PopUndoesAdd` give the exact condition and
  `ChainExamples.MixedMinerNotUndone` a block that fails it. What such a pop does restore is everything but the outputs:
  `BlockInverse.PopRestoresRest`. It can take an output of another block and leave one of its own:
  `ChainReplay.OutputsAccounted` says how many are left under amount 0 over any run, and `ChainExamples.ConservationFails` gives a run.
* A guard that has started a batch can end another guard's: a `batch_stop` that fails has ended the batch but leaves the guard
  active. `LockedTransactions.EndsForeignBatch` gives the exact condition.

## Model

| member | source | states |
|---|---|---|
| Gf256.Multiply | external/qrcodegen/QrCode.cpp:772-782 | the loop computes the product of the field, and its range check cannot fail |
| Gf256.MulIsPolynomialProduct | external/qrcodegen/QrCode.cpp:772-782 | the product is the carry-less product reduced modulo 0x11D |
| Gf256.MulComm | external/qrcodegen/QrCode.cpp:772-782 | multiplication commutes |
| Gf256.MulAssoc | external/qrcodegen/QrCode.cpp:772-782 | multiplication associates |
| Gf256.MulAdd | external/qrcodegen/QrCode.cpp:772-782 | multiplication distributes over exclusive or on both sides |
| ReedSolomon.ComputeDivisor | external/qrcodegen/QrCode.cpp:734-756 | the in-place loop gives the product of all (x - 2^i) without its leading 1, and a domain error exactly for degrees outside 1..255 |
| ReedSolomon.GeneratorRoots | external/qrcodegen/QrCode.cpp:742-745 | the generator of degree n is zero at 2^0 .. 2^(n-1) |
| FieldOrder.PowersDistinct | external/qrcodegen/QrCode.cpp:742-745 | 2 generates the field: its first 255 powers are different, so a generator of degree n has n different roots |
| Exponents.Order255 | external/qrcodegen/QrCode.cpp:742-745 | whatever the product, if the 255th power is 1 and the 15th, 51st and 85th are not, the first 255 powers are different |
| ReedSolomon.ComputeRemainder | external/qrcodegen/QrCode.cpp:759-769 | the shift-register loop computes the remainder function; with an empty divisor it is an error exactly if there is data |
| ReedSolomon.ShiftRegisterDivides | external/qrcodegen/QrCode.cpp:759-769 | for every monic divisor the shift register is long division: data times x^n is quotient times divisor plus remainder |
| ReedSolomon.DivisionIsUnique | external/qrcodegen/QrCode.cpp:759-769 | no other quotient and remainder satisfy the division |
| ReedSolomon.CodewordRoots | external/qrcodegen/QrCode.cpp:734-769 | data followed by its remainder is zero at every root of the generator, for every length and degree |
| Interleaving.LayoutFits | external/qrcodegen/QrCode.cpp:534-539 | short and long blocks together take exactly the data, and the table without padding exactly the raw codewords |
| Interleaving.InterleaveBlocks | external/qrcodegen/QrCode.cpp:553-565 | the loops emit the columns of the table without the padding bytes, and the length check cannot fail |
| Interleaving.DeinterleaveInverts | external/qrcodegen/QrCode.cpp:529-565 | for every layout a reader recovers all data and every block's error correction from the interleaved codewords |
| ErrorCorrection.SplitBlocks | external/qrcodegen/QrCode.cpp:541-551 | the split loop builds the table of blocks with their remainders |
| ErrorCorrection.AddEccAndInterleave | external/qrcodegen/QrCode.cpp:534-565 | for every raw length, block count and error correction length that fit, the result is the encoded data and has the raw length |
| ErrorCorrection.BlockIsCodeword | external/qrcodegen/QrCode.cpp:541-565 | every block read back is zero at every root of its generator |
| Versions.RawModulesInRange | external/qrcodegen/QrCode.cpp:711-724 | the range check of the capacity formula cannot fail |
| Versions.CapacitiesDecrease | external/qrcodegen/QrCode.cpp:727-731 | in every version a stronger level holds strictly less, but something |
| Versions.BlockParameters | external/qrcodegen/QrCode.cpp:827-840 | in every version and level the error correction of all blocks is shorter than the raw codewords |
| Zigzag.ScanIsBijective | external/qrcodegen/QrCode.cpp:572-590 | the scan visits every cell outside column 6 exactly once and no other |
| ScanOrder.ScanAt | external/qrcodegen/QrCode.cpp:572-590 | which cell the scan visits when: pairs of columns from the right, the right cell of a row before the left one, up in the first pair and then down and up in turn |
| ScanOrder.ScanMoves | external/qrcodegen/QrCode.cpp:572-590 | the scan starts in the lower right corner; from the left cell of a row it goes to a neighbouring row of the same columns or, in the same row, to the next columns |
| Zigzag.PlaceFrame | external/qrcodegen/QrCode.cpp:581-584 | placement leaves function modules and cells outside the scan alone, whatever the function modules are |
| Zigzag.ReadPlaced | external/qrcodegen/QrCode.cpp:572-590 | for any function mask, reading the free cells in scan order gives the bits written, then what was there before |
| FunctionPatterns.AlignmentSpacing | external/qrcodegen/QrCode.cpp:695-708 | there are two to seven alignment positions on an axis; the step between them is at least twelve, and so is the first gap |
| AlignmentTable.PositionsAsInTable | external/qrcodegen/QrCode.cpp:695-708 | in every version the computed positions are those of annex E of ISO/IEC 18004 |
| FunctionPatterns.FreeCountOf | external/qrcodegen/QrCode.cpp:572-590 | for any set of reserved modules that contains column 6 the scan finds exactly the others free |
| FunctionPatterns.FunctionCellsSize | external/qrcodegen/QrCode.cpp:711-724 | the capacity formula is the number of modules that are not function modules |
| FunctionPatterns.CapacityIsExact | external/qrcodegen/QrCode.cpp:416-521 | the free cells that the scan meets among the drawn function modules are as many as the formula says |
| FormatInfo.FormatBits | external/qrcodegen/QrCode.cpp:446-454 | the loop computes the format word, and its range check cannot fail |
| FormatInfo.FormatWordReadable | external/qrcodegen/QrCode.cpp:446-454 | level and mask can be read from the word; unmasked it is a multiple of its generator polynomial |
| FormatInfo.VersionBits | external/qrcodegen/QrCode.cpp:474-483 | the loop computes the version word, and its range check cannot fail |
| FormatInfo.VersionWordReadable | external/qrcodegen/QrCode.cpp:474-483 | the version can be read from the word, which is a multiple of its generator polynomial |
| Penalty.RunsSpellLine | external/qrcodegen/QrCode.cpp:623-644 | the run lengths used by the specification spell the line |
| Penalty.AddHistory | external/qrcodegen/QrCode.cpp:806-811 | the history is shifted in place by the new length, with the border added to the first |
| Penalty.CountPatterns | external/qrcodegen/QrCode.cpp:785-792 | counts the finder ratio in both directions over the last seven runs |
| Penalty.TerminateAndCount | external/qrcodegen/QrCode.cpp:795-803 | the matches found at the end of a line are those that the white border completes |
| Penalty.ScanLine | external/qrcodegen/QrCode.cpp:623-644 | the one-pass scan of a line equals the run-length specification: long runs plus finder patterns between white borders |
| SymbolPenalty.BalanceFormula | external/qrcodegen/QrCode.cpp:681-691 | on an odd number of modules the formula gives the least k with the share of black modules within 5k + 5 percent of one half |
| SymbolPenalty.GetPenaltyScore | external/qrcodegen/QrCode.cpp:620-692 | the four penalty loops compute the specified penalty of the grid |
| PenaltyLaws.PenaltyTurns | external/qrcodegen/QrCode.cpp:620-692 | the penalty of every grid is that of the grid turned over its diagonal, so that rows and columns count alike |
| PenaltyLaws.WhitePenalty | external/qrcodegen/QrCode.cpp:620-692 | a white grid of n by n modules costs 2 n (n - 2) for its lines, 3 (n - 1)^2 for its blocks and 90 for its balance |
| PenaltyLaws.FinderLine | external/qrcodegen/QrCode.cpp:785-811 | a line with nothing but a finder core 1:1:3:1:1 of any width costs 80 more than its long runs, wherever the core is |
| PenaltyLaws.RunsOfExpanded | external/qrcodegen/QrCode.cpp:623-644 | a line spelled from runs of which at most the first is empty has just these runs |
| SymbolPenalty.PenaltyBelowLimit | external/qrcodegen/QrCode.cpp:340-349 | every penalty is below the least LONG_MAX, so the first trial is always taken |
| Symbols.MaskTwice | external/qrcodegen/QrCode.cpp:596-617 | masking is its own inverse |
| MaskPatterns.CornerBlack | external/qrcodegen/QrCode.cpp:603-612 | all eight patterns invert the corner module |
| MaskPatterns.Pattern0 | external/qrcodegen/QrCode.cpp:604-604 | pattern 0 changes with every step to the side or down |
| MaskPatterns.Pattern1 | external/qrcodegen/QrCode.cpp:605-605 | pattern 1 has rows of one colour, in turn |
| MaskPatterns.Pattern2 | external/qrcodegen/QrCode.cpp:606-606 | pattern 2 has columns of one colour, one of three neighbours black |
| MaskPatterns.Pattern3 | external/qrcodegen/QrCode.cpp:607-607 | pattern 3 has rising diagonals of one colour, one of three neighbours black |
| MaskPatterns.Pattern4 | external/qrcodegen/QrCode.cpp:608-608 | pattern 4 has blocks of three columns and two rows of one colour, which changes from block to block |
| MaskPatterns.Repeats | external/qrcodegen/QrCode.cpp:609-611 | patterns 5, 6 and 7 are symmetric and repeat after six modules |
| MaskPatterns.FirstTile | external/qrcodegen/QrCode.cpp:609-611 | their six by six tiles, module by module |
| Symbols.Trial | external/qrcodegen/QrCode.cpp:341-350 | whatever format bits are left over, a trial sees the finished symbol of its mask and then restores the unmasked modules |
| Symbols.FormatReadable | external/qrcodegen/QrCode.cpp:456-469 | either copy of the format word in the grid gives level and mask |
| Symbols.VersionReadable | external/qrcodegen/QrCode.cpp:473-493 | from version 7 on, either copy of the version word in the final symbol gives the version |
| PatternShapes.FinderShape | external/qrcodegen/QrCode.cpp:496-505 | in the final symbol the row and the column through the middle of each finder pattern have the runs 1:1:3:1:1, rings have one colour, and the separator is white |
| PatternShapes.AlignmentShape | external/qrcodegen/QrCode.cpp:508-513 | in the final symbol the row and the column through the middle of each alignment pattern have the runs 1:1:1:1:1, and rings have one colour |
| PatternShapes.TimingShape | external/qrcodegen/QrCode.cpp:417-421 | in the final symbol row and column 6 alternate from black between the finder patterns, also where alignment patterns cross them |
| PatternShapes.DarkModule | external/qrcodegen/QrCode.cpp:469-469 | the module above the lower format bits is always black |
| Symbols.BitsRead | external/qrcodegen/QrCode.cpp:568-617 | unmasking and scanning the final symbol gives the codeword bits, and every module after them is white |
| Symbols.RemainderBits | external/qrcodegen/QrCode.cpp:586-587 | none to seven modules are left over |
| Symbols.CodewordsRead | external/qrcodegen/QrCode.cpp:568-617 | the codewords are read back from the final symbol |
| Symbols.SymbolRoundTrip | external/qrcodegen/QrCode.cpp:320-360 | for every version, level, mask and data of the right length, reading the symbol gives back level, mask and data codewords |
| Symbols.BlocksAreCodewords | external/qrcodegen/QrCode.cpp:320-360 | every block read from the symbol is zero at every root of its generator |
| QrCodes.QrCode.SetFunctionModule | external/qrcodegen/QrCode.cpp:516-521 | one module gets its colour and is marked |
| QrCodes.QrCode.DrawTimingPatterns | external/qrcodegen/QrCode.cpp:417-421 | exactly row 6 and column 6 are painted with alternating modules |
| QrCodes.QrCode.DrawFinderPattern | external/qrcodegen/QrCode.cpp:496-505 | exactly the cells within four of the centre that lie in the grid are painted, as rings |
| QrCodes.QrCode.DrawAlignmentPattern | external/qrcodegen/QrCode.cpp:508-513 | exactly the cells within two of the centre are painted, as rings |
| QrCodes.QrCode.DrawFormatBits | external/qrcodegen/QrCode.cpp:445-470 | exactly the modules of both copies and the dark module are painted with the format word |
| QrCodes.QrCode.DrawVersion | external/qrcodegen/QrCode.cpp:473-493 | exactly the modules of both copies are painted with the version word, from version 7 on |
| QrCodes.QrCode.GetAlignmentPatternPositions | external/qrcodegen/QrCode.cpp:695-708 | the list built from the back holds the alignment positions in order |
| QrCodes.QrCode.DrawFunctionPatterns | external/qrcodegen/QrCode.cpp:416-442 | from white grids, exactly the function modules are marked, each with its colour, and all else is white |
| QrCodes.QrCode.DrawScan | external/qrcodegen/QrCode.cpp:572-590 | for any function modules the loops end and place the bits along the scan |
| QrCodes.QrCode.DrawCodewords | external/qrcodegen/QrCode.cpp:568-593 | codewords of the right number are placed and all bits are used; any other number is an error |
| QrCodes.QrCode.ApplyMask | external/qrcodegen/QrCode.cpp:596-617 | inverts exactly the data modules of the pattern; a mask out of range is an error that changes nothing |
| QrCodes.QrCode.AddEcc | external/qrcodegen/QrCode.cpp:529-565 | data of the right length is encoded and has the raw length; any other length is an error |
| QrCodes.QrCode.TryMask | external/qrcodegen/QrCode.cpp:341-350 | the penalty is that of the finished symbol, and the modules are restored |
| QrCodes.QrCode.ChooseMask | external/qrcodegen/QrCode.cpp:339-351 | the mask chosen is the lowest-numbered of least penalty |
| QrCodes.QrCode.DoMasking | external/qrcodegen/QrCode.cpp:338-356 | the symbol is finished with the requested mask or the first of least penalty |
| QrCodes.QrCode.Create | external/qrcodegen/QrCode.cpp:320-360 | fails exactly for arguments out of range or data of the wrong length, with the right error; otherwise the object depicts the data |
| QrCodes.AutomaticIsForced | external/qrcodegen/QrCode.cpp:320-360 | making a symbol with an automatically chosen mask, and again with that mask forced, gives the same modules and mask; where the first fails, so does the call with a mask given |
| Packing.UnpackPacked | external/qrcodegen/QrCode.cpp:77-120 | digit groups of every length are read back, leading zeros included |
| Packing.GroupFits | external/qrcodegen/QrCode.cpp:87-97 | every accumulated group fits its field |
| Packing.DecimalLength | external/qrcodegen/QrCode.cpp:77-97 | numeric data takes 10 (n / 3) bits plus 0, 4 or 7 |
| Packing.Base45Length | external/qrcodegen/QrCode.cpp:100-120 | alphanumeric data takes 11 (n / 2) bits plus 0 or 6 |
| Segments.BitBuffer.AppendBits | external/qrcodegen/QrCode.cpp:855-860 | appends the bits of the value, or fails exactly when length or value is out of range and changes nothing |
| Segments.MakeBytes | external/qrcodegen/QrCode.cpp:67-74 | the segment of the bytes, or a length error exactly above INT_MAX |
| Segments.MakeNumeric | external/qrcodegen/QrCode.cpp:77-97 | the segment of the digits, or a domain error exactly when some character is no digit |
| Segments.MakeAlphanumeric | external/qrcodegen/QrCode.cpp:100-120 | the segment of the text, or a domain error exactly when some character is outside the set |
| CharacterValues.Values | external/qrcodegen/QrCode.cpp:228-228 | the value of a digit is its number, that of a letter its place in the alphabet plus 10, and the nine other characters take 36 to 44 in their order |
| Segments.MakeEci | external/qrcodegen/QrCode.cpp:141-156 | the segment of the number, or a domain error exactly outside 0 .. 999999 |
| Segments.MakeSegments | external/qrcodegen/QrCode.cpp:123-138 | nothing for empty text, else one segment, numeric if the text is, else alphanumeric if it is, else of bytes; or a length error |
| ModeChoice.ChosenIsShortest | external/qrcodegen/QrCode.cpp:123-138 | in every version the chosen segment takes fewer bits, header included, than any other that says the same text |
| ModeChoice.CountFields | external/qrcodegen/QrCode.cpp:55-64 | the widths of the count fields, which change at versions 10 and 27 |
| SegmentParsing.EciParsed | external/qrcodegen/QrCode.cpp:141-156 | numbers of one, two and three bytes are told apart and read back |
| SegmentParsing.SegmentSays | external/qrcodegen/QrCode.cpp:67-156 | every segment made is read as its payload, whatever follows |
| SegmentParsing.StreamParsed | external/qrcodegen/QrCode.cpp:288-293 | the concatenation of segments is read as their payloads, whatever follows the terminator or the last three bits |
| DataBits.TerminatorFits | external/qrcodegen/QrCode.cpp:298-304 | the terminator fits the capacity, ends on a codeword and is recognised |
| DataBits.AddPadding | external/qrcodegen/QrCode.cpp:297-308 | exactly the terminator, the zero bits and the alternating pad bytes are appended, up to the capacity |
| DataBits.PaddingEnds | external/qrcodegen/QrCode.cpp:297-308 | a reader of segments stops at the padding |
| DataBits.PackCodewords | external/qrcodegen/QrCode.cpp:310-313 | the bit-by-bit loop packs the groups of eight bits |
| Encoder.GetTotalBits | external/qrcodegen/QrCode.cpp:177-191 | the exact length of the stream, or -1 if and only if a count overflows its field or the total exceeds INT_MAX |
| Encoder.ChooseVersion | external/qrcodegen/QrCode.cpp:260-278 | the least version in the range that holds the segments, or none if and only if none does |
| Encoder.BoostEcl | external/qrcodegen/QrCode.cpp:281-285 | never weaker than requested, and with boosting the strongest level that holds the data |
| Encoder.AppendSegments | external/qrcodegen/QrCode.cpp:287-293 | the loop concatenates headers and data of all segments |
| Encoder.EncodeData | external/qrcodegen/QrCode.cpp:287-313 | the codewords are the padded and packed stream, of exactly the capacity; no assertion on the way can fail |
| PaddedData.DataIs | external/qrcodegen/QrCode.cpp:297-313 | for every stream and capacity the codewords are the stream, zero bits up to the end of the codeword where the terminator ends, and then 0xEC and 0x11 in turn |
| Encoder.DataParsed | external/qrcodegen/QrCode.cpp:287-316 | read as a bit stream, the data codewords say what the segments say |
| Encoder.EncodeSegments | external/qrcodegen/QrCode.cpp:255-317 | the error of every failure, and otherwise the planned version and level and a symbol that depicts the segments |
| Encoder.EncodingRoundTrip | external/qrcodegen/QrCode.cpp:255-360 | a reader of the modules finds level, mask and the payloads of all segments |
| Encoder.EncodeBinary | external/qrcodegen/QrCode.cpp:249-252 | the bytes are read back from the modules whenever some version holds them |
| Encoder.EncodeText | external/qrcodegen/QrCode.cpp:243-246 | the text is read back from the modules whenever some version holds it |
| ChainTables.RemoveAddedOutput | src/blockchain_db/lmdb/db_lmdb.cpp:1054-1203 | removing an output just added restores both output tables |
| ChainInverse.SpendAdds | src/blockchain_db/blockchain_db.cpp:206-225 | a transaction that is added spends exactly its images, which are distinct and were not spent before |
| ChainInverse.RemoveUndoesAdd | src/blockchain_db/blockchain_db.cpp:182-249 | removing a transaction just added restores all tables if and only if its outputs are looked for under the amounts they were stored under |
| ChainExamples.MixedMinerNotUndone | src/blockchain_db/lmdb/db_lmdb.cpp:1159-1164 | a block whose version 2 miner transaction has a generating input and another one is added, and popping it does not restore the tables |
| ChainInverse.UsualTransactions | src/blockchain_db/lmdb/db_lmdb.cpp:1159-1164 | transactions without a generating input, and miner transactions of versions 1 and 2 with just that input, meet the condition |
| ChainInverse.TakeAddedTransactions | src/blockchain_db/blockchain_db.cpp:335-344 | transactions whose outputs are looked for as they are stored are removed and returned in the exact reverse of insertion order |
| BlockInverse.PopUndoesAdd | src/blockchain_db/blockchain_db.cpp:251-345 | popping a block just added restores all tables and returns the block and its transactions reversed, if and only if every output of all its transactions is looked for under the amount it was stored under |
| BlockInverse.PopCounts | src/blockchain_db/lmdb/db_lmdb.cpp:1159-1164 | a pop that succeeds, whatever has happened to the outputs since the add, takes away exactly as many outputs under amount 0 as it looks for there |
| BlockInverse.BlockZerosLost | src/blockchain_db/lmdb/db_lmdb.cpp:1159-1164 | these are not more than the block stored there, and as many if and only if the block can be undone |
| ChainRuns.CommitmentsAlwaysMatch | src/blockchain_db/blockchain_db.cpp:271-309 | over every run, of any blocks, each stored commitment has the schema, non-null hashes and the hash of the block at its height, and none is at or above the height |
| ChainRecords.SurvivorsHeld | src/blockchain_db/blockchain_db.cpp:303-309 | over every run, of any blocks, the rows are those of the surviving blocks in order, and there is a commitment at a height exactly if the block there came with one, namely that one |
| ChainRecords.AddTransactionRecords | src/blockchain_db/blockchain_db.cpp:182-249 | a transaction that is added is recorded under its hash with unlock time, height, prunable hash and output indices; each output is in the row of its amount (0 for a version 2 coinbase) and index with its key, unlock time, height and, under amount 0, the commitment to its amount or its mask, and its id leads back to it; no earlier row is changed |
| ChainRecords.SurvivorsRecorded | src/blockchain_db/blockchain_db.cpp:182-318 | after every run where the pops that succeed take blocks that can be undone, this is so of all transactions of the surviving blocks, at the heights of their blocks |
| ChainRecords.SurvivorsDataRecorded | src/blockchain_db/lmdb/db_lmdb.cpp:891-974 | after every run, of any blocks, it is so but for the outputs |
| ChainReplay.RunIsReplay | src/blockchain_db/blockchain_db.cpp:251-366 | the tables after any run are those of the surviving blocks added alone, if and only if every pop that succeeds takes a block that can be undone |
| ChainReplay.UndoableBlocks | src/blockchain_db/blockchain_db.cpp:251-366 | which is so for runs of blocks that can be undone |
| ChainReplay.PopReplay | src/blockchain_db/blockchain_db.cpp:325-345 | popping a store of added blocks leaves the store of one block fewer and returns that block with its transactions reversed, if and only if that block can be undone |
| ChainReplay.OutputsAccounted | src/blockchain_db/blockchain_db.cpp:226-366 | over every run, of any blocks, the outputs held under amount 0 are those that the surviving blocks stored there and those that pops left behind |
| ChainReplay.NothingLeftBehind | src/blockchain_db/lmdb/db_lmdb.cpp:1159-1164 | pops leave nothing behind if and only if every one that succeeds takes a block that can be undone |
| ChainRuns.PopsUndoAdds | src/blockchain_db/blockchain_db.cpp:251-345 | from the tables of any run, as many pops as adds restore the tables and return the blocks in reverse, if and only if all the added blocks can be undone |
| BlockInverse.PopRestoresRest | src/blockchain_db/blockchain_db.cpp:325-366 | whatever the block, and whatever has happened to the outputs since, a pop that succeeds restores all other tables and returns the block with its transactions reversed |
| ChainRestore.RunLeftBy | src/blockchain_db/blockchain_db.cpp:251-366 | over every run, of any blocks, the tables but for the outputs are those that the surviving blocks left one after the other |
| ChainRestore.PopReturnsSurvivor | src/blockchain_db/blockchain_db.cpp:325-345 | over every run, of any blocks, a pop that succeeds returns the last surviving block with its transactions reversed |
| ChainSafety.AlwaysLinked | src/blockchain_db/lmdb/db_lmdb.cpp:776-889 | over every run, of any blocks, rows and heights index each other and every block but the first names the hash of the one before it |
| ChainSafety.SpentExactlyOnce | src/blockchain_db/blockchain_db.cpp:206-225 | over every run, of any blocks, the spent keys are exactly the images of the transactions of the surviving blocks, and no image is spent twice |
| RctConservation.UsualBlocks | src/blockchain_db/blockchain_db.cpp:284-301 | blocks with a version 2 miner transaction that has just a generating input, and otherwise ordinary transactions, are counted as they are stored and can be undone |
| RctConservation.HandedIsStored | src/blockchain_db/blockchain_db.cpp:284-307 | with ordinary transactions, the number handed over is the number stored under amount 0 if and only if the miner transaction is counted as it is stored |
| RctConservation.RctOutputsConserved | src/blockchain_db/blockchain_db.cpp:226-307 | over every run whose surviving blocks have ordinary transactions and a miner transaction counted as it is stored, the outputs held under amount 0 are the numbers handed over with these blocks plus what pops left behind; just the numbers handed over if and only if every pop that succeeds takes a block that can be undone |
| ChainExamples.ConservationFails | src/blockchain_db/lmdb/db_lmdb.cpp:1159-1164 | a run of two adds and a pop, of blocks counted as they are stored, after which one output is held under amount 0 and none was handed over |
| RctConservation.CountsAddUp | src/blockchain_db/lmdb/db_lmdb.cpp:825-835 | over every run, of any blocks, the differences of the stored cumulative counts add up to the numbers handed over with the surviving blocks |
| RctConservation.CumulativeCount | src/blockchain_db/lmdb/db_lmdb.cpp:825-835 | over every run whose stored blocks after the first have major version 4 or above, the count of the top block is what was handed over with the surviving blocks; where these are counted as they are stored, it is the number of outputs held under amount 0 if and only if every pop that succeeds takes a block that can be undone |
| ChainAdmission.AddTransactionExactly | src/blockchain_db/blockchain_db.cpp:182-249 | on tables without gaps a transaction is added if and only if its version is 1 or 2, its inputs are known and do not repeat an image, its outputs have keys and, in version 1, amounts, and its images and hash are new |
| ChainAdmission.AddBlockExactly | src/blockchain_db/blockchain_db.cpp:251-318 | on tables without gaps a block is added if and only if sizes and commitment are right, its transactions are such with hashes and images not used twice, its hash is new and it names the top block; then there are still no gaps |
| ChainAdmission.AddedExactly | src/blockchain_db/blockchain_db.cpp:251-318 | after every run where the pops that succeed take blocks that can be undone there are no gaps, so that the next block is added if and only if the caller meets these conditions |
| ChainStore.BlockchainDb.AddSpentKey | src/blockchain_db/lmdb/db_lmdb.cpp:1259-1274 | an image is added, or the call throws exactly if it was spent |
| ChainStore.BlockchainDb.RemoveSpentKey | src/blockchain_db/lmdb/db_lmdb.cpp:1276-1294 | an image is removed if it is there |
| ChainStore.BlockchainDb.NumOutputs | src/blockchain_db/lmdb/db_lmdb.cpp:2999-3018 | one above the last output id, or zero |
| ChainStore.BlockchainDb.StoreOutput | src/blockchain_db/lmdb/db_lmdb.cpp:1054-1119 | the output gets the id above the last and the next index of its amount, or the call throws |
| ChainStore.BlockchainDb.DropOutput | src/blockchain_db/lmdb/db_lmdb.cpp:1167-1203 | the output is removed from both tables, or the call throws |
| ChainStore.BlockchainDb.StoreTransaction | src/blockchain_db/blockchain_db.cpp:182-249 | all tables after the loops over inputs and outputs, and which call threw first |
| ChainStore.BlockchainDb.DropTransaction | src/blockchain_db/blockchain_db.cpp:352-366 | all tables after the removal, outputs from the last down, and which call threw first |
| ChainStore.BlockchainDb.Add | src/blockchain_db/blockchain_db.cpp:251-318 | all tables after the block, with the rct count handed over and the commitment, and which call threw first |
| ChainStore.BlockchainDb.Pop | src/blockchain_db/blockchain_db.cpp:325-345 | all tables after the pop, and the block and transactions returned |
| RelayMethods.FlagsHoldMethods | src/blockchain_db/blockchain_db.cpp:77-135 | the flags set for a method are the only ones with at most one flag set that are read as it |
| RelayMethods.TxMeta.SetRelayMethod | src/blockchain_db/blockchain_db.cpp:77-106 | at most one flag is set, for each method its own and none for fluff, and the method is read back |
| RelayMethods.TxMeta.UpgradeRelayMethod | src/blockchain_db/blockchain_db.cpp:137-151 | true exactly if the method is strictly raised; the flags are set for it or unchanged; the documented meaning of the result holds if and only if the method was not the requested one before |
| RelayMethods.TxMeta.UpgradeAll | src/blockchain_db/blockchain_db.cpp:137-151 | after any sequence of upgrades the flags hold the highest of the first method and all requested |
| RelayMethods.HighestIsMaximum | src/blockchain_db/blockchain_db.cpp:137-151 | that method is one of them and at least each of them |
| RelayMethods.UpwardClosed | src/blockchain_db/blockchain_db.cpp:47-75 | raising the method never loses a category, if and only if the category is not the legacy one |
| RelayMethods.LeastOfCategory | src/blockchain_db/blockchain_db.cpp:47-75 | relayable begins with local and broadcasted with fluff in the order of the methods; legacy is broadcasted or none |
| LockedTransactions.Database.BatchEnd | src/blockchain_db/lmdb/db_lmdb.cpp:3888-3938 | throws without a batch; otherwise the batch is ended, or not, and a throw can come before or after that |
| LockedTransactions.LockedTxn.Open | src/blockchain_db/locked_txn.h:41-44 | the guard has started a batch exactly if there was none; a throw leaves no guard and no batch |
| LockedTransactions.LockedTxn.Commit | src/blockchain_db/locked_txn.h:45-45 | ends the batch in progress if the guard has started one and is active; the guard stays active if the call throws, though the batch may have ended |
| LockedTransactions.LockedTxn.Abort | src/blockchain_db/locked_txn.h:46-47 | the same for aborting, which is also the destructor |
| LockedTransactions.Perform | src/blockchain_db/locked_txn.h:39-52 | guards, database and nested scopes as objects do what the scope semantics says, with calls on any guard in scope, destructors and exceptions included |
| LockedTransactions.ExecAllKeeps | src/blockchain_db/locked_txn.h:39-52 | over every run batches do not overlap and none is ended twice, and a guard is active exactly until a call on it ends a batch without throwing |
| LockedTransactions.RunsEndOnce | src/blockchain_db/locked_txn.h:39-52 | over every run, a batch that was started and is not in progress has been ended exactly once |
| LockedTransactions.NothingUntilFirstEnd | src/blockchain_db/locked_txn.h:45-47 | a batch in progress is untouched, in all nested scopes, until the first call that can end it, which ends it, throwing or not |
| LockedTransactions.EndedFromOutside | src/blockchain_db/locked_txn.h:41-47 | that call is on an active guard from outside: no scope inside a batch ends it by its own guard |
| LockedTransactions.ScopeInBatch | src/blockchain_db/locked_txn.h:39-52 | a scope inside a batch leaves it alone if and only if no call in it, on an enclosing guard, can end the batch |
| LockedTransactions.NextEnd | src/blockchain_db/locked_txn.h:41-47 | the batch that a scope starts is ended by the first call that can end it, throwing or not, or else by the destructor |
| LockedTransactions.EndedOnceByExit | src/blockchain_db/locked_txn.h:41-47 | by the end of the scope that batch has been ended exactly once, except if and only if there was no such call and the destructor's abort throws before ending it |
| LockedTransactions.ScopeReturns | src/blockchain_db/locked_txn.h:39-52 | if no destructor throws before ending its batch, a scope however nested and however left leaves the batch it found or none |
| LockedTransactions.EndsForeignBatch | src/blockchain_db/lmdb/db_lmdb.cpp:3888-3914 | a call ends a batch that its guard did not start if and only if it does not throw before ending one, one is in progress, the guard's own has been ended, and no call on the guard has yet succeeded |
| LockedTransactions.ForeignOnlyAfterFailure | src/blockchain_db/lmdb/db_lmdb.cpp:3888-3914 | over every run that happens only after some guard's call has ended its own batch and thrown |
| LockedTransactions.OwnEndsOnly | src/blockchain_db/locked_txn.h:39-52 | over every run without calls that throw after ending a batch, every batch is ended by the guard that started it |
| LockedTransactions.ForeignEndHappens | src/blockchain_db/lmdb/db_lmdb.cpp:3888-3914 | two nested scopes, with a failing commit in the outer one, where the outer guard ends the inner guard's batch |
| LockedTransactions.AbortAfterThrow | src/blockchain_db/locked_txn.h:45-47 | after a commit that throws the guard is still active: its destructor aborts the batch if that is still in progress and does nothing if it has ended |

## Left out

- `toSvgString`, the accessors of `QrCode` and `QrSegment` and the texts of exceptions: string output and field reads only.
- `QrSegment` objects of Kanji mode: the source has no maker for them; streams may contain them but the reader stops with failure there.
- Machine integers: `int` counters in the segment makers do not overflow in the model, so text longer than INT_MAX characters in numeric or alphanumeric mode is not modelled as the undefined behaviour it is.
- Decoding with error correction: the repository only encodes.
- Pruned transactions, the pruning tables and blob formats of the LMDB backend: transactions are stored whole.
- The masks of output commitments are a field of each output, so a signature with fewer masks than outputs is not modelled.
- Block weights, timestamps, difficulties, coins, hard fork bookkeeping and timing statistics: stored or logged without being looked at here.
- The tables after a throw inside `add_block` or `pop_block`: a run treats a throwing operation as rolled back by the write transaction around it.
- Hash functions and `zeroCommit` are parameters; no property of them is used.
- `fixup()`, the transaction pool tables and everything else of `BlockchainDB`.
- Enumeration values outside the enumerators of `relay_method` and `relay_category`.
