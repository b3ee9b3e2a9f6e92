# Proofs about Zown

Zown is a stack language with quotations, capabilities and moves, an AV1 still
codec, an Opus speech codec, a graph with sealed bundles and several back ends.
This project models the parts of it where a mistake would not show in a test run,
and proves what they promise for all inputs.

| files | what they model |
|---|---|
| Syntax, Machine, Vm, OperatorLaws, ControlLaws | programs, the meaning of a run as a function, the imperative VM that has this meaning, and what operators, loops and matches compute |
| CheckerModel, Checker | the static checker as a function of the program, and the object that computes it |
| CheckerStatic, CheckerSound, CheckerSim, CheckerTheorems, CheckerLimits | why its reports are right in every run, and where they are not |
| CheckerMatch, CheckerHandled, CheckerEscapes | the reports on `??` against the match that runs, what must be reported, and what escapes |
| Lowering, Native, LoweringSound | quotations as a block table, the runtime of compiled programs, and that both mean the same |
| Bits | shifts, bit lengths and byte strings |
| MsacModel, MsacEnc, MsacDec, MsacTail, MsacRoundTrip, MsacShares | the AV1 range coder: ideal intervals, encoder and decoder that refine them, how distributions adapt, and what is read past the end |
| Av1Transform, Av1Channel, Av1Syntax, Av1BlockEnc, Av1BlockDec, Av1Still, Av1Length, Av1Bits, Av1File | the lossless still, from the transform up to whole files |
| Av1Predict, Av1Laws | what its shared parts compute: prediction, transform, contexts, sizes |
| OpusModel, OpusEnc, OpusDec, OpusRoundTrip, OpusTell, OpusLaws | the Opus range coder, what its counts and parts measure (sections 4.1 and 5.1 of RFC 6716) |
| OpusLaplace, OpusPvq, PvqOrder, CeltAllocation, CeltLaws | the Laplace model, the pulse vectors and the bit allocation (section 4.3 of RFC 6716) |
| Blake3, Blake3Hasher, Blake3Bytes | the tree hash, the incremental hasher, and bytes and flags |
| MerkleLog | the log's tree and its inclusion proofs (section 2.1 of RFC 6962) |
| Graph, Bundle | the graph with its text form, and sealed bundles with signature and inclusion |
| BTreeModel, BTreeOps, BTree | sorted lists, B-trees as values, and the nodes in memory |
| Lexer, Format, FormatLines | the lexer and the formatter |

A core program is one that the parser delivers, so that no two nodes share a
position, and that binds neither gr nor ty, the words that run blocks. A run takes a bound on
the iterations of its loops; the theorems hold for every bound.

Objects whose fields the source updates are classes here, proved against functions
that state the meaning: the VM, the checker, the four range coders, the bit
reader and writer, the hasher, the block builder, the graph and its store, the B-tree
nodes and the lexer.

This checks everything:

    dafny verify --resource-limit 2000000 --verification-time-limit 0 dfyconfig.toml

## Findings

Each of these is a property one would expect and that the code does not have.
The model keeps the code as it is; a lemma gives the input, and another says when
the property holds.

- A program that binds `gr` later can pass a `rq` that is reported as never granted
  (CheckerLimits.LateGrIsReported, LateGrSucceeds). The checker tests shadowing over
  the whole program, the VM when it runs. For programs that bind neither `gr` nor
  `ty` the report is right (CheckerTheorems.DeniedIsDenied).
- A `;` condition inherits moved-out marks, which describe its first evaluation only;
  a program that reads the name in later ones is reported and succeeds
  (CheckerLimits.LoopIsReported, LoopSucceeds). With no marks where a condition
  starts, all reports are right (CheckerTheorems.FreshMovedOut).
- A fault at a moved-out name can be caught if its block reaches `ty` by another way
  than the literal (CheckerLimits.TriedIsReported, TriedSucceeds). With no marks where
  a condition starts the name still never resolves, and without `ty` in the program
  the run ends there (CheckerTheorems.FreshMovedOut).
- A match can refuse its result with NO_MATCH although nothing is reported of it: in
  `[ [1] [ [@] ty [ [ok] [] ] ?? ] ?? 2 ] 1 \ ??` it stands in code that is written as
  the arms of one match, reported as malformed and therefore not walked, and runs as an
  arm of another (CheckerEscapes.UnjudgedIsSilent, UnjudgedRefuses). In programs
  that do not bind `ty`, every match that the checker comes to and does not report keeps
  what that promises (CheckerHandled.UnreportedNeverRefuses), and it comes to all of them
  when no arms are reported as malformed (CleanNeverRefuses).
- Two different empty quotations are equal to the VM and different to compiled code:
  `[] [] ==`, which is a parsed program (LoweringSound.TwoEmptyQuoted, TwoEmptyRun,
  TwoEmptyNative). The two machines agree on every run that does not compare such a
  pair (LoweringSound.LoweringKeepsMeaning), and differ on the comparison itself
  (TwinsDiffer).
- An inclusion proof proves neither the index nor the size it claims
  (MerkleLog.PlaceIsNotProved). It is accepted exactly for places with the same turns
  (ProofAccepted), which at the log's own size is one place (ProofExact). The check
  of a bundle compares the size first (zown/store.py:309), so that a bundle does show
  the place (Bundles.InclusionShows).
- A truncated AV1 tile is never reported (zown/av1.py:804): on any bytes and for any
  calls the position stays within the data (MsacRoundTrip.ReadAny). A tile that codes
  a one and is cut off reads as a zero (MsacTail.CutOffTile, MsacRoundTrip.ReadCut).
  What a cut-off tile is read as is settled: the code is the data, zeros up to an edge
  49 to 63 bits past the end, and ones from there on (MsacTail.SeenZeros). It reads as
  what was coded exactly when that code is still in the interval of the calls
  (MsacTail.ReadsBackIff).

## Remarks

- A LEB128 size is read back exactly when it is below 2^56 (Av1Bits.LebRoundTrip); a
  tile has less than 2^15 bytes (Av1Length.TileLength), so no file comes near.
- The comment of the instruction set calls the result constructor `at`
  (zownc/crates/zown-ir/src/lib.rs:48); the code and the language call it `ty`, and so
  does the model.

## Model

| member | source | states |
|---|---|---|
| CheckerTheorems.DeniedIsDenied | zown/checker.py:328-346 | in every run of every core program, a `rq` reported as denied or never granted ends the run with CAP_DENIED once it is reached: no `ty` catches it, and it never succeeds |
| CheckerTheorems.AnchoredRunsExactly | zown/checker.py:283-325 | every node of a block whose authority the checker knows runs with exactly that set of capabilities |
| CheckerTheorems.NeverGrantedNeverHeld | zown/checker.py:189-213 | in every reachable state the capabilities held are among those that some free literal names |
| CheckerTheorems.UnboundNeverResolves | zown/checker.py:224-248 | a name reported as unbound never resolves, and without `ty` ends the run with NAME_UNRESOLVED |
| CheckerTheorems.MovedOutNeverResolves | zown/checker.py:216-281 | a name reported as moved out by marks that a `;` condition does not inherit never resolves; without `ty` it ends the run |
| CheckerTheorems.FreshMovedOut | zown/checker.py:283-325 | the exact guard a reader can check: when no `;` condition starts with marks, all moved-out reports are sound |
| CheckerTheorems.RunSound | zown/checker.py:8-25 | the simulation behind them: the events of any run are what the findings predict |
| CheckerSim.SimSeq | zown/vm.py:345-347 | a sequence the checker has walked runs as predicted from every related state |
| CheckerSim.SimGrant | zown/builtins.py:477-487 | `gr` runs its block with one capability more and puts the authority back on every way out |
| CheckerSim.SimTry | zown/builtins.py:510-540 | `ty` wraps every fault but those the checker reports as final, and restores the stack |
| CheckerSim.SimWhile | zown/vm.py:763-772 | each evaluation of a `;` condition and body keeps what the checker assumed |
| CheckerSim.SimMatch | zown/vm.py:819-845 | the arm that `??` runs is one of those the checker walked |
| CheckerSound.Settled | zown/checker.py:283-325 | the blocks on the stack between a literal and its consumer are still the literals of the program |
| CheckerStatic.WalkSafe | zown/checker.py:216-281 | the report of the whole program covers every node on its own |
| CheckerStatic.WalkWithin | zown/checker.py:216-281 | a walk reports only positions of its own nodes |
| CheckerLimits.LateGrIsReported | zown/checker.py:189-213 | `c [ `c rq ] gr 1 :gr` is reported as never granted |
| CheckerLimits.LateGrSucceeds | zown/builtins.py:477-500 | yet it succeeds: the whole-program test for shadowing differs from the one at run time |
| CheckerLimits.LoopIsReported | zown/checker.py:300-312 | a `;` condition that reads a name its body binds again is reported as moved out |
| CheckerLimits.LoopSucceeds | zown/vm.py:763-772 | yet the program succeeds, since the first evaluation does not read the name |
| CheckerLimits.TriedIsReported | zown/checker.py:216-281 | a name moved out in a block that escapes is reported |
| CheckerLimits.TriedSucceeds | zown/builtins.py:510-540 | yet the run succeeds, because `ty` is given the block under another name |
| CheckerMatch.BadArmsIff | zown/checker.py:349-396 | arms are reported as malformed exactly when some value has the machine's match refuse it with BAD_PATTERN: an arm that is no pair, or a pattern that is none |
| CheckerMatch.ExhaustiveIff | zown/checker.py:368-373 | for arms not reported as malformed, NO_MATCH is reported behind a result exactly when some result has the machine's match refuse it with NO_MATCH, and only there |
| CheckerMatch.LeavesIff | zown/checker.py:368-368 | a result is left unhandled exactly when the labels have neither `any` nor `res` nor both `ok` and `err` |
| CheckerMatch.SoundIff | zown/vm.py:794-845 | what is not malformed is refused for no value with BAD_PATTERN, and what is, for some |
| CheckerHandled.UnreportedNeverRefuses | zown/checker.py:349-373 | in every run: a match that the checker comes to and does not report as malformed never raises BAD_PATTERN, and one behind `ty` that it does not report as unhandled never raises NO_MATCH |
| CheckerHandled.CleanNeverRefuses | zown/checker.py:136-142 | so for every match at any depth, when no arms of the program are reported as malformed |
| CheckerHandled.FaultIsRefusal | zown/vm.py:819-845 | a run that ends with one of these two faults has refused a value at some match |
| CheckerHandled.VisitedFinds | zown/checker.py:216-281 | whatever is reported in code that the checker comes to is reported of the program |
| CheckerEscapes.UnjudgedIsSilent | zown/checker.py:349-373 | of a program with a match inside malformed arms, only those arms are reported |
| CheckerEscapes.UnjudgedRefuses | zown/vm.py:819-845 | yet that match refuses its result with NO_MATCH in every run |
| CheckerHandled.DenialIsReported | zown/checker.py:328-346 | the other way round: an `rq` walked outside `ty` with a known authority that lacks it is reported as denied |
| CheckerHandled.NeverGrantedIsReported | zown/checker.py:328-346 | so is one that no literal of the program can grant, when `ty` is not used |
| CheckerHandled.UnboundIsReported | zown/checker.py:224-248 | so is a name that nothing binds and that is no word, and moving it |
| CheckerHandled.MovedIsReported | zown/checker.py:216-281 | so is a name after it was moved out, when nothing in between can have bound it again |
| CheckerObject.Checker.Check | zown/checker.py:136-142 | the object appends exactly the diagnostics of the specification, in its order |
| CheckerObject.Checker.CollectBinds | zown/checker.py:182-187 | the set of all names bound anywhere in the program |
| CheckerObject.Checker.ScanFreeCaps | zown/checker.py:206-213 | the capability literals that no `rq` or `hv` consumes |
| CheckerObject.Checker.UsesWordTy | zown/checker.py:154-160 | whether an unshadowed `ty` occurs anywhere |
| CheckerObject.Checker.Walk | zown/checker.py:216-281 | one walk of a sequence with its moved-out marks |
| CheckerObject.Checker.WalkBlock | zown/checker.py:283-325 | how a block is consumed decides its authority and marks |
| CheckerObject.Checker.CheckRequire | zown/checker.py:328-346 | which `rq` are reported |
| CheckerObject.Checker.CheckMatchArms | zown/checker.py:349-373 | the findings of the specification, which BadArmsIff and ExhaustiveIff tie to the machine's match; every body is walked |
| CheckerObject.Checker.WalkArms | zown/checker.py:349-396 | the labels of the arms and the findings of their bodies |
| Vm.VM.Run | zown/vm.py:345-347 | the imperative VM reaches the state, fault and events of the machine |
| Vm.VM.ExecNode | zown/vm.py:349-366 | one node, tag by tag |
| Vm.VM.ExecName | zown/vm.py:376-400 | a binding first, then a builtin, else NAME_UNRESOLVED |
| Vm.VM.BGrant | zown/builtins.py:477-487 | the capability is dropped again unless it was held before |
| Vm.VM.BAttempt | zown/builtins.py:510-540 | the stack is put aside and the outcome wrapped |
| Vm.VM.OpWhile | zown/vm.py:763-772 | condition and body in turn until the condition is false |
| Vm.VM.OpMatch | zown/vm.py:819-845 | the first arm that matches, or the fault |
| Vm.VM.Invoke | zown/vm.py:412-423 | the depth limit of 128, and the depth restored |
| OperatorLaws.Computes | zown/vm.py:528-564 | `a b +`, `a b -` and `a b *` leave the sum, difference and product of all integers, and fault with OVERFLOW exactly when that does not fit 64 bits |
| OperatorLaws.SubtractAdd | zown/vm.py:540-549 | `a b - b +` leaves a |
| OperatorLaws.NegateAdd | zown/vm.py:694-711 | `a _ a +` leaves 0; the least integer alone overflows |
| OperatorLaws.Modulo | zown/vm.py:601-619 | `a b %` leaves the r with a - r a multiple of b and r between 0 and b, b excluded; DIV_ZERO exactly for 0 |
| OperatorLaws.DivideMultiply | zown/vm.py:567-598 | an exact `a b /` leaves the integer quotient, and `b *` behind it a |
| OperatorLaws.DivideInexact | zown/vm.py:567-598 | any other quotient is the real whose product with b is a; DIV_ZERO exactly for 0 |
| OperatorLaws.FloatComputes | zown/vm.py:528-564 | with a float among them sums, differences and products are those of the reals |
| OperatorLaws.FloatDivides | zown/vm.py:567-598 | so is the quotient; DIV_ZERO exactly for 0 |
| OperatorLaws.FloatModulo | zown/vm.py:601-619 | and the remainder lies between 0 and the divisor |
| OperatorLaws.Compares | zown/vm.py:622-675 | a comparison of numbers or strings leaves 1 if it is so and 0 if not |
| OperatorLaws.Trichotomy | zown/vm.py:653-675 | exactly one of `<`, `==` and `>` leaves 1; `<=`, `>=` and `!=` leave the opposite of `>`, `<` and `==` |
| OperatorLaws.StrTotal | zown/vm.py:622-650 | the order of strings is total and strict |
| OperatorLaws.Negates | zown/vm.py:689-692 | `!` exchanges zero and the rest |
| OperatorLaws.Joins | zown/vm.py:677-687 | `&&` and `||` are conjunction and disjunction of what is not zero |
| OperatorLaws.SwapTwice | zown/vm.py:727-731 | `\` exchanges the two on top, and twice it changes nothing |
| OperatorLaws.Over | zown/vm.py:734-740 | `&` leaves the lower value on top once more |
| OperatorLaws.CopyDrop | zown/vm.py:714-724 | `=` leaves the top once more, and `,` takes it away |
| OperatorLaws.Prints | zown/vm.py:743-747 | `.` takes the top away and puts it out last |
| OperatorLaws.Selects | zown/vm.py:755-760 | `?` keeps the first block unless the condition is zero, else the second |
| OperatorLaws.BindThenMove | zown/vm.py:349-374 | a bound name gives its value, moving it gives it once more, and then the name is free |
| ControlLaws.CountsUp | zown/vm.py:763-772 | `[ i n < ] [ i 1 + :i ] ;` leaves i at n from every i up to n: the body runs while the condition holds and not once more |
| ControlLaws.FirstFit | zown/vm.py:794-845 | `??` runs the first arm that fits, whatever comes behind it; only `ok` and `err` hand over what the result holds |
| ControlLaws.NoneFits | zown/vm.py:794-845 | without an arm that fits it refuses with NO_MATCH |
| Machine.ExecSeq | zown/vm.py:345-423 | every run leaves the authority and the depth as it found them |
| LoweringSound.LoweringKeepsMeaning | zownc/crates/zown-rt/src/lib.rs:724-770 | every parsed program and its blocks end with the same stack, bindings, output and fault for every bound on loops, unless the run compares two different empty blocks |
| LoweringSound.KeptByLooking | zownc/crates/zown-vm/src/value.rs:350-357 | two checks before a run rule that out: one empty quotation at most, or no `==` and `!=` |
| LoweringSound.EqualAgrees | zownc/crates/zown-vm/src/value.rs:350-375 | the two equalities differ exactly on two different empty blocks, also inside results |
| LoweringSound.TwinsDiffer | zownc/crates/zown-vm/src/value.rs:350-357 | comparing such a pair does come out differently on the two machines |
| LoweringSound.SimBlock | zownc/crates/zown-rt/src/lib.rs:724-770 | a compiled block simulates the quotation it came from |
| LoweringSound.SimTry | zownc/crates/zown-rt/src/lib.rs:550-577 | so does an attempt, with its own stack |
| LoweringSound.ChooseRel | zownc/crates/zown-rt/src/lib.rs:580-620 | the compiled match picks the arm that the machine picks |
| LoweringSound.BasicRel | zown/vm.py:528-745 | operators on related stacks give related stacks or one fault |
| LoweringSound.TwoEmptyQuoted | zownc/crates/zown-ir/src/lib.rs:67-95 | `[] [] ==` is a program a parser delivers, with two empty quotations |
| LoweringSound.TwoEmptyRun | zown/vm.py:653-655 | `[] [] ==` leaves 1 on the stack machine |
| LoweringSound.TwoEmptyNative | zownc/crates/zown-vm/src/value.rs:356-356 | its two blocks compare as different and leave 0 |
| Native.RunBlock | zownc/crates/zown-rt/src/lib.rs:724-770 | a block of the table leaves the depth as it was, and what has been seen stays seen |
| Lowering.RoundTrip | zownc/crates/zown-ir/src/lib.rs:67-137 | unlowering a lowered program gives the program without positions, and every reference goes to an earlier block |
| Lowering.ProgramFrom | zownc/crates/zown-ir/src/lib.rs:67-105 | every block of the table comes from one quotation, node by node |
| Lowering.QuotedApart | zownc/crates/zown-ir/src/lib.rs:67-95 | two blocks from one program can look alike only if both are empty |
| Lowering.LowerSize | zownc/crates/zown-ir/src/lib.rs:67-95 | one block for every quotation, one instruction for every node |
| Lowering.Builder.LowerSeq | zownc/crates/zown-ir/src/lib.rs:67-95 | the builder appends exactly the blocks of the specification and returns the last one's number |
| Lowering.LowerAll | zownc/crates/zown-ir/src/lib.rs:98-105 | the table and the entry of the specification |
| MsacRoundTrip.Transcode | zown/av1enc.py:22-165 | any calls over any valid distributions are read back in order from the bytes written |
| MsacModel.RoundTrip | zown/av1.py:142-229 | bytes in the final interval decode to the calls that led there, with the distributions adapting alike |
| MsacModel.CutDescends | zown/av1enc.py:100-119 | every symbol keeps a positive part of the range, in the order of the symbols |
| MsacModel.DecodedIff | zown/av1.py:208-222 | a symbol is found exactly when the code lies in its part |
| MsacModel.AdaptedValid | zown/av1enc.py:100-119 | adaptation keeps a distribution valid |
| MsacModel.Adapt | zown/av1.py:216-229 | the loop over a distribution computes that adaptation |
| MsacShares.CodedGains | zown/av1enc.py:114-118 | the symbol that was coded gains one part in 2^rate of what it lacks, to within rounding |
| MsacShares.OtherLoses | zown/av1enc.py:114-118 | every other one loses that part of what it has, to within rounding |
| MsacShares.RateIs | zown/av1enc.py:114-116 | the rate is that of section 8.2 of the AV1 specification: 3, one more for a count above 15 and again above 31, and the logarithm of the number of symbols, 2 at most |
| MsacShares.SharesWhole | zown/av1enc.py:100-119 | the shares of a distribution are the whole |
| MsacShares.CutMeasures | zown/av1enc.py:72-84 | the part of the range that a probability takes is that share of it, to within the bits cut off |
| MsacShares.SymbolCut | zown/av1enc.py:100-113 | so for the symbols of a distribution, and each of them has four units of the range at least |
| MsacEncoder.MsacEnc.Norm | zown/av1enc.py:54-70 | the pending value, its carry and the bytes written stand for the interval |
| MsacEncoder.MsacEnc.Write | zown/av1enc.py:32-52 | a carry runs through the bytes already written |
| MsacEncoder.MsacEnc.Symbol | zown/av1enc.py:100-119 | one symbol narrows the interval and adapts its distribution |
| MsacEncoder.MsacEnc.Done | zown/av1enc.py:145-165 | the flushed bytes lie in the interval and are at most a byte longer than it |
| MsacDecoder.Msac.Refill | zown/av1.py:142-156 | from every state that a run reaches, the window follows the code again and the position stays within the data; with nothing left to read neither moves |
| MsacDecoder.Msac.Norm | zown/av1.py:158-166 | the window follows the narrowed interval, also far past the end of the data, where it refills no more |
| MsacDecoder.Msac.Symbol | zown/av1.py:208-229 | on any bytes: the symbol whose part holds the code that is read, the interval and the distribution it leaves |
| MsacDecoder.Msac.Bool | zown/av1.py:180-189 | the same for a bit of given probability |
| MsacDecoder.SeenPrefix | zown/av1.py:142-156 | the code that is read, which is the data, zeros up to an edge and ones from there, has one prefix for every length |
| MsacRoundTrip.ReadAny | zown/av1.py:802-805 | any calls on any bytes are answered by that code, with an edge 49 to 63 bits past the end, and the test for a truncated tile does not fire |
| MsacRoundTrip.ReadCut | zown/av1.py:802-805 | a tile cut off to nothing is read, to another answer than was coded, and not reported |
| MsacTail.CutOffTile | zown/av1.py:142-156 | the tile and the call it coded: the first bit of [0x80] is a one, and without its byte a zero |
| MsacTail.ReadsBackIff | zown/av1.py:142-229 | bytes, cut off or not, are read as given calls exactly when the code that is read lies in the interval of those calls |
| MsacTail.SeenZeros | zown/av1.py:142-156 | the code that is read is the data with zeros behind it up to the edge, and not one bit further |
| MsacTail.ZerosRead | zown/av1.py:142-229 | so up to the edge the answers are those of the data with zeros behind it |
| Av1File.Transcode | zown/av1enc.py:473-519 | every 384-byte frame decodes from its own file to itself; empty data is BOUNDS and any other length UNSUPPORTED |
| Av1File.Decode | zown/av1.py:1247-1276 | the headers that were written say what the tile decoder takes for granted, and the tile gives the frame |
| Av1File.Encode | zown/av1enc.py:473-519 | a temporal delimiter, the sequence header, and the frame header with a tile of the frame, short enough for its size field |
| Av1File.Parse | zown/av1.py:1247-1270 | the written file parses to the flags of a lossless still and to its tile; empty data is BOUNDS |
| Av1File.ReadSeq | zown/av1.py:313-350 | the written sequence header parses to 16 by 16 pixels in color without filter intra |
| Av1File.ReadHead | zown/av1.py:353-403 | the written frame header parses to quantizer 0, lossless, with updates on, and leaves the tile |
| Av1File.WriteSeq | zown/av1enc.py:215-239 | the bytes of the sequence header, field by field |
| Av1File.WriteHead | zown/av1enc.py:242-256 | the bytes of the frame header, field by field |
| Av1File.FileUnits | zown/av1.py:269-291 | the three units of a file come back |
| Av1Bits.LebRoundTrip | zown/av1.py:254-266 | a size is read back exactly when it is below 2^56 |
| Av1Bits.WriteLeb | zown/av1enc.py:199-208 | seven bits a byte, low ones first |
| Av1Bits.GetLeb | zown/av1.py:254-266 | the loop with shifts reads that number, or faults after eight bytes |
| Av1Bits.PackBits | zown/av1enc.py:185-196 | bits packed into bytes come out again in order |
| Av1Bits.BitReader.Get | zown/av1.py:97-105 | the next bits as a number; it faults exactly past the end |
| Av1Bits.BitReader.Trailing | zown/av1.py:118-127 | a one, zeros and the end of the data, when those are there |
| Av1Bits.UnitBack | zown/av1.py:269-291 | a unit that was written is read, whatever stands around it |
| Av1Bits.ReadUnits | zown/av1.py:269-291 | all units in order, or the first fault |
| Av1Length.TileLength | zown/av1enc.py:473-517 | a tile of a frame has less than 2^15 bytes |
| Av1Still.Transcode | zown/av1enc.py:473-517 | the tile of every frame decodes to the frame, with two sets of distributions that adapt on their own |
| Av1Still.EncodeTile | zown/av1enc.py:473-516 | the tile codes exactly the calls of the frame's syntax |
| Av1Still.DecodeTile | zown/av1.py:802-890 | bytes that code those calls decode to the frame |
| Av1Still.Predict | zown/av1.py:923-970 | the decoder's mean prediction is the encoder's, block after block |
| Av1Predict.MeanOfEight | zown/av1enc.py:298-316 | with neighbours on both sides, eight times the prediction is within four of the sum of the eight pixels written out |
| Av1Predict.MeanAbove | zown/av1enc.py:298-316 | in the first column, four times it is within two of the sum of the four above |
| Av1Predict.MeanBeside | zown/av1enc.py:298-316 | in the first row, of the four beside |
| Av1Predict.MeanOfNone | zown/av1enc.py:298-316 | without neighbours it is 128 |
| Av1Predict.PredTransposed | zown/av1.py:923-970 | exchanging rows and columns of the plane leaves the prediction as it is |
| Av1Laws.PassIsWalsh | zown/av1enc.py:259-296 | one pass gives half the Walsh sums of four values, to within a half |
| Av1Laws.TransformIsWalsh | zown/av1enc.py:259-296 | both give a quarter of the sums over the block, each at its transposed place |
| Av1Laws.LoCtxIs | zown/av1enc.py:414-420 | the context of a base symbol is that of its place and half the sum of its five neighbours, none counted above three, rounded up, four at most |
| Av1Laws.HiStepIs | zown/av1.py:1139-1244 | so for the further symbols, of three neighbours and six at most |
| Av1Laws.SignCtxIs | zown/av1enc.py:325-327 | the context of a sign is the balance of the neighbours' signs |
| Av1Laws.SkipCtxIs | zown/av1enc.py:319-322 | the context of a skip sees the neighbours' magnitudes, four at most |
| Av1Laws.LeavesTotal | zown/av1enc.py:446-465 | a block leaves the sum of all its magnitudes, 63 at most, and the sign of its first value, whatever the scan |
| Av1Laws.LebIs | zown/av1enc.py:199-208 | the bytes of a size weigh up to it, and all but the last say that more follow |
| Av1Still.DecodeOne | zown/av1.py:904-921 | a block is read, transformed back and added to its prediction |
| Av1BlockDec.Coefs | zown/av1.py:1084-1244 | reading what was written for a block gives its sixteen values and leaves the context the encoder left |
| Av1BlockDec.Golomb | zown/av1.py:244-251 | a tail below 2^20 is read back |
| Av1BlockDec.DecodeEob | zown/av1.py:1084-1137 | the last position, from its class and the bits below |
| Av1BlockEnc.EncodeCoded | zown/av1enc.py:375-465 | the calls the encoder makes for a block are those of the syntax |
| Av1BlockEnc.EncodeEob | zown/av1enc.py:330-343 | those for the last position |
| Av1BlockEnc.Golomb | zown/av1enc.py:136-143 | those for a tail |
| Av1Transform.Lossless | zown/av1.py:689-719 | the decoder's transform undoes the encoder's for all integers, transposed order included |
| Av1Transform.ForwardInverse | zown/av1enc.py:259-296 | each lifting step is undone exactly, rounding and all |
| Av1Transform.Fwht | zown/av1enc.py:259-296 | the two passes in place compute that transform |
| Av1Transform.WhtAdd | zown/av1.py:706-719 | the two inverse passes, clipped sums included |
| Av1Transform.OnlyZero | zown/av1enc.py:259-296 | a block is coded as empty only if all its values are zero |
| Av1Transform.WalshBound | zown/av1enc.py:259-296 | how large the values of a byte residual can be |
| OpusRoundTrip.Transcode | zown/opusenc.py:78-222 | any run of calls is read back in order with equal counts of spent bits and eighths after each, which OpusTell ties to the range; the packet has no error if the bits said to be spent fit into it |
| OpusTell.TellMeasures | zown/opus.py:226-234 | the eighths said to be spent measure the range: with r its sixteen top bits and k the eighths above its whole bits, 2^(120+k) <= (r+1)^8 and (r-1)^8 < 2^(121+k) |
| OpusTell.TellsClose | zown/opusenc.py:177-188 | eight times the whole bits said to be spent are the eighths rounded up |
| OpusTell.TellFracFalls | zown/opus.py:226-234 | a larger range never has more eighths spent |
| OpusTell.Table | zown/opus.py:54-54 | each entry of the correction table is where the eighth power crosses the next power of two |
| OpusTell.MarkMeasures | zown/opus.py:223-234 | so for the counts that Transcode promises after every call |
| OpusLaws.BoundMeasures | zown/opusenc.py:113-120 | the part of the range behind k of ft frequencies is that share of it, to within one unit for each frequency |
| OpusLaws.BoundEnds | zown/opusenc.py:113-120 | all frequencies together take the whole range |
| OpusModel.StepUnique | zown/opus.py:236-323 | a packet meets what at most one answer to a question says of it |
| OpusModel.SettleHolds | zown/opusenc.py:106-111 | renormalising neither adds nor excludes a code |
| OpusEncoder.Enc.CarryOut | zown/opusenc.py:92-104 | a carry turns the held byte and the 255s behind it over; nothing is lost while there is room |
| OpusEncoder.Enc.Norm | zown/opusenc.py:106-111 | window, held bytes and written bytes stand for the interval |
| OpusEncoder.Enc.Encode | zown/opusenc.py:113-120 | the part of the range that frequencies take |
| OpusEncoder.Enc.BitLogp | zown/opusenc.py:131-138 | the part of a bit that is rarely one |
| OpusEncoder.Enc.Icdf | zown/opusenc.py:140-147 | the part of a symbol in a table |
| OpusEncoder.Enc.Bits | zown/opusenc.py:149-163 | raw bits grow from the end of the packet |
| OpusEncoder.Enc.Uint | zown/opusenc.py:165-175 | a number as its high bits and raw ones |
| OpusEncoder.Enc.Done | zown/opusenc.py:190-222 | without an error the packet meets all that was coded, and there is none if no more was spent than it holds, raw bits sharing the last byte included |
| OpusDecoder.EcDec.Norm | zown/opus.py:214-221 | the window follows the interval |
| OpusDecoder.EcDec.Decode | zown/opus.py:236-242 | the frequency the code points at |
| OpusDecoder.EcDec.Update | zown/opus.py:253-260 | the range after the symbol is known |
| OpusDecoder.EcDec.Bits | zown/opus.py:289-303 | raw bits from the end |
| OpusDecoder.EcDec.Uint | zown/opus.py:305-323 | a number from high and raw bits, with the error past its top |
| OpusLaplace.Encode | zown/opusenc.py:225-251 | the value coded is the one asked for if it has a slot, else the largest smaller one, and its slot is taken |
| OpusLaplace.Decode | zown/opus.py:331-353 | a value with a slot whose part holds the code is read, and that same part is taken |
| OpusLaplace.DecodeCoded | zown/opus.py:331-353 | on a packet that meets what coding a value says, that value is decoded and the coder left equal |
| OpusLaplace.SlotsApart | zown/opusenc.py:225-251 | slots of different values do not overlap |
| OpusLaplace.RoomEnough | zown/opus.py:326-353 | when a fixed reserve leaves room for one more pair |
| OpusLaws.UintParts | zown/opusenc.py:165-175 | a range of up to 256 is one symbol; of a larger one exactly eight bits go into the symbol and the rest are raw |
| OpusLaws.SlotsFollow | zown/opusenc.py:225-251 | the slots of the values 0, -1, 1, -2, 2 follow one another without a gap |
| OpusLaws.SlotsDecay | zown/opus.py:326-353 | the slots of a value and its opposite are equally wide, and each is that part of the one before it that the decay says |
| OpusLaws.FirstSize | zown/opus.py:326-330 | the first of them follows from the slot of zero |
| OpusPvq.IndexInjective | zown/opusenc.py:254-266 | different vectors of one size and pulse count have different indices |
| OpusPvq.IndexBound | zown/opusenc.py:254-266 | indices lie below the count of vectors |
| OpusPvq.USymmetric | zown/opus.py:817-820 | the counting function is symmetric, which the table lookup relies on |
| PvqOrder.IndexOrder | zown/opusenc.py:254-266 | the number of a vector is its rank: numbers go up exactly in the order that compares the first different entries, those not negative first, on each side the larger magnitude first |
| PvqOrder.FirstIs | zown/opusenc.py:254-266 | the vector with all its pulses in front is number 0 |
| OpusPvq.Icwrs | zown/opusenc.py:254-266 | the loop computes the index |
| OpusPvq.Cwrsi | zown/opus.py:823-894 | through all its search branches it finds the vector that has the index, and returns the sum of its squares |
| OpusPvq.DecodePulses | zown/opus.py:897-899 | on a packet that meets what a vector says, that vector is decoded |
| CeltAllocation.Allocate | zown/opus.py:740-814 | shape, fine energy, balance and coded symbols are exactly the total; the row, the step and the first shares at it, with the answers to the questions put, settle how many bands are coded and which symbols are paid for; every band's shape, fine bits and priority are those that the split laws give its share and what it takes over |
| CeltAllocation.Interp | zown/opus.py:610-737 | the same from the interpolation on, with the two rows and the reserves given |
| CeltAllocation.Skip | zown/opus.py:643-670 | questions are put in order, the bands coded are those the answers leave, the skip reserve comes back exactly when no answer stops, and the books stay balanced |
| CeltAllocation.Assign | zown/opus.py:632-642 | every band's first share, below its cap, and their sum within the trial |
| CeltAllocation.PickRow | zown/opus.py:764-788 | the row found fits and the next one does not |
| CeltAllocation.Interpolate | zown/opus.py:615-631 | the step found between the rows fits and the next one does not |
| CeltAllocation.Spread | zown/opus.py:682-691 | every coded band gets its part of what is left by width, and of the remainder what the bands before it did not take; that is all of it |
| CeltAllocation.ShareIsDealt | zown/opus.py:648-653 | the band that may be skipped is judged by exactly what it would be dealt if the skipping stopped there |
| CeltAllocation.FineLaw | zown/opus.py:700-721 | the fine bits are paid for and at most eight; they are no more than half a bit above the band's bits with its offset, and one more would be too many, too dear or further off |
| CeltAllocation.FineClose | zown/opus.py:704-718 | unless they are cut off, the fine bits differ from the bits with the offset by half a fine bit at most |
| CeltLaws.FineRounds | zown/opus.py:704-718 | with the offset written out: 8 * den * e is within 4 * den of bits + offset unless cut off, and the priority holds exactly when e was not rounded down |
| CeltLaws.EightSplits | zown/opus.py:694-731 | eight lines of one channel: of 200 eighths 184 are shape, with two fine bits, rounded down |
| CeltLaws.EightExceeds | zown/opus.py:721-730 | with a cap of 100 they have eight fine bits, seven of them bought, and pass 44 on; priority depends on what was taken over |
| CeltLaws.FourSplits | zown/opus.py:700-720 | four lines of two channels have nine degrees of freedom below the intensity band |
| CeltLaws.TwoSplits | zown/opus.py:706-707 | two lines of two channels have two eighths more for each degree |
| CeltAllocation.SplitLaw | zown/opus.py:694-731 | nothing is lost or made; the shape stays below its cap, and a whole fine bit is passed on only when there are eight already |
| CeltAllocation.FineBand | zown/opus.py:694-731 | the branches compute that split: shape, fine bits, priority and what is passed on |
| CeltAllocation.FinishCoded | zown/opus.py:692-731 | so for every coded band, each with what the band before it passed on |
| CeltAllocation.FinishSkipped | zown/opus.py:732-736 | a skipped band's bits become fine energy, and it has priority exactly if that is none |
| CeltLaws.ThreshIs | zown/opus.py:758-758 | a band's threshold is three eighths for every two lines, the floor at least |
| CeltLaws.TrimNeutral | zown/opus.py:759-761 | at the neutral trim no band is tilted; those of one line lose the floor |
| CeltLaws.TrimTilts | zown/opus.py:759-759 | above it bands gain, below it they lose |
| Blake3Hasher.HashPieces | zown/blake3.py:147-187 | a message fed in any pieces has the digest of its tree |
| Blake3Hasher.Hasher.Update | zown/blake3.py:154-164 | however much is fed in, the stack holds the finished subtrees |
| Blake3Hasher.Hasher.Push | zown/blake3.py:166-170 | merging equal subtrees gives the stack of all; each one needed is there |
| Blake3Hasher.Hasher.Digest | zown/blake3.py:172-177 | the digest of all that was fed in, which stays as it is |
| Blake3Hasher.Chunk.Update | zown/blake3.py:117-131 | the last block waits until there is more |
| Blake3Hasher.DigestIsTree | zown/blake3.py:147-177 | joining stack and last chunk gives the tree |
| Blake3Bytes.BytesWeigh | zown/blake3.py:74-75 | the four bytes of a word weigh up to it, the first lowest |
| Blake3Bytes.BlockBytes | zown/blake3.py:69-71 | a block is read as the words that give its bytes, and zeros behind them |
| Blake3Bytes.ChunkCalls | zown/blake3.py:103-140 | a chunk is compressed block by block under its number, the first as its start, the last, which alone may be shorter, as its end |
| Blake3Bytes.TreeFlags | zown/blake3.py:143-145 | no chaining value has the root flag; parents have theirs exactly above one chunk |
| Blake3Bytes.DigestAtRoot | zown/blake3.py:90-98 | the digest depends on the compression at the root, with the root flag, and below it on compressions without |
| Blake3.JoinedIsTree | zown/blake3.py:172-177 | joining from the smallest subtree gives the left-heavy tree |
| Blake3.StackHeight | zown/blake3.py:166-170 | the stack is as high as the number of chunks has bits set |
| Blake3.StackPerfect | zown/blake3.py:166-170 | every subtree on it has a power of two of chunks |
| Blake3.Merge | zown/blake3.py:143-145 | two neighbours of one size make the next larger subtree |
| MerkleLog.ProofAccepted | zown/store.py:191-214 | for every index and size claimed, exactly the proofs of leaves at a place with the same turns are accepted |
| MerkleLog.ProofExact | zown/store.py:210-214 | at the log's size one proof is accepted for an index: its leaf with its path |
| MerkleLog.ProofComplete | zown/store.py:181-188 | every leaf's path is accepted, whatever the hashes |
| MerkleLog.ProofMeets | zown/store.py:191-214 | whatever the hashes, an accepted proof is a leaf's or comes with two inputs of one hash |
| MerkleLog.RootBinds | zown/store.py:167-178 | two logs with one root are equal or show two inputs of one hash |
| MerkleLog.PlaceIsNotProved | zown/store.py:191-214 | a proof is also accepted for some other indices and sizes |
| MerkleLog.PowerBelow | zown/store.py:151-156 | the loop finds the power |
| MerkleLog.KBelowLargest | zown/store.py:151-156 | it is the largest power of two below |
| Bundles.Reopens | zown/store.py:142-144 | a sealed graph opens as it was, order included, also with a valid signature and the proof written for it behind it |
| Bundles.SealOpens | zown/store.py:236-274 | whatever lines follow the hash of a sealed graph, it opens as that graph or with the first fault of those lines |
| Bundles.HashBinds | zown/store.py:236-274 | a bundle that opens and claims the hash of a graph gives that graph, or shows two texts of one hash |
| Bundles.InclusionShows | zown/store.py:290-313 | an accepted line of inclusion shows the digest in the log where the line says, or two inputs of one hash |
| Bundles.ProofLineGood | zown/store.py:344-357 | the line written for an entry of the log is accepted |
| Bundles.DecBack | zown/store.py:225-228 | a number as it is written is read as that number |
| Bundles.OpenBundle | zown/store.py:236-274 | the checks of the source in its order: the graph, or the code of the first fault |
| Bundles.CheckProof | zown/store.py:290-313 | the loop over the siblings and the checks around it |
| Bundles.FindHash | zown/store.py:240-245 | the last line with a hash counts |
| Bundles.Store.Open | zown/store.py:103-111 | the graph is replaced by the one that opens and stays if there is a fault |
| Bundles.Store.Prove | zown/store.py:344-357 | the proof of the first entry for the graph, which opens behind its seal; BOUNDS exactly when the log has none |
| Bundles.Store.Append | zown/store.py:339-341 | the digest joins the log at its end |
| Graphs.SnapshotReads | zown/store.py:40-45 | the text of a graph reads as the graph, vertices and edges in their order |
| Graphs.ParseTidy | zown/store.py:433-451 | whatever text is read, the graph has words only, nothing twice, and both ends of every edge |
| Graphs.EdgeTidy | zown/store.py:33-38 | adding an edge keeps that |
| Graphs.ReadSnapshot | zown/store.py:433-451 | the loop over the lines builds the graph of the text, or gives the fault |
| Graphs.Graph.AddEdge | zown/store.py:33-38 | both ends are added when they are missing, and the edge when it is |
| Graphs.Graph.Snapshot | zown/store.py:40-45 | the loops give the text of the graph |
| BTreeOps.GetPut | zown/coll.py:526-594 | after a put the key has its value and every other key what it had |
| BTreeOps.PutTidy | zown/coll.py:586-594 | a put keeps key order, equal depth and one to three keys a node, and its list gets the pair |
| BTreeOps.GetLooksUp | zown/coll.py:526-534 | a search finds what the sorted list has |
| BTreeOps.InsertHolds | zown/coll.py:560-583 | so does an insertion below a root with room |
| BTreeOps.SplitFlat | zown/coll.py:547-557 | a split leaves the list as it was |
| BTreeOps.SplitGood | zown/coll.py:547-557 | and the shape, with room in both halves |
| BTreeOps.LeafPutInsert | zown/coll.py:560-568 | replacing or appending and sorting is sorted insertion |
| BTree.Put | zown/coll.py:586-594 | the nodes in memory stand for the tree after the put |
| BTree.BNode.InsertNonfull | zown/coll.py:560-583 | so for an insertion in place |
| BTree.BNode.SplitChild | zown/coll.py:547-557 | so for a split in place, which shares nothing |
| BTree.BNode.Get | zown/coll.py:526-534 | the loop and descent find the value |
| BTree.BNode.Walk | zown/coll.py:537-544 | all pairs in order |
| BTree.BNode.Count | zown/coll.py:519-523 | as many as there are pairs |
| BTreeModel.LookupInsert | zown/coll.py:526-594 | the list is a map |
| Format.FormatKeeps | zown/fmt.py:14-46 | formatting keeps kind and lexeme of every token, comments included |
| Format.FormatSettles | zown/fmt.py:14-46 | formatting again changes nothing, strings over several lines included |
| Format.FormatAll | zown/fmt.py:14-46 | the loop builds exactly that text, or gives the lexer's fault |
| Format.LexLayout | zown/fmt.py:14-46 | the text is read as the tokens of its lines, each on a line of its own |
| Format.LinesHold | zown/fmt.py:23-43 | the lines hold all tokens in order, comments last in theirs |
| FormatLines.LinesBroken | zown/fmt.py:28-43 | a line is broken between two tokens exactly when they began on different lines or the first is a comment |
| FormatLines.BreaksUnique | zown/fmt.py:28-43 | that settles the lines: no others with the same tokens are broken so |
| Format.StepsLayout | zown/fmt.py:23-43 | the lines of a layout are found again |
| Lexer.ReadStable | zown/lexer.py:151-284 | a lexeme is read again as what it was before anything that may follow it |
| Lexer.LexFlows | zown/lexer.py:93-148 | tokens start no earlier than the one before ends |
| Lexer.LexWhole | zown/lexer.py:93-148 | every lexeme alone is that token |
| Lexer.Cursor.Tokens | zown/lexer.py:93-148 | the cursor yields the tokens or the fault of the specification |
| Lexer.Cursor.ReadToken | zown/lexer.py:93-284 | the token at the cursor, by its first character |
| Lexer.Cursor.ReadNumber | zown/lexer.py:221-244 | an integer that fits, or a float when a digit follows the point |

## Left out

- Floats are reals: rounding, infinities and NaN are not modelled; big integers, decimals, vectors, widths and the collections of the VM are not values here.
- The VM's words other than gr, rq, hv and ty, lanes, handlers and the host words: they run code the checker does not follow.
- Messages, hints and the stack in a fault: only its code is kept.
- The iterations of a loop have a bound in each run; a run that spends it says so.
- CheckerTheorems.MovedOutNeverResolves: reports that need the marks a `;` condition inherits are not covered; a fault under `ty` may be caught, so the run is said to end there only if the program has no `ty`.
- CheckerHandled.UnreportedNeverRefuses: programs that bind `ty`, and matches that do not take the arms written before them, which the checker does not judge.
- OperatorLaws.Compares: two numbers or two strings; what comparing other kinds leaves is the definition's.
- Native.RunBlock: the fast paths of compiled integer operators are those of the VM here, and faults keep no stack.
- Lowering.RoundTrip: nodes come back without positions, as the source compares them without.
- The state that compiled code and VM share, apart from stack, bindings, authority, depth and output.
- AV1: partitions other than one 16 by 16 block, other transforms and predictions, deblocking; what the headers of other stills select is parsed but not decoded.
- Av1File.Decode: only for files that Encode wrote; of other files the model has the parser alone.
- The parser's frame record in Av1File is a value that each step returns, not an object it updates.
- The contents of the AV1 and CELT tables: distributions, scan orders and allocation rows are parameters with their shape assumed, and the adaptive distributions are numbered in one list. The lists of block contexts are sequences that are passed on.
- MsacDecoder.Msac.Symbol: from 2^32 - 30 bits past the end of the data on, where the count wraps around, which symbol is read is not stated; what it leaves is.
- Av1Still.DecodeTile: only for tiles that code some frame, as every written one does; so for Av1Still.DecodeOne and the block decoder.
- Av1BlockDec.Coefs: only for streams that code a block the encoder can write.
- Av1BlockDec.Golomb: only for streams that code a tail, and tails below 2^20, more than a coefficient needs.
- Av1BlockDec.DecodeEob: only for streams that code a last position.
- OpusRoundTrip.Transcode: `uint` needs a range of at least two, raw bits come 25 at a time at most, as in the calls the codec makes.
- OpusEncoder.Enc.Uint: a range of one is left out, which the decoder takes for an error.
- OpusEncoder.Enc.Bits: at most 25 raw bits in one call.
- OpusPvq.Cwrsi: the table of counts is the recurrence; counts fit 32 bits; the sum of squares is exact, as 32-bit floats are up to 2^24.
- CeltAllocation.Allocate: the decoder's answers are parameters, and the working lists for the two rows, thresholds and trim are functions of the call.
- Opus signal processing: transforms, energies, pulse search and synthesis are float code.
- Blake3Hasher.HashPieces: the compression function and its rounds are a parameter.
- MerkleLog.ProofMeets: the two hashes are parameters; leaves and nodes are kept apart by their types, as the first byte does in the source.
- Bundles.Reopens: signing, its check and the hash of a body are parameters; hashes are written as 64 hexadecimal digits; only ASCII digits make a number.
- The graph's merging and queries, and its tables.
- BTree.Put: the sort of a leaf is the function it computes; trees other than those that puts make are not considered.
- Lexer.Cursor.Tokens: columns and the values of tokens, which are functions of the lexeme, are left out; comments are kept, as the formatter asks.
- Sockets, files, clocks, threads, the command line, the user interface, LLVM and WASM.
