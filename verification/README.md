# Verified model of plaine

A Dafny model of the parts of plaine where a mistake would cost money, consensus or a key: the
two just-in-time compilers of the proof of work, the ledger transition and chain switching, the
block template, the wallet's text formats, and the node's text, bootstrap and health code. The
model keeps the source's form: code that updates a buffer, an overlay or an index is a method or
a class proved against a specification function, expression code is a function, and what the
source promises is a lemma over all inputs, all runs or all reachable states.

`dafny verify dfyconfig.toml` checks the whole project.

## What is proved

**Isochron.** The 21 opcodes have one meaning (`Isochron`), the interpreter runs it in place
(`Interpreter`), and both compilers are carried down to bytes. `X86` and `A64` are small
machines for exactly the instructions emitted, `X86Bytes` and `A64Bytes` encode and decode them
(sections 2.1.3 and 2.2.1 of the Intel SDM volume 2; section C4.1 of the Arm ARM, DDI 0487), and
`X86Correct` and `A64Correct` show that fetching, decoding and executing the emitted bytes from
the first one returns with the digest and the pad, for every program, pad, seed and key,
including `d == s` and read-modify-write on coinciding addresses. Processor arithmetic enters as
a record of functions with laws (`Hardware`); `RealHardware` proves the laws for 64-bit vectors
with the AES round of section 5.1 of FIPS 197, whatever the S-box and the column mixing.

**Chain.** `Ledger` is the transition; `LedgerLaws` its whole-run laws; `Body` the overlay,
the coinbase ledger and the validator as they mutate; `Reorg` shows that executing a plan is the
replay of the new chain; `HeaderArena` and `ForkChoice` cover choice and plan;
`Adoption` is the loop that adopts, and `ChainManager` joins it to the store over whole runs;
`DeepPath` shows where the deep path fails; `Template` shows when a built block is accepted.

**Wallet and node.** `SecHex`, `Amount`, `KeyFile` and `Journal` state exactly which texts are
accepted and that writing and reading are inverse; `JournalRuns` is about whole runs of
announcements. `Toml`, `TomlValues` and `TomlLines`, `Hostnames`, `Interleave` and `Seeds`,
`Calendar` and `Health` cover the scanners and the array reader, the host checkers, the round robin and retry
driver, the civil calendar and the stall clocks.

## Properties that turned out false, with their exact conditions

- The compilers rotate the destination before they read the source, the interpreter reads first.
  A slot means the same on both exactly when it does not satisfy `Aliasing.Diverges`
  (`Aliasing.AgreementIff`); no program the builder makes has such a slot
  (`ProgramBuilder.HistogramFixed`).
- The deep path of a rewind reads addresses outside its snapshot from the tip. It equals the
  replay exactly when the tip holds no account outside the snapshot (`Reorg.DeepReplayExact`).
  Over an empty first snapshot it is wrong at every fork of every chain
  (`DeepPath.EmptySnapshotFails`); `DeepPath.DeepReplayDiverges` is a store of two blocks, its undo
  lists pruned, in which a switch goes this way and pays a subsidy twice. The node's store never
  offers a snapshot (node/src/wire/store.rs:349), so the path is dormant there.
- A key file read from a text may carry a derivation or cipher name that ends in a carriage
  return (`KeyFile.CarriageReturnLost`); the render of a file reads back as itself exactly when
  none does (`KeyFile.ParseRender`).
- A nonce can be signed for two messages without reuse when the journal's last line is
  unfinished and ends in white space: the next entry's fields override that line's, and its
  nonce is forgotten (`JournalRuns.SignedTwice`). Every run keeps the rule exactly when the
  journal is `Safe`: it does not read, or its last piece is blank, or that piece does not end in
  white space (then the next append makes the journal unreadable and nothing more is signed), or
  earlier entries at the overridden nonce refuse the same messages
  (`JournalRuns.RunKeepsIff`). No entry is ever lost exactly when the last piece is blank
  (`JournalRuns.NothingLostIff`).
- The bracket list of a multi-line array is one scan of the joined text at every line, whatever
  that line is, exactly when each line before it closes its strings (`Toml.GatherExact`);
  `Toml.BrokenString` is an array it misreads.
- The note of a seed name that yields nothing says that every answer was non-routable. It is
  wrong exactly when some answer is routable and every routable one was kept from an earlier seed
  (`Seeds.EmptyNoteWrong`); `Seeds.SameAnswerTwice` is an instance.
- The gap clock is described as restarting when the gap shrinks. Once the node has been level it
  restarts only when the node is level again (`Health.OnlyLevelRearms`, `Health.CatchingUp`), so
  a node that catches up for longer than the threshold is reported Stalled
  (`Health.ShrinkingGapIsStalled`).

## Model

| member | source | states |
|---|---|---|
| RealHardware.RealIsLawful | lib/pow/src/interp.rs:21-135 | two's-complement words and the AES round, by AESENC and by AESE/AESMC, have every law the compilers rely on |
| Interpreter.ExecuteSlot | lib/pow/src/interp.rs:33-125 | one slot in place is the slot's meaning, and every masked index stays inside the pad |
| Interpreter.Interpret | lib/pow/src/interp.rs:21-135 | the whole run leaves the specified pad and returns the specified digest |
| Aliasing.SlotDiverges | miner/src/emit_x86.rs:148-277 | every slot that reads its own rotated destination differs from the interpreter on some machine state |
| Aliasing.AgreementIff | miner/src/emit_arm64.rs:172-307 | compiled and interpreted meaning of a slot agree on all states if and only if a condition on its opcode, registers and immediate holds |
| Aliasing.LoopsAgree | lib/pow/src/interp.rs:32-130 | a program without such slots runs the same compiled and interpreted for any number of iterations |
| X86Compile.SlotCorrect | miner/src/emit_x86.rs:148-277 | the code of any slot performs that slot on the pinned registers and the pad and keeps everything else |
| X86Bytes.DecodeEncode | miner/src/emit_x86.rs:41-145 | the bytes of an instruction, followed by anything, decode to that instruction and its length |
| X86Run.SlotBytes | miner/src/sizes.rs:13-37 | a slot's code has the length the frozen table gives its opcode, whatever its registers and immediate |
| X86Layout.DecodeEncodeAll | miner/src/emit_x86.rs:41-145 | decoding the bytes of a listing gives the listing back |
| X86Layout.SlotAtOffset | miner/src/sizes.rs:105-112 | slot i starts at its table offset and its bytes alone decode to its code, so no instruction straddles two slots |
| X86Layout.SlotOffsets | miner/src/sizes.rs:105-112 | the offset table is the running sum of the slots' lengths |
| X86Layout.DecodeProgram | miner/src/emit_x86.rs:287-363 | decoding the whole emitted stream gives exactly the intended instructions |
| X86Layout.JumpLandsOnFirstSlot | miner/src/emit_x86.rs:308-334 | the backward displacement, counted from the jump's end, is the first slot |
| X86Layout.CodeSize | miner/src/sizes.rs:39-48 | the emitted size is prologue, weighted table and epilogue |
| X86Correct.X86RunsProgram | miner/src/emit_x86.rs:287-363 | for every program the emitted bytes run to their return with the compiled digest in rax, the compiled pad in memory, and the caller's registers and stack restored |
| X86Emitter.Emitter.constructor | miner/src/emit_x86.rs:18-22 | an emitter starts empty at the start of its window |
| X86Emitter.Emitter.EmitAddr | miner/src/emit_x86.rs:131-140 | the address code for a source, constant and mask, appended in its bytes |
| X86Emitter.Emitter.EmitOne | miner/src/emit_x86.rs:148-277 | one slot's code is appended, in exactly the bytes of the length table |
| X86Emitter.Emitter.EmitPrologue | miner/src/emit_x86.rs:288-306 | the prologue is appended and ends at the top of the loop |
| X86Emitter.Emitter.EmitLoopEnd | miner/src/emit_x86.rs:323-334 | counter, comparison and a jump back to the given position are appended |
| X86Emitter.Emit | miner/src/emit_x86.rs:287-363 | writes the encoding of the program's listing into its window and leaves the rest of the buffer alone |
| A64Compile.SlotCorrect | miner/src/emit_arm64.rs:172-307 | the code of any slot performs that slot on the pinned registers and the pad and keeps everything else |
| A64Bytes.DecodeEncode | miner/src/emit_arm64.rs:23-169 | every instruction word decodes to the instruction it encodes |
| A64Correct.CodeSize | miner/src/sizes.rs:54-89 | the emitted size is prologue, weighted table and epilogue |
| A64Correct.A64RunsProgram | miner/src/emit_arm64.rs:317-406 | for every program the emitted words run to their return with the compiled digest in x0, the compiled pad in memory, and the caller's registers and stack restored |
| A64Emitter.Emitter.constructor | miner/src/emit_arm64.rs:17-27 | an emitter starts empty at the start of its window |
| A64Emitter.Emitter.AAddr | miner/src/emit_arm64.rs:161-169 | the address code for a source, constant and mask, appended in its words |
| A64Emitter.Emitter.EmitOne | miner/src/emit_arm64.rs:172-307 | one slot's code is appended, in exactly the words of the length table |
| A64Emitter.Emitter.EmitLoopEnd | miner/src/emit_arm64.rs:363-371 | counter, comparison and a branch back to the given position are appended |
| A64Emitter.Emit | miner/src/emit_arm64.rs:317-406 | writes the encoding of the program's listing into its window and leaves the rest of the buffer alone |
| BackEnds.IterationsAgree | miner/src/emit_arm64.rs:349-371 | after every iteration the eight virtual registers and the pad are the same on both machines, whatever the program |
| BackEnds.BackEndsAgree | miner/src/emit_x86.rs:287-363 | for every program, pad, seed and key both back ends halt with the same digest and the same pad |
| BackEnds.BackEndsMatchInterpreter | miner/src/lib.rs:201-243 | without diverging slots both leave the interpreter's digest and pad |
| ProgramBuilder.Shuffle | lib/pow/src/program.rs:72-76 | the in-place shuffle is the specified permutation of the roles |
| ProgramBuilder.BuildProgram | lib/pow/src/program.rs:61-103 | the loops build the specified program from the generator's stream |
| ProgramBuilder.ShuffledKeepsRoles | lib/pow/src/program.rs:72-76 | shuffling keeps each role exactly once, whatever is drawn |
| ProgramBuilder.HistogramFixed | lib/pow/src/consts.rs:45-53 | whatever the generator yields, each opcode occurs as often as the frozen histogram says, and no slot has its destination as its source |
| Sizes.FrozenSizes | miner/src/sizes.rs:3-103 | any program with the frozen histogram has the frozen size on either back end |
| Sizes.BuiltSizes | miner/src/sizes.rs:3-103 | so does every program the builder makes |
| Fill.Fill | lib/pow/src/fill.rs:23-65 | the interleaved fill writes the specified pad and seed |
| Fill.FillRef | lib/pow/src/fill.rs:68-119 | the reference fill, chain by chain, writes the same pad and seed |
| Miner.CallIsVerify | lib/pow/src/lib.rs:67-71 | calling the emitted bytes of a built program on its filled pad is the reference hash, on either target |
| Miner.SomePlatformCalls | miner/src/page.rs:455-500 | the assumption about calls is met by some platform for each target, S-box, mixing, key and generator |
| Miner.SlotsApart | miner/src/page.rs:427-432 | a program of either target fits its own slot and slots do not overlap |
| Miner.Miner.constructor | miner/src/lib.rs:84-89 | a miner over such a platform starts valid and ready |
| Miner.Miner.MineBatch | miner/src/lib.rs:113-181 | emitting all slots and then running them gives each nonce the digest and pad of hashing it alone, and leaves pads past the batch untouched |
| LedgerLaws.Conservation | lib/chain/src/body.rs:78-148 | over every chain of accepted blocks the sum of all balances grows by exactly the rewards, whoever pays whom |
| LedgerLaws.FlatSubsidy | lib/chain/src/body.rs:79-84 | while the subsidy is flat the sum grows by the subsidy times the blocks |
| LedgerLaws.NoncesConsecutive | lib/chain/src/body.rs:83-142 | over every accepted run each sender's nonces are consecutive and its account ends at the next one |
| LedgerLaws.NoReplay | lib/chain/src/body.rs:83-142 | no (address, nonce) pair is spent twice in an accepted run |
| LedgerLaws.MaturityKept | lib/chain/src/state.rs:140-156 | in every accepted run every balance stays at least its immature coinbases, the block's own included |
| LedgerLaws.NeverSaturates | lib/chain/src/state.rs:140-150 | in every such run the saturating operations never saturate |
| LedgerLaws.BodyEffect | lib/chain/src/body.rs:78-148 | what an accepted block does to one address, as a sum over its transactions |
| Body.UndoRestores | lib/chain/src/state.rs:62-111 | undo records lead from the state after to the state before, deltas from before to after |
| Body.Overlay.constructor | lib/chain/src/state.rs:19-27 | a new overlay shows the store |
| Body.Overlay.Get | lib/chain/src/state.rs:48-55 | reading keeps the view and returns the viewed account |
| Body.Overlay.Set | lib/chain/src/state.rs:79-82 | sets one account of the view and records its first value in the frame |
| Body.Overlay.Credit | lib/chain/src/state.rs:84-89 | adds to one balance, or fails on overflow and changes nothing in the view |
| Body.Overlay.ApplyUndo | lib/chain/src/state.rs:106-111 | the view after undoing is the view with the recorded accounts put back |
| Body.CoinbaseLedger.ImmatureAt | lib/chain/src/state.rs:140-146 | the saturating sum of the immature credits of an address |
| Body.BlockFeeTotal | lib/chain/src/body.rs:78-80 | the checked addition fails exactly when the whole sum does not fit |
| Body.ValidateBlockBody | lib/chain/src/body.rs:23-154 | accepts and refuses exactly what the transition does, for the same reason, and leaves the new accounts in the overlay and the new entry in the ledger |
| Reorg.BlockOutcome | lib/chain/src/body.rs:23-154 | states that agree on accounts and on what they hold back accept the same blocks and agree afterwards |
| Reorg.BuildLedger | lib/chain/src/reorg.rs:115-130 | the ledger rebuilt from the bodies of the maturity window, or an overflow exactly when a stored credit does not fit |
| Reorg.WindowSuffices | lib/chain/src/state.rs:154-160 | the window holds back what the whole history does, for every block that can follow |
| Reorg.ReplaySame | lib/chain/src/reorg.rs:133-179 | replay from states that agree gives the same outcome |
| Reorg.RollBack | lib/chain/src/reorg.rs:44-48 | undo lists applied top down show the accounts at the fork |
| Reorg.DeepReplayExact | lib/chain/src/reorg.rs:51-106 | the deep path yields the accounts at the fork if and only if the tip holds no account outside the snapshot |
| DeepPath.EmptySnapshotFails | lib/chain/src/reorg.rs:51-106 | from an empty start the deep path over the first snapshot is wrong at every fork of every chain of a block or more |
| DeepPath.DeepReplayDiverges | lib/chain/src/reorg.rs:36-106 | a faithful store of two blocks without undo lists: the switch at the first takes the deep path, and the accounts it rebuilds have a subsidy twice |
| Reorg.RewindToFork | lib/chain/src/reorg.rs:21-113 | shows the accounts at the fork from undo lists, what the deep path rebuilds otherwise, or refuses |
| Reorg.ValidateBranch | lib/chain/src/reorg.rs:133-179 | accepts a branch exactly when its replay is accepted, with undo records and deltas for every block; otherwise names the first block refused |
| Reorg.Switch | lib/chain/src/manager.rs:613-786 | executing a plan accepts exactly the branches whose replay from genesis is accepted, ends in that replay's accounts and reports one commit for each block above its base; a refusal names the first bad block, or asks for a resync when there is nothing to go back by |
| Reorg.StaysFaithful | lib/chain/src/manager.rs:742-757 | an accepted and committed switch, by undo lists or through the deep path, leaves the store of the new chain, so the next switch is faithful again |
| Reorg.GenesisFaithful | lib/chain/src/manager.rs:66-129 | a store that has only the first block is faithful |
| HeaderArena.BestUnique | lib/chain/src/forkchoice.rs:20-41 | there is one best header, so index order plays no part |
| HeaderArena.ForkSplits | lib/chain/src/forkchoice.rs:43-66 | old and new chain agree up to the fork and nowhere above it |
| HeaderArena.BaseIsFork | lib/chain/src/index.rs:114-145 | the recorded base of a side header is the height of its fork |
| HeaderArena.PlanLinks | lib/chain/src/forkchoice.rs:43-66 | a plan for a better header has something to apply, linked from the fork to best, none of it canonical |
| HeaderArena.SwitchedValid | lib/chain/src/index.rs:174-192 | switching leaves a valid arena with the chosen header as tip |
| HeaderArena.NoFurtherMove | lib/chain/src/forkchoice.rs:20-41 | after the switch fork choice has nowhere further to go |
| ForkChoice.WorkIsPositive | lib/chain/src/index.rs:114-145 | every header adds work, so work grows along every branch |
| ForkChoice.HeaderIndex.constructor | lib/chain/src/index.rs:96-112 | the genesis header alone is a valid index |
| ForkChoice.HeaderIndex.Insert | lib/chain/src/index.rs:114-145 | a known hash is returned, a new header is appended, invalid when its parent is |
| ForkChoice.HeaderIndex.MarkInvalid | lib/chain/src/index.rs:161-172 | one forward pass poisons exactly the header and its descendants, and counts the new ones |
| ForkChoice.HeaderIndex.SetCanonical | lib/chain/src/index.rs:174-192 | the new canonical chain is the ancestry of the chosen header |
| ForkChoice.HeaderIndex.AncestryOf | lib/chain/src/index.rs:198-211 | the chain from the first header, collected backwards and reversed |
| ForkChoice.HeaderIndex.SelectBest | lib/chain/src/forkchoice.rs:20-41 | the best by work, then lower hash, of the tip and the eligible headers not skipped |
| ForkChoice.HeaderIndex.PlanReorg | lib/chain/src/forkchoice.rs:43-66 | no plan for the tip, otherwise the heights above the fork and the branch from it |
| Adoption.Condemn | lib/chain/src/manager.rs:891-898 | marks exactly the refused header and its descendants, leaves fewer headers to choose from and the canonical chain as it was |
| Adoption.Advance | lib/chain/src/manager.rs:506-611 | the loop ends; what it adopts or stays at is the best header not passed over, with a good verdict; every header passed over lacks a body or was refused by a rule; a header is marked only below the header a bad side branch is blamed on |
| ChainManager.PlanInBlocks | lib/chain/src/forkchoice.rs:43-66 | a plan in blocks: the kept chain up to the fork and the branch are the way to the chosen header |
| ChainManager.Manager.constructor | lib/chain/src/manager.rs:66-129 | at the first block index and store are in step |
| ChainManager.Manager.Admit | lib/chain/src/manager.rs:414-478 | admitting a header leaves the chain and the store as they are |
| ChainManager.Manager.TryAdopt | lib/chain/src/manager.rs:613-786 | where there is something to go back by, adopting a header succeeds exactly when the blocks on the way to it replay; then the store is that replay and the header the tip; otherwise nothing changed |
| ChainManager.EveryStoreFaithful | lib/chain/src/manager.rs:742-757 | every store reached from the first block by committed switches is the store of its chain |
| ChainManager.SupplyOverRuns | lib/chain/src/manager.rs:742-757 | over every such run the coins are those of the start and one subsidy for each block of the current chain |
| ChainManager.AttemptIsVerdict | lib/chain/src/manager.rs:553-594 | the verdict the loop acts on is the outcome of the manager's own attempt |
| ChainManager.LoopFollowsReplay | lib/chain/src/manager.rs:553-594 | with those verdicts the loop marks a header only if the way to it does not replay, and adopts a chain that does |
| Template.MedianIsMedian | lib/consensus/src/rules.rs:439-448 | the median is one of the last eleven times, more than half are at or below it and at least half at or above |
| Template.SameWindow | node/src/validator.rs:613-619 | the builder's window of times is the validator's |
| Template.TemplateTimeRises | node/src/validator.rs:613-623 | a template's time exceeds the median of the last eleven headers |
| Template.PoolFees | node/src/validator.rs:626-630 | the fee sum of the pool, absent exactly when a record does not decode or the sum does not fit |
| Template.BuildTemplate | node/src/validator.rs:563-672 | builds the specified template exactly when the pool decodes, fees and time fit and both encoders accept |
| Template.TemplatePasses | lib/chain/src/body.rs:31-81 | a template passes every check that needs no state if and only if the pool's records are signed spends and reward and fees fit |
| Template.TemplateAccepted | lib/chain/src/body.rs:23-154 | a template whose pool applies in order at the tip is accepted whole |
| SecHex.InRangeIs | wallet/src/sechex.rs:6-13 | the branchless comparison is 1 inside the range and 0 outside, for all bytes |
| SecHex.NibbleIsDigit | wallet/src/sechex.rs:15-18 | the arithmetic is the hex table |
| SecHex.ByteIsNibble | wallet/src/sechex.rs:124-132 | every byte is valid exactly on the three ranges, with the digit's value |
| SecHex.Encode | wallet/src/sechex.rs:20-27 | the loop writes the hex of the bytes |
| SecHex.Decode | wallet/src/sechex.rs:29-54 | accepts exactly even-length hex, in one pass without early exit |
| SecHex.DecodeEncode | wallet/src/sechex.rs:20-54 | decoding inverts encoding on all byte strings |
| SecHex.EncodeDecode | wallet/src/sechex.rs:20-54 | encoding what was decoded is lower-casing |
| SecHex.BackupRestores | wallet/src/sechex.rs:90-122 | a printed backup restores its seed as checked, a bare seed as unchecked |
| SecHex.CheckedIsPrinted | wallet/src/sechex.rs:102-122 | a string accepted with check digits is the printed backup of its seed, up to case |
| Amount.PadFraction | wallet/src/amount.rs:96-102 | pads the fraction with zeros on the right |
| Amount.ParseExact | wallet/src/amount.rs:16-121 | accepts exactly the texts that denote an amount up to the ceiling, and returns it |
| Amount.Format | wallet/src/amount.rs:123-131 | prints whole and fraction without trailing zeros, keeping one |
| Amount.ParseFormat | wallet/src/amount.rs:16-131 | parsing a printed amount returns it, for every value up to the ceiling |
| KeyFile.ParseText | wallet/src/keyfile.rs:231-399 | the field-by-field reader is the specified parser |
| KeyFile.ParseExact | wallet/src/keyfile.rs:231-399 | accepts exactly the ASCII texts that are a key file's render up to line endings, and returns that file |
| KeyFile.ParseRender | wallet/src/keyfile.rs:194-399 | a storable file reads back as itself if and only if no free text of it ends in a carriage return |
| KeyFile.CrLfParses | wallet/src/keyfile.rs:231-399 | every storable file, whatever its free texts end in, is read from its render with carriage returns |
| KeyFile.CarriageReturnLost | wallet/src/keyfile.rs:231-399 | a file read from a text whose render does not read back as it |
| KeyFile.DeriveKey | wallet/src/kdf.rs:37-54 | the iterated hash is the specified chain |
| KeyFile.XorSeed | wallet/src/kdf.rs:211-218 | the seed against the keystream, byte by byte |
| KeyFile.SealOpens | wallet/src/keyfile.rs:86-188 | sealing succeeds exactly when the derivation is admissible and available, and what it seals opens to the seed |
| KeyFile.SealRoundTrip | wallet/src/keyfile.rs:86-399 | seal, render, parse, open gives the seed back for every role, time, passphrase and admissible derivation, whatever the line endings |
| Journal.ParseEntry | wallet/src/journal.rs:42-74 | the option-filling loop is the specified line parser |
| Journal.ParseLineOf | wallet/src/journal.rs:16-74 | reading a written line gives the entry back |
| Journal.AppendReads | wallet/src/journal.rs:99-130 | an appended entry is added to what is read if and only if only blanks follow the last newline |
| Journal.AppendUnfinished | wallet/src/journal.rs:42-130 | after an unfinished line the appended entry takes its place if the line ends in white space, and the journal no longer reads if not |
| JournalRuns.ConflictMeans | wallet/src/journal.rs:134-138 | no conflict means that every entry at the nonce recorded this very message |
| JournalRuns.NothingLostIff | wallet/src/wallet_cli.rs:549-624 | over every run the journal reads as what it recorded and all that was signed since, if and only if only blanks follow its last newline |
| JournalRuns.RunKeeps | wallet/src/wallet_cli.rs:549-624 | on a safe journal nothing is signed, over any run without reuse, at a nonce used for another or an unrecorded message |
| JournalRuns.RunKeepsIff | wallet/src/wallet_cli.rs:549-624 | every run without reuse keeps that rule if and only if the journal is safe |
| JournalRuns.SignedTwice | wallet/src/journal.rs:42-74 | a journal and two requests after which one nonce is signed for two messages |
| Toml.StateSound | node/src/toml.rs:526-603 | the scanners' common state is never inside both kinds of string, and an escape is pending only inside a basic one |
| Toml.StripCommentOf | node/src/toml.rs:526-552 | the text before the first hash outside strings |
| Toml.UnquotedBrackets | node/src/toml.rs:556-575 | exactly the brackets outside strings, with their positions |
| Toml.SplitTopLevel | node/src/toml.rs:577-603 | the pieces between the commas outside strings |
| Toml.SplitTopRejoins | node/src/toml.rs:577-603 | the pieces joined by commas are the input |
| Toml.SplitStandsAlone | node/src/toml.rs:577-603 | each piece read by itself is scanned as it was in place and has no comma outside strings |
| Toml.SplitCounts | node/src/toml.rs:577-603 | one piece more than commas outside strings |
| Toml.JoinedExact | node/src/toml.rs:457-464 | shifting the next line's brackets is one scan of the joined text, whatever the line, if and only if the text so far closes its strings |
| Toml.GatherIsOneScan | node/src/toml.rs:440-466 | when every line closes its strings the incremental bracket list is one scan of the joined text |
| Toml.GatherExact | node/src/toml.rs:440-466 | the list is one scan at every line, whatever that line is, if and only if each line before it closes its strings |
| Toml.BrokenString | node/src/toml.rs:440-466 | an array of two lines whose incremental list misses the closing bracket of the joined text |
| Toml.GatherSound | node/src/toml.rs:440-466 | every listed bracket is a bracket of the joined text, the first at its start |
| Toml.LastClose | node/src/toml.rs:467-472 | balanced brackets always include a closing one, so the expect cannot fail |
| Toml.ReadArray | node/src/toml.rs:440-485 | reads the least number of lines that balances, ends on every input, and reports a missing bracket, trailing text, nesting or the pieces exactly as specified |
| TomlValues.BasicString | node/src/toml.rs:316-365 | the escape loop is the specified reader |
| TomlValues.ParseItems | node/src/toml.rs:484-514 | the values of the pieces that are not blank, all of one kind, or the first fault |
| TomlValues.ReadValues | node/src/toml.rs:440-517 | the whole array reader: text, pieces and values |
| TomlValues.QuotedReads | node/src/toml.rs:316-365 | every string, quoted and escaped, is read back |
| TomlValues.ArrayReadsBack | node/src/toml.rs:440-603 | a list of any strings on one line, with brackets, commas, hashes, quotes and line ends in them, is read back through all three scanners |
| TomlLines.LineGives | node/src/toml.rs:457-462 | of a line the reader keeps the text without the white space and the comment around it |
| TomlLines.SpreadReadsBack | node/src/toml.rs:440-603 | a list of any strings, one on each line, with white space and comments around them and a last comma or not, is read back |
| Hostnames.IsValidIpv4Literal | node/src/embedded.rs:178-209 | accepts exactly four groups of one to three digits up to 255 |
| Hostnames.IsValidSeedHost | node/src/embedded.rs:211-263 | accepts exactly the label grammar of section 2.1 of RFC 1123, lower-case, two labels or more, a letter in the last, or the address shape, within 253 characters |
| Hostnames.NoLabelFault | node/src/seeds.rs:116-131 | the label loop finds no fault exactly when no label has one |
| Hostnames.AcceptedIsUsable | node/src/seeds.rs:47-132 | an accepted host is never malformed to the seed parser: an address, a placeholder exactly by the table's test, or itself |
| Hostnames.TableIsWellFormed | node/src/embedded.rs:265-289 | the nested loops decide non-empty, valid, uniform and distinct |
| Hostnames.TableIsUsable | node/src/embedded.rs:265-289 | a well-formed table gives no malformed seed, and no placeholder unless it says so |
| Interleave.DoInterleave | node/src/seeds.rs:388-407 | ends and returns the first cap items of the (round, bucket) order |
| Interleave.DrawsAre | node/src/seeds.rs:388-407 | that order holds every item of every bucket once, strictly rising by round, then bucket |
| Interleave.Fair | node/src/seeds.rs:386-407 | however many items are kept, no bucket has two more than a bucket with items left |
| Interleave.InterleavedDistinct | node/src/seeds.rs:388-407 | from disjoint buckets no item comes twice |
| Seeds.SiftReply | node/src/seeds.rs:327-341 | the loop over one reply is the specified sifting |
| Seeds.SiftCounts | node/src/seeds.rs:327-342 | kept, unroutable and dropped add up to the answers; what is kept is routable, new, distinct and within the cap |
| Seeds.NothingKept | node/src/seeds.rs:327-344 | a reply yields nothing if and only if every routable answer was seen before |
| Seeds.EmptyNoteWrong | node/src/seeds.rs:343-344 | the note that all answers were non-routable is wrong if and only if some answer is routable and every routable one was kept from an earlier seed |
| Seeds.SameAnswerTwice | node/src/seeds.rs:343-344 | two names with the same routable answer: the second is noted so |
| Seeds.NotesAccount | node/src/seeds.rs:342-353 | kept + unroutable + capped equals the answers of every resolved name |
| Seeds.AttemptIsSound | node/src/seeds.rs:306-361 | an attempt has no duplicates, at most the total cap, and only configured or routable answered addresses |
| Seeds.Bootstrap.Run | node/src/seeds.rs:306-361 | the loops give the specified attempt |
| Seeds.Bootstrap.Record | node/src/seeds.rs:363-369 | progress clears the failures, otherwise they saturate upward |
| Seeds.Driver.Step | node/src/seeds.rs:524-559 | one step is the specified transition, dials and wait; notes are logged on news only |
| Seeds.Driver.PreOffered | node/src/seeds.rs:566-568 | the address counts as offered |
| Seeds.DialedOnce | node/src/seeds.rs:524-568 | over every run an address is dialled at most once and never after it was offered |
| Seeds.WaitIsRung | node/src/seeds.rs:363-383 | over every run the wait is the poll interval or the ladder rung of the fruitless steps since progress or settling |
| Calendar.VersionsAgree | wallet-gui/src/model.rs:646-664 | the wallet's and the node's civil date are the same for every day number |
| Calendar.YearFound | node/src/log.rs:95-100 | the closed formula finds the year of the 400-year era for each of its days |
| Calendar.CivilInverts | node/src/log.rs:95-106 | every day number gives a valid date whose counted day number it is |
| Calendar.CivilOfDay | node/src/log.rs:95-106 | every valid date comes back from its day number |
| Calendar.SuccessiveDates | node/src/log.rs:95-106 | successive day numbers give successive dates under the leap rule of RFC 3339 Appendix C |
| Calendar.StampInverts | node/src/log.rs:81-91 | a stamp is a valid date and time and names its second |
| Health.Tracker.constructor | node/src/health.rs:415-426 | the clocks start at the given height and time with no gap seen |
| Health.Tracker.ObserveGap | node/src/health.rs:447-452 | the gap clock's step |
| Health.Tracker.DoBeat | node/src/node.rs:1114-1140 | a heartbeat feeds the clocks in order and returns the verdict of its observation |
| Health.RearmsIff | node/src/health.rs:444-452 | the clock restarts if and only if the node is level or closer than at any earlier beat of the history |
| Health.BehindIsStalled | node/src/health.rs:246-276 | over every history, behind by more than one means Stalled exactly when the height or the gap clock is past its threshold, Syncing otherwise |
| Health.NoNewLowIsStalled | node/src/health.rs:176-275 | behind by more than one with no new low for 180 s is Stalled, even if the height moves and whatever else is wrong |
| Health.LevelIsSynced | node/src/health.rs:278-322 | over every history, level means Synced unless bodies are missing for 180 s, nothing moved for 480 s, or it moves while no claim rose for 180 s |
| Health.ClaimClock | node/src/health.rs:458-469 | the claim clock shows when a claim last rose above all before it; a peer that leaves does not restart it |
| Health.OnlyLevelRearms | node/src/health.rs:444-452 | after the node has been level only being level restarts the clock |
| Health.CatchingUp | node/src/health.rs:261-275 | so 180 s after it was last level the node is Stalled whether or not the gap closes |
| Health.ShrinkingGapIsStalled | node/src/health.rs:261-275 | level, then 990 behind, then 200 behind and moving: reported as a gap that stands |
| Health.BackedByTwo | node/src/health.rs:156-166 | the height that counts is the greatest that two peers claim |
| Health.OneClaimCannotRaise | node/src/health.rs:156-166 | whatever one peer claims, another claims at least that height |

## Left out

- Memory mapping, page protection, huge pages and cache flushing (miner/src/page.rs, miner/src/pad.rs): foreign calls; only slot geometry is modelled.
- Miner.CallIsVerify: that calling a sealed page does what fetching, decoding and executing its bytes does, from some machine state, is an assumption about the call, stated as `CallRuns`.
- The S-box and column mixing of AES, BLAKE3, ed25519, argon2id, bech32m and the keyed hash are parameters.
- The generator of lib/pow/src/rng.rs is an arbitrary stream; results hold for every stream.
- The transaction and header codec of the consensus crate, signature checks and the Merkle root are parameters of the ledger.
- Storage, peer-to-peer, stratum and RPC crates, threads, atomics and start-up.
- ChainManager.Manager.TryAdopt: the checkpoint rules, the mempool, the events of the manager, failures of the storage layer and the report that the overlay grew too large are not modelled; a refusal by rule enters as a verdict.
- Reorg.Switch: asks that a snapshot used by the deep path covers the tip, the exact condition of `Reorg.DeepReplayExact`; without it the accounts are those `Reorg.RewindToFork` states.
- Template.BuildTemplate: the pool's choice of transactions is a parameter; refusing to build on a stranded branch (node/src/validator.rs:360-374) is not modelled; where the median is the last second of the clock the source stops on overflow and the model gives no template.
- JournalRuns.RunKeepsIff: journals of 2^64 entries or more, which no list in memory holds, are left out.
- Calendar.CivilInverts: day numbers are unbounded; the ends of the 64-bit range, where adding 719468 overflows, are not modelled.
- TomlValues.ReadValues: positions and lengths count characters where the source counts bytes, and the positions and wording of diagnostics are not modelled.
- Hostnames.AcceptedIsUsable: the library's socket-address and address parsers are parameters; a socket address is assumed to contain a colon.
- Seeds.AttemptIsSound: which addresses are routable is a parameter; the text of log lines is not modelled.
- Health.BehindIsStalled: reasons are names, not messages; block rates and arrival estimates in floating point are not modelled.
- KeyFile.SealRoundTrip: writing, permissions and verification of files on disk are not modelled.
- Zeroing of secrets, timing behaviour and the claim that a backup's check digits catch every slip.
- Configuration range checks, command-line parsing, notices and the graphical wallet.
