# Verified core of the Ethereum logger

This project models the hardest parts of the logger that reads blocks from an Ethereum node and
writes them, decoded, to an output. Each module follows one source file or one concern:

| modules | what they model |
|---|---|
| `DataTypes`, `TypeGrammar`, `CanonicalNames` | the ABI type language: splitting argument lists, the recursive-descent type parser, the printer, and two independent grammars, of all type names and of the canonical ones |
| `Encoding`, `DataSize` | the static size calculus, measured against a reference encoder written after "Formal Specification of the Encoding" in the Solidity Contract ABI Specification |
| `Signatures`, `SignatureLaws`, `JsonDefinitions` | function and event signatures: parser, printer, validation, and definitions as ABI JSON files hold them |
| `Decode`, `JsonSizes` | choosing among several definitions that share a function selector, and the sizes of definitions from ABI files |
| `Fingerprint`, `AbiFiles` | the bytecode scan (instruction positions as in section 9.4.3 of the Ethereum Yellow Paper), the signatures that an ABI file declares, and the contract fingerprint |
| `BlockRanges`, `RangeText`, `Checkpoints` | interval sets in normal form, complement, chunking, their text form, and the checkpoint store |
| `ParallelTasks` | the bounded task runner that the watcher starts its chunks with |
| `Watcher`, `WatcherSafety`, `WatcherOnce`, `WatcherDuplicates`, `WatcherProgress`, `WatcherRounds`, `WatcherTermination`, `WatcherCatchUp`, `WatcherRetries`, `WatcherLimits` | the block watcher as a state machine with parallel chunks, retries, failures and shutdown |
| `PriorityQueues`, `Scheduling`, `SchedulingLaws`, `SchedulingOrder`, `SchedulingControls`, `SchedulingDrains`, `RateLimit`, `RateLimitExamples`, `PQueues` | the promise queue: priorities, concurrency limit, interval count, carry-over, pause and timers |
| `LruCaches` | the two-generation LRU cache |
| `RpcBatch`, `HttpTransport` | the batching JSON-RPC client, and what the HTTP transport lets through to it |
| `Wrappers`, `Text` | optional values, results, joins, bracket depth, decimal numbers |

Code that updates fields in place is modelled by classes (`CheckpointImpl`, `State`,
`ParallelRun`, `PriorityQueue`, `PQueue`, `LRUCache`, `BatchedEthereumClient`) and loops by methods with loops.
Each is proved against a specification function, and the laws are proved about that function, in terms
of their own: grammars, positions in the output, indices of entries, counts of steps. The
watcher is a state machine because its behaviour is the interleaving of asynchronous tasks: one
step is what runs between two awaits. Its guard for starting a chunk task (in order, into a free slot, not
after an abort) is what `ParallelTasks` proves of the task runner.

Network answers, the time, the order in which tasks end, the foreign ABI decoder, the hash and the
table of known signatures are parameters or arbitrary choices, so every statement holds for all of
them. `usize` is 32 bits wide, as on the wasm32 target, and its arithmetic wraps.

## Where the code and its documentation disagree

The model follows the code. Where a promise is false of it, the exact condition is proved.

- `chunkedBlockRanges` documents chunks of up to `maxChunkSize`; the last one can be up to three
  blocks larger. `BlockRanges.ChunksWithinSizeIff` says when it is.
- `getInverseBlockRanges` documents the gaps between `start` and `end`; it also returns gaps
  between completed ranges that lie outside, see `BlockRanges.InverseExactIff`, and nothing at all
  when `start` equals `end`, whether or not that block is complete.
- `getDataSize` wraps at 2^32 bytes, so an "exact" size can be wrong:
  `DataSize.ExactLengthIffNoWrap` and `DataSize.WrapExample`.
- A candidate definition whose type has no size makes the selection fail although another candidate
  would decode: `Decode.FailureMeansAllFailIff` and `Decode.UnsizedCandidateHidesOthers`.
- An array of tuples other than `tuple[]` is sized as an array of empty tuples, so that a call's own
  encoding can miss its definition: `JsonSizes.JsonEncodingIsAdmittedIff` and
  `JsonSizes.FixedTupleArrayIsNotAdmitted`.
- `encodeInputType` knows tuples only as `tuple` and `tuple[]`: `JsonDefinitions.JsonEncodingIff`.
- A checkpoint whose id is `v` or `__proto__` does not survive saving:
  `Checkpoints.SerializeRestoreIff`.
- After a chunk has used up its attempts the poll loop goes on while its sibling chunks still run,
  and a block can be written twice: `WatcherDuplicates.ExhaustionCanDuplicate`. Which runs write each
  block once is `WatcherOnce.ExactlyOnceIff`.
- `intervalCap` and `interval` of the promise queue promise at most so many runs in so much time,
  and the time between two resets of the count. What holds is that at most `intervalCap` tasks begin
  between two resets (`RateLimit.AtMostCapBetweenResets`); but `_onInterval` never renews
  `_intervalEnd`, so resets can come too early: when a task is tried soon after a tick and the timer
  was cleared on an empty queue, after a late resume timeout, and between tasks that throw at once.
  `RateLimit.EarlyResetIff` and `RateLimit.AttemptResetsEarlyIff` say exactly when,
  `RateLimitExamples` shows each, and `RateLimit.RateWithoutEarlyResets` is what the promise comes to otherwise.
- A `null` in a batch response after a delivered response makes callbacks run twice:
  `RpcBatch.CalledExactlyOnceIff` and `RpcBatch.NullCallsTwice`. No transport of the repository hands
  on such an array, so only another one can cause this; over HTTP every callback runs exactly once
  (`HttpTransport.DeliveredExactlyOnceOverHttp`).

## Model

| member | source | states |
|---|---|---|
| `DataTypes.Tokenize` | src/wasm/ethabi/src/datatypes.rs:32-71 | the loop over the characters returns what the recursive scan `Tokens` defines, in all success and error cases |
| `DataTypes.TokenizeIff` | src/wasm/ethabi/src/datatypes.rs:32-71 | an input is split into `parts` if and only if it is their comma-join, each is balanced without going below depth zero and has no top-level comma, and only a lone empty list ends empty; so the pieces are unique |
| `DataTypes.TokenizeErrors` | src/wasm/ethabi/src/datatypes.rs:44-46 | "Unbalanced parenthesis" exactly for unbalanced input, whatever else is wrong; otherwise the only refusal is "Unexpected end", exactly for a trailing comma |
| `DataTypes.AfterLastBracket` | src/wasm/ethabi/src/datatypes.rs:95-103 | the digits taken for an array length are the longest suffix without `[` |
| `TypeGrammar.SplitArraySound` | src/wasm/ethabi/src/datatypes.rs:93-116 | an accepted array type is its element name followed by a bracketed numeral for its length, or by `[]`, and nothing else |
| `TypeGrammar.ReadIff` | src/wasm/ethabi/src/datatypes.rs:73-146 | the parser accepts exactly the strings of an independently stated grammar, aliases `int`, `uint`, `tuple`, plus signs and leading zeros included, and returns exactly the type the grammar assigns |
| `TypeGrammar.SpellingIsUnambiguous` | src/wasm/ethabi/src/datatypes.rs:73-146 | no string denotes two types |
| `TypeGrammar.SpellingIsToken` | src/wasm/ethabi/src/datatypes.rs:80-90 | every type name is a non-empty token, so tuples nest without ambiguity at the commas |
| `TypeGrammar.RoundTrip` | src/wasm/ethabi/src/datatypes.rs:73-146 | reading the canonical name of any type gives that type back |
| `TypeGrammar.ParseRoundTrip` | src/wasm/ethabi/src/datatypes.rs:4-30 | the checked parser gives a printed type back if and only if `is_valid_param_type` accepts it |
| `TypeGrammar.PrintInjective` | src/wasm/ethabi/src/sig.rs:35-40 | different types have different printed names |
| `CanonicalNames.CanonicalIff` | src/wasm/ethabi/src/sig.rs:35-40 | the printed name of a type is the one string that a grammar of canonical names allows: every keyword followed by its width, no alias, numbers in decimal digits without sign or leading zero |
| `CanonicalNames.DecimalIff` | src/wasm/ethabi/src/sig.rs:35-40 | a number has one such decimal form, and that is what is printed |
| `CanonicalNames.ValidIff` | src/wasm/ethabi/src/datatypes.rs:4-18 | a type is valid if and only if each type that occurs in it is known: integer widths 8 to 256 in steps of 8, 1 to 32 fixed bytes, arrays of fixed length that are not empty |
| `DataSize.SizeIsWrappedMinimum` | src/wasm/ethabi/src/datatypes.rs:149-165 | the computed size is the unbounded minimum modulo 2^32, wrapped at every step, and the flag is false exactly for dynamic types |
| `DataSize.ExactIffStatic` | src/abi/decode.ts:33-46 | `exact` holds if and only if no argument type is dynamic |
| `DataSize.EncodedSize` | src/wasm/ethabi/src/datatypes.rs:149-165 | the specified encoding of every value has at least the minimum size of its type, and just that size for a static type |
| `DataSize.LengthIsLowerBound` | src/abi/decode.ts:33-46 | for all types and all well-typed values the argument block is at least as long as the computed length |
| `DataSize.ExactLengthIffNoWrap` | src/abi/decode.ts:145-160 | with `exact` set, the block has the computed length if and only if no single argument reaches 2^32 bytes |
| `DataSize.WrapExample` | src/wasm/ethabi/src/datatypes.rs:154-156 | a valid static type of 2^32 bytes whose computed size is zero |
| `Signatures.ParseFnArgs` | src/wasm/ethabi/src/sig.rs:44-76 | the loop over the tokens returns what `FnArgs` defines: every input, or the error of the first bad token |
| `SignatureLaws.EncodeUndoesParam` | src/wasm/ethabi/src/sig.rs:22-42 | encoding the JSON form of a parsed type gives its canonical name, and fails exactly when an empty tuple is reached through tuples |
| `SignatureLaws.ValidNameIff` | src/wasm/ethabi/src/sig.rs:78-80 | names consist of letters, digits and underscores, at least one |
| `SignatureLaws.ParseSignatureIff` | src/wasm/ethabi/src/sig.rs:82-110 | a signature parses to an item if and only if the independent signature grammar says that it denotes the name and arguments, and each input has no name, the flag of its argument, and the canonical name of its type or, for a tuple, the word `tuple` with such inputs for the components |
| `SignatureLaws.ComputeOfParsed` | src/abi/signature.ts:9-14 | the signature computed from a parsed item is its name with the canonical names of its types; it fails exactly on an empty tuple |
| `SignatureLaws.ParsedInputTypesParse` | src/abi/signature.ts:41-45 | the type check in `validateSignature` never fails on inputs that were just parsed |
| `SignatureLaws.ValidFunctionIff` | src/abi/signature.ts:39-50 | a function signature validates if and only if it is a valid name with the canonical names of valid types, of which none is an empty tuple or a tuple component that is one |
| `SignatureLaws.ValidEventIff` | src/abi/signature.ts:39-50 | an event signature validates if and only if it parses and shows no empty tuple |
| `SignatureLaws.CanonicalisationIsIdempotent` | src/abi/signature.ts:9-50 | printing what was parsed and parsing again gives the same item, and the printed form validates |
| `SignatureLaws.EventRoundTrip` | src/abi/signature.ts:16-24 | name, argument types and indexed flags of every event definition survive serialisation and parsing: each parsed input is flagged exactly if the definition says `indexed: true` and is what its type denotes |
| `JsonDefinitions.JsonEncodingIff` | src/abi/datatypes.ts:30-43 | the encoded type of an input from an ABI file, whatever the names and flags in it, is the canonical name if and only if every tuple in it is non-empty and written `tuple` or `tuple[]` |
| `JsonDefinitions.JsonEncodingIsToken` | src/abi/datatypes.ts:33-43 | whatever name comes out, it is a non-empty token |
| `Decode.InputSizeOfTypes` | src/abi/decode.ts:33-46 | the input size of a definition is the sum over its argument types, exact if and only if all are static |
| `Decode.DecodeBestMatchingFunctionCall` | src/abi/decode.ts:131-189 | the result is the call of the first candidate, by pass (exact size, dynamic size, any) and then by index, for which the foreign decoder takes the digits behind the selector with the types that the inputs name; a failure if there is none, with the last error, or if several are given and one has no size |
| `Decode.DecodesToIff` | src/abi/decode.ts:94-129 | one candidate decodes to a call if and only if the decoder, given what follows the first ten characters and the types of the inputs, returns its values, and the call holds that definition and the name with the encoded types |
| `Decode.CallOfTypes` | src/abi/decode.ts:101-102 | for data of a ten-character prefix and digits, and given input types: decoding succeeds exactly if the decoder takes these digits, and what the call then holds |
| `Decode.PhaseByTypes` | src/abi/decode.ts:145-178 | which pass tries a definition first, by its types: exact size for static ones, at least the size with a dynamic one, any otherwise |
| `Decode.SelectedIsChosen` | src/abi/decode.ts:131-189 | the contract of the selector in terms of the foreign decoder alone |
| `Decode.SelectionIsUnique` | src/abi/decode.ts:131-189 | that description leaves no choice: two results that both meet it are the same |
| `Decode.TryInOrder` | src/abi/decode.ts:144-188 | the three loops find the first decodable candidate in lexicographic order of pass and index |
| `Decode.MeasureAll` | src/abi/decode.ts:141 | all sizes in order, or failure if one candidate has none |
| `Decode.ChoiceAllowed` | src/abi/decode.ts:137-188 | under that condition every result of the selection is a failure if and only if no candidate decodes |
| `Decode.ChoiceDenied` | src/abi/decode.ts:141 | outside it a decoder that takes anything breaks the guarantee |
| `Decode.FailureMeansAllFailIff` | src/abi/decode.ts:137-188 | the selection fails just when every candidate fails, whatever the decoder, if and only if there is one candidate, all have a size or none has |
| `Decode.UnsizedCandidateHidesOthers` | src/abi/decode.ts:141 | a concrete pair with the same signature, and so the same selector, of which one decodes and yet the call fails |
| `Decode.UnsizedIsUndecodable` | src/abi/decode.ts:101-102 | a definition without a size cannot be decoded by any decoder |
| `Decode.ShortcutAgrees` | src/abi/decode.ts:137-140 | the shortcut for one candidate gives what the general path would, and fails where the size is unknown |
| `Decode.OwnEncodingIsAdmitted` | src/abi/decode.ts:142-178 | data that encodes the types which a definition's encoded names denote admits it before the brute-force pass if and only if one is dynamic or none takes 2^32 bytes |
| `JsonSizes.ShownIsSpelled` | src/abi/datatypes.ts:33-43 | which type the encoded name of an input from an ABI file denotes, whatever the names and flags in it, and that there is one unless an empty tuple is written out |
| `JsonSizes.ShownIsSmaller` | src/abi/decode.ts:33-46 | that type never takes more than the real one |
| `JsonSizes.HiddenDynamic` | src/abi/decode.ts:33-46 | if it is static and the real one dynamic, it takes less |
| `JsonSizes.JsonEncodingIsAdmittedIff` | src/abi/decode.ts:142-178 | for every definition of an ABI file (src/abi/item.ts:4-20), under any argument names, data that encodes its real types admits it before the brute-force pass if and only if all inputs have names and either a named type is dynamic or all have the size of the real ones, below 2^32 bytes |
| `JsonSizes.FixedTupleArrayIsNotAdmitted` | src/abi/decode.ts:142-160 | two one-word tuples as `tuple[2]`: static, 64 bytes, computed size exactly zero, not admitted |
| `Fingerprint.ExtractFunctionsAndEvents` | src/abi/contract.ts:29-50 | the scan collects exactly the non-empty matches of PUSH4 and PUSH32 data at instruction positions of the Yellow Paper, data cut off at the end of the code included |
| `Fingerprint.PushDataReads` | src/abi/contract.ts:41-43 | the data looked up is as many bytes behind the opcode as it announces, or as many as are left |
| `Fingerprint.HexReads` | src/abi/contract.ts:43 | each byte is looked up as two lower-case hexadecimal digits, the higher first |
| `Fingerprint.LeadsStep` | src/abi/contract.ts:36-50 | from one instruction position the next is reached, and no position in between is one |
| `Fingerprint.SortSorts` | src/abi/files.ts:139-146 | the model of `sort()` sorts by code units |
| `Fingerprint.StringLeIff` | src/abi/files.ts:139-146 | the order of that sort: a beginning comes before the whole, and otherwise the first difference decides |
| `Fingerprint.SortedList` | src/abi/contract.ts:52-53 | a set as a sorted list without repetition |
| `Fingerprint.SortedIsUnique` | src/abi/contract.ts:52-53 | a multiset of strings has one sorted list |
| `Fingerprint.PreimageInjective` | src/abi/contract.ts:64 | the hashed text determines both signature lists |
| `Fingerprint.PreimageReads` | src/abi/contract.ts:64 | the only bar of the hashed text stands between the functions and the events, and each part is the comma-join of its list |
| `Fingerprint.CanonicalIsWellFormed` | src/abi/signature.ts:13 | every canonical signature meets the conditions under which the hashed text is injective |
| `Fingerprint.SameTextIffSameSignatures` | src/abi/files.ts:137-148 | code and file give the same hashed text if and only if the file lists exactly the signatures found in the code, each once |
| `AbiFiles.EntrySignaturesIff` | src/abi/files.ts:130-146 | the signatures of a kind are, in file order, those of exactly the named entries of that kind, and there are any only if every named function and event has a signature |
| `AbiFiles.EntrySignaturesFailIff` | src/abi/files.ts:130-135 | a file fails with the error of the first named function or event whose signature cannot be computed |
| `AbiFiles.FileListsIff` | src/abi/files.ts:137-146 | that list names each of a set of signatures once if and only if the entries declare exactly these, each by one entry |
| `AbiFiles.FingerprintsAgreeIff` | src/abi/files.ts:130-148 | unless the two hashed texts collide, the fingerprints of code and ABI file agree if and only if every named entry has a signature and the entries declare exactly the functions and events found in the code, each once, the case without signatures included |
| `BlockRanges.CompactRanges` | src/core/blockrange.ts:13-26 | the sort and the two nested loops compute `Compact` |
| `BlockRanges.CompactNormalises` | src/core/blockrange.ts:8-26 | the result covers the same blocks, sorted, with an uncovered block between neighbours |
| `BlockRanges.NormalIsUnique` | src/core/blockrange.ts:8-26 | two normal lists that cover the same blocks are the same list |
| `BlockRanges.CompactIsCanonical` | src/core/blockrange.ts:8-26 | two inputs compact to the same list if and only if they cover the same blocks |
| `BlockRanges.CompactKeepsNormal` | src/core/blockrange.ts:8-26 | compaction leaves a normal list alone |
| `BlockRanges.GetInverseBlockRanges` | src/core/blockrange.ts:81-106 | all branches and the loop compute `Inverse` |
| `BlockRanges.InverseIsComplement` | src/core/blockrange.ts:77-106 | the inverse is the normal list of exactly the uncovered blocks of its window, with either bound missing too, and nothing when `start >= end` |
| `BlockRanges.GapPartition` | src/core/blockrange.ts:77-106 | completed ranges and gaps are disjoint and together cover `start` to `end` |
| `BlockRanges.InverseExactIff` | src/core/blockrange.ts:77-106 | for all `start` and `end` the gaps are the exact complement between them if and only if there is no block between, the only one is complete, or the first and last completed ranges leave no gap outside |
| `BlockRanges.ChunkedBlockRanges` | src/core/blockrange.ts:52-66 | the loop computes `Chunks` |
| `BlockRanges.ChunksPartition` | src/core/blockrange.ts:52-66 | the chunks partition the range in order, all but the last of the configured size, the last at most three blocks larger |
| `BlockRanges.CapTakesPrefix` | src/core/blockrange.ts:59-64 | a chunk cap keeps the first chunks and drops the others |
| `BlockRanges.LastChunk` | src/core/blockrange.ts:59-64 | the size of the last chunk as a function of the number of blocks |
| `BlockRanges.ChunksWithinSizeIff` | src/core/blockrange.ts:51-66 | the documented bound holds if and only if that size is within it |
| `BlockRanges.BlockRangeToArray` | src/core/blockrange.ts:69-75 | every block number of the range once, in order |
| `RangeText.ParseBlockRangeIff` | src/core/blockrange.ts:32-40 | a text is accepted as a range if and only if its first two pieces between dashes are numbers, by the grammar of `RangeText.ParseIntIff`, with `0 <= from <= to` |
| `RangeText.ParseIntIff` | src/core/blockrange.ts:34-35 | what `parseInt` reads, by a grammar: white space, an optional sign, hexadecimal digits behind `0x` or decimal digits, as many as there are, and then anything |
| `RangeText.RangeTextRoundTrip` | src/core/blockrange.ts:32-49 | writing and reading gives a range back if and only if it is a valid range of block numbers, and the error names the text otherwise |
| `Checkpoints.MarkAddsRange` | src/core/state.ts:69-72 | marking keeps the list normal and adds exactly the blocks of the range |
| `Checkpoints.MarkAllAddsBlocks` | src/core/state.ts:65-76 | over any run of marks a block is incomplete exactly if it was so before and was not marked |
| `Checkpoints.MarkOrderIrrelevantIff` | src/core/state.ts:65-72 | two runs of marks give the same checkpoint if and only if they mark the same incomplete blocks |
| `Checkpoints.CheckpointImpl.MarkComplete` | src/core/state.ts:69-72 | the field is compacted with the new range, whatever it is; for a range that does not end before it starts the object stays normal and coverage grows by exactly that range |
| `Checkpoints.CheckpointImpl.MarkBlockComplete` | src/core/state.ts:65-67 | the same for one block: it is no longer incomplete, and for all others that is as before |
| `Checkpoints.CheckpointImpl.IsIncomplete` | src/core/state.ts:74-76 | a block is incomplete if and only if it lies before or behind every completed range |
| `Checkpoints.CheckpointImpl.GetIncompleteRanges` | src/core/state.ts:78-83 | fails exactly when the initial block was never set, and returns the inverse of the completed ranges otherwise |
| `Checkpoints.State.GetCheckpoint` | src/core/state.ts:152-160 | returns the one checkpoint of that id, made fresh and empty if there was none, and changes no other |
| `Checkpoints.State.Serialize` | src/core/state.ts:162-168 | writes every checkpoint under its id, whatever the order of the map |
| `Checkpoints.State.InitializeFromCheckpointContents` | src/core/state.ts:127-150 | restores both file versions on top of what was there; on an error the checkpoints are old ones or ones of the file |
| `Checkpoints.State.RestoreEntries` | src/core/state.ts:138-146 | the loop over the keys restores all of them, or fails exactly when some entry cannot be read |
| `Checkpoints.EntryRoundTrip` | src/core/state.ts:143-165 | one entry survives if and only if no completed range begins below zero |
| `Checkpoints.VersionOneRestores` | src/core/state.ts:129-137 | a file of the first version restores one checkpoint `main` with its initial block and ranges, and fails if a range begins below zero |
| `Checkpoints.SerializeRestoreIff` | src/core/state.ts:127-168 | all checkpoints survive writing and restoring if and only if none is called `v` or `__proto__` and no range begins below zero |
| `ParallelTasks.ParallelRun.Next` | src/utils/async.ts:63-85 | the loop that starts tasks does what `StartNext` says to both counters, the queue and the log of starts |
| `ParallelTasks.ParallelRun.TaskCompleted` | src/utils/async.ts:79-83 | the callback frees the slot and starts what fits |
| `ParallelTasks.ParallelismBounded` | src/utils/async.ts:56-89 | after any task ends and aborts: `running` is exactly the number of started, unfinished tasks and at most `maxConcurrent`, tasks start in order, at most once, each into a free slot, and no slot stays free while tasks wait and no abort has come |
| `ParallelTasks.NothingStartsAborted` | src/utils/async.ts:64 | after an abort no task starts any more |
| `ParallelTasks.AbortedIff` | src/utils/async.ts:64 | the run is aborted if and only if the signal came, before it or during it |
| `ParallelTasks.RestsWhenAllAreOver` | src/utils/async.ts:56-89 | without an abort nothing is running if and only if all tasks are over |
| `WatcherSafety.CheckpointMatchesOutput` | src/core/blockwatcher.ts:230-260 | in every run the output grows by whole blocks, one directly behind the other, each with its block message and then, at the positions given by the numbers of messages before, every message of every transaction; and the checkpoint grows by exactly their numbers |
| `WatcherSafety.CoveredMeansWritten` | src/core/blockwatcher.ts:254-257 | a block newly covered by the checkpoint stands in the output since the start: its message, then the messages of all its transactions in order without a gap, those of each full transaction beginning with its own |
| `WatcherSafety.WritingStep` | src/core/blockwatcher.ts:251-257 | a writing step lengthens the output by one plus the number of messages of its transactions, leaves what was there alone, and marks the one block |
| `WatcherSafety.OtherStepsWriteNothing` | src/core/blockwatcher.ts:143-260 | every other step leaves output and checkpoint alone |
| `WatcherSafety.NothingAfterShutdown` | src/core/blockwatcher.ts:251-253 | once inactive, whatever still runs, nothing is written or marked and the watcher stays inactive |
| `WatcherOnce.OrderlyStep` | src/core/blockwatcher.ts:157-258 | the invariant of orderly runs: current chunks are disjoint and each task's remaining blocks are distinct incomplete blocks of its chunk |
| `WatcherOnce.RewritesAreCounted` | src/core/blockwatcher.ts:230-260 | in every run whatsoever a block stands in the output once if it was completed in it, plus once for every write of it while it was complete |
| `WatcherOnce.ExactlyOnceIff` | src/core/blockwatcher.ts:231-257 | a run writes every block exactly once if and only if no step writes a block that is already complete, the test that `processBlock` does not repeat after its await |
| `WatcherOnce.ExactlyOnce` | src/core/blockwatcher.ts:142-260 | every run in which the node answers what was asked and no chunk uses up its attempts does so, across retries and shutdown |
| `WatcherDuplicates.ExhaustionCanDuplicate` | src/core/blockwatcher.ts:161-186 | a run with an honest node and no shutdown in which an exhausted chunk leads to a block written twice |
| `WatcherDuplicates.FailAll` | src/utils/retry.ts:52-95 | a requesting chunk can fail on all its remaining attempts, up to 100 |
| `WatcherRetries.GivesUpAfterHundred` | src/utils/retry.ts:51-91 | in every run a task is at the attempt after its failures, and while the watcher is active it has been given up if and only if it failed a hundred times |
| `WatcherLimits.RequestsExactlyIncomplete` | src/core/blockwatcher.ts:215-221 | each attempt asks for exactly the blocks of its chunk that are incomplete at that moment, in ascending order |
| `WatcherLimits.ParallelChunksBounded` | src/core/blockwatcher.ts:161-179 | in every run no more chunks of one range are at work together than `maxParallelChunks` |
| `WatcherLimits.ChunksStartInOrder` | src/core/blockwatcher.ts:161-179 | in every run the chunks of a range are started in ascending order |
| `WatcherLimits.NothingTakenUpAfterShutdown` | src/core/blockwatcher.ts:157-164 | after a shutdown no range is taken up and no chunk started, requested again, given up or counted as finished |
| `WatcherProgress.OrderlyRunStaysOrderly` | src/core/blockwatcher.ts:142-260 | every state of an orderly run from a start meets what the statements about rounds assume |
| `WatcherProgress.FinishedMeansComplete` | src/core/blockwatcher.ts:161-179 | in orderly runs a chunk counts as finished only with all its blocks complete, shutdowns included |
| `WatcherProgress.RoundCoversChunks` | src/core/blockwatcher.ts:157-179 | after an orderly round every chunk of every gap found by the poll is complete |
| `WatcherProgress.RoundMakesProgress` | src/core/blockwatcher.ts:145-179 | while a gap begins between the initial and the polled block, a round strictly lowers the number of incomplete blocks there |
| `WatcherProgress.RoundCompletesExactly` | src/core/blockwatcher.ts:145-179 | an orderly round completes exactly the blocks in the chunks of the gaps it found |
| `WatcherProgress.WorkMakesProgress` | src/core/blockwatcher.ts:145-179 | whenever the poll finds work, a round strictly lowers the number of incomplete blocks from the earlier of the initial and first completed block to the later of the polled and last completed one |
| `WatcherProgress.PolledCountFallsIff` | src/core/blockwatcher.ts:145-179 | the number from the initial to the polled block falls if and only if some chunk reaches in there |
| `WatcherProgress.RoundCatchesUp` | src/core/blockwatcher.ts:147-179 | a round whose gaps all stay below the chunk cap leaves nothing incomplete |
| `WatcherRounds.RoundCanEnd` | src/core/blockwatcher.ts:157-179 | from every orderly state of a round some orderly continuation ends it, so a round never gets stuck |
| `WatcherRounds.EveryRoundCanComplete` | src/core/blockwatcher.ts:143-179 | whatever height a poll gets, its round can be completed |
| `WatcherTermination.RunsAreBounded` | src/core/blockwatcher.ts:142-260 | an orderly run takes at most so many steps without a poll as its first state allows, whatever the order in which chunks are started, answered, fail, wait and finish |
| `WatcherTermination.EveryRoundEnds` | src/core/blockwatcher.ts:157-179 | so every round ends: after a poll the number of steps is bounded, in the round there is always something to do, and a run out of it has completed it |
| `WatcherTermination.OrderlyRunCanRetry` | src/utils/retry.ts:52-95 | every state of an orderly run from a start has such a bound |
| `WatcherCatchUp.RepeatedRoundsCatchUp` | src/core/blockwatcher.ts:143-179 | as many completed rounds at one height as blocks are missing leave no gap to find, and no block missing from the initial to the polled one |
| `WatcherCatchUp.RoundCompletesSome` | src/core/blockwatcher.ts:145-179 | a round that found a gap lowers the number of missing blocks between any bounds around all blocks concerned |
| `WatcherCatchUp.NothingToDo` | src/core/blockwatcher.ts:145-179 | a round that found no gap leaves the completed ranges as they are |
| `WatcherCatchUp.CanCatchUp` | src/core/blockwatcher.ts:143-179 | from every state between rounds such rounds exist, whatever the height |
| `PriorityQueues.LowerBound` | src/p-queue/lower-bound.ts:3-20 | binary search returns the first index whose element the comparator puts after the value |
| `PriorityQueues.PriorityQueue.Enqueue` | src/p-queue/priority-queue.ts:12-35 | fast path and search both insert behind all elements of the same or a higher priority, default priority zero |
| `PriorityQueues.PriorityQueue.Dequeue` | src/p-queue/priority-queue.ts:37-40 | removes and returns the head, nothing when empty |
| `PriorityQueues.HeadIsMostUrgent` | src/p-queue/priority-queue.ts:12-40 | head and rest are the earliest arrival of the highest priority and the queue of the others |
| `PriorityQueues.ServesMostUrgentFirst` | src/p-queue/priority-queue.ts:12-40 | over any operations the array answers as a list in order of arrival that serves the earliest most urgent element |
| `SchedulingLaws.NeverDeadlocks` | src/p-queue/index.ts:142-199 | in every state between events of every history, an unpaused queue with waiting tasks has a running task or an armed timer |
| `SchedulingLaws.LimitsHold` | src/p-queue/index.ts:88-199 | in every such state the interval count is within the cap, with carry-over the running tasks are within the count, and each added task is in exactly one of queued, running, settled and cleared |
| `SchedulingLaws.StartsAreAllowed` | src/p-queue/index.ts:88-169 | over every history each task that left the queue began unpaused, below the concurrency limit in force at that moment and with the interval count below the cap, nested starts included, and the list of starts names exactly the tasks that ran, each once |
| `SchedulingLaws.ConcurrencyHolds` | src/p-queue/index.ts:92-99 | in a history that never sets the limit above `most` at most `most` tasks run at any time and each begins while fewer run |
| `SchedulingLaws.EventStartsAllowed` | src/p-queue/index.ts:142-199 | each event adds only starts allowed under the limit it leaves in force |
| `SchedulingLaws.EventSound` | src/p-queue/index.ts:88-199 | every event keeps the interval count within the cap, keeps the liveness, and the number of running tasks rises at most to the concurrency limit |
| `SchedulingLaws.EventAccounted` | src/p-queue/index.ts:224-247 | every event keeps each known task in exactly one place |
| `SchedulingLaws.EventStartsFromFront` | src/p-queue/index.ts:101-169 | tasks leave at the front of the queue only, and the idle event means that nothing is queued or running |
| `SchedulingLaws.EventKeepsOrder` | src/p-queue/index.ts:246-247 | every event keeps the queue in descending order of priority |
| `SchedulingLaws.NothingStartsWhilePaused` | src/p-queue/index.ts:157-168 | an event that leaves a paused queue paused starts nothing |
| `SchedulingControls.PausedIff` | src/p-queue/index.ts:266-281 | after any history the queue is paused if and only if the last of the calls to pause and to start was a pause, or there was none and it began paused |
| `SchedulingControls.NothingBeginsPaused` | src/p-queue/index.ts:157-168 | from a pause to the next call to start no task begins, whatever else happens |
| `SchedulingControls.ConcurrencyInForce` | src/p-queue/index.ts:205-214 | after any history the concurrency in force is the one set last |
| `SchedulingControls.ClearedNeverBegins` | src/p-queue/index.ts:286-288 | clearing empties the queue, and what waited in it never begins afterwards |
| `SchedulingControls.EverythingIsStarted` | src/p-queue/index.ts:183-199 | resuming, a new concurrency and both timers start tasks until the queue is empty, all slots are taken or the interval count is used up |
| `SchedulingControls.HeadIsStarted` | src/p-queue/index.ts:142-169 | when a task is added or ends and the head of the queue may begin, it does |
| `SchedulingControls.IdleIff` | src/p-queue/index.ts:101-110 | the idle event is emitted exactly by the attempts that leave nothing waiting and nothing running |
| `SchedulingOrder.EventStartsPrefix` | src/p-queue/index.ts:142-199 | the tasks that an event starts are exactly those that it takes from the front of the queue, in their order |
| `SchedulingOrder.NoOvertaking` | src/p-queue/index.ts:142-249 | over every history, before a task begins every task added earlier with the same or a higher priority has begun or been cleared |
| `SchedulingDrains.EveryQueueDrains` | src/p-queue/index.ts:88-199 | after every history that leaves the queue unpaused, ends of tasks and due timers alone can lead to a state where nothing waits or runs |
| `RateLimit.AtMostCapBetweenResets` | src/p-queue/options.ts:28-36 | over every history at most `intervalCap` tasks begin between two resets of the interval count and since the last, and these are all that began |
| `RateLimit.EarlyResetIff` | src/p-queue/index.ts:118-191 | two resets in a row are less than `interval` apart if and only if the first came inside the interval that the second ends, by a tick, a late timeout, a task that threw at once or an attempt that started nothing, and the second comes before its window is over |
| `RateLimit.AttemptResetsEarlyIff` | src/p-queue/index.ts:118-140 | after every history the check before a start resets the count too early if and only if no timer is set, the interval begun last is over and the last reset is less than `interval` ago; and what that reset was |
| `RateLimit.RateWithoutEarlyResets` | src/p-queue/options.ts:28-45 | where no reset is early, `n` resets take at least `n - 1` intervals and no more than `n + 1` times the cap have begun |
| `RateLimitExamples.TickThenAdd` | src/p-queue/index.ts:142-191 | a cap of 1 in 10 ms, and three tasks that begin at 1000, 1010 and 1011 with a punctual tick |
| `RateLimitExamples.TasksThatThrowAtOnce` | src/p-queue/index.ts:157-199 | the same cap, and two tasks that begin at the same moment |
| `RateLimitExamples.LateTimeout` | src/p-queue/index.ts:112-140 | the same cap, and tasks that begin at 1000, 1011 and, with a timeout that is 2 ms late, at 1012 |
| `PQueues.PQueue.Create` | src/p-queue/index.ts:46-86 | refuses limits below 1 and starts empty, paused if asked |
| `PQueues.PQueue.Next` | src/p-queue/index.ts:96-99 | the end of a task does what `Scheduling.Settle` says to the whole state |
| `PQueues.PQueue.CheckInterval` | src/p-queue/index.ts:118-140 | the interval check resets the count, arms the timeout or leaves things alone as specified |
| `PQueues.PQueue.InitializeIntervalIfNeeded` | src/p-queue/index.ts:171-181 | sets the interval timer and its end unless it is ignored or set |
| `PQueues.PQueue.TryToStartAnother` | src/p-queue/index.ts:142-169 | one attempt does what `Scheduling.TryStart` says, also when the task settles while it is started |
| `PQueues.PQueue.ProcessPending` | src/p-queue/index.ts:196-199 | the loop does what `Scheduling.ProcessQueue` says |
| `PQueues.PQueue.IntervalCallback` | src/p-queue/index.ts:183-191 | the interval timer does what the specification says |
| `PQueues.PQueue.TimeoutCallback` | src/p-queue/index.ts:112-116 | the resume timer does what the specification says |
| `PQueues.PQueue.Enlist` | src/p-queue/index.ts:219-249 | adding a task is the event `Add` of the specification |
| `PQueues.PQueue.SetConcurrencyLimit` | src/p-queue/index.ts:205-214 | refuses limits below 1 without a change and is the event `SetConcurrency` otherwise |
| `PQueues.PQueue.Start` | src/p-queue/index.ts:266-274 | resuming is the event `Resume` |
| `PQueues.PQueue.Halt` | src/p-queue/index.ts:279-281 | pausing is the event `Pause` |
| `PQueues.PQueue.ClearQueue` | src/p-queue/index.ts:286-288 | clearing is the event `Clear` |
| `LruCaches.LRUCache.Get` | src/utils/lru.ts:43-57 | finds the entry of either generation, moves one of the old generation into the new, and counts the hit or miss |
| `LruCaches.LRUCache.Has` | src/utils/lru.ts:33-41 | answers whether a lookup would find the key and counts it |
| `LruCaches.LRUCache.Set` | src/utils/lru.ts:59-65 | the whole new state of setting a key |
| `LruCaches.LRUCache.Unset` | src/utils/lru.ts:67-73 | the key is gone from both generations and the counter follows |
| `LruCaches.LRUCache.PutEntry` | src/utils/lru.ts:75-83 | insertion and rotation when full |
| `LruCaches.AlwaysBounded` | src/utils/lru.ts:43-83 | after any operations the counter is exact and both generations are within the capacity |
| `LruCaches.NeverStale` | src/utils/lru.ts:43-83 | over any history a lookup finds nothing or the value most recently set since the last unset |
| `LruCaches.Retention` | src/utils/lru.ts:43-83 | a key just set or found stays retrievable while fewer than `maxSize` other keys are looked up or set and it is not unset |
| `LruCaches.RetentionIsTight` | src/utils/lru.ts:75-83 | for every capacity some history evicts a key just set by touching as many other keys as the capacity |
| `RpcBatch.CreatePayloads` | src/eth/client.ts:19-25 | one payload per request with consecutive fresh ids, and the map from these ids to the requests |
| `RpcBatch.HandleReplies` | src/eth/client.ts:27-41 | the loops over responses and over what is left; a `null` throws after the callbacks before it have run |
| `RpcBatch.ReportMissing` | src/eth/client.ts:36-41 | every request left in the map gets the missing-result error once |
| `RpcBatch.FailAll` | src/eth/client.ts:42-44 | every callback of the batch gets the error once more |
| `RpcBatch.ExecuteBatchRequest` | src/eth/client.ts:16-45 | whatever the transport answers, each callback gets the first response with its own id, the missing-result error or the transport error, and nothing else |
| `RpcBatch.FirstForIff` | src/eth/client.ts:27-35 | a request counts as answered if and only if some response carries its numeric id, and by the first such response |
| `RpcBatch.CalledExactlyOnceIff` | src/eth/client.ts:16-45 | every callback runs exactly once, for missing, repeated, reordered and unknown ids and transport failures, if and only if no `null` follows a delivered response |
| `RpcBatch.SeesOwnResponse` | src/eth/client.ts:27-35 | a response is only ever delivered to the request whose id it carries |
| `RpcBatch.BatchedEthereumClient.Request` | src/eth/client.ts:115-133 | queues the request, and sends or arms the timer as specified |
| `RpcBatch.BatchedEthereumClient.ScheduleFlush` | src/eth/client.ts:149-157 | sends when the batch is full and arms the timer otherwise |
| `RpcBatch.BatchedEthereumClient.ProcessQueue` | src/eth/client.ts:136-147 | disarms the timer and sends the queue as one batch, nothing when empty |
| `RpcBatch.QueueInvariant` | src/eth/client.ts:110-157 | after any history no request is lost, repeated or reordered, the timer is armed if and only if something waits, and no batch is empty or over the limit |
| `RpcBatch.ShortOnlyByTimer` | src/eth/client.ts:149-157 | requests are held back: a batch goes out before it is full only when the timer goes off |
| `RpcBatch.FullWithoutTimer` | src/eth/client.ts:149-157 | without the timer all batches have exactly the maximal size, and fewer requests than that wait |
| `RpcBatch.TimerSendsEverything` | src/eth/client.ts:136-147 | when the timer goes off, everything submitted so far has been sent |
| `RpcBatch.InSomeBatch` | src/eth/client.ts:144-146 | each request sent is at some position of some batch |
| `RpcBatch.InOneBatchOnly` | src/eth/client.ts:144-146 | and at no other |
| `RpcBatch.BatchHoldsItsShare` | src/eth/client.ts:144-146 | what stands there is that request |
| `RpcBatch.SeenInHistory` | src/eth/client.ts:16-45 | in the log of all callback calls for all batches each callback sees what its own batch gives it and nothing else |
| `RpcBatch.DeliveredExactlyOnceIff` | src/eth/client.ts:16-157 | over every history that ends with the timer, and for any answers, the callback of every request ever submitted runs exactly once if and only if no answer holds a `null` after a delivered response |
| `HttpTransport.SendBatchIff` | src/eth/http.ts:83-90 | `sendBatch` returns the elements of an array, each as it came, if and only if everything in it at any depth is a message of version 2.0 with a number or text as id |
| `HttpTransport.NoNullOverHttp` | src/eth/jsonrpc.ts:53-71 | whatever the server answers, what the HTTP transport returns is never cut short by a `null`, nested arrays included |
| `HttpTransport.NullIsRefused` | src/eth/http.ts:83-90 | an array with a `null` makes the transport fail |
| `HttpTransport.DeliveredExactlyOnceOverHttp` | src/eth/http.ts:83-150 | over HTTP the callback of every request ever submitted runs exactly once, for any history that ends with the timer and any answers |
| `RpcBatch.NullCallsTwice` | src/eth/client.ts:27-44 | a response followed by `null` makes its callback run with the response and then with an error |

## Left out

- Non-ASCII signatures: names are ASCII letters, digits and underscores. The Rust code mixes character counts and byte offsets.
- Parenthesis depth beyond 31 bits, which would overflow in `tokenize`.
- The trap of `read` on names such as `]` or `5]` is modelled as the error `SliceOutOfRange`, not as an abort of the WebAssembly instance.
- The contents of decoded calls beyond values and definition: parameter names, `args`, struct reconciliation, event log decoding and output types. They only add field mapping.
- `ethabi::decode`, keccak, gzip, JSON text, HTTP, MongoDB and Splunk HEC: foreign code or I/O; parameters or arbitrary steps where the model needs them.
- Saving checkpoints to disk on a schedule: the save callback is passed unbound, so only the checkpoints in memory and the object written and read are modelled.
- Numbers of JavaScript beyond 2^53 and their exponent notation: block numbers, counters and ids are unbounded integers.
- White space other than ASCII in `parseInt`.
- BlockRanges.CompactRanges: for ranges with `from > to` only the computed list is specified, because no caller makes them; the coverage laws ask for valid ranges.
- BlockRanges.ChunkedBlockRanges: does not model `maxChunkSize` 0, with which the loop of the source does not end.
- Block formatting, contract lookups and log decoding in the watcher: the messages of a transaction are its own message followed by those of its events; a failing `output.write` is not modelled.
- Determining the initial block when the checkpoint is empty: the watcher starts from a given one.
- The waiting times between attempts and polls; only that something may happen in between.
- `BalanceWatcher` and `NFTWatcher`: near copies of the block watcher.
- Task timeouts, the resolution of `onEmpty` and `onIdle` promises, and calls into the promise queue from its own tasks and listeners.
- Fractional or `NaN` limits and priorities in the promise queue.
- PQueues.PQueue.Enlist: the promise returned by `add` is not modelled; what became of the task is recorded in the sets of running and settled tasks.
- Names differ from the source where Dafny reserves them or they collide: `Enlist` is `add`, `Halt` is `pause`, `ClearQueue` is `clear`, `ProcessPending` is `_processQueue`, `IntervalCallback` is `_onInterval`, `TimeoutCallback` is `_onResumeInterval`, `LRUCache.previous` is `old`.
- Null values in the LRU cache, which `get` would treat as absent.
- Requests with `immediate` and the turning of a response into a resolved or rejected promise; they add no state.
- The result values of `parallel`: only when its tasks start and end, and in `Watcher` whether one of them failed.
- RpcBatch.ExecuteBatchRequest: the order of calls of different callbacks is not specified, only what each callback gets.
