# K2HFTFUSE in Dafny

A model of the write path of k2hftfuse and k2hftfusesvr, from the bytes that client processes write to a
mounted file up to the bytes the receiving server stacks for its output file, with the two small
compilers the path uses (replacement strings of rules, FORMAT strings of the server), the rule
table that is shown as a file tree, and the ownership of plugin processes.

One module per file; `dafny verify dfyconfig.toml` checks everything.

| Module | Models |
|---|---|
| `Bytes` | byte strings, C strings, `realloc` and `memcpy` |
| `Splitter`, `Rechunk` | the text and the binary cutter as functions, and what chunking does to them |
| `BinBuff`, `PushSpec`, `WriteBuff` | `K2hFtBinBuff` and `K2hFtWriteBuff`, as classes over growing arrays, and the function each push refines |
| `ReplaceParse`, `ReplaceExpand`, `Rules` | replacement strings, their expansion, allow/deny rules |
| `Wire`, `Server` | the packed value and the server's pointer walk over it |
| `History`, `EndToEnd`, `FormatOutput`, `RuleHistory`, `Pipeline` | all histories of pushes on one file handle, up to the server's bytes, on values and through the classes; with a FORMAT string, and with rules that filter and rewrite |
| `Manager`, `ManagerProofs`, `ManagerDelivery`, `ManagerRuns`, `ManagerRound`, `ManagerOrder`, `ManagerExample`, `ManagerFinish`, `EndToEndRuns` | `K2hFtManage` as a state machine with one step per lock-held region, and all its runs |
| `Paths`, `FormParts`, `FormWriter`, `TimeParts` | path helpers, FORMAT and time-format part lists |
| `Tree`, `FileTable`, `FtInfo` | the rule table, its order-free meaning, `FindPath`, `GetFileHandle`, `ReadDir`, `CreateFile` |
| `Plugins` | `K2hFtPluginMan`: the running map and the stopped list |

How it is built. Where the program changes state step by step, so does the model: the byte buffers, the
write buffer, the replacement parser over its one array, the result buffer of a replacement, the
server's growing output, the rule table and the plugin manager are methods with loops over mutable
state. Each method is proved equal to a function of its inputs or of its old state (`Cut`, `Pieces`,
`Parse`, `Expand`, `EncodeValue`, `FlushAll`, `RunAll`, ...); what the program promises is then proved of
these functions. The manager's threads interleave, so it is a transition system on values, in which a
push uses the same functions as the class `WriteBuff`.

What a method and the function it refines have in common (the limit check, the escape letters, the bytes
of a group, the fields of a status or a record) is stated once more without either: by conditions, by
literal values, by index, or with a table of its own (`ManagerRound`, `FormWriter`,
`ReplaceExpand.GroupMeaning`, `Rules.HitsIff`, `Wire.LineLayout`, `FileTable.FoundFields`, ...).

A byte is a `char`; no theorem depends on an upper bound on it, except the little-endian integers of
`Wire`, which write only values below 256. Sizes are mathematical integers.

## Where the program does not do what it says

Each is kept as it is in the program and proved, with the exact condition where there is one.

- A chunk boundary inside `\r\n` adds one line that holds just `\n`; everywhere else the chunking does
  not matter (`Splitter.PushTwice`, `Splitter.SameSplitIffSameStream`, `Splitter.SplitBreak`).
- The server says it continues after a line it cannot convert, but its `continue` does not go to the
  next line, so the rest of the value is lost; every line's output arrives iff nothing with output
  follows such a line (`Server.AllOutputIff`); FORMAT `%l` and a blank line do it
  (`FormatOutput.OutputCanBeLost`).
- When the first two texts of a value are both empty, the server resizes a block it holds to nothing,
  which gives the block back, and goes on with it: the output is defined iff that does not happen
  (`Server.Processing`). Two NULs from a client do it (`EndToEnd.TwoNulsLoseOutput`), and so does FORMAT
  `\x00` (`FormatOutput.NulFormat`); clients that write no NULs never do, nor does binary mode
  (`Pipeline.PassThroughSession`, `EndToEndRuns.WritesReachServer`).
- Batches of one handle can reach `Processing` out of pop order, because both the time-up worker and
  the pushing threads process after they have given up the locks (`ManagerExample.OrderCanBreak`); the
  order is kept iff no batch is handed over while an older one is in flight (`ManagerOrder.InOrderIff`),
  and so in every run that pops a handle only while none of its batches is in flight
  (`ManagerOrder.PopsAloneInOrder`).
- `$` with several digits: each digit adds the value of the whole rest of the number, so any run of more
  than one digit is rejected unless it is all zeros (`ReplaceParse.GroupNumberRange`,
  `ReplaceParse.TwoDigitsRejected`).
- The trim before a replaced line's ending looks at the line, not at the result: a result as long
  as its line loses its last byte, a shorter one is whole (`ReplaceExpand.ReplacedLine`,
  `ReplaceExpand.ReplacementLosesByte`), and a longer one depends on the memory behind the line
  (`ReplaceExpand.DefinedIff`).
- The server's dump prints nothing for trimmed contents, and text with `%` or a backslash unescaped:
  what it prints is a FORMAT for the same list iff there is neither (`FormParts.DumpRoundTripIff`,
  `FormParts.TrimmedIsLost`).
- The time format is cut at every `%-`, also where the `%` is the second one of `%%`
  (`TimeParts.PercentBeforeKeyword`); the cut is the one that reads `%%` as a whole iff there is no such
  place (`TimeParts.CutIsTokensIff`).
- `CreateFile` keeps the rule lock when it returns early because the path has no directory part, and
  leaves a deleted rule in the table when the parent has a plugin whose copy does not run
  (`FtInfo.FtInfo.CreateFile`, `FtInfo.LockStaysTaken`).
- A path that ends in `/` becomes a key of its own, and the path without it a directory; all other paths
  stay as they are iff that one was there before (`FtInfo.CreateKeepsOthersIff`,
  `FtInfo.SlashMakesDirectory`). A file whose path is one `/` and its name is not listed
  in its parent, the rule with the key `/` (`FtInfo.CreateShowsInParent`).
- A plugin that does not start counts as two exits when `fork` fails and as one when its output file
  cannot be made (`Plugins.FailedStartCounts`). A restart from `Write` that succeeds always breaks
  ownership (`Plugins.RestartOwnedIff`): a stopped plugin is then on both collections, and the next run of
  the stopped list starts a second process for it (`Plugins.RestartRunsTwice`); a plugin still running is
  in the running map twice.

## Model

| member | source | states |
|---|---|---|
| EndToEndRuns.WritesReachProcessing | src/k2hftman.cc:98-136 | the client side: over every complete interleaved run that pops a handle only while none of its batches is in flight, Processing gets all its lines in stacking order, and for each process exactly the bytes it wrote, in order; in text mode without NULs and without each `\n` right after a `\r` of the same chunk |
| EndToEndRuns.SoloWritesReachProcessing | src/k2hftman.cc:457-587 | the same for every complete run without a worker in which one thread at a time is inside a write or close of the handle |
| EndToEndRuns.WritesReachServer | src/k2hftfusesvr.cc:332-401 | from the clients of such a concurrent run to the file: it is defined iff no batch popped begins with two text-mode lines that are just a NUL, and then holds the bytes of all lines in stacking order; it is defined whenever no write holds a NUL, and in binary mode always; with one writer the file is exactly its bytes |
| EndToEndRuns.ValuesExist | src/k2hftwbuf.cc:414-439 | every complete run has values to send: no popped line is empty |
| EndToEndRuns.NoEmptyBatchStart | src/k2hftwbuf.cc:166-236 | if no write of the run holds a NUL, and in binary mode always, no batch begins with two lines that are just a NUL |
| EndToEndRuns.AllItsOwn | src/k2hftwbuf.cc:347-382 | if only one process writes to a handle and closes it, all its lines are that process's |
| EndToEndRuns.EveryRunConserves | src/k2hftman.cc:457-587 | over every complete interleaved run, in pop order or not, in text or binary mode, the popped lines of a process carry exactly its written bytes, in order |
| EndToEndRuns.SeenAfter | src/k2hftwbuf.cc:347-382 | forced pushes of close and shutdown bring no bytes: what a buffer has seen of a process is what the run wrote |
| EndToEndRuns.AllBatches | src/k2hftman.cc:565-587 | a complete run in pop order has delivered the batches 0, 1, 2, ... up to the last one popped |
| EndToEnd.ClientToServer | src/k2hftfusesvr.cc:332-401 | on values, for every history of pushes and the final flush, however the stack was cut into batches: a process's lines carry its bytes, the file is the bytes of all lines in stack order, and it is defined whenever no chunk holds a NUL, and in binary mode always |
| EndToEnd.StackedBytes | src/k2hftwbuf.cc:347-382 | after the flush a process's lines on the stack carry all its bytes |
| EndToEnd.StackNoLoneNul | src/k2hftwbuf.cc:166-236 | processes that write no NULs stack no line that is just a NUL |
| EndToEnd.TwoNulsLoseOutput | src/k2hftfusesvr.cc:389-398 | two NULs pushed by one process make a value whose output is not defined |
| Pipeline.Session | src/k2hftwbuf.cc:347-439 | through the program's own buffers, packed values and pointer walk: any series of pushes and pops on a new write buffer, then the flush and a last pop, serves exactly the batches of these acts, and the output is the server's for them |
| Pipeline.PassThroughSession | src/k2hftfusesvr.cc:307-410 | the end-to-end promise of such a session, told of the acts alone: the file is defined iff no batch of the acts begins with two text-mode lines that are just a NUL, and then holds the bytes of all lines of the history; it is defined whenever no write holds a NUL, and in binary mode always; with one writer the file is its bytes |
| Pipeline.ServedIsHistory | src/k2hftwbuf.cc:414-439 | the batches of any acts together are the stack of the history |
| Pipeline.PushEvent | src/k2hftwbuf.h:107-109 | a push, a forced push and the flush of all do to buffers and stack what the history says |
| Pipeline.PopAndProcess | src/k2hftman.cc:572-584 | popping and processing puts out the stack's lines and leaves the stack empty |
| EndToEnd.OutputOfBatches | src/k2hftfusesvr.cc:387-400 | without conversion the output for a series of values is the bytes of their lines in order, and it is defined iff no value begins with two text-mode lines that are just a NUL |
| FormatOutput.FormattedOutput | src/k2hftfusesvr.cc:362-398 | with a FORMAT string the file receives the string's direct meaning for each line in order, up to the first line for which it is empty; it is defined iff the string does not say just a NUL about each of the first two lines |
| FormatOutput.NulFormat | src/k2hftfusesvr.cc:389-398 | FORMAT `\x00` leaves the output of every value of two lines or more undefined |
| FormatOutput.OutputCanBeLost | src/k2hftfusesvr.cc:365-368 | a configuration and two lines for which output is lost: FORMAT `%l` and a blank line before another |
| FormatOutput.BlankLineLosesOutput | src/k2hftfusesvr.cc:365-368 | so with every environment that trims the blank line to nothing |
| RuleHistory.AllowAllHistory | src/k2hftinfo.cc:457-511 | under an allow-all rule the stacked lines of a process are its own lines in order, untouched, without those a pattern hits and those over the byte limit |
| RuleHistory.DenyAllHistory | src/k2hftinfo.cc:457-511 | under a deny-all rule the stacked lines of a process are, in order, its lines that some entry hits, by the first hit untouched or rewritten as its replacement string says with the line's own break byte, within the byte limit |
| RuleHistory.ConvertIsRewritten | src/k2hftinfo.cc:464-487 | wherever it is defined, the decision about a text-mode line is what the configured entries say |
| PushSpec.AcceptedWithin | src/k2hftwbuf.cc:317-326 | a byte limit of 0 stacks every converted line, any other those of at most as many bytes |
| PushSpec.FlushAscends | src/k2hftwbuf.cc:355-370 | the flush of all buffers stacks the processes by ascending pid |
| EndToEnd.AloneConserves | src/k2hftwbuf.cc:300-345 | with a pass-through rule the accepted lines of a process carry all its bytes |
| ManagerRuns.PoppedInOrder | src/k2hftwbuf.cc:414-439 | in every reachable state the popped batches, in pop order, and then the stack are all lines ever stacked, in order |
| ManagerRuns.ExactlyOnce | src/k2hftman.cc:565-587 | after shutdown a batch has reached Processing iff it was popped, and no batch twice |
| ManagerRuns.NothingLeft | src/k2hftman.cc:530-554 | after shutdown stack and input buffers are empty and each process's popped lines are its own chunks, cut and filtered |
| ManagerRuns.BacklogBound | src/k2hftwbuf.cc:384-409 | whenever no push or close is under way on a handle, its stack is within the line limit, whatever the worker does |
| ManagerRound.WorkerTakesIff | src/k2hftwbuf.cc:384-409 | the worker goes on to pop a handle iff its stack is over the line limit, or holds lines of which the oldest has timed out |
| ManagerRound.ThreadTakesIff | src/k2hftman.cc:565-573 | so does a thread after a push; after a close it pops without a check |
| ManagerRound.RoundTakes | src/k2hftman.cc:108-124 | over every run of a whole round of the worker, whatever the threads do meanwhile and as long as shutdown has not begun: every line stacked on an open handle before it woke has been popped, if the oldest line had timed out whenever it looked |
| ManagerRound.CloseTakes | src/k2hftman.cc:498-525 | once the thread of a close has gone home, every line that was on the stack while it was adding has been popped, its own forced lines among them |
| ManagerFinish.EveryRunCanFinish | src/k2hftman.cc:155-191 | after any run shutdown can be completed: no reachable state is stuck |
| ManagerFinish.CanFinish | src/k2hftman.cc:155-191 | the same from every state that satisfies the invariants |
| ManagerRuns.KeepInv | src/k2hftman.cc:457-587 | every step of every thread, the worker and shutdown keeps all invariants |
| ManagerRuns.RunInv | src/k2hftman.cc:98-136 | every reachable state satisfies all invariants |
| ManagerRuns.KeepPid | src/k2hftwbuf.cc:347-382 | every step keeps each process's buffer and its lines on the stack (with those still being added) what its own chunks give |
| ManagerRuns.CloseOk | src/k2hftman.cc:530-554 | closing a handle at shutdown gives each process its own forced push |
| ManagerExample.OrderCanBreak | src/k2hftman.cc:126-135 | a concrete run in which a process's second batch is processed before its first |
| ManagerOrder.InOrderIff | src/k2hftman.cc:126-135 | over any run Processing gets a handle's batches in pop order iff no batch is handed over while a thread or the worker still has an older one |
| ManagerOrder.PopsAloneInOrder | src/k2hftman.cc:565-587 | a run that pops a handle only while none of its batches is in flight keeps the order |
| ManagerOrder.SoloPopsAlone | src/k2hftman.cc:457-525 | without a worker and with one thread at a time inside a write or close of the handle, every run is of that kind |
| ManagerOrder.StepKeepsOrder | src/k2hftman.cc:579-584 | one step keeps the order iff it was kept and the step hands over no batch before an older one in flight |
| ManagerDelivery.KeepOneOwner | src/k2hftman.cc:108-135 | a popped batch has one owner at a time: a thread, the worker's map, or Processing |
| ManagerDelivery.KeepDeliveredOnce | src/k2hftman.cc:127-135 | no step hands a batch to Processing a second time |
| ManagerDelivery.KeepNoneLost | src/k2hftman.cc:114-121 | no step loses a popped batch |
| ManagerProofs.KeepWorker | src/k2hftman.cc:110-123 | the worker never overwrites a value it has popped and not yet processed |
| ManagerProofs.KeepPhase | src/k2hftman.cc:171-191 | shutdown joins the worker before it closes, and a closed handle is empty |
| ManagerProofs.KeepBacklog | src/k2hftman.cc:470-479 | over the limit there is always a thread that has yet to check it |
| Manager.KeepBalance | src/k2hftwbuf.cc:414-425 | every step keeps popped batches plus stack equal to all lines stacked |
| History.PerPidIsolation | src/k2hftwbuf.cc:347-382 | in every interleaved history the stack restricted to a process is the filter-map (rule, rewrite, byte limit) of the cutter run on that process's chunks alone, and its buffer is what that run leaves; a writing process never has the pid for "all" |
| History.FlushOfPid | src/k2hftwbuf.cc:351-371 | the flush of all buffers gives each process its own forced push, once |
| History.TextConservation | src/k2hftwbuf.cc:151-238 | in text mode one process's lines and residue carry exactly its surviving bytes, forced pushes included |
| History.BytesConservation | src/k2hftwbuf.cc:243-298 | in binary mode they carry exactly its bytes |
| History.RunPidAppend | src/k2hftwbuf.cc:347-382 | pushing in two runs is pushing in one |
| Splitter.PushTwice | src/k2hftwbuf.cc:151-214 | two pushes of non-empty chunks leave what one push of both leaves, unless the boundary splits a `\r\n`; then exactly one more line `\n\0` appears |
| Splitter.SplitBreak | src/k2hftwbuf.cc:170-176 | `a\r\nb` in one chunk, and cut after the `\r` |
| Splitter.SameSplitIffSameStream | src/k2hftwbuf.cc:151-238 | two series of pushes, forced ones among them, leave the same lines and residue iff they amount to the same bytes, a forced push counting as a NUL when something is buffered; without forced pushes, iff the same bytes survive |
| Splitter.ChunkingIndependence | src/k2hftwbuf.cc:151-238 | two series of pushes that split no `\r\n` and agree in the bytes between forced pushes agree; so do any two chunkings of a stream without forced pushes |
| Splitter.PushMerged | src/k2hftwbuf.cc:151-238 | gluing the chunks between two forced pushes changes nothing |
| Splitter.PushAllIsPlain | src/k2hftwbuf.cc:151-238 | the look-ahead cutter with forced pushes is a cutter of single bytes run on what the pushes amount to |
| Splitter.CutIsPlain | src/k2hftwbuf.cc:166-206 | the same for one chunk |
| Splitter.SourceOfCutPlain | src/k2hftwbuf.cc:166-214 | lines and residue determine the surviving bytes: nothing lost, added or reordered |
| Splitter.PushAllConserves | src/k2hftwbuf.cc:151-238 | lines without their final NULs, then the residue, carry the surviving bytes without NULs, for any pushes, forced ones among them |
| Splitter.NoLoneNul | src/k2hftwbuf.cc:166-236 | pushes without NULs never stack a line that is just a NUL |
| Splitter.CutShape | src/k2hftwbuf.cc:181-206 | every stacked line ends in its only NUL with a break byte at most just before it, and the residue has no break byte |
| Splitter.PayloadAfterForce | src/k2hftwbuf.cc:216-236 | after any pushes and a last forced one the receiver's bytes are the surviving bytes without NULs |
| Splitter.CutAtFirst | src/k2hftwbuf.cc:181-205 | the first break byte ends one line; cutting goes on after it, or after the `\n` that follows it |
| Splitter.CutNoEol | src/k2hftwbuf.cc:208-214 | without a break byte the chunk joins the buffer |
| Splitter.EndsAtEol | src/k2hftwbuf.cc:181-205 | a chunk that ends in a break byte leaves an empty buffer |
| Splitter.EolWidth | src/k2hftwbuf.cc:168-179 | a break is one byte, or two for a `\r\n` in one chunk |
| Rechunk.PiecesUnique | src/k2hftwbuf.cc:252-280 | the pieces are the only split into pieces of exactly the limit and a shorter rest |
| Rechunk.PiecesAppend | src/k2hftwbuf.cc:252-280 | pushing in two parts or at once cuts the same pieces |
| Rechunk.BinaryChunkingIndependence | src/k2hftwbuf.cc:243-298 | two series of pushes that agree in the bytes between forced pushes agree; any chunking without forced pushes gives the pieces and the residue of the whole stream |
| Rechunk.BinaryConservation | src/k2hftwbuf.cc:243-298 | pieces and residue concatenate to the stream; the residue is shorter than the limit, no piece is longer, and at most as many are shorter as there were forced pushes |
| Rechunk.Pieces | src/k2hftwbuf.cc:252-280 | the residue is shorter than the limit |
| BinBuff.BinBuff.constructor | src/k2hftwbuf.cc:41-43 | a new buffer is empty, with no block |
| BinBuff.BinBuff.Reserve | src/k2hftwbuf.cc:58-69 | one growth by max(8192, length + 1) makes room for the data and a NUL and keeps the contents |
| BinBuff.BinBuff.AppendStringBuff | src/k2hftwbuf.cc:56-80 | the contents are the old contents, the data, and one NUL if asked for and not there |
| BinBuff.BinBuff.TakeoutBuff | src/k2hftwbuf.cc:82-96 | hands over the block with exactly the contents and leaves an empty buffer |
| BinBuff.BinBuff.IsEmpty | src/k2hftwbuf.h:45 | true iff there are no contents |
| BinBuff.BinBuff.Size | src/k2hftwbuf.h:46 | the number of bytes held |
| WriteBuff.WriteBuff.constructor | src/k2hftwbuf.cc:113-116 | a new write buffer has no process buffers and an empty stack |
| WriteBuff.WriteBuff.Push | src/k2hftwbuf.cc:347-382 | one process: its buffer becomes the cut's rest and its accepted lines go on the stack, no other buffer changes; the pid for "all": every buffer is pushed by ascending pid and removed |
| WriteBuff.WriteBuff.PushEvery | src/k2hftwbuf.cc:351-371 | the erase-while-iterating loop pushes each buffer exactly once |
| WriteBuff.WriteBuff.PushPid | src/k2hftwbuf.cc:373-380 | the push of one process |
| WriteBuff.WriteBuff.GetBinBuff | src/k2hftwbuf.cc:133-146 | the process's own buffer, or a new empty one |
| WriteBuff.WriteBuff.StringPush | src/k2hftwbuf.cc:151-238 | residue and stacked lines are those of the text cutter; empty data forces the buffer out |
| WriteBuff.WriteBuff.CutLines | src/k2hftwbuf.cc:166-206 | the loop stacks exactly the cutter's lines and leaves the start of the unfinished end |
| WriteBuff.WriteBuff.BinaryPush | src/k2hftwbuf.cc:243-298 | residue and stacked lines are those of the binary cutter; the loop ends |
| WriteBuff.WriteBuff.StackPush | src/k2hftwbuf.cc:300-345 | one non-empty piece adds its converted text as one line of this process, unless the rule drops it, it is empty, or the byte limit is not 0 and the text is longer; else nothing changes |
| WriteBuff.WriteBuff.Pop | src/k2hftwbuf.cc:414-439 | the whole stack leaves as one packed value and the stack is empty; none for an empty stack |
| WriteBuff.NextBreak | src/k2hftwbuf.cc:181-205 | the step of the cutting loop at a break byte |
| WriteBuff.PieceStep | src/k2hftwbuf.cc:253-279 | the step of the re-chunking loop |
| Wire.ValueRoundTrip | src/k2hftstructure.h:149-187 | both header fields read back, and `linecount` steps return all lines in order, stay in bounds and end at header plus `bodylength` |
| Wire.WalkEncoded | src/k2hftstructure.h:303-316 | the walk from anywhere a series of lines lies gives these lines and ends at the end of the block |
| Wire.ParseEncoded | src/k2hftstructure.h:318-344 | parsing an encoded line gives back data, length, pid, times and host field; the next line starts right after it |
| Wire.NextStays | src/k2hftstructure.h:303-344 | each step of the walk stays inside the block |
| Wire.LeRoundTrip | src/k2hftstructure.h:37-63 | an integer that fits its field reads back |
| Wire.BuildLine | src/k2hftstructure.h:241-272 | no line iff there is no data; from the bytes of the built line the receiver reads back exactly the data, pid, host name and time |
| Wire.TotalLength | src/k2hftstructure.h:156-161 | the first pass sums up exactly the encoded length |
| Wire.CopyLines | src/k2hftstructure.h:177-184 | the second pass fills the block exactly to its end with the encoded lines |
| Wire.BuildValue | src/k2hftstructure.h:149-187 | the block holds exactly the encoded value; none for no lines |
| Wire.LineLayout | src/k2hftstructure.h:37-47 | the packed line: length, seconds, nanoseconds, pid and host name at bytes 0, 8, 16, 24 and 28, the data from byte 100 |
| Wire.ValueLayout | src/k2hftstructure.h:59-63 | the packed value: body length and line count in 16 bytes, then the lines |
| Wire.LePlaces | src/k2hftstructure.h:37-63 | byte k of an integer field is its digit k to the base 256 |
| Wire.SignedFields | src/k2hftstructure.h:38-40 | a negative number is stored as its two's complement |
| Server.Processing | src/k2hftfusesvr.cc:307-410 | the loop over an encoded value outputs the stacked texts of its lines, every access in bounds, unless the first two texts are both empty: then a held block is resized to nothing and the result is undefined |
| Server.WalkLines | src/k2hftfusesvr.cc:332-401 | the same for the line loop and its growing output |
| Server.AllOutputIff | src/k2hftfusesvr.cc:342-368 | every line's output arrives iff nothing with output follows a line that takes a `continue` |
| Server.LineText | src/k2hftfusesvr.cc:362-396 | conversion, then the final NUL cut off in text mode |
| Server.GetLines | src/k2hftstructure.h:219-236 | on a built value the lines lie at the first address, as many as counted, and there is no address iff there are no lines |
| Server.PassThroughOutput | src/k2hftfusesvr.cc:387-400 | without conversion the file receives each line's bytes in order, in text mode without its final NUL |
| Server.PassThroughAllocates | src/k2hftfusesvr.cc:389-398 | without conversion the output is defined iff the value does not begin with two text-mode lines that are just a NUL |
| ReplaceParse.BuildReplaceList | src/k2hftinfo.cc:113-279 | the in-place parser gives exactly the list of the pure parse, or both reject |
| ReplaceParse.ParseInPlace | src/k2hftinfo.cc:131-272 | over one array the write cursor stays behind the read cursor, so no unread byte is overwritten |
| ReplaceParse.ReadGroupNumber | src/k2hftinfo.cc:210-219 | the number loop reads the group number and stops at the last digit |
| ReplaceParse.TakeStatic | src/k2hftinfo.cc:182-191 | the text before the write cursor becomes an item; nothing behind the cursor changes |
| ReplaceParse.GroupNumberRange | src/k2hftinfo.cc:210-232 | a number is accepted iff it is one digit or only zeros |
| ReplaceParse.TwoDigitsRejected | src/k2hftinfo.cc:210-232 | `$12` is rejected |
| ReplaceParse.ParseIsCanonical | src/k2hftinfo.cc:121-272 | no empty static text, no two side by side, groups 0 to 9 only |
| ReplaceParse.QuoteRoundTrip | src/k2hftinfo.cc:121-272 | every canonical list is the parse of its quoted string |
| ReplaceParse.ParseEscaped | src/k2hftinfo.cc:135-151 | a backslash makes any byte static text |
| ReplaceParse.ParseGroup | src/k2hftinfo.cc:203-254 | `$n` ends the static text and adds group n |
| ReplaceExpand.ReplacedLine | src/k2hftinfo.cc:294-444 | for an accepted replacement the rewritten line is the string's direct meaning, the line's own break byte (else `\n`) and a NUL, iff the byte at the meaning's last offset from the line is not a NUL: always for a meaning shorter than the line, never for one just as long |
| ReplaceExpand.DefinedIff | src/k2hftinfo.cc:304-330 | the result does not depend on the memory around the line iff the expansion is not longer than the line and there is a byte before a final `\r` |
| ReplaceExpand.ReplacementLosesByte | src/k2hftinfo.cc:325 | an accepted replacement and a line whose result loses its last byte |
| ReplaceExpand.AcceptedReplacement | src/k2hftinfo.cc:393-444 | every accepted replacement string expands, for every in-range match, to its direct left-to-right meaning and never fails |
| ReplaceExpand.CompileThenExpand | src/k2hftinfo.cc:121-272 | the same at every point of the parse |
| ReplaceExpand.GroupMeaning | src/k2hftinfo.cc:371-385 | `$0` to `$9` are accepted and mean the bytes of the line from the group's start to its end, byte by byte, and nothing for a group without a match; `&` and the empty replacement mean those of the whole match |
| ReplaceExpand.TextMeaning | src/k2hftinfo.cc:134-262 | text without backslash, quote, `&` and `$` means itself, and so does any text with a backslash before each byte |
| ReplaceExpand.BuildReplaceResult | src/k2hftinfo.cc:393-444 | the growing-buffer loop writes exactly the expansion and its ending, whatever lies in memory around the line; None iff an item names a group or offset out of range |
| ReplaceExpand.Target.AppendSubstring | src/k2hftinfo.cc:358-388 | what is added is the bytes of the data from the offset `rm_so` to the offset `rm_eo`; nothing for an unmatched group, an error iff it ends past the data |
| ReplaceExpand.Target.AppendItem | src/k2hftinfo.cc:404-425 | one turn of the loop adds the item's expansion; an error iff the item names a group or offset out of range |
| ReplaceExpand.Target.AppendLastWord | src/k2hftinfo.cc:294-346 | cuts at the line's NULs before the offset, then appends ending and NUL |
| ReplaceExpand.FinishKeepsExpansion | src/k2hftinfo.cc:324-330 | the cut leaves the expansion whole iff the line has no NUL just before the same offset |
| ReplaceExpand.EndingOfStackLine | src/k2hftinfo.cc:300-322 | a text-mode line gets back the break byte it had |
| Rules.ConvertToOutput | src/k2hftinfo.cc:457-511 | the early-exit loops take the decision of the first pattern that hits |
| Rules.ConvertDefinedIff | src/k2hftinfo.cc:457-511 | the decision does not depend on the memory around the line iff no used expansion is longer than its line and the line's end can be read |
| Rules.ConvertShape | src/k2hftinfo.cc:457-511 | allow-all passes a line untouched iff no pattern hits; deny-all with canonical replacements drops iff none hits; a passed line is never empty |
| Rules.FirstHit | src/k2hftinfo.cc:466-505 | the first pattern in list order that hits |
| Rules.HitsIff | src/k2hftinfo.cc:464-509 | a word hits a line iff the line up to its first NUL is some text, the word, and some text; a regular expression iff matching gives spans |
| Rules.OneWord | src/k2hftinfo.cc:480-503 | a rule of one word: allow-all drops exactly the lines in which the word occurs, deny-all passes exactly these |
| Rules.OneRegex | src/k2hftinfo.cc:468-498 | a rule of one regular expression: allow-all drops exactly the lines it matches, deny-all drops exactly the others and rewrites |
| Rules.BuildMatchPattern | src/k2hftinfo.cc:49-282 | accepts exactly the entries that are a plain word, or a quoted regular expression that compiles with a replacement that parses, and gives that pattern; its replacement never names a group out of range |
| Rules.CanonicalFits | src/k2hftinfo.cc:404-425 | a parsed replacement never names a group out of range |
| FormParts.BuildFormPartList | src/k2hftsvrinfo.cc:162-310 | the cursor loop gives a canonical list that renders, in every environment, to the string's direct meaning |
| FormParts.CompileThenRender | src/k2hftsvrinfo.cc:162-356 | compiling then rendering equals one pass over the string (codes, escapes, hex, early stop) |
| FormWriter.WrittenText | src/k2hftsvrinfo.cc:254-300 | round trip: any text, each byte written as itself, by its escape letter from a table of its own, or as `\x` and two hex digits, compiles to exactly that text |
| FormWriter.CodeIsPart | src/k2hftsvrinfo.cc:172-253 | `%` and one of the ten code letters end the text and add the part of that code; any other byte after `%` is text |
| FormWriter.OctalEscape | src/k2hftsvrinfo.cc:288-299 | a backslash and a digit from 1 to 8 make the byte of that value; `\0` ends the format |
| FormWriter.OneHexDigit | src/k2hftsvrinfo.cc:131-160 | a single hex digit makes a byte |
| FormWriter.UnknownEscape | src/k2hftsvrinfo.cc:254-300 | a backslash and any other byte are dropped |
| FormWriter.CodeMeanings | src/k2hftsvrinfo.cc:312-356 | what each code puts out: contents, trimmed contents, time, path, pid, host name; nothing for what is absent |
| FormWriter.FileNameMeaning | src/k2hftsvrinfo.cc:330-337 | `%f` puts out the part of the path after its last `/` |
| FormParts.CompileIsCanonical | src/k2hftsvrinfo.cc:174-308 | no empty STRING part and no two side by side |
| FormParts.MakeFormOutput | src/k2hftsvrinfo.cc:312-356 | the loop concatenates what each part stands for; absent strings print nothing |
| FormParts.HexToChar | src/k2hftsvrinfo.cc:131-160 | one or two hex digits make a byte and the cursor ends on the last one used |
| FormParts.PercentTurn | src/k2hftsvrinfo.cc:172-253 | one turn at `%` |
| FormParts.BackslashTurn | src/k2hftsvrinfo.cc:254-300 | one turn at a backslash |
| FormParts.DumpRoundTripIff | src/k2hftsvrinfo.cc:1375-1392 | what the dump prints compiles to the same list iff there is no trimmed contents and no `%` or backslash in text |
| FormParts.TrimmedIsLost | src/k2hftsvrinfo.cc:1375-1392 | the list of FORMAT `%l` is printed as nothing and read back as the empty list |
| FormParts.CompileWeight | src/k2hftsvrinfo.cc:162-310 | escapes only shrink: the list is as long as the string iff every token is plain |
| TimeParts.BuildTimePartList | src/k2hftsvrinfo.cc:64-97 | the shrinking loop gives the cut of the unquoted format |
| TimeParts.JoinOfCut | src/k2hftsvrinfo.cc:1367-1374 | joining the parts as the dump does gives the format back |
| TimeParts.CutOfJoinIff | src/k2hftsvrinfo.cc:64-97 | cutting a join gives the list back iff the list is canonical |
| TimeParts.CutIsCanonical | src/k2hftsvrinfo.cc:71-95 | no empty or adjacent texts, none with the keyword inside |
| TimeParts.CutIsTokensIff | src/k2hftsvrinfo.cc:71-95 | the cut is the one that reads `%%` as one token iff no keyword starts at the second `%` of such a pair |
| TimeParts.PercentBeforeKeyword | src/k2hftsvrinfo.cc:73 | `%%-` is cut into `%` and the nanoseconds |
| Paths.QuotedContent | src/k2hftsvrinfo.cc:41-62 | unquoting undoes quoting, also for text that holds quotes |
| Paths.OtherContent | src/k2hftsvrinfo.cc:41-62 | an unquoted value is taken whole; a quoted one ends at its last quote, or at its end when there is none |
| Paths.GetParentDirpath | src/k2hftutil.cc:393-430 | truncating the copy in place gives the parent path, one final `/` ignored |
| Paths.SplitPath | src/k2hftutil.cc:393-453 | parent and file name split a path at its last `/`; there is a parent iff there is a `/` |
| Paths.SlashAtEnd | src/k2hftutil.cc:393-453 | one `/` at the end leaves the parent as it is and an empty file name |
| Tree.BaseIsChild | src/k2hftinfo.cc:2313-2347 | a key contributes a name to a listing as last component iff it is the child's key, as intermediate one iff it lies below the child |
| Tree.NodeUnique | src/k2hftinfo.cc:2201-2244 | a path means one thing: its own rule, a directory, or nothing |
| Tree.LessAt | src/k2hftinfo.cc:2313 | keys are in byte order: the first different byte decides, and a key comes before its extensions |
| FtInfo.FtInfo.FindPath | src/k2hftinfo.cc:2167-2245 | the first-hit scan over sorted keys gives the order-free answer; keys that share only a string prefix do not matter |
| FtInfo.FtInfo.GetFileHandle | src/k2hftinfo.cc:2247-2283 | the handle of the path's own rule, else 0 |
| FtInfo.FtInfo.ReadDir | src/k2hftinfo.cc:2285-2387 | the listing shows exactly the children, each once, as the lookup sees them |
| FileTable.ListingAgrees | src/k2hftinfo.cc:2285-2387 | a name is listed with a status, once, iff looking the child up gives that status |
| FileTable.FirstIsNode | src/k2hftinfo.cc:2333-2347 | in key order the first key that contributes a name decides as the lookup does |
| FileTable.OwnKeyFirst | src/k2hftinfo.cc:2201-2244 | a path's own key comes before all keys below it |
| FileTable.FoundFields | src/k2hftinfo.cc:2201-2244 | a path with a rule has that rule's mode, owner, group, size and times, two links iff it is a directory, and as many blocks of 512 bytes as its size needs |
| FileTable.DirectoryFields | src/k2hftinfo.cc:2201-2244 | a path only above keys has the default mode, owner and times |
| FileTable.IsDirIff | src/k2hftinfo.cc:2644 | a mode is a directory's iff its file type is 4 |
| FileTable.DuplicateMatchList | src/k2hftinfo.h:130-155 | a full copy iff every regular expression compiles, else a prefix |
| FileTable.DuplicateReplaceList | src/k2hftinfo.h:91-99 | a full copy |
| FtInfo.FtInfo.CreateFile | src/k2hftinfo.cc:2580-2714 | one key is added, with the parent's rule copied, iff the path is new and its parent is a directory rule; the lock is kept iff the path has no parent part; the table is left with a deleted rule iff the parent has a plugin and its copy does not run; all other outcomes leave the table alone |
| FtInfo.FtInfo.CreateLocked | src/k2hftinfo.cc:2602-2713 | the part under the lock |
| FtInfo.FtInfo.CreateUnder | src/k2hftinfo.cc:2637-2708 | the same once the parent is found |
| FtInfo.LockStaysTaken | src/k2hftinfo.cc:2619-2622 | creating `/file` leaves the lock taken |
| FtInfo.FtInfo.AddUnder | src/k2hftinfo.cc:2624-2676 | the table gets exactly the new entry, in order |
| FtInfo.CreateAddsOnePath | src/k2hftinfo.cc:2580-2714 | afterwards the new path is the new rule and every other path means what it meant |
| FtInfo.CreateFields | src/k2hftinfo.cc:2624-2664 | what the tree has at the new path: a regular file with the permission bits asked for, the given owner, group and time, nothing in it, and the parent's settings and output, with the file's name when that ends in `/` |
| FtInfo.CreateShowsInParent | src/k2hftinfo.cc:2285-2387 | the parent's listing then shows the file with the new rule's status, and the other names as before; only a file whose path is one `/` and its name is not shown |
| FtInfo.CreateKeepsDecision | src/k2hftinfo.cc:2650-2676 | what the tree then has at the new path lets through, drops and rewrites exactly the lines the parent's rule does, and is a file |
| FtInfo.CreateWithSlash | src/k2hftinfo.cc:2590-2676 | a path that ends in `/` makes a directory of the path without it, unless that is a rule itself |
| FtInfo.CreateKeepsOthersIff | src/k2hftinfo.cc:2580-2714 | creating a path leaves every other path as it is iff it does not end in `/` or the path without that `/` was there before |
| FtInfo.SlashMakesDirectory | src/k2hftinfo.cc:2590-2676 | creating `/dir/sub/` below the rule `dir` makes a directory that was not there |
| FtInfo.AncestorsExist | src/k2hftutil.cc:393-430 | all directories above a path with an existing parent exist, except the path itself without a final `/` |
| FtInfo.InsertSorted | src/k2hftinfo.cc:2674 | adding a key keeps the map's order |
| Plugins.AlwaysOwned | src/k2hftplugin.cc:160-210 | over every run each plugin is in exactly one collection, a running one under its own pid, and none that must not be executed runs |
| Plugins.NextOwned | src/k2hftplugin.cc:600-783 | every add, start, exit and restart of all stopped plugins keeps this |
| Plugins.RunAllOwned | src/k2hftplugin.cc:748-783 | so does the loop over the stopped list, when fork gives new pids |
| Plugins.KeptInOrder | src/k2hftplugin.cc:754-779 | what the erase-while-iterating loop leaves is the filter of the list, in order |
| Plugins.OwnTurnOnly | src/k2hftplugin.cc:754-779 | a plugin's record after the loop is what its one turn makes of it |
| Plugins.FailedStartCounts | src/k2hftplugin.cc:707-765 | over the whole loop a plugin that was tried and did not start stays on the list and its exit count rises by one, or by two when fork fails; all other counts stay |
| Plugins.LeftAlone | src/k2hftplugin.cc:754-779 | a plugin not to be executed, or stopped on purpose, keeps its record and its place in the loop |
| Plugins.StartedFields | src/k2hftplugin.cc:754-779 | any other whose fork succeeds leaves the list with its new pid, a clean status, the restart flag, and its exit count |
| Plugins.StartFields | src/k2hftplugin.cc:642-740 | a plugin started outside the loop is in the map under its new pid with such a record; the list stays |
| Plugins.NoStartFields | src/k2hftplugin.cc:642-740 | a new plugin that does not start leaves nothing behind; a restart that fails takes the pid unless the plugin was not tried, and adds an exit when fork fails |
| Plugins.ExitFields | src/k2hftplugin.cc:160-200 | an exited plugin has no pid, the child's status and one exit more, and is last on the list; no other record changes |
| Plugins.AddFields | src/k2hftplugin.cc:600-640 | an added plugin has no pid, status or exits and is last on the list |
| Plugins.RestartOwnedIff | src/k2hftplugin.cc:964-984 | Write's restart keeps ownership iff nothing starts and no running pid is wiped |
| Plugins.RestartRunsTwice | src/k2hftplugin.cc:754-775 | after a successful restart of a stopped plugin, the next run of the stopped list puts it into the running map under a second pid |
| Plugins.RunEachAdds | src/k2hftplugin.cc:759-775 | the loop takes nothing out of the running map and puts each plugin that starts under its new pid |
| Plugins.PluginMan.AddPluginInfo | src/k2hftplugin.cc:600-640 | a well-formed plugin goes on the stopped list without a pid; a bad one changes nothing |
| Plugins.PluginMan.RunPlugin | src/k2hftplugin.cc:642-718 | only the plugin's record changes, and how, for each outcome of the system calls |
| Plugins.PluginMan.RunAddPlugin | src/k2hftplugin.cc:720-740 | a new plugin that starts goes into the running map under its pid; one that does not is dropped |
| Plugins.PluginMan.RunTurn | src/k2hftplugin.cc:755-778 | one turn moves the plugin to the map or leaves it in place |
| Plugins.PluginMan.RunPlugins | src/k2hftplugin.cc:748-783 | the loop gives each stopped plugin one turn, in order; true iff all that were tried have started |
| Plugins.PluginMan.RestartForWrite | src/k2hftplugin.cc:970-984 | the restart changes the record and the map and never the stopped list |
| Plugins.PluginMan.CleanupChildExit | src/k2hftplugin.cc:160-210 | the exited plugin moves to the stopped list, then all stopped ones are restarted if asked for; an unknown pid changes nothing |
| Plugins.PluginMan.MoveToStopped | src/k2hftplugin.cc:178-196 | the exited plugin moves from the running map to the stopped list |

## Left out

- ReplaceExpand.BuildReplaceResult: bytes the program reads outside the line (src/k2hftinfo.cc:307, src/k2hftinfo.cc:325) are whatever the memory holds; that such a read may also fault is not modelled.
- WriteBuff.WriteBuff.BinaryPush: requires a positive `BinaryBuffLimit`, without which the loop at src/k2hftwbuf.cc:252 does not end.
- WriteBuff.WriteBuff.StringPush: the mode is fixed for a write buffer's life, as `IsBinMode` is once the configuration is loaded.
- FtInfo.FtInfo.CreateFile: the plugin's pipe file and start are one outcome given from outside; a rule's address is a fresh number; what lookups do on a table with a deleted rule is undefined and not modelled.
- FileTable.ListingAgrees: says nothing about names `.` and `..`; a key with such a component is hidden by the two fixed entries.
- FtInfo.CreateAddsOnePath: excludes a path that ends in `/`, for which `FtInfo.CreateWithSlash` says what happens.
- ReplaceParse.GroupNumberRange: the digits of a group number do not overflow an `int`.
- Rules.ConvertToOutput: `regexec` and `regcomp` are functions of pattern and text; matches are in range, which the program relies on.
- Server.PassThroughOutput: output-file mode without plugins only; writing to plugin pipes and transfer mode are not modelled.
- Server.Processing: where the first block has size 0, `realloc` is taken to return one, as glibc does; takes a value that `BuildK2hFtValue` built; keys and malformed values from elsewhere are not modelled.
- Plugins.PluginMan.RestartForWrite: begins after Write's `StopPlugin`; stopping, killing and forced stopping of plugins and the pipe write itself are not modelled.
- Plugins.PluginMan.RunPlugin: making the output file and the process are one outcome given from outside.
- FormParts.MakeFormOutput: the time text, the decimal pid and `trim` are parameters.
- The manager is a transition system on values: the pointers in `wbstackmap` are not modelled; finding or making the write buffer and cutting the chunk are one step, stacking each of its lines another. A process has one push at a time on a handle, and no FUSE call starts once shutdown has begun.
- The clock: times of lines are arbitrary, and whether the oldest line has timed out is arbitrary in each check.
- `K2hFtInfo::Processing` on the client side, and the transport through k2hash and chmpx, hand on the value unchanged.
- Failure of malloc and realloc, and overflow of `size_t`: results about packed values ask that the value's length fits.
- Locks are modelled as atomic steps in the manager and as a flag in `FtInfo`; in `Plugins` every operation is one step.
- Loading of YAML and INI configuration, option parsing, FUSE callbacks and signals.
- `TruncateZero`, `SetOwner`, `SetMode`, `SetTimespec`, `UpdateMTime`, `InitializeOutputFiles`: single-branch updates of one rule.
- `K2hFtFdCache`, inotify, named pipes, directory and group helpers: operating-system behaviour.
- `BuildK2hFtKey` and `ParseK2hFtKey`: one concatenation and its scan.
