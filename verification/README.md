# Verified models of Grok's decoding machinery

A Dafny model of the parts of Grok where correctness is not visible from one function: the
streaming wavelet engine, the pull ladder and the weft runtime of Mercury, and the stateful
and numerical code of the vendored libpng and zlib.  `dafny verify dfyconfig.toml` checks
everything.

- **Streaming synthesis** (`Lifting`, `Analysis`, `LineQueue`, `Progress`, `Queues`, `Spares`, `Synthesis`).
  Mercury lifts a wavelet level row by row, on demand, in a pool of recycled line buffers, and
  stops whenever an input row is missing.  The model has the queues, the free list, the ladder of
  steps and the stalls; the result is that `try_draw` ends and puts out exactly the rows of the
  plain whole-image transform (section F.3 of ISO/IEC 15444-1), whatever the supply.  The delicate point is that
  the last step writes its fresh input over a line that may just have been recycled: the
  positions of the steps show that this line is never one it is about to read.  The same
  positions bound how far the engine looks ahead and how many lines it ever owns.  `Analysis`
  says what the whole-image transform is for: it undoes the forward transform, for any steps
  that are undone one by one.
- **The pull ladder** (`Ladder`, `Pyramid`).  A pyramid of such engines driven by one loop, each
  fed with the rows the level below has put out.  It puts out the rows of the level-by-level
  whole-image transforms, and so gives back any image that was analyzed level by level.
- **The weft runtime** (`Weft`, `WeftInv`, `WeftRuns`, `WeftRest`).  A state machine with one step
  for every atomic operation of the wake-up word, the run queue, the counter, the two condition
  variables and tail chaining; any number of workers and nodes.  In every reachable state a
  node runs in one place at most, no wake-up is lost, a state without a next step is done, and
  without new publications every schedule gets there (`WeftRest`).
- **The flow of rows** (`WeftFlow`).  The deadlock-freedom argument of the weft design notes, for
  every tree of stages, with the ring capacities that are necessary and sufficient.
- **The push reader** (`PushQueue`, `PushSpec`, `PushReader`, `PushStream`).  libpng's resumable
  parser (sections 5.2, 5.3 and 11.2.4 of the PNG specification) over its two-part buffer.  Chunk
  handlers and inflate are arbitrary functions of the host.  `PushStream` writes datastreams as
  the specification lays them out and says what the reader makes of each, chunk by chunk.
- **Adam7** (`Adam7`, `InterlaceRows`).  Section 8.2 of the PNG specification against the macros
  and against the row-delivery machine.
- **Fixed point and colour** (`FixedPoint`, `Chromaticity`, `RgbCoefficients`, `Colorspace`,
  `GammaTables`).
- **Numbers as text** (`FpText`, `FpPrint`), **Adler-32** (`Adler32`, sections 2.2 and 8.2 of
  RFC 1950), **compositing** (`Composite`) and **run comparison** (`RunCompare`).

`Arith` and `Bytes` hold what the others share.

## What the code does not promise

- Chunking invariance of the push reader fails for a host that keeps IDAT as an unknown chunk:
  the process mode is already IDAT when the reader waits for the rest of the chunk
  (`PushSpec.KeptIdatShowsTheCut`).
- The integer branch of `png_muldiv` rounds up a remainder just below one half of an odd
  divisor, and reports a rounded quotient of 2^32 as 0.
- The end-point check can overflow in two places: `png_XYZ_normalize` guards its sum of Y values
  with X values (`Chromaticity.NormalizeOverflows`), and `png_xy_from_XYZ` adds up coordinates
  without a guard (`Chromaticity.RowSumOverflows`).  `Chromaticity.CheckXyzOverflowsIff` says
  exactly when.
- A true result of `png_colorspace_set_ICC` does not mean that the colour space is still valid.
- The comment in `png_build_16bit_table` says "rounded"; for one sample at each odd shift the
  neighbour of the nearest value is stored.
- The weft design notes let a tug return early when DIRTY is already set; the code always
  swaps.  The model follows the code.
- A colour space for writing may drift away from the sRGB gamma in steps.
- The word-wise run comparisons follow a two-byte pattern, not one byte; callers make the two
  bytes equal.

## Model

| member | source | states |
|---|---|---|
| `Lifting.LiftInPlace` | mercury/src/dwt/synthesis.rs:1027-1090 | one lifting step on the whole image, in place, rewrites exactly the rows of its parity from their two mirrored neighbours; which rows these are is fixed by `Analysis.ExtendedFormula` and `Analysis.RoundTrip` |
| `Lifting.LiftAll` | mercury/src/dwt/synthesis.rs:836-848 | the whole-image inverse transform, last step first, leaves every row equal to `Woven`, the recursive meaning of the lifting ladder, which is the image whenever the rows were its forward transform (`Analysis.Reconstruction`) |
| `Lifting.LiftRow` | mercury/src/dwt/synthesis.rs:1027-1090 | a row lifted from rows that the later steps have settled is the row of the recursive definition |
| `Analysis.ExtendedFormula` | mercury/src/dwt/synthesis.rs:299-327 | the row that stands for any row index, found by mirroring until it lies in the window, is the closed formula of the periodic symmetric extension, modulo twice the distance from the first row to the last |
| `Analysis.ExtendedIs` | mercury/src/dwt/synthesis.rs:299-327 | the two rows a lifting step reads are the rows just above and below, so extended |
| `Analysis.StepsCancel` | mercury/src/dwt/synthesis.rs:892-988 | the rows that the inverse steps from s on leave are those that the forward steps before s had left |
| `Analysis.Reconstruction` | mercury/src/dwt/synthesis.rs:836-1021 | perfect reconstruction: when every inverse step undoes its forward step, a level whose input is the forward transform of an image has the image for its output, with every window, pass-through and halved row included |
| `Analysis.RoundTrip` | mercury/src/dwt/synthesis.rs:836-1021 | on an array: the forward transform, written with plain indices y - 1 and y + 1, and then the whole-image inverse transform leave every row as it was |
| `Analysis.PredictionsUndo` | mercury/src/dwt/synthesis.rs:1027-1090 | steps that add or subtract a function of the neighbours, as the 5/3 and 9/7 steps do, undo each other |
| `LineQueue.RespoolOk` | mercury/src/dwt/synthesis.rs:334-345 | recycling drops no row that a consumer may still ask for, and the queue keeps holding consecutive rows with the right contents |
| `LineQueue.PushOk` | mercury/src/dwt/synthesis.rs:232-253 | a pushed row is the next one of its queue; when both consumers are past it, all its lines are given back once |
| `LineQueue.AtHolds` | mercury/src/dwt/synthesis.rs:268-282 | the line found for an index holds exactly that row and belongs to this queue |
| `LineQueue.WantedIsThere` | mercury/src/dwt/synthesis.rs:286-331 | a row that has been made and is still wanted is in the queue |
| `LineQueue.ReleaseOk` | mercury/src/dwt/synthesis.rs:334-345 | lines given back join the free list without duplicates |
| `LineQueue.TakeOk` | mercury/src/dwt/synthesis.rs:268-282 | taking row y up moves the takers to y + 2 and keeps the queue in order |
| `LineQueue.ReadOk` | mercury/src/dwt/synthesis.rs:286-331 | reading the neighbours of row y moves the readers to y + 2 and keeps the queue in order |
| `Queues.TakeGood` | mercury/src/dwt/synthesis.rs:268-282 | tap_update keeps all queues and the pool in order: no line is in two places |
| `Queues.ReadGood` | mercury/src/dwt/synthesis.rs:286-331 | tap_source does the same |
| `Queues.StoreGood` | mercury/src/dwt/synthesis.rs:971-985 | a line popped from the free list, filled and pushed leaves all other queues untouched |
| `Queues.SlackGood` | mercury/src/dwt/synthesis.rs:698-708 | growing the pool disturbs no queue |
| `Progress.NeighboursNotTaken` | mercury/src/dwt/synthesis.rs:925-959 | the rows the last step is about to read have not been taken up by the step before, so recycling cannot hand one of their lines out as the line to be overwritten |
| `Queues.ReadLine` | mercury/src/dwt/synthesis.rs:286-331 | the line of a row that is read holds that row, and stays owned by the queue unless the takers have passed it |
| `Queues.Missing` | mercury/src/dwt/synthesis.rs:261-264 | a wanted row is in its queue exactly when it has been made |
| `Queues.Neighbours` | mercury/src/dwt/synthesis.rs:299-327 | both mirrored neighbours are in the queue exactly when they have been made |
| `Progress.StepsApart` | mercury/src/dwt/synthesis.rs:892-988 | a step that has started stays at least a row behind the step it reads from, and one that is finished has only finished steps above it |
| `Progress.CalledNext` | mercury/src/dwt/synthesis.rs:930-945 | a rung that misses a neighbour calls the rung above, which is then at most that many rungs and one row ahead of the output |
| `Progress.CalledFresh` | mercury/src/dwt/synthesis.rs:899-908 | a rung that misses its input calls the rung two up, and the one between has not run ahead |
| `Progress.CalledBelow` | mercury/src/dwt/synthesis.rs:856-989 | going down the ladder, every rung below one that was called may be tried |
| `Progress.CalledOut` | mercury/src/dwt/synthesis.rs:992-1013 | a missing output row calls the rung that makes it |
| `Spares.TakeThrifty` | mercury/src/dwt/synthesis.rs:268-282 | tap_update leaves no row in a queue that no consumer and no mirrored neighbour asks for, and every line is free or in a queue |
| `Spares.ReadThrifty` | mercury/src/dwt/synthesis.rs:286-331 | tap_source does the same |
| `Spares.StoreThrifty` | mercury/src/dwt/synthesis.rs:971-985 | a row more, where there is room, keeps the account of lines |
| `Spares.Room` | mercury/src/dwt/synthesis.rs:856-989 | a rung that is tried finds at most one row in its queue, and rung 0 none |
| `Spares.SlackThrifty` | mercury/src/dwt/synthesis.rs:698-708 | a line is added only when all lines are in queues with room for one more |
| `Spares.LineBound` | mercury/src/dwt/synthesis.rs:608-614 | so in a full window the pool never has more than 2 * num_vert_steps + 1 lines |
| `Synthesis.Engine.constructor` | mercury/src/dwt/synthesis.rs:589-717 | a fresh engine is valid, at the first output row, with the first rows of both parities to take in |
| `Synthesis.Engine.Slack` | mercury/src/dwt/synthesis.rs:698-708 | afterwards a free line exists, no line has changed, and the pool is within its bound |
| `Synthesis.Engine.Take` | mercury/src/dwt/synthesis.rs:268-282 | returns a line holding row y of the queue |
| `Synthesis.Engine.Read` | mercury/src/dwt/synthesis.rs:286-331 | returns lines holding the two neighbours of row y, still owned if the takers are not past them |
| `Synthesis.Engine.Store` | mercury/src/dwt/synthesis.rs:971-985 | the row is queued with its value |
| `Synthesis.Engine.LiftRow` | mercury/src/dwt/synthesis.rs:930-985 | an inner step makes its row from the lines it read even if these were recycled in between |
| `Synthesis.Engine.LiftFresh` | mercury/src/dwt/synthesis.rs:947-985 | the last step makes its row although its fresh input is written over a recycled line first |
| `Synthesis.Engine.Pull` | mercury/src/dwt/synthesis.rs:862-890 | rung `steps`: one fresh row more, none left, or a stall |
| `Synthesis.Engine.LiftLast` | mercury/src/dwt/synthesis.rs:892-988 | the last rung: one row more, none left, a stall for want of its very row, or the rung that must go first, which has a row left and is no further than one row ahead |
| `Synthesis.Engine.LiftInner` | mercury/src/dwt/synthesis.rs:892-988 | an inner rung: the same without a stall |
| `Synthesis.Engine.TapOutput` | mercury/src/dwt/synthesis.rs:992-1013 | the row put out is the row of the whole-image transform; if there is none, it has not been made |
| `Synthesis.TriedRung` | mercury/src/dwt/synthesis.rs:856-989 | a rung that was called makes a row and lets the one below be tried, or calls a higher one, or stalls for a row at most num_vert_steps + 1 ahead of the output |
| `Synthesis.Engine.Descend` | mercury/src/dwt/synthesis.rs:856-989 | the inner loop makes a row or climbs, takes in only rows that are supplied, and stalls only near the output |
| `Synthesis.Engine.Vweave` | mercury/src/dwt/synthesis.rs:849-1021 | the vertical pipeline ends and returns the next row of the whole-image transform or stalls |
| `Synthesis.Engine.PassThrough` | mercury/src/dwt/synthesis.rs:795-818 | without lifting the row passes through, a lone odd row of a reversible filter halved |
| `Synthesis.Engine.TryDraw` | mercury/src/dwt/synthesis.rs:783-834 | try_draw ends; it returns the next row of the whole-image transform, or stalls only when an input row that is still to come, at most num_vert_steps + 1 rows ahead of the output, has not been supplied; it takes in rows in order, only as far as they are supplied, and uses of its source nothing but the rows it takes in; in a full window its lines stay within their bound |
| `Synthesis.HeadsFacts` | mercury/src/dwt/synthesis.rs:711-716 | the rows to be taken in next are of the right parity and the output stays in its window |
| `Synthesis.AllTakenIn` | mercury/src/dwt/synthesis.rs:719-721 | when the last row of a full window is out, all input rows of both parities have been taken in |
| `Synthesis.WeaveWithStalls` | mercury/src/dwt/synthesis.rs:770-834 | however the input comes in and however often the engine stalls, the rows that come out are those of the whole-image transform, in order; a call whose supply reaches num_vert_steps + 1 rows past the output, or to the end, yields a row |
| `Synthesis.WeaveAll` | mercury/src/dwt/synthesis.rs:783-834 | with all input at hand the engine never stalls and weaves the whole window |
| `Synthesis.OutputsAt` | mercury/src/dwt/synthesis.rs:836-848 | the rows listed are, index by index, those of the whole-image transform |
| `Ladder.DimNests` | mercury/src/capi.rs:567-567 | halving extents at once or one by one gives the same ceiling |
| `Ladder.LevelRows` | mercury/src/capi.rs:574-588 | every level has half as many low-pass rows as node rows, rounded up, and its low-pass rows are the node rows of the level below |
| `Ladder.Draw` | mercury/src/capi.rs:608-622 | one draw of a synthesis engine from its source: the rows it takes in are made from the rows at the front of the queue, in order (`TakesIn`); the row drawn is that of the whole-image transform, and a stall means the level is not the lowest, its queue is empty and it still wants low-pass rows |
| `Ladder.DrawAt` | mercury/src/capi.rs:655-671 | and leaves the engines of the other levels alone |
| `Ladder.PackedHonestly` | mercury/src/capi.rs:608-622 | packing the next row of the queue behind its high-pass row is the input the level has at that place |
| `Ladder.QueueNext` | mercury/src/capi.rs:655-684 | the row in a queue is the very row of the level below that its consumer wants next |
| `Ladder.CanDraw` | mercury/src/capi.rs:653-685 | the engine the ladder stands at always has a row left to draw |
| `Ladder.TurnKeeps` | mercury/src/capi.rs:655-684 | a turn keeps every boundary in order: at most one row or spare buffer, the queued row is the next one wanted, rows put out below are the rows taken in above and the queued one; a stalled level is not the lowest |
| `Ladder.Pull` | mercury/src/capi.rs:655-684 | one turn of the inner loop keeps the ladder in order and goes one level down after a stall, one up after a row |
| `Ladder.TopRow` | mercury/src/capi.rs:654-684 | the inner loop ends with the next row of the top level |
| `Ladder.AllDone` | mercury/src/capi.rs:653-685 | when the top is done every level has put out exactly its node rows |
| `Ladder.Finished` | mercury/src/capi.rs:653-685 | and no queue holds a row that was drawn in vain |
| `Ladder.Weave` | mercury/src/capi.rs:624-685 | over synthesis engines, not an abstraction of them, each fed with the rows popped off its queue: the loop ends; the rows that come out are those of the level-by-level whole-image transforms; every level draws exactly its node rows; there is one stall for every row drawn below the top; no boundary owns more than one buffer |
| `Pyramid.LevelRestored` | mercury/src/capi.rs:574-622 | when the bands of every level are those of the forward transform of that level, every level of the whole-image transform is the image of that level |
| `Pyramid.Restore` | mercury/src/capi.rs:624-685 | and the ladder puts out the image |
| `Pyramid.AnalysisEncodes` | mercury/src/capi.rs:574-622 | the bands made by analyzing an image level by level, low-pass rows going down, are such bands |
| `Pyramid.AnalyzeAndRestore` | mercury/src/capi.rs:624-685 | so any image, analyzed over any number of levels, comes out of the ladder unchanged |
| `Pyramid.RestoreLevel` | mercury/src/dwt/synthesis.rs:783-834 | one streaming engine puts out the image whose forward transform it takes in |
| `WeftInv.OpenKeeps` | mercury/src/weft/node.rs:88-91 | clearing DIRTY before a pass keeps the invariant |
| `WeftInv.TugKeeps` | mercury/src/weft/node.rs:64-85 | a tug either wins SCHEDULED for exactly one notifier or leaves DIRTY, and keeps the invariant |
| `WeftInv.TieOffKeeps` | mercury/src/weft/node.rs:96-113 | tying off is possible only when no event is left unseen without someone bound to look |
| `WeftInv.RouteKeeps` | mercury/src/weft/rt.rs:132-143 | a won node is chained or queued, never both, never lost |
| `WeftInv.NotifyKeeps` | mercury/src/weft/rt.rs:167-172 | waking a worker keeps the invariant |
| `WeftInv.EndPassKeeps` | mercury/src/weft/rt.rs:211-219 | the chained node moves to a deeper activation with its token |
| `WeftInv.LowerKeeps` | mercury/src/weft/rt.rs:220-223 | the counter goes down by one unit that was held, and the last one out announces |
| `WeftInv.AnnounceKeeps` | mercury/src/weft/rt.rs:220-223 | the announcement cannot fall between the check and the wait of await_stillness |
| `WeftInv.LookKeeps` | mercury/src/weft/rt.rs:174-187 | a worker that takes a queued node, or sleeps on an empty queue, keeps the invariant |
| `WeftInv.StepKeeps` | mercury/src/weft/rt.rs:152-225 | every step of every worker keeps the invariant |
| `WeftInv.HostStepKeeps` | mercury/src/weft/rt.rs:242-270 | every step of the thread outside the pool keeps the invariant |
| `WeftInv.OutstandingNonNegative` | mercury/src/weft/rt.rs:110-112 | the counter never goes below zero |
| `WeftRuns.Reachable` | mercury/src/weft/rt.rs:61-92 | the invariant holds after every interleaving of any length |
| `WeftRuns.OnePassPerNode` | mercury/src/weft/node.rs:13-15 | exclusive execution: in every reachable state at most one activation holds a node, and a held node is not queued |
| `WeftRuns.QueuedOnce` | mercury/src/weft/rt.rs:167-172 | no node is queued twice |
| `WeftRuns.ChainDepthBounded` | mercury/src/weft/rt.rs:35-38 | tail chaining never nests deeper than the cap |
| `WeftRuns.ZeroMeansQuiet` | mercury/src/weft/rt.rs:110-112 | a zero counter means that no pass is running, queued or pending and every node has seen every event |
| `WeftRuns.StillnessIsSound` | mercury/src/weft/rt.rs:252-269 | when await_stillness returns, no wake-up was lost |
| `WeftRuns.StillnessLasts` | mercury/src/weft/rt.rs:252-269 | and nothing starts again until the host tugs |
| `WeftRuns.StuckMeansDone` | mercury/src/weft/node.rs:4-12 | no deadlock: a reachable state in which no thread can take its next step is quiet and the host is not waiting |
| `WeftRest.StepRanks` | mercury/src/weft/rt.rs:152-225 | every step that a worker cannot withhold lowers a rank |
| `WeftRest.HostRanks` | mercury/src/weft/rt.rs:242-270 | and every such step of the host |
| `WeftRest.TyingIsHot` | mercury/src/weft/node.rs:96-113 | a DIRTY bit that sends a node round again is used up by doing so: no other pass of the node is about to clear it |
| `WeftRest.ForcedRunsEnd` | mercury/src/weft/rt.rs:198-224 | a run of such steps is not longer than the rank |
| `WeftRest.ComesToRest` | mercury/src/weft/rt.rs:252-269 | from every reachable state, under every schedule, the work kicked off so far ends unless nodes go on publishing, and ends quiet |
| `WeftFlow.SomeStageRuns` | mercury/docs/weft-design.md:81-101 | in a tree of stages whose rings hold their consumers' windows, some stage can run while the image is incomplete |
| `WeftFlow.FireWorks` | mercury/docs/weft-design.md:81-101 | every firing is one less to come |
| `WeftFlow.RunsComplete` | mercury/docs/weft-design.md:81-101 | every schedule ends, and a run that cannot go on is complete |
| `WeftFlow.FireEarns` | mercury/docs/weft-design.md:81-101 | firing keeps the record of what the rings allowed |
| `WeftFlow.CompletesIffSized` | mercury/docs/weft-design.md:96-101 | the image can be completed if and only if every ring holds the largest window of its consumer |
| `PushQueue.ByteQueue.Restore` | thirdparty/libpng/pngpread.c:532-539 | a new buffer is appended to what was saved |
| `PushQueue.ByteQueue.Fill` | thirdparty/libpng/pngpread.c:429-469 | takes the first min(n, pending) bytes of saved ++ current and leaves the rest |
| `PushQueue.ByteQueue.Save` | thirdparty/libpng/pngpread.c:472-529 | loses and reorders nothing, through the shift-down and the regrow; fails only near the size limit |
| `PushQueue.MoveDown` | thirdparty/libpng/pngpread.c:476-488 | the overlapping byte-by-byte shift moves the block intact |
| `PushQueue.ByteQueue.Reserve` | thirdparty/libpng/pngpread.c:490-519 | afterwards the save buffer has room for both parts, or the sum is near the size limit |
| `PushQueue.ByteQueue.AppendCurrent` | thirdparty/libpng/pngpread.c:520-526 | the current part goes behind the saved part |
| `PushQueue.ByteQueue.SkipSaved` | thirdparty/libpng/pngpread.c:592-595 | the bytes are taken off the front of the queue |
| `PushQueue.ByteQueue.SkipCurrent` | thirdparty/libpng/pngpread.c:618-621 | the same once the saved part is used up |
| `PushSpec.MoveProgresses` | thirdparty/libpng/pngpread.c:94-125 | every move uses bytes or lowers the rank of the mode: the termination measure of png_process_data |
| `PushSpec.MoveStable` | thirdparty/libpng/pngpread.c:167-426 | more input never changes a move that was already decided |
| `PushSpec.FeedSplit` | thirdparty/libpng/pngpread.c:36-48 | feeding p and then q is feeding p ++ q |
| `PushSpec.ChunkingInvariance` | thirdparty/libpng/pngpread.c:36-48 | for every way of cutting a stream into calls, mode, counters, callbacks, inflate input and pending bytes are those of one call |
| `PushSpec.KeptIdatShowsTheCut` | thirdparty/libpng/pngpread.c:198-253 | a stream and a cut where this fails, with IDAT kept as an unknown chunk |
| `PushSpec.CutInvariantIff` | thirdparty/libpng/pngpread.c:36-48 | it holds for all hosts that treat IDAT alike if and only if IDAT is not kept |
| `PushReader.InflateGreedy` | thirdparty/libpng/pngpread.c:571-622 | handing inflate a block is handing it the bytes one by one |
| `PushReader.SigGreedy` | thirdparty/libpng/pngpread.c:134-164 | checking a block of the signature is checking it byte by byte |
| `PushReader.Reader.constructor` | thirdparty/libpng/pngpread.c:1081-1094 | a new reader is at the start |
| `PushReader.Reader.ReadSig` | thirdparty/libpng/pngpread.c:134-164 | refines the byte-level run and uses up bytes |
| `PushReader.Reader.TakeHeader` | thirdparty/libpng/pngpread.c:180-194 | reads length and name exactly as specified |
| `PushReader.Reader.Handle` | thirdparty/libpng/pngpread.c:227-260 | a chunk handler takes its bytes and CRC, or nothing when they are not all there |
| `PushReader.Reader.ReadChunk` | thirdparty/libpng/pngpread.c:167-426 | makes the specified move |
| `PushReader.Reader.InflateSaved` | thirdparty/libpng/pngpread.c:571-596 | refines the byte-level run over the saved part |
| `PushReader.Reader.InflateCurrent` | thirdparty/libpng/pngpread.c:598-622 | and over the current part |
| `PushReader.Reader.FinishIdat` | thirdparty/libpng/pngpread.c:624-631 | takes the CRC or waits for it |
| `PushReader.Reader.ReadIdat` | thirdparty/libpng/pngpread.c:542-632 | refines the byte-level run |
| `PushReader.Reader.ProcessSome` | thirdparty/libpng/pngpread.c:94-125 | every mode refines the byte-level run and makes progress |
| `PushReader.Reader.ProcessData` | thirdparty/libpng/pngpread.c:36-48 | one call is one `Feed` of the specification, or the size limit was reached |
| `PushReader.Stream` | thirdparty/libpng/pngpread.c:36-48 | any sequence of calls leaves the reader in the state of one call with the whole stream |
| `PushStream.WrittenBack` | thirdparty/libpng/pngpread.c:180-194 | four bytes, most significant first, are read back as the number they were written from |
| `PushStream.NamesAre` | thirdparty/libpng/pngpread.c:180-194 | chunk names are the four letters, told apart by their number, and pass the check of names |
| `PushStream.PlainRuns` | thirdparty/libpng/pngpread.c:227-260 | a whole chunk in chunk mode is given to its handler with exactly its data and CRC, after the length check, and the reader is at the next chunk |
| `PushStream.PixelsRun` | thirdparty/libpng/pngpread.c:571-631 | the data of an IDAT goes to the decompressor, all of it and nothing more, and its CRC is checked |
| `PushStream.FirstImageRuns` | thirdparty/libpng/pngpread.c:198-275 | the first IDAT is refused before IHDR or, for palette indices, before PLTE; else the information callback runs and then its data is used |
| `PushStream.LateImageRuns` | thirdparty/libpng/pngpread.c:201-226 | an IDAT after the image was closed by another chunk is refused where benign errors are fatal, and else opens the image again with a second information callback |
| `PushStream.LeaveImages` | thirdparty/libpng/pngpread.c:550-569 | a chunk of another name ends the image if the compressed data has ended, and keeps its header for chunk mode |
| `PushStream.DatastreamRuns` | thirdparty/libpng/pngpread.c:36-426 | every well-formed datastream, IHDR, other chunks, IDATs, other chunks, IEND, has its chunk-by-chunk meaning (`Told`), for every host that leaves the note of image data to the reader, for every number of signature bytes checked before and every way of cutting the bytes into calls |
| `PushStream.ToldShows` | thirdparty/libpng/pngpread.c:571-622 | a datastream read to its end has had exactly the concatenation of its IDAT data decompressed and each callback called once, in order |
| `PushStream.AcceptedIff` | thirdparty/libpng/pngpread.c:198-226 | a host that refuses nothing gets to the end exactly unless the pixels are palette indices and no PLTE came before them |
| `PushStream.AcceptedRun` | thirdparty/libpng/pngpread.c:36-426 | the reader then ends in the done mode with nothing pending, that data decompressed and those callbacks made; in the other case it fails |
| `PushStream.EventsInOrder` | thirdparty/libpng/pngpread.c:36-426 | the full list of what a host is asked to do for a datastream: every chunk but IDAT handed over with its letters, data and CRC, the information callback right before the first image byte, every byte of an IDAT before its CRC, the end last |
| `Adam7.Geometry` | thirdparty/libpng/png.h:2439-2455 | the shift macros denote the starts and steps of section 8.2 of the PNG specification |
| `Adam7.Masks` | thirdparty/libpng/png.h:2477-2485 | the packed mask constants unpack to the seven row and column masks |
| `Adam7.RowMaskMeansGeometry` | thirdparty/libpng/png.h:2486-2487 | a row is in a pass by its mask exactly when it is by start and step |
| `Adam7.ColMaskMeansGeometry` | thirdparty/libpng/png.h:2488-2489 | the same for columns |
| `Adam7.CountsAreLines` | thirdparty/libpng/png.h:2462-2465 | the count macros count the lines of the pass |
| `Adam7.PassIsUnique` | thirdparty/libpng/png.h:2486-2489 | every pixel is in exactly one pass, the one of the 8 by 8 tile |
| `Adam7.Partition` | thirdparty/libpng/png.h:2471-2474 | every pixel is the image of exactly one in-range pass coordinate |
| `Adam7.PixelsConserved` | thirdparty/libpng/png.h:2462-2465 | the pixels of the seven passes add up to width times height |
| `InterlaceRows.TablesAgree` | thirdparty/libpng/pngpread.c:983-992 | the tables of the row reader agree with the macros |
| `InterlaceRows.CountsAreMacros` | thirdparty/libpng/pngpread.c:1024-1035 | its inline counts are the count macros |
| `InterlaceRows.Rows.constructor` | thirdparty/libpng/pngpread.c:794-797 | the machine starts at pass 0, row 0 |
| `InterlaceRows.Rows.FinishRow` | thirdparty/libpng/pngpread.c:977-1040 | moves to the next row, or past the passes that are empty for the width |
| `InterlaceRows.Rows.FinishPlainRow` | thirdparty/libpng/pngpread.c:977-1040 | without expansion, to the next pass that has pixels |
| `InterlaceRows.Rows.FindFilledPass` | thirdparty/libpng/pngpread.c:1010-1037 | finds the next pass with rows and columns |
| `InterlaceRows.Rows.ProcessPass0` | thirdparty/libpng/pngpread.c:803-837 | eight rows painted, then the padding that keeps the promised trace |
| `InterlaceRows.Rows.ProcessPass1` | thirdparty/libpng/pngpread.c:839-858 | the same for pass 1 |
| `InterlaceRows.Rows.ProcessPass2` | thirdparty/libpng/pngpread.c:860-886 | and pass 2 |
| `InterlaceRows.Rows.ProcessPass3` | thirdparty/libpng/pngpread.c:888-908 | and pass 3 |
| `InterlaceRows.Rows.ProcessPass4` | thirdparty/libpng/pngpread.c:910-933 | and pass 4 |
| `InterlaceRows.Rows.ProcessPass5` | thirdparty/libpng/pngpread.c:935-952 | and pass 5 |
| `InterlaceRows.Rows.ProcessPass6` | thirdparty/libpng/pngpread.c:954-966 | and pass 6 |
| `InterlaceRows.Rows.ProcessRow` | thirdparty/libpng/pngpread.c:747-974 | one decoded row leaves the machine waiting for the next with the promise kept |
| `InterlaceRows.ReadExpanded` | thirdparty/libpng/pngpread.c:747-974 | a full run delivers every row of every pass that has columns, once and in order, with data exactly where the pass paints, and uses exactly as many decoded rows as the reader without expansion |
| `InterlaceRows.SkippedIffNoColumns` | thirdparty/libpng/pngpread.c:1012-1015 | the passes skipped for the width are exactly those without a column |
| `InterlaceRows.SameRows` | thirdparty/libpng/pngpread.c:1010-1037 | so both modes use the same decoded rows |
| `InterlaceRows.PaintedIsNearest` | thirdparty/libpng/pngpread.c:803-966 | in pass p a painted row shows the last line at or above it that the passes up to p hold |
| `InterlaceRows.EmptyPassesHoldNothing` | thirdparty/libpng/pngpread.c:1010-1037 | the passes that are skipped hold no pixels |
| `InterlaceRows.ReadPlain` | thirdparty/libpng/pngpread.c:968-974 | without expansion exactly the passes with pixels are visited, and their pixels add up to width times height |
| `FixedPoint.Product` | thirdparty/libpng/png.c:3352-3364 | the two words are the exact 64-bit product, without 32-bit overflow |
| `FixedPoint.Shifted` | thirdparty/libpng/png.c:3379-3383 | the two words are D shifted left |
| `FixedPoint.Subtract` | thirdparty/libpng/png.c:3385-3393 | one round of the long division |
| `FixedPoint.Divide` | thirdparty/libpng/png.c:3372-3394 | the loop leaves quotient and remainder |
| `FixedPoint.MulDivByHalves` | thirdparty/libpng/png.c:3330-3410 | the integer branch returns the quotient rounded by its rule with the right sign, or refuses |
| `FixedPoint.ResultErrorIff` | thirdparty/libpng/png.c:3330-3410 | a returned value times the divisor is within (|divisor| + 1) / 2 of the product, exactly unless the rounded quotient is 2^32 |
| `FixedPoint.HalfUpNearestIff` | thirdparty/libpng/png.c:3396-3398 | it is nearest except exactly when D is odd and the remainder is (D - 1) / 2 |
| `FixedPoint.OverflowAccepted` | thirdparty/libpng/png.c:3403-3409 | a product whose rounded quotient is 2^32 is reported as 0 |
| `FixedPoint.BranchesAgreeIff` | thirdparty/libpng/png.c:3304-3416 | the exact inputs on which both branches of png_muldiv return the same |
| `Chromaticity.CrossBound` | thirdparty/libpng/png.c:1416-1428 | no triangle of chromaticities has more than the area of the simplex |
| `Chromaticity.DifferencesSafe` | thirdparty/libpng/png.c:1450-1478 | all scale-by-7 products and their differences fit in 32 bits |
| `Chromaticity.ScalesSafe` | thirdparty/libpng/png.c:1453-1489 | so the scales are found or the input is rejected, and the blue scale fits |
| `Chromaticity.XyzSafe` | thirdparty/libpng/png.c:1255-1518 | XYZ from xy never returns 2 and its end points are non-negative and small |
| `Chromaticity.ColorantsKeepChromaticity` | thirdparty/libpng/png.c:1493-1515 | each colorant found has the chromaticity it was found for, up to the roundings of its coordinates |
| `Chromaticity.Bt709Accepted` | thirdparty/libpng/png.c:1597-1617 | the primaries of ITU-R BT.709 are accepted, with the end points they give |
| `Chromaticity.CornersAccepted` | thirdparty/libpng/png.c:1264-1271 | the range of chromaticities is closed: those on its corners are accepted too |
| `Chromaticity.BackIs` | thirdparty/libpng/png.c:1212-1252 | the way back gives the chromaticities of the three colorants and of their sum, each to the nearest unit |
| `Chromaticity.AcceptedWhite` | thirdparty/libpng/png.c:1597-1617 | the colorants of accepted chromaticities add up to a white of the chromaticity asked for, to within five units and a rounding |
| `Chromaticity.EndpointsMatchIff` | thirdparty/libpng/png.c:1571-1594 | the match test is true exactly when all eight coordinates are within the tolerance |
| `Chromaticity.BackSafe` | thirdparty/libpng/png.c:1212-1252 | the sums on the way back do not overflow |
| `Chromaticity.CheckXySafe` | thirdparty/libpng/png.c:1597-1617 | the internal-error arm of the chromaticity check is unreachable for every input |
| `Chromaticity.CheckXyzNeverInternal` | thirdparty/libpng/png.c:1623-1638 | the same from end points |
| `Chromaticity.NormalizeOverflows` | thirdparty/libpng/png.c:1521-1568 | but its sum of Y values can overflow, because the guards look at X values |
| `Chromaticity.RowSumOverflows` | thirdparty/libpng/png.c:1217-1217 | and so can the unguarded sum of the coordinates of one end point |
| `Chromaticity.NormalizeIs` | thirdparty/libpng/png.c:1521-1568 | normalization overflows exactly when the sum of Y values does behind its guards, and else scales the end points to a white of Y = 1 when the scaled values fit |
| `Chromaticity.BackOverflowsIff` | thirdparty/libpng/png.c:1212-1252 | the way back overflows exactly when the red coordinates do, or, red and green not being black, all nine together |
| `Chromaticity.CheckXyzOverflowsIff` | thirdparty/libpng/png.c:1623-1638 | the exact end points on which the check overflows, as arithmetic on the end points |
| `Chromaticity.NotBlack` | thirdparty/libpng/png.c:1255-1518 | the colorants found for accepted chromaticities have Y values with a positive sum, in spite of all roundings |
| `Chromaticity.CheckedXyzSound` | thirdparty/libpng/png.c:1623-1638 | so have the normalized colorants of accepted end points, and the sum fits in 32 bits |
| `RgbCoefficients.CoefficientsSumToUnity` | thirdparty/libpng/png.c:2448-2509 | the three coefficients sum to 32768 and none is negative, so no internal-error exit is reachable; each is the rounded share of its colorant, but for one unit that goes to a largest share, green before red before blue |
| `RgbCoefficients.SrgbCoefficients` | thirdparty/libpng/png.c:1860-1864 | the coefficients of sRGB are 6968, 23434 and 2366 |
| `RgbCoefficients.CoefficientsAfterAnyRun` | thirdparty/libpng/png.c:2448-2509 | from end to end: after any sequence of setters a colour space with end points yields such coefficients |
| `Colorspace.Holder.StoreGamma` | thirdparty/libpng/png.c:1093-1145 | an out-of-range or duplicate value invalidates the record and changes nothing else; any other is stored, except that a record from sRGB keeps its gamma against a value that is not the same within the threshold; no other field changes |
| `Colorspace.Holder.StoreXyXyz` | thirdparty/libpng/png.c:1651-1696 | the return code tells failure, no change and change apart; with `preferred` at 2, or with nothing stored, the new end points always win; else they must match those stored within 100 units, and replace them only at 1; a mismatch invalidates the record |
| `Colorspace.Holder.StoreChromaticities` | thirdparty/libpng/png.c:1699-1733 | fails exactly when the colour space is invalid afterwards, and a valid one fails only on chromaticities that the check refuses or that clash with those stored; a change stores the chromaticities with the end points the check found; the internal-error arm is dead |
| `Colorspace.Holder.StoreEndpoints` | thirdparty/libpng/png.c:1736-1760 | the same from end points, whenever no addition of the check overflows |
| `Colorspace.Holder.StoreSrgb` | thirdparty/libpng/png.c:1851-1936 | stores all of sRGB or nothing: a clashing intent invalidates the record, and sRGB is stored exactly when the record is valid and not yet from sRGB, and, where errors are fatal, its end points and gamma are those of sRGB within tolerance |
| `Colorspace.Holder.StoreIcc` | thirdparty/libpng/png.c:2421-2443 | true exactly for a valid record and a sound profile, even when the intent of an sRGB profile then invalidates the record; only an sRGB profile changes values, and to all of sRGB |
| `Colorspace.Holder.Run` | thirdparty/libpng/png.c:1093-1936 | the setters themselves, in any sequence, keep the record consistent, and leave an invalid record as it is |
| `Colorspace.NearSrgbIff` | thirdparty/libpng/png.c:1063-1065 | the ratio test accepts exactly the gammas 43291 to 47847 as sRGB |
| `Colorspace.StepKeeps` | thirdparty/libpng/png.c:1093-1145 | every setter keeps the record consistent |
| `Colorspace.RunsStayConsistent` | thirdparty/libpng/png.c:1651-1936 | after any sequence of setters: the sRGB match flag is exact, both forms of the end points agree, the colorants add up to a white that is not black, gamma is invertible, and in a read struct an sRGB gamma stays near |
| `Colorspace.InvalidFreezes` | thirdparty/libpng/png.c:1119-1121 | an invalid colour space never changes again |
| `Colorspace.GammaInvertible` | thirdparty/libpng/png.c:1096-1110 | the reciprocal of a stored gamma fits the same range |
| `Colorspace.WriteStructDrifts` | thirdparty/libpng/png.c:1112-1116 | in a write struct the gamma can drift away from sRGB |
| `Colorspace.WriteStructKeepsIff` | thirdparty/libpng/png.c:1112-1130 | exactly when a call lets it |
| `Colorspace.TameRunsStayNear` | thirdparty/libpng/png.c:1093-1145 | over whole runs: when all gammas set are near sRGB or out of range, the stored gamma is near sRGB |
| `Colorspace.SrgbChromaticities` | thirdparty/libpng/png.c:1651-1733 | a fresh record takes the sRGB chromaticities, with their end points and the match flag |
| `Colorspace.SrgbAgrees` | thirdparty/libpng/png.c:1641-1648 | the two sRGB tables agree |
| `GammaTables.LookupBits` | thirdparty/libpng/png.c:4204-4221 | the masks and shifts of build and lookup pick the same row and column |
| `GammaTables.LookupIsSlot` | thirdparty/libpng/png.c:4204-4221 | reading a sample reads the slot written for its significant bits |
| `GammaTables.SlotOfInTable` | thirdparty/libpng/png.c:4050-4050 | slots and shifted samples correspond one to one |
| `GammaTables.SlotHasSample` | thirdparty/libpng/png.c:4050-4050 | and back |
| `GammaTables.BoundFits` | thirdparty/libpng/png.c:4039-4046 | the boundary arithmetic does not overflow and stays inside the table |
| `GammaTables.LevelBetween` | thirdparty/libpng/png.c:4039-4046 | the level of a sample lies between the corrected middles of the levels below and above, scaled to 16 - shift bits |
| `GammaTables.ClosestLevel` | thirdparty/libpng/png.c:4001-4061 | without correction every sample gets the 8-bit level closest to it, up to the rounding of the boundaries |
| `GammaTables.FillTo` | thirdparty/libpng/png.c:4048-4052 | fills up to the boundary in order |
| `GammaTables.Build16To8` | thirdparty/libpng/png.c:4001-4061 | for every correction function every slot is written once, in range, with the level whose boundary the sample does not reach |
| `GammaTables.EntryMonotone` | thirdparty/libpng/png.c:4001-4061 | the table is monotone whatever the correction |
| `GammaTables.ReadBack16To8` | thirdparty/libpng/png.c:4204-4221 | a lookup finds the entry of the sample |
| `GammaTables.RescaleFits` | thirdparty/libpng/png.c:3984-3992 | the rescaling fits in 32 bits and in 16 afterwards |
| `GammaTables.RescaleNearestIff` | thirdparty/libpng/png.c:3984-3992 | it rounds to nearest except for one sample at each odd shift |
| `GammaTables.Build16` | thirdparty/libpng/png.c:3924-3995 | every slot holds the entry of its shifted sample |
| `GammaTables.ReadBack16` | thirdparty/libpng/png.c:4204-4221 | a lookup finds it |
| `FpText.ParseIsGrammar` | thirdparty/libpng/png.c:2684-2810 | the states accept exactly the floating-point grammar |
| `FpText.StepSimulates` | thirdparty/libpng/png.c:2698-2796 | one step of the flag automaton is one step of the parser |
| `FpText.Resume` | thirdparty/libpng/png.c:2688-2810 | stopping anywhere and resuming with the saved state gives the same result |
| `FpText.CheckNumber` | thirdparty/libpng/png.c:2688-2810 | the loop is the walk of the automaton |
| `FpText.CheckString` | thirdparty/libpng/png.c:2815-2825 | accepts in full exactly the strings of the grammar |
| `FpText.FlagsTellSign` | thirdparty/libpng/pngpriv.h:1959-1999 | the flags classify the denoted number as zero, positive or negative |
| `FpPrint.Split` | thirdparty/libpng/png.c:3217-3232 | the digit loop strips trailing zeros and notes the first digit |
| `FpPrint.WriteFraction` | thirdparty/libpng/png.c:3241-3255 | the fraction is written with its leading zeros |
| `FpPrint.AsciiFromFixed` | thirdparty/libpng/png.c:3197-3268 | the text fits in 13 bytes with its terminator and denotes exactly fp / 100000 |
| `FpPrint.PrintThenCheck` | thirdparty/libpng/png.c:3197-3268 | the checker accepts it in full and classifies its sign correctly |
| `Adler32.DeferredReduction` | thirdparty/libz/adler32_p.h:29-39 | reducing once at the end is reducing after every byte |
| `Adler32.ChecksumIsStandard` | thirdparty/libz/adler32_p.h:29-39 | the checksum is that of RFC 1950: one plus the sum of the bytes, and the length plus the sum of the bytes weighted from the end, both modulo 65521 |
| `Adler32.NmaxIsLargest` | thirdparty/libz/adler32_p.h:11-13 | 5552 is the largest length that meets the stated bound |
| `Adler32.ReducedFits` | thirdparty/libz/adler32_p.h:11-13 | up to that length no sum exceeds 32 bits |
| `Adler32.Len16` | thirdparty/libz/adler32_p.h:29-39 | computes the checksum |
| `Adler32.Unrolled` | thirdparty/libz/adler32_p.h:53-65 | the unrolled blocks add the same sums without overflow |
| `Adler32.Len64` | thirdparty/libz/adler32_p.h:53-68 | the unrolled form computes the same checksum |
| `Adler32.CopyLen16` | thirdparty/libz/adler32_p.h:41-51 | the copying form too, and the destination equals the source |
| `Adler32.CombineIsConcat` | thirdparty/libz/adler32.c:41-53 | the combine formula gives the checksum of the concatenation |
| `Adler32.Combine` | thirdparty/libz/adler32.c:32-54 | adler32_combine_ does so for all byte strings, with no overflow and both halves reduced |
| `Composite.ShiftsDivide8` | thirdparty/libpng/png.h:2506-2513 | two shifts and an addition are the division by 255 |
| `Composite.ShiftsDivide16` | thirdparty/libpng/png.h:2515-2522 | and by 65535 |
| `Composite.Composite8` | thirdparty/libpng/png.h:2506-2530 | both forms agree, do not overflow, round to nearest and stay between the samples |
| `Composite.Composite16` | thirdparty/libpng/png.h:2515-2536 | the same for 16 bits |
| `RunCompare.CompareBytes` | thirdparty/libz/compare256_rle.h:12-42 | the length of the longest run, capped at 256 |
| `RunCompare.Compare16` | thirdparty/libz/compare256_rle.h:44-74 | by 16-bit words: of the two-byte pattern |
| `RunCompare.Compare32` | thirdparty/libz/compare256_rle.h:76-102 | by 32-bit words and trailing zeros |
| `RunCompare.Compare64` | thirdparty/libz/compare256_rle.h:106-129 | by 64-bit words and trailing zeros |
| `RunCompare.FirstByte` | thirdparty/libz/compare256_rle.h:92-95 | trailing zeros divided by eight find the first different byte |
| `RunCompare.AgreeIff` | thirdparty/libz/compare256_rle.h:12-129 | byte and word forms agree when the two bytes of src0 are equal, and exactly when else |

## Left out

- Synthesis.Engine.TryDraw: horizontal synthesis, sample arithmetic and the SIMD kernels are the functions `input` and `lift` of the bank; `vertical_first`, a single lifting step and empty levels are not modelled; that the pool stops growing after the first rows is not stated, only its bound.
- Lifting.LiftAll: every step reads the rows just above and below, as the 5/3 and 9/7 tables of mercury/src/dwt/level_builder.rs do (one mirror step suffices at the edges), and the two input bands together cover consecutive rows; other supports, pass-through steps and windows whose bands start further apart are not modelled.
- Ladder.Weave: horizontal synthesis is the functions `leaf` and `join` of the filter; an engine looks its rows up at the front of the queue during the draw, and they leave the queue when the draw has ended; the 32-bit shifts of `dim` are exact integers here; timing and the rejection of bad arguments are left out.
- WeftRuns.Reachable: atomics are sequentially consistent and a compare-and-swap loop is one step; one host thread; a publication and the tug that follows it are made for one target at a time; each pass reads its rings at least once; node failure, panics and shutdown are left out.
- WeftRest.ComesToRest: a pass counts its look at the rings once; nodes that publish for ever are not forced to stop.
- WeftFlow.CompletesIffSized: a ring is a pair of counts; the slots of mercury/src/weft/ring.rs, how the decode graph computes capacities, and several rows per firing are not modelled.
- Analysis.Reconstruction: the forward transform is that of section F.4 of ISO/IEC 15444-1, one function per step; Mercury itself only decodes.
- PushStream.DatastreamRuns: a host whose handlers set the reader's own note of image data before any image data is not covered; a datastream in which image data is interrupted by another chunk is covered only by `PushStream.LateImageRuns`.
- PushReader.Reader.ProcessData: `png_process_data_pause` and `png_process_data_skip` are not modelled, allocation does not fail, and CRC values, row filters and the zlib state live in the host.
- InterlaceRows.ReadExpanded: rows are numbers, not pixels; filters and transformations are left out.
- FixedPoint.MulDivByHalves: signed overflow of `result` is modelled as wrap-around.
- FixedPoint.BranchesAgreeIff: the floating branch is computed over exact rationals.
- Colorspace.Holder.StoreEndpoints: end points on which an addition of the check overflows are excluded (`Chromaticity.EndpointsOverflow`), since the C language does not define what follows; `Colorspace.RunsStayConsistent` counts them as rejected.
- Colorspace.Holder.StoreIcc: the profile checks are two parameters, whether they succeed and the intent if the profile is a known sRGB one.
- GammaTables.Build16: the correction is any function; allocation and the 8-bit table are left out.
- RunCompare.Compare32: words are held in 64 bits.
- Adler32.Len64: the vectorized variants and `adler32_len_1` are left out.
- The logarithm and exponential tables, the sRGB tables, `png_format_number`, `png_ascii_from_fp` and the floating gamma functions.
- ICC profile parsing, tier-1 and tier-2 decoding, code-stream parsing, file formats, the C++ core library, the plugins, the language bindings and the command-line tools.
