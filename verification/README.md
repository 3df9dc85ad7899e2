# Verified models of aworker

A Dafny model of the parts of aworker, a JavaScript worker runtime, whose correctness rests on
state, order or arithmetic that is hard to see from any one function.

| modules | what they model |
|---|---|
| `StreamValues`, `WritableStream`, `WritableStreamSafety`, `WritableStreamRuns`, `WritableStreamObject` | the internal slots and operations of a writable stream, its default controller and its writer, as steps of a state machine over user requests and sink settlements; the imperative object refines the machine |
| `ReadableStream`, `ReadableStreamSafety`, `ReadableStreamObject` | the readable stream with its default controller and reader, in the same form |
| `Tee`, `TeeObject` | the two branches and the shared closure of `tee` |
| `Rotation`, `Getopt`, `OptionText` | the in-place exchange of two blocks of `argv` along gcd-many cycles, the option scanner that uses it, and what a user writes for it |
| `HashTable` | the hash table of linked nodes with its rehashing expansion and its iterator |
| `PathNormaliser` | the one-pass path normaliser, `normalize`, `join` and `resolve` |
| `CacheBatch` | matching, batches and the public operations of a cache |
| `Framing` | the WebSocket frames of the inspector client and its reassembly of chunks |
| `Base64` | the table-driven codec behind `atob`, `btoa` and the buffer encoder |
| `FileStream`, `FileStreamObject` | the asynchronous output file stream with shared buffers, partial writes and deferred disposal |

The streams, the tee and the file stream are event machines. A run is any finite sequence of
requests and settlements, so a theorem about `Run` covers every schedule. `faults` in a stream's
state records an assertion of the source that fails, a call of a cleared algorithm or of a missing
resolver and a read from `undefined`, so "no fault" is something proved and not something assumed.
Where the source links objects to each other (a stream with its controller and its writer or reader,
the branches of a tee, buffers shared with a caller and the loop, nodes of a chain) the model has
classes with the same links. `Valid` states the links and `View` reads them as one state of the
machine. Every operation keeps the links and implements its transition, its contract also says what
that means for a caller, and `Drive` runs the objects through a whole schedule.

What the models show about the code as it is:

- A writer that calls `close()` twice breaks an internal assertion. So do `write()` and `abort()`
  of a writer that was released, and its `close()` reads from `undefined`. A writer created while
  the sink is still aborting makes the abort reaction call a resolver that does not exist. There is
  nothing else: `WritableStreamRuns.FaultFree` is an equivalence.
- A `getopt` scan without a long-option table and without `-` among its letters can answer the end
  mark in the middle of an argument, before the operands are moved (`Getopt.StrayDashWitness`).
  `Getopt.StrayExactly` says exactly when, as a condition on the arguments as given.
- An empty text frame makes the inspector client stop until more bytes arrive. How a stream is cut
  into chunks does not matter if and only if no empty frame stands before a message
  (`Framing.RobustExactly`).
- The base64 decoder ignores the unused bits of the last letter, so decoding loses information
  exactly for texts where they are not zero (`Base64.Reencodes`).
- After a failed write the output file stream never reports its end (`FileStream.StuckAfterFailure`).

`dafny verify dfyconfig.toml` checks the whole project.

## Model

| member | source | states |
|---|---|---|
| `StreamValues.SumSnoc` | lib/streams.js:1046-1058 | the total of a queue grows by the size of what is enqueued |
| `StreamValues.SumNonNegative` | lib/streams.js:1035-1044 | a total of non-negative sizes is not negative, so the correction of rounding errors in the source never applies to exact sizes |
| `WritableStreamSafety.StepKeeps` | lib/streams.js:2658-3234 | every event (write, close, abort, controller error, new writer, release, a call through a released writer, settlement of start, write, close or abort) keeps the invariant on slots, queue, ledger, writer and trace, and breaks an assertion, calls a missing resolver or reads from `undefined` exactly in the cases `StepFaults` names |
| `WritableStreamSafety.Reachable` | lib/streams.js:2380-2428 | the invariant holds in every state of every run, for every high-water mark and every schedule of sink promises |
| `WritableStreamSafety.FinishErroringResult` | lib/streams.js:3046-3087 | finishing an error empties queue and requests, rejects every waiting write in order, and hands a fresh abort to the sink or rejects it with the stored error |
| `WritableStreamSafety.FinishErroringKeeps` | lib/streams.js:3046-3087 | finishing an error keeps the invariant and settles only what was waiting |
| `WritableStreamSafety.StartErroringKeeps` | lib/streams.js:3194-3214 | starting an error keeps the invariant, leaves the writable state, and ends at once when nothing is in flight |
| `WritableStreamSafety.ProcessWriteKeeps` | lib/streams.js:2855-2888 | handing the head of the queue to the sink keeps the invariant: the chunk is the next accepted one and its request moves from waiting to in flight |
| `WritableStreamSafety.ProcessCloseResult` | lib/streams.js:2834-2853 | the close marker at the head means no write is waiting, and processing it empties the queue exactly |
| `WritableStreamSafety.ProcessCloseKeeps` | lib/streams.js:2834-2853 | handing the close to the sink keeps the invariant: every accepted write was handed over and fulfilled before |
| `WritableStreamSafety.AdvanceKeeps` | lib/streams.js:2740-2768 | looking at the queue restores the invariant from any intermediate state and adds no fault |
| `WritableStreamSafety.ErrorIfNeededKeeps` | lib/streams.js:2796-2803 | an error of the controller leaves the writable state and keeps the invariant |
| `WritableStreamSafety.RefreshKeeps` | lib/streams.js:3216-3234 | recomputing backpressure makes the flag and the ready promise exact again |
| `WritableStreamSafety.AcceptKeeps` | lib/streams.js:2684-2692 | accepting a write request puts it last among the waiting ones and its record last in the expected queue |
| `WritableStreamSafety.EnqueueKeeps` | lib/streams.js:1046-1058 | enqueuing appends one record and keeps the total size the exact sum |
| `WritableStreamSafety.ControllerWriteKeeps` | lib/streams.js:2890-2913 | an accepted write, with any outcome of the size function, keeps the invariant |
| `WritableStreamSafety.WriteKeeps` | lib/streams.js:2978-3007 | a write keeps the invariant in every state and breaks nothing |
| `WritableStreamSafety.CloseResult` | lib/streams.js:2694-2716 | closing accepts the request, resolves the ready promise when backpressure was on, appends the close marker and then looks at the queue |
| `WritableStreamSafety.CloseKeeps` | lib/streams.js:2694-2716 | a close keeps the invariant and fails the assertion exactly when the writer asks a second time |
| `WritableStreamSafety.AbortKeeps` | lib/streams.js:2658-2682 | an abort keeps the invariant and breaks nothing |
| `WritableStreamSafety.AcquireKeeps` | lib/streams.js:739-776 | a new writer gets promises that fit the state of the stream |
| `WritableStreamSafety.ReleaseKeeps` | lib/streams.js:3025-3044 | giving up the lock keeps the invariant and breaks nothing |
| `WritableStreamSafety.WriteAccepts` | lib/streams.js:2978-3007 | a write that passes the checks is accepted as the last one with the next number, and the size function accepts nothing itself |
| `WritableStreamSafety.UpdateFollows` | lib/streams.js:3216-3234 | while writable and not closing the ready promise follows the flag, if it did so before |
| `WritableStreamSafety.StartDoneKeeps` | lib/streams.js:2409-2427 | the settlement of start keeps the invariant and reduces what the stream owes |
| `WritableStreamSafety.DealWithRejectionKeeps` | lib/streams.js:2727-2738 | a rejection while writable or erroring keeps the invariant |
| `WritableStreamSafety.WriteFulfilledKeeps` | lib/streams.js:2863-2879 | a fulfilled write leaves the queue and its request settles, in order; the invariant holds and the debt shrinks |
| `WritableStreamSafety.WriteRejectedKeeps` | lib/streams.js:2880-2886 | a rejected write keeps the invariant and the debt shrinks |
| `WritableStreamSafety.CloseFulfilledKeeps` | lib/streams.js:3089-3111 | a fulfilled close keeps the invariant, also when an abort was pending, and the debt shrinks |
| `WritableStreamSafety.CloseRejectedKeeps` | lib/streams.js:3113-3128 | a rejected close keeps the invariant and the debt shrinks |
| `WritableStreamSafety.AbortDoneKeeps` | lib/streams.js:3070-3087 | the settlement of an abort keeps the invariant, and calls a missing resolver exactly when the writer was created after the stream had errored |
| `WritableStreamRuns.FaultFree` | lib/streams.js:2658-3234 | a run breaks no assertion, calls no cleared algorithm and no missing resolver and reads nothing from `undefined` if and only if it avoids the faulty steps: a second close, the abort reaction of a late writer, and a write, abort or close through a released writer |
| `WritableStreamRuns.NeverCallsClearedAlgorithm` | lib/streams.js:2770-2777 | no run ever calls a sink algorithm that was cleared |
| `WritableStreamRuns.SecondCloseWitness` | lib/streams.js:820-838 | a writer that closes twice breaks the assertion of the internal close, because the check before it creates a rejection without returning it |
| `WritableStreamRuns.LateWriterWitness` | lib/streams.js:3178-3192 | a writer created while the sink is still aborting makes the reaction call a resolver that is not there |
| `WritableStreamRuns.StaleWriterWitness` | lib/streams.js:806-864 | on any unlocked stream, acquiring and releasing a writer and then calling its `write` or `abort` fails an assertion, and its `close` reads from `undefined`, because the checks before them create a rejection without returning it |
| `WritableStreamRuns.ProtocolMeaning` | lib/streams.js:2740-2888 | a trace that the protocol automaton accepts has start first, no overlapping calls, at most one last call, and no write or close after a failure |
| `WritableStreamRuns.SinkTrace` | lib/streams.js:2658-3128 | over every run the sink sees well-behaved calls; the chunks are a prefix of the accepted ones; close starts only after all of them were handed over and fulfilled |
| `WritableStreamRuns.WriteConserved` | lib/streams.js:2978-3007 | every accepted write is settled once, in flight or waiting: in exactly one place |
| `WritableStreamRuns.Ended` | lib/streams.js:3046-3149 | an errored or closed stream has settled every accepted write in order; a closed one has fulfilled them all |
| `WritableStreamRuns.Quiescent` | lib/streams.js:2740-2768 | when no sink promise is outstanding, every accepted write, close and abort is settled and the queue is empty |
| `WritableStreamRuns.Drains` | lib/streams.js:2863-2886 | every settlement reduces the number of promises the stream owes, which is never negative |
| `WritableStreamRuns.Backpressure` | lib/streams.js:2805-2812 | while writable and not closing, the flag says exactly whether the queue has reached the high-water mark and the ready promise is pending exactly when it does |
| `WritableStreamObject.StreamObject.constructor` | lib/streams.js:1113-1124 | a new stream with its controller, linked to each other, is the initial state of the run semantics |
| `WritableStreamObject.WriterObject.Write` | lib/streams.js:852-864 | through a writer that holds the lock the invariant of its stream is kept; through a released one an assertion fails and no slot changes |
| `WritableStreamObject.WriterObject.Abort` | lib/streams.js:806-818 | the same for `abort` |
| `WritableStreamObject.WriterObject.Close` | lib/streams.js:820-838 | the same for `close`, which reads from `undefined` through a released writer |
| `WritableStreamObject.WriterObject.ReleaseLock` | lib/streams.js:840-850 | the links between writer and stream are cut on both sides and the writer is stale for good |
| `WritableStreamObject.StreamObject.UpdateBackpressure` | lib/streams.js:3216-3234 | the ready promise of the linked writer follows the flag and no assertion fails |
| `WritableStreamObject.StreamObject.RejectCloseAndClosedPromiseIfNeeded` | lib/streams.js:3178-3192 | afterwards no close request waits and no linked writer has an open closed promise |
| `WritableStreamObject.StreamObject.RejectWriteRequests` | lib/streams.js:3052-3056 | the loop rejects every waiting write in order |
| `WritableStreamObject.StreamObject.FinishErroring` | lib/streams.js:3046-3087 | from every state in which it may be called the stream ends errored, the invariant holds again, no settlement is withdrawn and nothing breaks |
| `WritableStreamObject.StreamObject.StartErroring` | lib/streams.js:3194-3214 | from every state in which it may be called the stream is not writable any more and the invariant holds again |
| `WritableStreamObject.StreamObject.DealWithRejection` | lib/streams.js:2727-2738 | the invariant holds again after a rejection, whether it starts or finishes the error |
| `WritableStreamObject.StreamObject.ErrorIfNeeded` | lib/streams.js:2796-2803 | the stream is not writable any more and the invariant is kept |
| `WritableStreamObject.StreamObject.ProcessWrite` | lib/streams.js:2855-2862 | with a write at the head of the queue the invariant holds again after the first waiting request went to the sink |
| `WritableStreamObject.StreamObject.ProcessClose` | lib/streams.js:2834-2853 | with the close marker at the head the invariant holds again after the close went to the sink |
| `WritableStreamObject.StreamObject.AdvanceQueueIfNeeded` | lib/streams.js:2740-2768 | whatever can go on goes on, and the invariant holds again |
| `WritableStreamObject.StreamObject.Write` | lib/streams.js:2978-3007 | the request returned is exactly the one accepted last, with this chunk; the invariant is kept and nothing breaks |
| `WritableStreamObject.StreamObject.Close` | lib/streams.js:2694-2716 | keeps the invariant, and fails the assertion exactly on a second close |
| `WritableStreamObject.StreamObject.Abort` | lib/streams.js:2658-2682 | the stream is not writable any more, the invariant is kept and nothing breaks |
| `WritableStreamObject.StreamObject.GetWriter` | lib/streams.js:739-776 | a fresh writer linked to the stream, with promises that fit its state; the invariant is kept |
| `WritableStreamObject.StreamObject.StartSettled` | lib/streams.js:2411-2427 | keeps the invariant and leaves fewer outstanding promises |
| `WritableStreamObject.StreamObject.SinkWriteSettled` | lib/streams.js:2863-2886 | keeps the invariant, fulfilled or rejected, and leaves fewer outstanding promises |
| `WritableStreamObject.StreamObject.SinkCloseSettled` | lib/streams.js:3089-3128 | keeps the invariant, fulfilled or rejected, and leaves fewer outstanding promises |
| `WritableStreamObject.StreamObject.SinkAbortSettled` | lib/streams.js:3070-3087 | keeps the invariant, leaves fewer outstanding promises, and misses a resolver exactly for a late writer |
| `WritableStreamObject.Drive` | lib/streams.js:2658-3234 | the linked objects driven by any sequence of events, calls through a released writer included, are the state of the run semantics, so everything proved of runs holds of them |
| `ReadableStreamSafety.PullKeeps` | lib/streams.js:1515-1543 | asking the source for more keeps the invariant |
| `ReadableStreamSafety.CloseKeeps` | lib/streams.js:1560-1572 | closing keeps the invariant: at once with an empty queue, later otherwise |
| `ReadableStreamSafety.ErrorKeeps` | lib/streams.js:1613-1624 | an error answers every waiting read and keeps the invariant |
| `ReadableStreamSafety.EnqueueKeeps` | lib/streams.js:1574-1597 | an enqueued chunk answers the first waiting read or goes to the end of the queue, with any outcome of the size function |
| `ReadableStreamSafety.ReadKeeps` | lib/streams.js:1655-1677 | a read takes the head of the queue, waits, or ends; answers stay in order |
| `ReadableStreamSafety.CancelKeeps` | lib/streams.js:1453-1468 | a cancel answers the waiting reads, drops the queue and keeps the invariant |
| `ReadableStreamSafety.ReactionKeeps` | lib/streams.js:2252-2288 | the settlements of start and pull keep the invariant |
| `ReadableStreamSafety.ReaderKeeps` | lib/streams.js:1991-2030 | taking and releasing a reader keeps the invariant |
| `ReadableStreamSafety.StepKeeps` | lib/streams.js:1443-1715 | every event keeps: waiting reads mean an empty queue and a readable stream; a requested close means a non-empty queue; answers and queue together are what was enqueued |
| `ReadableStreamSafety.Reachable` | lib/streams.js:2252-2288 | the invariant holds in every state of every run |
| `ReadableStreamSafety.ReadsAnsweredInOrder` | lib/streams.js:242-263 | the reads answered, followed by the reads waiting, are the reads made, in the order made |
| `ReadableStreamSafety.ReadAnswers` | lib/streams.js:1655-1677 | a read gets the head of the queue under its own number at once, or waits behind the others, or learns how the stream ended |
| `ReadableStreamSafety.EnqueueDelivers` | lib/streams.js:1574-1597 | a chunk goes to the read that has waited longest, otherwise to the end of the queue, otherwise the stream errs |
| `ReadableStreamSafety.CancelLeaves` | lib/streams.js:1453-1468 | after a cancel nothing is queued and no read waits |
| `ReadableStreamSafety.FirstInFirstOut` | lib/streams.js:242-263 | in every run read i, once answered, is the i-th answered one and a chunk it got is the i-th chunk enqueued; done comes only after chunks, and without cancel only after all of them; no assertion fails |
| `ReadableStreamObject.ReadableObject.constructor` | lib/streams.js:2252-2288 | a new stream with its controller, linked to each other, is the initial state of the run semantics |
| `ReadableStreamObject.ReadableObject.CallPullIfNeeded` | lib/streams.js:1515-1543 | at most one call of the pull algorithm, and the invariant is kept |
| `ReadableStreamObject.ReadableObject.AnswerReads` | lib/streams.js:1470-1493 | the loop answers every waiting read once, under its own number and in order |
| `ReadableStreamObject.ReadableObject.CloseStream` | lib/streams.js:1470-1493 | the stream is closed and no read waits |
| `ReadableStreamObject.ReadableObject.ControllerError` | lib/streams.js:1613-1624 | a readable stream errs, any other keeps its state, and the invariant is kept |
| `ReadableStreamObject.ReadableObject.ControllerClose` | lib/streams.js:1560-1572 | an open stream has its close requested and is closed if nothing is queued; the invariant is kept |
| `ReadableStreamObject.ReadableObject.ControllerEnqueue` | lib/streams.js:1574-1597 | the chunk goes to the read that has waited longest, or to the end of the queue, or the stream errs; the invariant is kept |
| `ReadableStreamObject.ReadableObject.Read` | lib/streams.js:242-263 | the number returned is the next one, and under it the head of the queue is answered at once, or the read waits last, or it learns how the stream ended; the invariant is kept |
| `ReadableStreamObject.ReadableObject.Cancel` | lib/streams.js:1453-1468 | nothing is queued, no read waits and the invariant is kept |
| `ReadableStreamObject.ReadableObject.GetReader` | lib/streams.js:1991-2009 | a fresh reader linked to the stream, unless it has one; the invariant is kept |
| `ReadableStreamObject.ReadableObject.ReleaseLock` | lib/streams.js:2011-2030 | the links are cut on both sides unless reads wait; the invariant is kept |
| `ReadableStreamObject.Drive` | lib/streams.js:1443-1715 | the linked objects driven by any sequence of events are the state of the run semantics and satisfy the invariant |
| `Tee.OpKeeps` | lib/streams.js:2123-2132 | any operation of a consumer on one branch keeps the invariant of the pair |
| `Tee.ChunkKeeps` | lib/streams.js:2075-2096 | a chunk of the source goes to both uncancelled branches, including the pull that the first enqueue may start in between |
| `Tee.DoneKeeps` | lib/streams.js:2058-2074 | the end of the source closes both uncancelled branches |
| `Tee.ErrorBothKeeps` | lib/streams.js:2133-2148 | an error of the source reaches both branches |
| `Tee.CancelBranchKeeps` | lib/streams.js:2102-2121 | cancelling one branch keeps the invariant of the pair: the other branch still gets every chunk, and the source is cancelled with the second cancel only |
| `Tee.TeeReachable` | lib/streams.js:2032-2150 | the invariant of the pair holds in every state of every run |
| `Tee.BranchReceivesSource` | lib/streams.js:2032-2150 | an uncancelled branch of a source without error has been given exactly the chunks read from the source, in order; its reads and its queue together are that sequence |
| `Tee.BranchReadGetsChunk` | lib/streams.js:2032-2150 | over every run read i of either branch, once answered, is the i-th answered one, and a chunk it got is chunk i of the source |
| `Tee.SourceCanceledOnce` | lib/streams.js:2102-2121 | the source is cancelled at most once, exactly when both branches are, with the reasons in branch order |
| `Tee.NoReadStarves` | lib/streams.js:2047-2101 | a started branch with a waiting read has a source read under way or a pull reaction due that will start one |
| `TeeObject.TeeClosure.constructor` | lib/streams.js:2032-2132 | two linked branches that share no object |
| `TeeObject.TeeClosure.PullAlgorithm` | lib/streams.js:2047-2052 | afterwards exactly one source read is outstanding, and one more was made exactly if there was none |
| `TeeObject.TeeClosure.OperateOn` | lib/streams.js:2123-2132 | an operation on one branch leaves every object of the other alone, and the pull algorithm runs if the branch called it |
| `TeeObject.TeeClosure.OnChunk` | lib/streams.js:2075-2096 | feeding both branches keeps the invariant of the pair |
| `TeeObject.TeeClosure.OnDone` | lib/streams.js:2058-2074 | ending both branches keeps the invariant of the pair |
| `TeeObject.TeeClosure.OnError` | lib/streams.js:2133-2148 | neither branch is readable any more, and the invariant of the pair is kept |
| `TeeObject.TeeClosure.CancelOne` | lib/streams.js:2102-2121 | only the objects of that branch change, and the invariant of the pair is kept |
| `TeeObject.Drive` | lib/streams.js:2032-2150 | the closure and its branches driven by any sequence of events are the state of the run semantics and satisfy the invariant of the pair |
| `Rotation.ComputeGcd` | deps/argtable/argtable3.c:1452-1463 | the loop computes Euclid's recursion |
| `Rotation.GcdProperties` | deps/argtable/argtable3.c:1452-1463 | the result divides both numbers and is an integer combination of them |
| `Rotation.GcdGreatest` | deps/argtable/argtable3.c:1452-1463 | every common divisor divides the result |
| `Rotation.CyclesPartition` | deps/argtable/argtable3.c:1470-1497 | the gcd-many cycles are disjoint, have n/gcd positions each and together visit every position exactly once |
| `Rotation.CycleOf` | deps/argtable/argtable3.c:1479-1489 | the walk that the inner loop follows is one cycle of the exchange of the two blocks |
| `Rotation.FollowCycle` | deps/argtable/argtable3.c:1483-1495 | the swaps of one cycle bring every element of the cycle to its place and touch nothing else |
| `Rotation.ExchangeClass` | deps/argtable/argtable3.c:1482-1496 | one turn of the outer loop moves exactly the elements of its residue class |
| `Rotation.PermuteArgs` | deps/argtable/argtable3.c:1470-1497 | the range becomes the second block followed by the first, each in its old order; nothing else changes |
| `Getopt.FindLongOption` | deps/argtable/argtable3.c:1521-1547 | the loop finds the first exact entry, otherwise the only abbreviated one, and reports ambiguity exactly when two entries before the first exact one are abbreviated |
| `Getopt.ParseLong` | deps/argtable/argtable3.c:1504-1605 | a long option uses one argument or two; only a possible short option is passed on |
| `Getopt.ScanShort` | deps/argtable/argtable3.c:1740-1793 | a short option shortens the current argument or moves on by at most one argument more; it gets stuck only on a dash that is no option letter |
| `Getopt.ScanOption` | deps/argtable/argtable3.c:1720-1793 | one call makes progress and stays inside the argument vector |
| `Getopt.AnswersAreCodes` | deps/argtable/argtable3.c:1720-1793 | no answer for an option is the end mark |
| `Getopt.ClassifyKeepsAll` | deps/argtable/argtable3.c:1612-1793 | every argument gets one label, and options, operands and rest are the arguments with that label in the order given: sorting loses and invents none and is stable |
| `Getopt.ClusterOnText` | deps/argtable/argtable3.c:1740-1793 | without long options, an argument stops the scan exactly if it ends in a dash, no earlier letter takes an argument, and the dash is no letter; and it uses the next argument exactly if its last letter asks for it |
| `Getopt.StrayExactly` | deps/argtable/argtable3.c:1612-1793 | the scan stops early if and only if there is no table, no dash among the letters, and going over the options as text reaches one that ends in a stray dash |
| `Getopt.NoStrayDash` | deps/argtable/argtable3.c:1740-1747 | with a long-option table or a dash among the letters no scan stops early |
| `Getopt.StrayDashWitness` | deps/argtable/argtable3.c:1746-1747 | without them `-a-` answers the end mark before the operands are moved |
| `Getopt.Scanner.constructor` | deps/argtable/argtable3.c:1644-1649 | the scanner after a reset |
| `Getopt.Scanner.MoveOperands` | deps/argtable/argtable3.c:1686-1693 | both blocks are non-empty when they are exchanged; afterwards the options passed stand before the operands passed |
| `Getopt.Scanner.SkipOperand` | deps/argtable/argtable3.c:1669-1697 | an operand joins the operand block, after moving the block if an option came in between |
| `Getopt.Scanner.FinishAtEnd` | deps/argtable/argtable3.c:1653-1668 | at the end of the vector everything is sorted and `optind` is at the first operand |
| `Getopt.Scanner.FinishAtDashes` | deps/argtable/argtable3.c:1701-1717 | at `--` everything before it is sorted, the rest stays, and `optind` is at the first operand |
| `Getopt.Scanner.CollectOperands` | deps/argtable/argtable3.c:1711-1715 | brings the operands behind the options and moves to the first of them |
| `Getopt.Scanner.EndOperands` | deps/argtable/argtable3.c:1698-1699 | the first option after operands closes their block |
| `Getopt.Scanner.ScanHere` | deps/argtable/argtable3.c:1720-1793 | the answer is the next one of the plain scan that skips operands |
| `Getopt.Scanner.GetOpt` | deps/argtable/argtable3.c:1612-1793 | answers the next option, or the end mark with the vector sorted |
| `Getopt.Scanner.Run` | deps/argtable/argtable3.c:1612-1793 | calling until the end mark stably partitions the vector, with the answers of the plain scan, if and only if there is a table, a dash among the letters, or no option ending in a stray dash is reached; the condition is on the option string and the arguments as given |
| `Getopt.GetoptLong` | deps/argtable/argtable3.c:1818-1828 | `getopt_long` and `getopt_long_only` leave program name, options with their arguments, operands, and what follows `--`, each in its old order, return the index of the first operand, and answer what the plain scan answers |
| `OptionText.PlainScans` | deps/argtable/argtable3.c:1740-1773 | a declared letter without argument is answered with itself, an undeclared one with a question mark, and only the letter is skipped |
| `OptionText.ArgumentScans` | deps/argtable/argtable3.c:1774-1790 | a letter with an argument takes the rest of its argument, else the next one if it must have one, and complains if there is none |
| `OptionText.ClusterScans` | deps/argtable/argtable3.c:1740-1793 | clustered letters are answered one by one, then the rest of the argument is scanned |
| `OptionText.BareScans` | deps/argtable/argtable3.c:1548-1605 | a long option written without argument answers its entry |
| `OptionText.EqualScans` | deps/argtable/argtable3.c:1514-1517 | a long option takes the text behind its equals sign |
| `OptionText.SeparateScans` | deps/argtable/argtable3.c:1561-1570 | a long option that needs an argument takes the next one |
| `OptionText.WrongCountScans` | deps/argtable/argtable3.c:1549-1592 | a forbidden or missing argument of a long option is answered with a colon if the option string asks for it, otherwise a question mark |
| `OptionText.UnknownScans` | deps/argtable/argtable3.c:1538-1599 | a long option of no entry or of several is answered with a question mark |
| `OptionText.WrittenIsScanned` | deps/argtable/argtable3.c:1504-1793 | for every line of letters, clusters, attached and separate arguments, long options by name or abbreviation, operands, undeclared letters, unknown or ambiguous names, and forbidden or missing arguments: the plain scan reports exactly what was written, in order |
| `OptionText.ScanLine` | deps/argtable/argtable3.c:1612-1793 | the scanner on such a line leaves program name, option texts and operands, answers the meanings in order, and stops at the first operand |
| `PathNormaliser.Absorb` | lib/path.js:44-80 | a complete segment changes `res` and `lastSegmentLength` to the joined stack after a push and the length of its top |
| `PathNormaliser.TopTest` | lib/path.js:48 | the test on the last characters and the last length says exactly whether the top of the stack is `..` |
| `PathNormaliser.NormalizeString` | lib/path.js:36-88 | for every string and both root modes the one pass equals joining the stack left by folding over the segments |
| `PathNormaliser.StackNormal` | lib/path.js:36-88 | the result has no empty or `.` segment, and `..` only as a leading run and only when allowed |
| `PathNormaliser.FoldOfNormal` | lib/path.js:36-88 | folding a normal stack rebuilds it |
| `PathNormaliser.SegmentsJoin` | lib/path.js:36-88 | splitting a joined stack gives it back |
| `PathNormaliser.NormalizePath` | lib/path.js:131-147 | the method computes the rendering of the normal stack |
| `PathNormaliser.RenderReads` | lib/path.js:131-147 | a rendered normal stack reads back as the same stack, root and trailing slash |
| `PathNormaliser.NormalizeIdempotent` | lib/path.js:131-147 | normalising twice is normalising once |
| `PathNormaliser.JoinArguments` | lib/path.js:154-166 | the loop glues the non-empty arguments and normalises |
| `PathNormaliser.JoinNormalized` | lib/path.js:154-166 | a non-empty first argument may be normalised before joining, whatever follows |
| `PathNormaliser.ResolvePaths` | lib/path.js:92-129 | the loop from the right computes `Resolve` |
| `PathNormaliser.CollectVisits` | lib/path.js:97-113 | the text collected from the right denotes the directory reached from the left |
| `PathNormaliser.ResolveVisits` | lib/path.js:92-129 | with an absolute working directory the result is the absolute path of the directory reached by visiting the arguments in order |
| `PathNormaliser.ResolveTwice` | lib/path.js:92-129 | resolving in two steps equals resolving at once, for argument lists of any length |
| `CacheBatch.CheckVary` | lib/cache.js:249-258 | the loop says whether all varying header fields agree, `*` never |
| `CacheBatch.RequestMatchesCachedItem` | lib/cache.js:231-259 | the method decides `Matches`: method, URL with or without query, vary fields |
| `CacheBatch.QueryCache` | lib/cache.js:261-269 | the loop returns exactly the matching entries in order |
| `CacheBatch.EntryList.RemoveMatching` | lib/cache.js:286-291 | the backward splice loop is a filter |
| `CacheBatch.EntryList.OneStep` | lib/cache.js:274-320 | one operation fails with the error of the specification, or filters what was stored before and appends its item; items of the same batch are never removed |
| `CacheBatch.EntryList.AtomicSteps` | lib/cache.js:271-321 | a batch without error leaves the entries no operation matches followed by the put items in batch order; otherwise it fails with the first faulty operation's error |
| `CacheBatch.UntouchedIsUnmatched` | lib/cache.js:271-321 | filtering operation by operation equals one filter by all operations |
| `CacheBatch.FirstError` | lib/cache.js:271-321 | later operations do not change the error of an earlier one |
| `CacheBatch.BatchNoShadowing` | lib/cache.js:271-321 | a batch without error keeps: no entry's request matches an earlier entry under default options |
| `CacheBatch.RunNoShadowing` | lib/cache.js:323-347 | this holds after every run of batches from an empty cache, failing ones included |
| `CacheBatch.PutThenMatchAll` | lib/cache.js:400-428 | right after a put, looking the request up finds exactly the stored response; the put fails exactly for a method other than GET or another protocol |
| `CacheBatch.DeleteThenMatchAll` | lib/cache.js:499-515 | right after a delete nothing matches under the same options and every other entry is still there in order |
| `CacheBatch.CacheStore.BatchCacheOperations` | lib/cache.js:323-347 | a batch that throws writes nothing to the store |
| `CacheBatch.CacheStore.Put` | lib/cache.js:474-497 | succeeds exactly for a GET over http or https with a cacheable, unread response, and then the lookup finds exactly that response; otherwise nothing changes |
| `CacheBatch.CacheStore.Delete` | lib/cache.js:499-515 | removes exactly the matching entries; an unsupported protocol changes nothing |
| `Framing.DecodeLength` | tools/inspect-client.js:156-163 | the loop over eight length bytes with 32-bit arithmetic and missing bytes read as zero |
| `Framing.ReadLengthBytes` | tools/inspect-client.js:156-163 | every length below 2^31 is read back |
| `Framing.PartialLength` | tools/inspect-client.js:156-168 | with length bytes missing the frame is incomplete |
| `Framing.DecodeFrame` | tools/inspect-client.js:111-176 | a decoded non-empty payload always consumes bytes |
| `Framing.DecodeHeader` | tools/inspect-client.js:117-167 | a valid header passes all checks and selects the form of the length |
| `Framing.DecodeWhole` | tools/inspect-client.js:111-176 | a whole frame in front is decoded and cut off, whatever follows |
| `Framing.DecodePartial` | tools/inspect-client.js:111-176 | any shorter prefix is left alone |
| `Framing.Client.HandleChunk` | tools/inspect-client.js:189-234 | the loop dispatches and keeps exactly what `Drain` says of the buffered bytes |
| `Framing.DrainTakes` | tools/inspect-client.js:189-234 | a pass over any prefix of a frame stream takes whole frames off its front and keeps the rest; it stops before a message only for want of bytes or behind an empty frame |
| `Framing.FeedTakes` | tools/inspect-client.js:189-234 | chunk by chunk, no message is left behind in the buffer while no empty frame stands before it |
| `Framing.Deliver` | tools/inspect-client.js:189-234 | the client on all the chunks of a connection dispatches and keeps what `Feed` says |
| `Framing.CuttingDoesNotMatter` | tools/inspect-client.js:189-234 | however a stream is cut, if no empty frame stands before a message the client dispatches exactly the messages in order, fails nowhere, and without empty frames ends with an empty buffer |
| `Framing.OneChunkStalls` | tools/inspect-client.js:204 | a message behind an empty frame is not dispatched when everything comes in one chunk |
| `Framing.RobustExactly` | tools/inspect-client.js:189-234 | every cutting dispatches exactly the messages if and only if no empty frame, in any of the three length forms, stands before a message |
| `Framing.EmptyFrameStalls` | tools/inspect-client.js:204 | behind an empty frame a message waits for more bytes, even for none |
| `Framing.WriteLength` | tools/inspect-client.js:82-86 | the loop writes the big-endian length |
| `Framing.MaskPayload` | tools/inspect-client.js:102-106 | masking with any four-byte key is undone by the server |
| `Framing.EncodeFrame` | tools/inspect-client.js:74-109 | a server that follows section 5.2 of RFC 6455 reads the payload back, for all three forms of the length |
| `HashTable.Table.constructor` | deps/argtable/argtable3.c:548-579 | an empty map in a table larger than asked for |
| `HashTable.Table.Create` | deps/argtable/argtable3.c:548-579 | a size above 2^30 is refused, any other gives an empty map |
| `HashTable.LimitsGrow` | deps/argtable/argtable3.c:525-529 | the next prime admits more entries than the last |
| `HashTable.HoldsInsert` | deps/argtable/argtable3.c:633-640 | putting a new key in front of its bucket extends the map |
| `HashTable.HoldsRemove` | deps/argtable/argtable3.c:675-684 | unlinking an entry removes its key from the map |
| `HashTable.OnePlace` | deps/argtable/argtable3.c:633-640 | no node is linked twice: its key decides the bucket, and no bucket holds a key twice |
| `HashTable.Table.Search` | deps/argtable/argtable3.c:643-658 | returns the mapped value, or nothing exactly when the key is absent |
| `HashTable.Table.MoveOne` | deps/argtable/argtable3.c:602-605 | relinking the first node of a chain takes it out of one table and into its bucket of the other, and no other chain of either notices |
| `HashTable.Table.MoveChain` | deps/argtable/argtable3.c:601-606 | emptying one chain node by node moves its bindings to the new table and loses none |
| `HashTable.Table.MoveAll` | deps/argtable/argtable3.c:600-607 | after both loops the new table holds the whole map |
| `HashTable.Table.Expand` | deps/argtable/argtable3.c:581-614 | rehashing changes no binding; it fails exactly at the largest prime |
| `HashTable.Table.Insert` | deps/argtable/argtable3.c:620-641 | adds a binding, expands when the load limit is reached, and keeps the count and the load bound |
| `HashTable.Table.Unlink` | deps/argtable/argtable3.c:675-684 | setting the link of the node before it takes exactly one node out of its chain; every other chain and the rest of this one stay linked |
| `HashTable.Table.Remove` | deps/argtable/argtable3.c:660-688 | follows the links to the node of the key, unlinks it through the node before it, and removes exactly its binding |
| `HashTable.Table.Register` | deps/argtable/argtable3.c:4645-4686 | search, remove and insert replace or add the command |
| `HashTable.Table.Unregister` | deps/argtable/argtable3.c:4688-4690 | removes the command |
| `HashTable.Table.Perform` | deps/argtable/argtable3.c:4645-4690 | after any sequence of registrations and removals the table agrees with the map updated the same way |
| `HashTable.FlatVisits` | deps/argtable/argtable3.c:720-790 | a walk over all buckets meets every binding exactly once |
| `HashTable.Cursor.constructor` | deps/argtable/argtable3.c:720-741 | a new iterator has exactly the bindings of the map before it, each once |
| `HashTable.Cursor.Advance` | deps/argtable/argtable3.c:755-790 | following the link or seeking the next bucket drops exactly the current entry, and the parent is the node before the new one |
| `HashTable.Cursor.TakeOut` | deps/argtable/argtable3.c:798-806 | after the unlinking, the removed node still leads to the nodes behind it |
| `HashTable.Cursor.RemoveCurrent` | deps/argtable/argtable3.c:792-819 | unlinking the current node through its parent removes exactly its binding, the walk goes on behind it, and the corrected parent is again the node before the current one |
| `Base64.Letter` | deps/modp_b64/modp_b64_data.h:3-6 | a six-bit value and its letter determine each other |
| `Base64.Encoded` | deps/modp_b64/modp_b64.cc:80-118 | the encoded length is four times the number of started triples |
| `Base64.TablesEncode` | deps/modp_b64/modp_b64.cc:89-95 | the tables give the four letters of the 24-bit group of section 4 of RFC 4648 |
| `Base64.TablesDecode` | deps/modp_b64/modp_b64.cc:215-221 | or-ing the four words finds a character outside the alphabet and otherwise lays out the three bytes of the group |
| `Base64.Encode` | deps/modp_b64/modp_b64.cc:80-118 | writes exactly the encoded text and a terminator, and nothing behind it |
| `Base64.EncodeTail` | deps/modp_b64/modp_b64.cc:98-114 | the padded end of the text |
| `Base64.Decode` | deps/modp_b64/modp_b64.cc:189-251 | fails exactly on what the reference refuses; otherwise the returned length and the bytes are the decoded text |
| `Base64.DecodeTail` | deps/modp_b64/modp_b64.cc:223-250 | the last quad with its padding |
| `Base64.Accepts` | deps/modp_b64/modp_b64.cc:189-251 | exactly the whole quads of alphabet letters with at most two padding characters at the end are accepted |
| `Base64.DecodedLength` | deps/modp_b64/modp_b64.cc:223-250 | the decoded length is three bytes a quad minus the padding |
| `Base64.RoundTrip` | deps/modp_b64/modp_b64.cc:80-251 | decoding what was encoded gives it back, for every byte string |
| `Base64.Reencodes` | deps/modp_b64/modp_b64.cc:189-251 | encoding what was decoded gives the text back if and only if the unused bits of its last letter are zero |
| `Base64.SlackWitness` | deps/modp_b64/modp_b64.cc:237-240 | two texts that decode to the same byte |
| `FileStream.NextKeeps` | src/zero_copy_file_stream.cc:215-227 | a handed-out buffer joins the end of the queue and of what was produced |
| `FileStream.BackUpKeeps` | src/zero_copy_file_stream.cc:229-233 | cutting the buffer just handed out cuts the end of what was produced; the check in it holds |
| `FileStream.IdleKeeps` | src/zero_copy_file_stream.cc:239-244 | the delayed first write keeps the invariant |
| `FileStream.WrittenMoves` | src/zero_copy_file_stream.cc:165-170 | the bytes of a partial write move from the front of the queue to the end of the file |
| `FileStream.WrittenKeeps` | src/zero_copy_file_stream.cc:153-186 | a report of any number of bytes keeps the invariant: next write, or end of the work, or disposal |
| `FileStream.DisposeKeeps` | src/zero_copy_file_stream.cc:120-132 | a disposal ends at once or is left to the last report |
| `FileStream.Reachable` | src/zero_copy_file_stream.cc:120-255 | the invariant holds in every state of every legal run, failed writes included |
| `FileStream.FileIsPrefix` | src/zero_copy_file_stream.cc:153-193 | the file is the first `written_count_` bytes of what was produced, and what is queued is the rest |
| `FileStream.NeverBroken` | src/zero_copy_file_stream.cc:215-233 | no check fails, no empty queue is read, and after the deletion nothing can call the stream back |
| `FileStream.EndsOnce` | src/zero_copy_file_stream.cc:120-132 | the end callback fires at most once, after the disposal, with the descriptor closed and every byte in the file |
| `FileStream.EndsUnlessFailed` | src/zero_copy_file_stream.cc:157-163 | when the loop is quiet after a disposal, the end callback has fired if and only if no write failed |
| `FileStream.StuckAfterFailure` | src/zero_copy_file_stream.cc:159-163 | after a failed write nothing calls the stream back again and the end callback never fires |
| `FileStream.Progress` | src/zero_copy_file_stream.cc:153-193 | every callback that writes something brings the run closer to its end |
| `FileStream.Completes` | src/zero_copy_file_stream.cc:153-193 | a disposed stream without a failed write reaches its end by callbacks alone |
| `FileStreamObject.OutputFileStream.constructor` | src/zero_copy_file_stream.cc:195-206 | an open, empty file and a stopped idle handle that leads back to the stream |
| `FileStreamObject.OutputFileStream.Next` | src/zero_copy_file_stream.cc:215-227 | hands out a fresh array that is also the last one of the queue, so what the caller puts there later is what will be written; fails exactly on a stream that is being disposed of |
| `FileStreamObject.OutputFileStream.FillLast` | src/zero_copy_file_stream.cc:215-227 | filling the array handed out last changes that entry of the queue and nothing else, neither the other buffers nor the write in flight |
| `FileStreamObject.OutputFileStream.BackUp` | src/zero_copy_file_stream.cc:229-233 | directly after its `Next` it takes exactly so many bytes off the end of what was produced, in place, and keeps the invariant |
| `FileStreamObject.OutputFileStream.IdleCb` | src/zero_copy_file_stream.cc:239-244 | stops the handle and keeps the invariant: nothing produced is lost |
| `FileStreamObject.OutputFileStream.Land` | src/zero_copy_file_stream.cc:153-167 | the bytes that reach the file are read from the shared buffer itself |
| `FileStreamObject.OutputFileStream.WriteCb` | src/zero_copy_file_stream.cc:153-186 | file and queue together still hold what was produced, after any number of bytes and after an error, which leaves nobody to call the stream back |
| `FileStreamObject.OutputFileStream.DisposeAndDelete` | src/zero_copy_file_stream.cc:120-132 | keeps the invariant, and a stream deleted at once has left everything in the file |
| `FileStreamObject.OutputFileStream.SetWriting` | src/zero_copy_file_stream.cc:246-255 | the flag has the new value, and turning it on has started the idle handle |
| `FileStreamObject.Drive` | src/zero_copy_file_stream.cc:120-255 | the linked objects driven by any legal schedule are the state of the run semantics, with the file a prefix of what was produced, complete when the end was reported |

## Left out

- TransformStream and `pipeTo`: their helpers differ from the standard they follow, so its claims do not carry over as they stand.
- The byte stream controller and its bring-your-own-buffer reads.
- The public wrappers of the writer and reader: brand checks and promises handed to the user; the model starts at the internal operations, with `write`, `abort` and `close` of the writer included because of their missing returns.
- WritableStreamObject.WriterObject.ReleaseLock: the promises of a writer that has given up its lock are not tracked further.
- User callbacks that call back into the stream while they run (a size function or a sink method that writes); a reaction is one step.
- Chunk sizes and high-water marks are real numbers or infinite; rounding of floating point is not modelled.
- Structured cloning of the chunks for the second branch of `tee`: both branches get the same value.
- Identity and timing of the promises beyond the order of reactions; the promise that a cancelled branch returns.
- OptionText.WrittenIsScanned: for `getopt_long`; with `getopt_long_only` a single dash may also start a long option, which `ScanOption` models and this theorem does not describe.
- Getopt.GetoptLong: the permuting mode only; the option-first and in-order modes stop at or return the first operand and move nothing. Printing of messages and the option index out-parameter are left out, an entry whose value is the end mark is excluded, and the vector holds at least the program name.
- Rotation.PermuteArgs: the second block is not empty, since its length is a divisor; the scanner always calls it with both blocks non-empty.
- HashTable.Table.Insert: a key is inserted once, as the comment in the source asks of its callers; the freeing of memory is not modelled, and the load limit is the exact ceiling of 0.65 times the size without single-precision rounding.
- `arg_hashtable_change`, `arg_hashtable_itr_search` and the destructors of the hash table, which would only add easier members.
- PathNormaliser.ResolveVisits: the working directory is absolute, as the operating system gives it; `ResolvePaths` itself takes any.
- URL parsing, header folding beyond ASCII, cookies and the storage pages behind the cache: a request carries its URL with and without query, its method and its headers.
- The network half of the cache (`add`, `addAll`, fetching) and `CacheStorage`.
- Framing.Client.HandleChunk: whether a payload is a message of the protocol is a parameter, and dispatching a message is recording it.
- Framing.EncodeFrame: payloads below 2^31 bytes, where the 32-bit operators of the source are exact.
- Base64.Decode: the little-endian build; source and destination are different buffers.
- FileStream.Reachable: a BackUp directly follows its Next, before the loop runs again, which is what the delayed first write in the source provides for.
- The input file stream: its `Skip` and `ByteCount` do not do what their names say.
- Opening and closing files and the loop of the operating system in FileStream: they are events and flags. A caller that fills a buffer only after its write has started is left out, as the comment in the source leaves it out; the freeing of buffers is not modelled.
- V8 bindings, the inspector agent, IPC, timers, the macro task queue, regular expressions, date parsing and the rest of argtable: foreign code, input and output, or easier members.
