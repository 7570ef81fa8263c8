# Eyot: a verified model

Eyot is a small language whose compiler writes C and whose runtime moves work between CPU threads and
the GPU.  This project models the parts of both that are easiest to get wrong, in Dafny 4.11, and proves
what they are for.

| Files | What they model |
|---|---|
| `GarbageCollector.dfy`, `HeapGraph.dfy`, `Retention.dfy`, `RootTable.dfy` | the conservative mark-and-sweep collector: its linked page list, recursive marking, sweeping, relocation, and the table of stack roots |
| `Pipe.dfy`, `CpuWorker.dfy`, `Pipeline.dfy`, `Fifo.dfy` | pipes, CPU workers and pipelines as state machines over atomic steps, under every interleaving, and the queue they implement |
| `GpuWorker.dfy` | the GPU worker's in-place batch queue, against the same queue |
| `Closure.dfy` | closures as bytes, and partial application |
| `Utf8.dfy` | the UTF-8 encoder and decoder |
| `RangeLoop.dfy` | the expansion of `for x: range(...)` into a counting loop |
| `Pins.dfy`, `PinRuns.dfy` | root pinning in generated code, over every path through it |
| `Grammar.dfy`, `StatementGrammar.dfy`, `SourceParser.dfy` | the backtracking parser of expressions and statements, against its grammar |
| `RoundTrip.dfy`, `StatementRoundTrip.dfy`, `ParserSoundness.dfy` | parsing as the inverse of printing, and that it reads what is there |
| `Spelling.dfy`, `StatementSpelling.dfy`, `WriterSpelling.dfy` | particular token sequences: which token means what, and what is written for it |
| `CGrammar.dfy`, `WriterLayout.dfy` | the C grammar of generated expressions, the code generator's layout of an expression, and what C reads from it |
| `LoweredMeaning.dfy` | what expressions compute, and that the code written for them computes it |
| `ImportGraph.dfy`, `Loader.dfy` | the recursive module loader and its cycle check |
| `Location.dfy` | the check of which code may call which from the GPU |

Code that changes state is a class or a method with loops, proved against a function or a relation; what
the source promises is then proved about that function.  Threads are modelled as steps: one locked
section, one semaphore wait or post, or one application of the worker's function is one step, and a run
is any sequence of enabled steps.

`dafny verify dfyconfig.toml` checks everything.

## Main results

- A collection keeps exactly the pages reachable by aligned words from counted roots and the contents of live
  stack variables, which is the least set that has those and what its own words name; in their old order; and it
  unlinks every other page and finalises each of those once.
- Every interleaving of clients with a CPU worker delivers results in order, loses none and panics
  nowhere; a single client's call finishes within a bounded number of steps and does what the queue
  says, and so does any sequence of its calls.  A GPU worker's calls, and any sequence of them, do the same.
- A pipeline delivers, in order, both functions over a prefix of what was sent before its thread began its one
  drain, and nothing that is sent later; a receive hands back the next value and a drain all that is owed, in
  order; and no call gets stuck but one that waits for more than the drain found.
- In every reachable state of a pipe the semaphore accounts for what is stored, so no receive finds an
  empty buffer.
- Generated code leaves the stack roots as it found them on every path exactly when no `break` is
  reachable with a pointer pinned since its loop body began, and no `return` where the name of a pinned
  pointer has been declared again, be it as the variable of a `for`; and at every point of every path the
  roots are those of the open scopes exactly when, moreover, no `return` with a value is reachable while
  something is pinned.
- Parsing undoes printing for every expression of the grammar, with brackets only where the ladder asks
  for them or around every operand of a binary operator, where struct literals are allowed and where
  they are not; and for every statement exactly when each of its breaks is in a loop.  And the parser reads what
  is there: nothing is dropped, invented or reordered.
- C reads the code generator's layout of an expression as the tree that was meant exactly when no binary
  operator stands directly under a prefix operator or a conversion, nothing written with a prefix operator
  (a unary operator, an address, a dereference, a conversion, an element of a vector) or a binary operator
  stands directly under an access or a call, and no negation stands directly under another, nor an address
  under an address.  Then the code computes the expression's value.
- Code written for a block stands for that block: the same statements and branches in the same order.
- A module passes the location check exactly when every name it calls is defined, and code for the GPU calls no
  name bound to the CPU only; for names defined once, or once for each side, exactly when it calls only names with
  GPU code.
- The loader succeeds exactly when every reachable module exists and no import cycle is reachable.

## Results about faults

Some properties hold only under a condition.  Each has the condition stated as an equivalence, or a
concrete input that shows why it is needed.

- `RootTable.RememberThenForget`: forgetting undoes registering exactly when the address was not live;
  `RootTable.DoubleRegistrationLeaks` shows the leak.
- `PinRuns.BalancedExactlyWhenSafe`: a `break` emits no unpins (`src/output/cwriter/write-c.go:719-721`), and a
  `return` unpins by name, which C takes for the innermost declaration; only a second declaration at the same
  level is refused (`src/ast/lvalues.go:215-218`), and the variable of a `for` is bound without that check
  (`src/ast/statements.go:412`).  Two inputs: `let p`, a nested `let p` and a `return` (`PinRuns.PinnedAgainLeaks`); and
  `let p` and a `return` inside `for p: ..` (`PinRuns.LoopTakesNamePanics`), which nothing pins twice.
- `PinRuns.ExactWhenQuiet`: a `return` unpins before its value is evaluated
  (`src/output/cwriter/write-c.go:853-859`), so a collection in that evaluation does not see the pinned pointers.
- `Utf8.RoundTrip`: text survives as a C string exactly when it holds no zero code point.
- `RangeLoop.ExpansionIsTransparent`: the two loops agree on every range exactly when no iteration that goes
  on assigns the loop variable; the language's documentation calls them equivalent without that condition
  (`docs/docs/control-flow.md:59`).
- `WriterLayout.ReadsBackExactlyWhenFlat`: the generator puts no brackets around what a unary operator, a conversion
  or an access applies to (`src/output/cwriter/write-c.go:221-236`, `348-359`, `421-424`), writes an element of a vector
  with a star and a cast before a call (`429-450`), and leaves no space after a prefix operator.  Hence
  `WriterLayout.NegatedSumComesApart` and `ConvertedSumComesApart`, where the operator takes the first operand only,
  `FieldOfElementComesApart`, where `v[i].f` takes the field of the element's address before the star, and
  `DoubleNegationDecrements` and `DoubleAddressIsWrong`, where two signs become one token.
- `RoundTrip.BareBeforeBrace`: the conditions of `if` and of loops lower the struct literal counter, those of
  `elseif` do not (`src/parser/parser.go:1703-1735`); so any condition is read before the block of the former (with
  brackets round a struct literal), and before the block of the latter, without brackets round it, exactly when it
  does not end in a name.  A field's name at the end does no harm.
- `CpuWorker.ReceiveBlocksOnEmpty`: a receive on an empty queue waits, which is the one call that need
  not return.
- `Location.BindingHidesExactlyWhen`, `Location.ImportHidesExactlyWhen`, `Location.BindingsAgreeExactlyWhen`: when the
  binding of a name with several definitions hides code from its own module or from importers, and when the two
  agree; by `Location.SecondDefinitionHidesGpuCode` two definitions are enough.
- `Pipeline.LaterSendsAreLost`: the pipeline's thread drains once (`lib/runtime/eyot-runtime-cpu-pipeline.c:26-31`);
  `Pipeline.EarlyDrainLosesAll` is the run in which it does so first.
- `Location.CpuCallsCpuExactlyWhen`: the check notes calls that need the CPU and not those that need the GPU
  (`src/ast/expressions.go:1196-1208`); `Location.CpuCallToGpuOnlyPasses` is the input.
- The header says that draining a CPU worker closes it (`lib/runtime/eyot-runtime-cpu.h:135`); the code does not,
  and the model follows the code.

## Model

| member | source | states |
|---|---|---|
| `GarbageCollector.Region.Collect` | lib/runtime/eyot-runtime-gc.c:296-341 | The page list becomes the old list, in order, filtered to the pages reachable from counted roots and live stack slots; every other page with a finaliser is finalised once, in list order; links, counts and byte totals stay consistent.  The pages left are the least set that has the counted pages, those whose address a stack variable holds, and what their own words name |
| `GarbageCollector.Region.Mark` | lib/runtime/eyot-runtime-gc.c:299-326 | After clearing and marking, the marked pages are those reachable: the least set that has the roots and what its own words name |
| `Retention.LiveIsLeast` | lib/runtime/eyot-runtime-gc.c:246-341 | The pages a collection keeps are the least set that has every counted page and every page whose address a live stack variable holds, and has each page that eight aligned bytes of its own pages spell the address of |
| `GarbageCollector.Region.MarkPage` | lib/runtime/eyot-runtime-gc.c:246-267 | Recursive marking with its early exit ends, keeps what was marked, and closes the marked set under pointers except for pages still being scanned |
| `GarbageCollector.Region.OwnedPage` | lib/runtime/eyot-runtime-gc.c:103-120 | A word names a page exactly when it equals some page's payload address, and then only that page |
| `GarbageCollector.Region.Sweep` | lib/runtime/eyot-runtime-gc.c:328-338 | Deleting while walking visits each page once and leaves exactly the marked ones |
| `GarbageCollector.Region.FreePage` | lib/runtime/eyot-runtime-gc.c:270-294 | Finalises, unlinks one page at its place and subtracts it from both totals |
| `GarbageCollector.Region.Alloc` | lib/runtime/eyot-runtime-gc.c:161-197 | A zeroed page goes to the front of the doubly linked list and into both totals |
| `GarbageCollector.Region.Realloc` | lib/runtime/eyot-runtime-gc.c:199-234 | The page at its place is replaced by one of the new size that keeps roots, finaliser and common prefix, with zeroes beyond |
| `GarbageCollector.Region.RememberRootPointer` | lib/runtime/eyot-runtime-gc.c:369-392 | The slot array becomes the one with the address in the first free slot, grown by one slot if none is free |
| `GarbageCollector.Region.ForgetRootPointer` | lib/runtime/eyot-runtime-gc.c:394-407 | The first slot holding the address is cleared, in use or not; with none the runtime panics |
| `HeapGraph.MarkingIsExact` | lib/runtime/eyot-runtime-gc.c:246-326 | A marked set that has the roots, is closed under pointers and holds only reachable pages is exactly the reachable set |
| `HeapGraph.ClosedHasReachable` | lib/runtime/eyot-runtime-gc.c:243-267 | Any set that has the roots and is closed under pointers has every reachable page |
| `HeapGraph.CollectTwice` | lib/runtime/eyot-runtime-gc.c:296-341 | A second collection with the same roots frees nothing |
| `HeapGraph.FollowedPointersSurvive` | lib/runtime/eyot-runtime-gc.c:246-338 | A pointer held by a kept page still names its page, unchanged, after the collection |
| `RootTable.RememberAddsOne` | lib/runtime/eyot-runtime-gc.c:369-392 | Registering an address that is not live adds it to the live set and keeps every live slot the first to hold its address |
| `RootTable.ForgetRemovesOne` | lib/runtime/eyot-runtime-gc.c:394-407 | Although it does not test for use, forgetting a live address clears its live slot and no other |
| `RootTable.RememberThenForget` | lib/runtime/eyot-runtime-gc.c:369-407 | Registering then forgetting leaves an address dead if and only if it was dead before |
| `RootTable.TableIsASet` | lib/runtime/eyot-runtime-gc.c:369-407 | Over any run that registers only dead addresses and forgets only live ones the table behaves as a set and never panics |
| `RootTable.DoubleRegistrationLeaks` | lib/runtime/eyot-runtime-gc.c:394-407 | An address registered twice is still live after being forgotten twice |
| `RootTable.SlotsGrow` | lib/runtime/eyot-runtime-gc.c:369-407 | Whatever the run, the slots in use grow by at least the registrations less the forgets |
| `Pipe.Buffer.Push` | lib/runtime/eyot-runtime-pipes.c:93-118 | The locked half of a send appends one item to a growing buffer |
| `Pipe.Buffer.Take` | lib/runtime/eyot-runtime-pipes.c:120-142 | The locked half of a receive shifts the buffer down and hands back its first item, or refuses when closed and empty |
| `Pipe.StepKeepsInv` | lib/runtime/eyot-runtime-pipes.c:93-169 | Each step of any number of threads keeps: semaphore value plus receivers past the wait plus pending posts minus close posts equals items stored, and what was sent is what was delivered then what is stored |
| `Pipe.RunKeepsInv` | lib/runtime/eyot-runtime-pipes.c:93-169 | That token equation and the order of items hold in every reachable state |
| `Pipe.NoEmptyTake` | lib/runtime/eyot-runtime-pipes.c:120-142 | In every reachable state of an unclosed pipe a receiver past its wait finds an item |
| `Pipe.WaitsExactlyWhenEmpty` | lib/runtime/eyot-runtime-pipes.c:120-142 | With no thread half way through, a wait is passed if and only if something sent is not delivered or a close is not noticed yet |
| `Pipe.OutsideCanAct` | lib/runtime/eyot-runtime-pipes.c:93-169 | A thread can always close, and can push exactly until the first close |
| `Pipe.RefusedWhenAllDelivered` | lib/runtime/eyot-runtime-pipes.c:120-169 | A single consumer is refused only after a close and after everything sent was delivered, in order |
| `CpuWorker.StepKeepsInv` | lib/runtime/eyot-runtime-cpu-worker.c:39-137 | Every step of any client or of the worker thread keeps: received, output queue, then the function over the held and queued inputs equal the function over everything pushed, in order; and the count equals announced plus queued plus held plus output plus taken and not yet counted |
| `CpuWorker.RunKeepsInv` | lib/runtime/eyot-runtime-cpu-worker.c:39-137 | Both equations hold in every reachable state |
| `CpuWorker.ReceivedIsPrefix` | lib/runtime/eyot-runtime-cpu-worker.c:53-120 | Under every interleaving what clients have received is the function over the first values pushed |
| `CpuWorker.NoPanic` | lib/runtime/eyot-runtime-cpu-worker.c:39-131 | No reachable state pushes on a closed pipe, is refused a receive, or takes from an empty buffer |
| `CpuWorker.CallRefinesFifo` | lib/runtime/eyot-runtime-cpu-worker.c:39-92 | A single client's send, receive or drain takes a bounded number of steps however they interleave, cannot get stuck (but for a receive on an empty queue), and returns what the queue specification says |
| `CpuWorker.SessionRefinesFifo` | lib/runtime/eyot-runtime-cpu-worker.c:39-92 | Any sequence of finished calls by one client, with the worker's thread running in and between them in any way, hands back and leaves what the queue specification does; the invariant holds again after it |
| `CpuWorker.CanBegin` | lib/runtime/eyot-runtime-cpu-worker.c:39-92 | Between calls the client can begin any call, whatever the worker is doing |
| `CpuWorker.ThreadEnds` | lib/runtime/eyot-runtime-cpu-worker.c:95-137 | When the worker's thread has ended, all that was pushed is received or in the output, and the output is closed if and only if there is one |
| `CpuWorker.NeverStuck` | lib/runtime/eyot-runtime-cpu-worker.c:39-120 | While a call is under way some step is enabled, unless it is a receive on an empty queue |
| `CpuWorker.StepUsesWork` | lib/runtime/eyot-runtime-cpu-worker.c:39-120 | Every step of either thread during a call lowers a measure of the work left |
| `CpuWorker.ReceiveBlocksOnEmpty` | lib/runtime/eyot-runtime-cpu-worker.c:53-63 | A receive waiting on an empty queue cannot pass its wait |
| `CpuWorker.DrainIsExact` | lib/runtime/eyot-runtime-cpu-worker.c:65-92 | Drain returns exactly the function over what was sent and not received, in order, and leaves the count at zero |
| `Fifo.RunConserves` | lib/runtime/eyot-runtime-cpu-worker.c:39-92 | In the queue specification, what any mix of calls hands back, then what is left, is what was there then the function over everything sent |
| `Pipeline.RunKeepsInv` | lib/runtime/eyot-runtime-cpu-pipeline.c:26-76 | What each stage has taken, holds and passed on stays accounted for under every interleaving of client, mover thread and two workers |
| `Pipeline.ClientGetsPrefix` | lib/runtime/eyot-runtime-cpu-pipeline.c:26-76 | Under every interleaving what the client has received is a prefix of the second function over the first function over what it sent |
| `Pipeline.LaterSendsAreLost` | lib/runtime/eyot-runtime-cpu-pipeline.c:26-76 | Once the pipeline's thread has begun to drain, whatever follows, the client only ever has a prefix of both functions over what it had sent by then, and the thread passes on exactly the first function over that |
| `Pipeline.EarlyDrainLosesAll` | lib/runtime/eyot-runtime-cpu-pipeline.c:26-31 | The thread may begin before anything is sent, and then nothing ever arrives |
| `Pipeline.ReceiveHandsBack` | lib/runtime/eyot-runtime-cpu-pipeline.c:46-53 | A finished receive hands back the one value received since it began |
| `Pipeline.DrainHandsBack` | lib/runtime/eyot-runtime-cpu-pipeline.c:55-76 | A finished drain hands back, in order, exactly both functions over all that was sent, less what had been received |
| `Pipeline.CallsGoOn` | lib/runtime/eyot-runtime-cpu-pipeline.c:26-76 | In every reachable state a client in no call can begin any, and while it is in one some step is enabled, unless it receives and has had all that the drain found |
| `Pipeline.UnderwayIsSent` | lib/runtime/eyot-runtime-cpu-pipeline.c:26-76 | The count the drain goes by is that of everything sent so far |
| `GpuWorker.Worker.Send` | lib/runtime/eyot-runtime-opencl.c:331-442 | Sending a vector appends the function over it to the queue, for any order in which the rounded-up launch runs its work items |
| `GpuWorker.Worker.Receive` | lib/runtime/eyot-runtime-opencl.c:538-560 | Receiving pops the head of the queue, dropping the front batch when it is used up |
| `GpuWorker.Worker.Drain` | lib/runtime/eyot-runtime-opencl.c:562-599 | Draining returns the whole queue, partly read batches included, and empties it |
| `GpuWorker.Worker.Session` | lib/runtime/eyot-runtime-opencl.c:331-599 | Any sequence of calls hands back and leaves what the queue specification does, as for a CPU worker, where no send is empty and nothing is taken from an empty queue |
| `GpuWorker.Worker.PopBatch` | lib/runtime/eyot-runtime-opencl.c:297-315 | The in-place shift drops the first batch and keeps the others in order |
| `GpuWorker.Worker.NewBatch` | lib/runtime/eyot-runtime-opencl.c:287-295 | One more batch slot, with the earlier batches kept when the array moves |
| `GpuWorker.Worker.Launch` | src/output/cwriter/write-c.go:1069-1088 | The guarded kernel computes the function at every index whatever the order of work items |
| `GpuWorker.RoundUp` | lib/runtime/eyot-runtime-opencl.c:317-325 | The least multiple not below the value |
| `Closure.LayoutIsSound` | lib/runtime/eyot-runtime-common.h:136-203 | Flag words and argument slots are pairwise disjoint, 8-aligned where they hold arguments, and inside the computed size |
| `Closure.GeneratedClosureSize` | lib/runtime/eyot-runtime-common.h:195-203 | The size loop computes the end of the last argument slot |
| `Closure.ArgPointer` | lib/runtime/eyot-runtime-common.h:179-188 | The offset loop computes where an argument is stored |
| `Closure.Create` | lib/runtime/eyot-runtime-closures.c:9-26 | The block written holds the function id, a flag for every argument and the bytes of every supplied one |
| `Closure.Resolve` | lib/runtime/eyot-runtime-common.h:234-253 | A call merges the stored and the passed arguments and uses up exactly as many as are open |
| `Closure.Call` | lib/runtime/eyot-runtime-common.h:234-253 | Calling a closure applies its function to the merged argument list |
| `Closure.LayoutSpelled` | lib/runtime/eyot-runtime-common.h:136-203 | Eight bytes for the id, eight for each flag, then each argument in the least multiple of eight that holds it |
| `Closure.MergeAt` | lib/runtime/eyot-runtime-common.h:234-253 | Each argument of the merged list is the stored one, or the passed one whose place is the number of open arguments before it |
| `Closure.OpenAt` | src/ast/closure.go:28-80 | Each type the closure keeps is that of the argument with as many open ones before it |
| `Closure.PartialApplication` | lib/runtime/eyot-runtime-closures.c:9-26 | For any choice of arguments to supply first, supplying the others later gives the full list |
| `Closure.MergeIsFaithful` | lib/runtime/eyot-runtime-common.h:234-253 | The merged list has the supplied arguments in their places and the open ones elsewhere, in order, once each |
| `Closure.ClosureTypes` | src/ast/closure.go:28-80 | The closure's parameter list is that of the open arguments, as many as a call consumes; a wrong count is the arity error |
| `Utf8.DecodeEncoding` | lib/runtime/eyot-runtime-strings.c:89-98 | Decoding the encoding of a code point gives it back and consumes exactly its bytes |
| `Utf8.ByteForms` | lib/runtime/eyot-runtime-strings.c:181-209 | The bytes of each form, bit by bit, as section 3 of RFC 3629 has them |
| `Utf8.NoShorterForm` | lib/runtime/eyot-runtime-strings.c:71-125 | Bytes that decode to the same code point use at least as many: the form is the shortest, as section 3 of RFC 3629 requires |
| `Utf8.StartsOfText` | lib/runtime/eyot-runtime-strings.c:71-86 | The number of bytes that are not continuation bytes is the number of code points |
| `Utf8.GetUtf8Length` | lib/runtime/eyot-runtime-strings.c:71-86 | The length loop counts the bytes that start a code point, up to the first zero byte |
| `Utf8.CreateLiteral` | lib/runtime/eyot-runtime-strings.c:108-125 | The decoder loop produces the code points the bytes encode |
| `Utf8.CreateCString` | lib/runtime/eyot-runtime-strings.c:181-209 | The encoder loop writes the encodings one after another and a zero byte, inside the block it allocated |
| `Utf8.RoundTrip` | lib/runtime/eyot-runtime-strings.c:108-209 | Encoding and decoding give the text back if and only if no code point is zero |
| `RangeLoop.Range` | lib/runtime/eyot-runtime-vectors.c:119-149 | The vector built for a range is start, start + step, and so on, short of the end |
| `RangeLoop.RangeIsProgression` | lib/runtime/eyot-runtime-vectors.c:119-149 | Its k-th value is start + k * step, all are before the end, and the next would not be |
| `RangeLoop.RangeDirections` | lib/runtime/eyot-runtime-vectors.c:119-149 | Upwards every value is below the end and the next is not, downwards above it and the next is not, and a step of zero gives none |
| `RangeLoop.LoopVarStaysInside` | src/output/cwriter/write-c.go:784-819 | The counting loop's variable stays between start and end + step, so when those fit no addition overflows |
| `RangeLoop.CountingLoop` | src/output/cwriter/write-c.go:784-819 | The first n iterations of the generated counting loop, for any n and any body, also one that assigns the loop variable: the state is that after the iterations its specification lists |
| `RangeLoop.CountingIsIteration` | src/output/cwriter/write-c.go:784-819 | With a body that keeps the loop variable, the state after enough iterations of the counting loop is that of iterating over the range |
| `RangeLoop.VectorLoop` | src/output/cwriter/write-c.go:736-783 | The generated vector loop computes iteration over the vector, with break |
| `RangeLoop.ExpansionIsTransparent` | src/ast/statements.go:414-452 | The two loops make the same iterations, in the same states, for all bounds, steps and starting states, if and only if no iteration that goes on assigns the loop variable |
| `RangeLoop.AssignedLoopVarShows` | src/ast/statements.go:414-452 | A body that assigns the loop variable and goes on makes the two loops differ on a range of two values |
| `Pins.StandsForSource` | src/output/cwriter/write-c.go:697-911 | The code written for a statement, its unpins left away, is that statement: the same branches, `else` and loop bodies with the same statements in the same order |
| `Pins.BlockStandsForSource` | src/output/cwriter/write-c.go:913-931 | The same for a block |
| `Pins.CWriter.WriteStatementBlock` | src/output/cwriter/write-c.go:913-931 | Writing a block pins each pointer variable of its own scope where it is declared, unpins exactly those before the closing brace, and restores the open scopes; GPU code has neither |
| `Pins.CWriter.WriteStatement` | src/output/cwriter/write-c.go:697-911 | What is written for each statement, and that it changes only the innermost scope, by the pins it makes |
| `Pins.CWriter.AboutToExitAllScopes` | src/output/cwriter/write-c.go:107-114 | A return unpins every open scope, outermost first |
| `Pins.CWriter.RememberLValue` | src/output/cwriter/write-c.go:614-628 | A declared pointer is pinned and recorded in the innermost scope; nothing else is |
| `PinRuns.StmtsKeep` | src/output/cwriter/write-c.go:83-122 | Where a path through a run of safe statements ends, by a stop anywhere inside them, at the end of the block, by a break or by a return, the roots are exactly those on entry to the function and the pins of the scopes open there |
| `PinRuns.BalancedExactlyWhenSafe` | src/output/cwriter/write-c.go:719-931 | Over every path (any branches, any loop counts, early returns) the root table panics nowhere and ends with the same roots in the same number of slots, if and only if no break is reachable with a pin made since its loop body began and no return where a pinned name has been declared again, by a declaration or as a loop variable |
| `PinRuns.ExactWhenQuiet` | src/output/cwriter/write-c.go:614-931 | That, and that at every point of every path, the value of a return included, the roots are those on entry and the pins of the open scopes, if and only if moreover no return with a value is reachable while something is pinned |
| `PinRuns.UnsafeListLeaks` | src/output/cwriter/write-c.go:719-721 | Where a break is not safe there is a path that ends with more pins than it should have |
| `PinRuns.NotShownListIsBad` | src/output/cwriter/write-c.go:107-122 | Where a return is reachable under a hidden name there is a path that returns and leaves a root of its own live |
| `PinRuns.PinnedAgainIsUnbalanced` | src/output/cwriter/write-c.go:107-122 | A pinned name pinned again in a branch that returns is not balanced, although no break is in it |
| `PinRuns.PinnedAgainLeaks` | lib/runtime/eyot-runtime-gc.c:369-407 | What its path does to any root table leaves the outer variable live |
| `PinRuns.LoopTakesNameIsUnbalanced` | src/output/cwriter/write-c.go:758-817 | A return inside a `for` over the name of a pinned variable is not balanced, although nothing is pinned twice and no break is in it |
| `PinRuns.LoopTakesNamePanics` | lib/runtime/eyot-runtime-gc.c:369-407 | What its path does to any root table: the forget panics, or, where a stale slot holds the loop variable's address, leaves the pinned variable live |
| `PinRuns.StmtsBalance` | src/output/cwriter/write-c.go:83-122 | No path, safe or not, unpins more than is open |
| `Grammar.ParseExpression` | src/parser/parser.go:1134-1139 | An expression that is not there consumes nothing, and one that is consumes something |
| `SourceParser.Parser.Expression` | src/parser/parser.go:1134-1139 | The method reads what the grammar says, with the saved frames and the struct literal counter as before |
| `SourceParser.Parser.PrefixedExpression` | src/parser/parser.go:906-1129 | As above, for `range`, `*`, `drain`, `receive`, `cpu`, `gpu` and what falls through to an allocation; a failure goes back to the saved position |
| `SourceParser.Parser.AllocationExpression` | src/parser/parser.go:886-904 | As above, with or without `new` |
| `SourceParser.Parser.BinaryInfixExpression` | src/parser/parser.go:801-884 | One rung of the ladder: operands from the rung below, operators taken from the left |
| `SourceParser.Parser.UnaryExpression` | src/parser/parser.go:773-798 | A unary operator applies to a postfix expression |
| `SourceParser.Parser.PostfixExpression` | src/parser/parser.go:688-771 | Calls, indexing and accesses, from the left |
| `SourceParser.Parser.StructLiteralBody` | src/parser/parser.go:393-435 | The loop over a struct literal's pairs, its separators and its errors |
| `SourceParser.Parser.LiteralValueExpression` | src/parser/parser.go:437-555 | Terminals, and identifiers that start a struct literal only where the counter allows |
| `SourceParser.Parser.ExpressionList` | src/parser/parser.go:611-661 | Expressions between commas, none of them being a list too |
| `SourceParser.Parser.TryToken` | src/parser/parser.go:173-188 | One token of the wanted type is consumed, or the position stays |
| `SourceParser.Parser.Reject` | src/parser/parser.go:145-147 | The position and frames go back to the last save |
| `SourceParser.Parser.Accept` | src/parser/parser.go:140-143 | The position is kept and one saved frame is dropped |
| `RoundTrip.ParseUndoesPrint` | src/parser/parser.go:589-1139 | For every expression, either bracketing style, and any following tokens that do not continue it, parsing what was printed gives the expression and the tokens that follow, inside conditions too |
| `RoundTrip.NameBeforeBrace` | src/parser/parser.go:531-547 | A name before a brace is read as that name alone exactly where the struct literal counter was lowered: in the conditions of `if` and of loops, not of `elseif` |
| `RoundTrip.BareBeforeBrace` | src/parser/parser.go:531-547 | Where struct literals are allowed, as in the condition of an `elseif`, an expression printed without brackets round it is read before a block if and only if its last terminal is not an unbracketed name |
| `RoundTrip.RangeDefaults` | src/parser/parser.go:906-969 | A range of one value starts at 0 with step 1, one of two values has step 1 |
| `WriterLayout.ReadsBackExactlyWhenFlat` | src/output/cwriter/write-c.go:216-461 | C reads the layout of an expression as the tree that was meant if and only if no binary operator is directly under a prefix operator, an access or a call, no prefix operator or element of a vector directly under an access or a call, no negation directly under a negation and no address directly under an address |
| `WriterLayout.LayoutReads` | src/output/cwriter/write-c.go:216-461 | What C reads from the layout of any expression: prefix operators and suffixes attach to the nearest operand |
| `WriterLayout.RereadIsAttached` | src/output/cwriter/write-c.go:216-461 | If what is read has the prefix operators of the expression outside and its suffixes after it, nothing in the expression comes apart |
| `LoweredMeaning.LoweredValue` | src/output/cwriter/write-c.go:216-461 | The C tree that is meant has the expression's value, whatever the operators do, where the runtime's names stand for what the language has |
| `LoweredMeaning.WrittenCodeHasTheValue` | src/output/cwriter/write-c.go:216-461 | What C computes from the code written for an expression that does not come apart is the expression's value |
| `WriterSpelling.OperatorWritten` | src/output/cwriter/write-c.go:309-346 | Each operand of an operator in brackets |
| `WriterSpelling.CallsWritten` | src/output/cwriter/write-c.go:374-401 | The execution context, unless it is left out, then the arguments in order |
| `WriterSpelling.StringsWritten` | src/output/cwriter/write-c.go:309-340 | Which runtime function is called for which operator on strings |
| `WriterSpelling.ElementsWritten` | src/output/cwriter/write-c.go:429-450 | A star, a cast and a call for an element of a vector |
| `WriterLayout.NegatedSumComesApart` | src/output/cwriter/write-c.go:421-424 | The layout of the negation of a sum is read as the sum of a negation |
| `WriterLayout.ConvertedSumComesApart` | src/output/cwriter/write-c.go:221-225 | The layout of the conversion of a sum is read as the sum of a conversion |
| `WriterLayout.FieldOfElementComesApart` | src/output/cwriter/write-c.go:429-450 | The layout of a field of an element of a vector is read as the element behind a field of its address |
| `WriterLayout.DoubleNegationDecrements` | src/output/cwriter/write-c.go:421-424 | The layout of the negation of a negation is read as a decrement |
| `WriterLayout.DoubleAddressIsWrong` | src/output/cwriter/write-c.go:421-424 | The layout of the address of an address is not an expression |
| `StatementGrammar.Statement` | src/parser/parser.go:1814-1843 | In every statement that parses each break is in a loop, and a statement consumes something |
| `SourceParser.Parser.Statement` | src/parser/parser.go:1814-1843 | The method tries the kinds of statement in turn and reads what the grammar says, with frames and both counters as before |
| `SourceParser.Parser.StatementBlock` | src/parser/parser.go:1846-1890 | As above, for the statements between braces |
| `SourceParser.Parser.ForeachStatement` | src/parser/parser.go:1483-1523 | As above, with the struct literal counter lowered for the iterated expression only and the break counter raised for the body only |
| `SourceParser.Parser.WhileStatement` | src/parser/parser.go:1667-1695 | The same for the condition and the body |
| `SourceParser.Parser.IfStatement` | src/parser/parser.go:1697-1766 | As above; the counter is lowered for the first condition and not for those of `elseif` |
| `SourceParser.Parser.LValue` | src/parser/parser.go:1177-1300 | What can be assigned: names, fields, indices, dereferences and lists of them |
| `SourceParser.Parser.AssignStatement` | src/parser/parser.go:1622-1651 | An assignment, or nothing with the position restored when no `=` follows |
| `SourceParser.Parser.ModifyInPlaceStatement` | src/parser/parser.go:1593-1620 | The same for `+=`, `-=`, `*=` and `/=` |
| `StatementRoundTrip.ReadsBackExactlyWhenBreaksAreInLoops` | src/parser/parser.go:1483-1890 | For every statement the parser can make, in either bracketing style, parsing what was printed, with an `elseif` condition in brackets just where it ends in a name, gives the statement and the tokens that follow if and only if each of its breaks is in a loop |
| `StatementRoundTrip.BlockReads` | src/parser/parser.go:1846-1890 | A printed block reads back to the same statements in the same order |
| `StatementRoundTrip.ExpressionIsNoAssignment` | src/parser/parser.go:1593-1651 | Trying an expression as an assignment first, of either kind, fails without an error, so the expression is still read |
| `Spelling.Precedence` | src/parser/parser.go:801-884 | Of two operators `*`, `/` and `%` bind first, then `+` and `-`, the comparisons, the equalities, `and`, and `or`; of the same class the left one |
| `Spelling.UnaryOperators` | src/parser/parser.go:773-798 | A unary operator binds before every binary one and after an access |
| `Spelling.Prefixes` | src/parser/parser.go:886-1129 | `new`, `*`, `cpu` and `gpu` take all that follows |
| `Spelling.Brackets` | src/parser/parser.go:589-609 | Brackets bind first whatever operator is in them |
| `Spelling.Calling` | src/parser/parser.go:611-661 | Arguments are read in their order |
| `ParserSoundness.ReadsWhatIsThere` | src/parser/parser.go:589-1139 | Whatever the tokens, those an expression was read from are, but for curved brackets, its own in their order, and the brackets match |
| `StatementSpelling.Assignments` | src/parser/parser.go:1622-1651 | `let`, `const` and a bare assignment |
| `StatementSpelling.Modifications` | src/parser/parser.go:1593-1620 | Which token is which modification |
| `StatementSpelling.Loops` | src/parser/parser.go:1667-1695 | A name as condition or iterable before a block |
| `StatementSpelling.Branches` | src/parser/parser.go:1697-1766 | Each block of an `if` goes with the condition before it, and the last with `else` |
| `RoundTrip.TwoOperators` | src/parser/parser.go:801-884 | Of two operators without brackets the first binds first when its rung is at most the second's, and the second otherwise: equal rungs associate to the left |
| `RoundTrip.Climb` | src/parser/parser.go:837-884 | An expression of one rung is read unchanged by every higher rung when none of their operators follows |
| `Loader.Program.ParseRoot` | src/program/program.go:123-144 | A load is clean if and only if every reachable module exists and there is no reachable import cycle; when all exist, an error is logged if and only if there is a cycle, and the first one says so; then the stored modules are the reachable ones, imports first, each parsed once |
| `Loader.Program.InnerParse` | src/program/program.go:70-104 | Parsing one module ends, stores its imports before it, and on failure has logged a true error first |
| `Loader.Program.GetModule` | src/program/program.go:106-121 | A module stored already is not parsed again; one being loaded is refused before this is called |
| `Loader.ComesBack` | src/parser/parser.go:1302-1362 | An import of a module that is being loaded closes a cycle reachable from the root |
| `ImportGraph.StoredIsAcyclic` | src/program/program.go:70-133 | If modules are stored imports first, nothing reachable from a stored root is missing and there is no cycle |
| `ImportGraph.WalkDescends` | src/program/program.go:70-133 | Along any chain of imports the places in the storing order strictly fall |
| `Location.Scope.SetVariable` | src/ast/scope.go:175-200 | Binding a function name again merges a CPU and a GPU definition into one callable anywhere |
| `Location.LookupFunction` | src/ast/module.go:18-42 | An imported name has the location of its first definition merged with the second |
| `Location.CheckModule` | src/ast/functions.go:400-449 | A module passes if and only if every name called is defined and only CPU-only code calls a name bound to the CPU only; where names are defined once, or once for each side, if and only if code for the GPU calls only names with code for the GPU |
| `Location.CheckContext.CheckCall` | src/ast/expressions.go:1196-1208 | One call passes if and only if its location is allowed where it stands |
| `Location.CallMeans` | src/ast/expressions.go:1196-1208 | One call passes if and only if its name is defined and bound to the CPU only just where the caller is for the CPU, said of the definitions alone; from CPU-only code every call to a defined name passes |
| `Location.BindingHasGpuCode` | src/ast/scope.go:175-200 | In any order of definitions, a name not bound as CPU-only has code emitted for the GPU |
| `Location.ImportHasGpuCode` | src/ast/module.go:18-42 | The same for imported names |
| `Location.GpuCallsGpu` | src/ast/expressions.go:1196-1208 | In a checked program every direct call in code emitted for the GPU names a function with code emitted for the GPU |
| `Location.ChainStaysOnGpu` | src/output/cwriter/write-c.go:187-197 | However far code emitted for the GPU calls on, with each call resolved among the definitions emitted for the GPU, the next call resolves there too, and so makes the chain longer |
| `Location.BindingHidesExactlyWhen` | src/ast/scope.go:175-200 | For any definitions and either side: a name with code for the side is bound to the other side only if and only if its last definition is for the other side and ends a run of definitions, alternating between the sides, of odd length |
| `Location.ImportHidesExactlyWhen` | src/ast/module.go:18-42 | The same for imported names: if and only if the first definition is for the other side and the second is not for this side only |
| `Location.BindingsAgreeExactlyWhen` | src/ast/module.go:18-42 | When a module and its importers bind a name alike, for any definitions |
| `Location.ProperBindingIsExact` | src/ast/scope.go:175-200 | For a name defined once, or once for each side, both bindings agree and are for one side only if and only if there is no code for the other, whatever the order |
| `Location.SecondDefinitionHidesGpuCode` | src/ast/scope.go:175-200 | Two definitions can bind a name as CPU-only although it has GPU code, in its own module or in its importers |
| `Location.CpuCallsCpuExactlyWhen` | src/ast/expressions.go:1196-1208 | In a checked program CPU code calls only CPU code if and only if each of its calls to a name bound to the GPU only is to one whose definitions hide CPU code; where called names are defined once or once for each side, if and only if there is no such call |
| `Location.CpuCallToGpuOnlyPasses` | src/ast/expressions.go:1196-1208 | A CPU function that calls a GPU-only one passes the check |
| `Location.ThirdDefinitionHidesGpuCode` | src/ast/scope.go:175-200 | A third definition can bind a name as CPU-only although it has GPU code |

## Left out

Runtime:

- Running out of memory, and what happens after a runtime panic; the consistency check that a debug variable turns on.
- Addresses are natural numbers and a page's contents a sequence of bytes; where the C code casts an owned pointer to a page header, `GarbageCollector.Region.OwnedPage` hands back the page object.
- Finalisers are recorded, not run; they are taken not to change the region.
- 32-bit overflow of the collector's totals and of root counts.
- CPU worker functions are pure, and a worker has any number of clients for the order and the count, one for exact drains: with several, drains divide the results between them.
- Pipelines without results, and finalising one in use.
- GPU workers: OpenCL calls, buffers, events and the activity counter, which receive and drain both lower for a partly read batch.
- GpuWorker.Worker.Send: does not model an empty vector, for which no buffer can be made.
- GpuWorker.Worker.Receive: does not model an empty queue, where the C code reads batch 0 regardless.
- GpuWorker.Worker.Drain: does not model an empty queue, where the C code reads the batch before the first.
- Closures on the GPU, the bound on the number of arguments, and the compile-time estimate of a closure's size.
- Utf8.CreateCString: does not model code points of 2097152 or more, which do not fit the encoder's scratch space, nor the scratch terminator stored past its end for a code point of four bytes (`lib/runtime/eyot-runtime-strings.c:199`).
- Utf8.CreateLiteral: a literal cut off inside a code point reads past its end; the model reads zeroes there.
- Surrogates and code points above 1114111 are encoded as any other, as in the code.

Compiler:

- RangeLoop.CountingLoop: does not model 32-bit wrap-around; `RangeLoop.LoopVarStaysInside` bounds every addition instead.
- The order in which start, end and step are evaluated, and the names given to them.
- Pins.CWriter.WriteStatement: does not write the expressions of statements, only that a return has a value.
- Pins: what evaluating an expression does, and types other than pointers; a declaration of several variables at once is several declarations here.
- The parser's type and declaration productions and its scopes; casts, vector literals, scoped names, GPU built-ins, `partial` and `pipeline`, and terminals other than integers, booleans and names.
- SourceParser.Parser.Expression: says nothing about the parser's state once an error is logged, where frames may be unbalanced; the model stops at the first error.
- SourceParser.Parser.Statement: says nothing about the parser's state once an error is logged, likewise.
- SourceParser.Parser.PrefixedExpression: does not read `partial` and `pipeline`.
- SourceParser.Parser.PostfixExpression: does not read casts with `as`.
- SourceParser.Parser.LiteralValueExpression: reads integers, booleans, names and struct literals, not the other terminals.
- SourceParser.Parser.ExpressionList: does not model the modes for placeholders and for a trailing comma.
- SourceParser.Parser.LValue: does not read `self`.
- WriterLayout.ReadsBackExactlyWhenFlat: does not cover `sizeof`, which is only written as an argument of a runtime call, and the calls that have one, nor floating-point literals; a call whose result is already in a variable is a name in the output, and C type names are one token.
- WriterLayout.LayoutReads: leaves out the same expressions.
- The layout of assignables, which `WriteLValue` writes.
- Location.CheckModule: does not check that an imported function is exported, which the parser does (`src/parser/parser.go:506-509`).
- Loader.Program.ParseRoot: does not model files that do not tokenise, parse or type check, which also stop a load.
- ParserSoundness.ReadsWhatIsThere: does not cover struct literals, whose separators may be repeated, and ranges, whose values may be left out.
- Type checking between the parses of modules, and errors logged after the first.
- Locations of struct methods, closures and the function chosen for a GPU kernel.
- Name mangling, string pools, the build driver, the test runner, FFI, windowing, files and the console.
