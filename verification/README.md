# Lua 5.3 and the ltask scheduler: verified models

The repository is a small actor runtime, `iolua/ltask`, on top of the Lua 5.3.1 sources.
This project models the parts of it that are hard to get right and proves what they are for.

1. **Code generator** (`lcode.c`, the parts of `lparser.c` that drive it, and the instructions
   of `lvm.c` it emits). Expressions are compiled in one pass to register code with jump lists
   that are threaded through the unpatched jumps and patched later. `CodeSpec` gives the
   generator as functions on symbolic code; `LuaCodeGen` is the generator itself, updating one
   code array, its jump lists and expression descriptors in place; `LuaCompiler` makes the
   parser's calls. Running what comes out gives what the source means.
2. **Scheduler and channels** (`scheduler.cpp`, `channel.cpp`, `task.cpp`, `builtin.cpp`).
   Every locked section, and every unlocked statement that touches shared state, is one step of
   a state machine (`LtaskMachine`); the theorems are about every run of it, with any number
   of workers. `LtaskScheduler` has the locked sections as methods on mutable tables.
3. **Garbage collector** (`lgc.c`). Single collector steps interleave with allocations, writes
   and their barriers (`GcMachine`); `GcCollector` is the same collector with its lists and
   colours updated in place.
4. **Tables** (`ltable.c`). `LuaTable.Table` has an array part and a chained scatter table with
   Brent's variation, both arrays that are written in place, and refines a map.
5. **Message serializer** (`serializer.c`): a byte format, and a chain of 128-byte blocks that
   is allocated while it is written and freed while it is read.
6. **Pattern matcher** (`lstrlib.c`): the backtracking matcher with its mutable captures,
   against a relation that says which match is the best; and patterns as they are written,
   with a search stated in terms of the characters of the subject.

Arithmetic, comparison and concatenation of Lua values, the hash function, and what a key is
normalized to are parameters: the theorems hold for all of them.

## Model

| member | source | states |
|---|---|---|
| CodeCorrect.CompileOk | lemon/src/main/cpp/lua/lcode.c:640-734 | For every expression tree and every generator state it is compiled in: code that enters anywhere before ends, in place or through the exits of the expression, with the value short-circuit evaluation gives (or its error), and no register below the first free one has changed |
| CodeExp2Reg.Exp2RegOk | lemon/src/main/cpp/lua/lcode.c:496-517 | However its pending jumps leave an expression, after `exp2reg` the value is in the register asked for, both jump lists are closed, and the registers below are as before |
| CodeBranch.GoIfTrueOk | lemon/src/main/cpp/lua/lcode.c:655-676 | Execution falls through exactly when the value is true, and otherwise leaves by the false list with a value that is false; the true list is empty |
| CodeBranch.GoIfFalseOk | lemon/src/main/cpp/lua/lcode.c:679-699 | The mirror image: falls through exactly when the value is false |
| CodeBranch.JumpOnCondOk | lemon/src/main/cpp/lua/lcode.c:640-652 | The one jump emitted is taken exactly when the truth of the value is `cond`, also when a NOT just emitted is taken back and its operand tested the other way round |
| CodeNegation.CodeNotOk | lemon/src/main/cpp/lua/lcode.c:702-734 | After `not` the expression has the negated value on every path, although its jumps still carry the old values until `removevalues` turned each TESTSET into a TEST |
| CodeOperators.CodeArithOk | lemon/src/main/cpp/lua/lcode.c:794-822 | The instruction (or the folded constant) gives the operator applied to both operand values, left operand first, whichever of them are constants or registers |
| CodeCompareConcat.CodeCompOk | lemon/src/main/cpp/lua/lcode.c:825-838 | The jump of a comparison is taken exactly when the relation holds of the operand values, with the operands exchanged for `>` and `>=` |
| CodeCompareConcat.CodeConcatOk | lemon/src/main/cpp/lua/lcode.c:902-917 | Joining a concatenation with the CONCAT of its right operand computes the right-associative concatenation of the values |
| SymbolicCode.ExecExtends | lemon/src/main/cpp/lua/lcode.c:145-215 | Running code to which more was added, or whose open jumps were patched, is running the old code and then going on where its open jumps now lead |
| SymbolicCode.RunRefines | lemon/src/main/cpp/lua/lvm.c:1030-1079 | Where symbolic execution ends, returns or raises, a number of interpreter rounds over the encoded bytecode does the same with the same registers |
| StatementsCorrect.FunctionCorrect | lemon/src/main/cpp/lua/lparser.c:1382-1428 | Bytecode of a function body of local declarations, assignments, nested `if`/`else` and `return` of one value, run from the start on any registers, returns or raises what the statements mean |
| LuaCodeGen.FuncState.PatchListAux | lemon/src/main/cpp/lua/lcode.c:167-177 | Every jump of the threaded list is closed with the target its control instruction calls for, TESTSETs get the register or become TESTs, and no jump off the list changes |
| LuaCodeGen.FuncState.DischargeJpc | lemon/src/main/cpp/lua/lcode.c:180-183 | The jumps pending to here are closed at the current position; jumps of other lists are untouched |
| LuaCodeGen.FuncState.Concat | lemon/src/main/cpp/lua/lcode.c:215-226 | The result heads a thread through the first list and then the second, and nothing outside the first list is written |
| LuaCodeGen.FuncState.LoadNil | lemon/src/main/cpp/lua/lcode.c:54-73 | n registers are set to nil, by widening the LOADNIL just emitted only if no jump leads here |
| LuaCodeGen.FuncState.Exp2Reg | lemon/src/main/cpp/lua/lcode.c:496-517 | Does to the code array and the descriptor what the function does that Exp2RegOk is about, with all lists still threaded through the code |
| LuaCodeGen.FuncState.GoIfTrue | lemon/src/main/cpp/lua/lcode.c:655-676 | Same for the function GoIfTrueOk is about |
| LuaCodeGen.FuncState.CodeNot | lemon/src/main/cpp/lua/lcode.c:702-734 | Same for the function CodeNotOk is about |
| LuaCompiler.Function | lemon/src/main/cpp/lua/lparser.c:526-570 | The bytecode and constants that in-place generation leaves for a function body do, for all upvalues and all initial registers, what the statements mean |
| LuaMeaning.CompileTest | lemon/src/main/cpp/lua/lvm.c:1063-1079 | For every machine, upvalues and registers, the bytecode left for `if p then return true else return false end` returns true if and only if the register of p holds a value that is neither nil nor false: any table, function, userdata, number or string is true |
| LuaMeaning.CompileLogic | lemon/src/main/cpp/lua/lvm.c:1008-1012 | The bytecode left for `return not a`, `return a and b` and `return a or b` gives what these mean for all values of a and b, all six kinds of them |
| LuaMeaning.LogicMeans | lemon/src/main/cpp/lua/lobject.h:171 | `not`, `and`, `or` for each kind of value of the first operand: only nil and false take the other way |
| LuaMeaning.LeavesMean | lemon/src/main/cpp/lua/lparser.c:928-981 | Constants, locals, upvalues and parentheses mean what they hold; a register never written is nil |
| LuaMeaning.OperatorsMean | lemon/src/main/cpp/lua/lcode.c:885-923 | The strict operators take both operand values in order; `a > b` asks for b < a, and `~=` gives the opposite of `==` |
| LuaMeaning.ErrorsMean | lemon/src/main/cpp/lua/lparser.c:1045-1072 | An error in an operand that is evaluated is the outcome |
| LuaMeaning.LocalsMean | lemon/src/main/cpp/lua/lparser.c:1442-1515 | A new local is the next register and an assignment changes one; a return or an error ends the block |
| LuaMeaning.BranchesMean | lemon/src/main/cpp/lua/lparser.c:1382-1428 | An `if` runs its first block exactly if the condition is neither nil nor false, otherwise the other one, and then what follows |
| LtaskRuns.ExactlyOnePlace | iolua/src/main/cpp/iolua/ltask/scheduler.cpp:104-174 | In every reachable state a live task is in exactly one place (once in the ready queue, with one worker, or asleep) and a deleted one in none |
| LtaskRuns.ReadyTasksAreServed | iolua/src/main/cpp/iolua/ltask/scheduler.cpp:132-174 | While a worker waits, each ready task has a worker of its own that is on the way to the queue |
| LtaskRuns.NoLostWakeup | iolua/src/main/cpp/iolua/ltask/channel.cpp:38-82 | If a receiver sleeps, a channel it asked for is open, has no other receiver, and was passed by its last `select`, and holds a message, then someone has taken the receiver off the waiting queue and is about to resume it |
| LtaskRuns.OwnChannelsListen | iolua/src/main/cpp/iolua/ltask/builtin.cpp:124-134 | The condition of NoLostWakeup holds of every receiver that only asked for open channels nobody else receives from |
| LtaskRuns.StopsShortExactly | iolua/src/main/cpp/iolua/ltask/builtin.cpp:60-88 | A step lets a receiver block before it has looked at every channel exactly if that receiver found the channel it had chosen closed, or its pop empty |
| LtaskRuns.SoleReceiverFindsMessage | iolua/src/main/cpp/iolua/ltask/channel.cpp:59-70 | The sole receiver of the channel it chose finds a message when it pops: only another receiver can have taken it |
| LtaskRuns.SoleStopsShortExactly | iolua/src/main/cpp/iolua/ltask/builtin.cpp:60-88 | The sole receiver of the channel its pass is at stops short in a step exactly if it has chosen that channel and the channel is closed by then |
| LtaskRuns.StoppedShortForAReason | iolua/src/main/cpp/iolua/ltask/builtin.cpp:66-75 | In every reachable state, the channel at which a receiver stopped short is closed or has another receiver |
| LtaskRuns.NotRegisteredBehind | iolua/src/main/cpp/iolua/ltask/scheduler.cpp:206-218 | A pass that stopped short has registered with none of the channels it did not look at (unless one is named twice); an earlier pass may have |
| LtaskRuns.ListenersWait | iolua/src/main/cpp/iolua/ltask/channel.cpp:72-82 | A sleeping receiver that the condition of NoLostWakeup holds of is in the waiting queue of the channel, which is empty, or is about to be resumed |
| LtaskRuns.SendWakesExactly | iolua/src/main/cpp/iolua/ltask/channel.cpp:38-57 | After a message is pushed, the resumption of the sole receiver is under way if and only if it was before or the receiver is in the waiting queue of the channel |
| LtaskRuns.SendIsLostExactly | iolua/src/main/cpp/iolua/ltask/channel.cpp:38-57 | The sole receiver of an open channel sleeps through a message pushed to it if and only if it is not in the waiting queue of the channel |
| LtaskRuns.StillQueuedFromBefore | iolua/src/main/cpp/iolua/ltask/builtin.cpp:124-134 | A run in which a receiver stops short and is in the queue of a channel behind, from the pass before: the condition of NoLostWakeup is not necessary, that of SendIsLostExactly is |
| LtaskRuns.Quiescence | iolua/src/main/cpp/iolua/ltask/scheduler.cpp:132-174 | When all workers wait, the ready queue is empty, all tasks sleep, and no channel a receiver listens to holds a message |
| LtaskRuns.NoUseAfterDelete | iolua/src/main/cpp/iolua/ltask/channel.cpp:21-36 | A task about to touch a channel has a counted reference to it |
| LtaskRuns.DeletedExactlyWhen | iolua/src/main/cpp/iolua/ltask/channel.cpp:32-36 | A channel is deleted exactly if it is closed, no receive holds a reference, and no `send` or `select` ever leaked one |
| LtaskRuns.StaleWaiterAbsorbsWakeup | iolua/src/main/cpp/iolua/ltask/channel.cpp:72-82 | A run with two receivers in which the wake-up goes to one that no longer waits |
| LtaskRuns.CloseDuringRecvLosesWakeup | iolua/src/main/cpp/iolua/ltask/builtin.cpp:66-75 | A run with one receiver that sleeps through a message because another channel was closed in the middle of its `recv`; that channel is never deleted, although nobody uses it |
| LtaskDelivery.InOrder | iolua/src/main/cpp/iolua/ltask/channel.cpp:38-82 | In every run and for every channel: the messages received so far, followed by those in the queue, are the messages sent, in that order, so each is delivered at most once, in order, and none is lost. Likewise for the receivers that wait at a channel and for the ready tasks |
| LtaskDelivery.StepInOrder | iolua/src/main/cpp/iolua/ltask/scheduler.cpp:104-174 | What a step takes from a queue was at its front, and what it puts in goes to the end |
| LtaskScheduler.Scheduler.CreateTask | iolua/src/main/cpp/iolua/ltask/scheduler.cpp:104-130 | A task with an id never used before is in the table and at the end of the ready queue |
| LtaskScheduler.Scheduler.NextTask | iolua/src/main/cpp/iolua/ltask/scheduler.cpp:132-147 | A worker leaves exactly on exit, waits exactly on an empty queue, and otherwise takes the first ready task and nothing else changes |
| LtaskScheduler.Scheduler.EndRun | iolua/src/main/cpp/iolua/ltask/scheduler.cpp:152-173 | A closed task is deleted, one told to stay awake is ready again, any other sleeps |
| LtaskScheduler.Scheduler.Resume | iolua/src/main/cpp/iolua/ltask/scheduler.cpp:220-247 | A sleeping task becomes ready and a worker is notified; one that is awake has its flag set; an unknown id changes nothing |
| LtaskScheduler.Scheduler.CloseChannel | iolua/src/main/cpp/iolua/ltask/scheduler.cpp:78-88 | The channel is open no more and one reference is given back; the tasks are untouched |
| LtaskScheduler.Scheduler.GetChannel | iolua/src/main/cpp/iolua/ltask/scheduler.cpp:90-102 | A counted reference exactly to an open channel |
| LtaskScheduler.Channel.Push | iolua/src/main/cpp/iolua/ltask/channel.cpp:38-57 | The messages are the old ones followed by the new one; the first waiter, if any, is taken off to be resumed |
| LtaskScheduler.Channel.DoSelect | iolua/src/main/cpp/iolua/ltask/channel.cpp:72-82 | Chosen exactly if a message is there; otherwise the source waits at the end of the queue |
| GcRuns.CollectorIsSafe | lemon/src/main/cpp/lua/lgc.c:1043-1096 | In every state of every run without the one unguarded write, whatever the program can reach (through weak entries too) is allocated and not dead; while marking, no black object refers to a white one and every gray object is on a list. Runs include allocations, writes, changes of weak modes, aborted cycles and finalizers |
| GcRuns.SweepFreesOnlyGarbage | lemon/src/main/cpp/lua/lgc.c:728-745 | What a sweeping step frees cannot be reached by the program |
| GcFinish.SweepEnds | lemon/src/main/cpp/lua/lgc.c:728-745 | From every sound state in a sweeping phase, finitely many collector steps that may look at one object at least come to the phase of finalizers, and then the heap holds exactly the objects that were alive: dead ones are all freed, no live one is |
| GcFinish.CycleEnds | lemon/src/main/cpp/lua/lgc.c:1043-1096 | The same from the atomic step on: the heap then holds exactly the objects that the atomic step left marked |
| GcFinish.NextCycle | lemon/src/main/cpp/lua/lgc.c:1084-1093 | The cycle ends if and only if there is nothing left to finalize, and the next step begins another one |
| GcComplete.GarbageIsCollected | lemon/src/main/cpp/lua/lgc.c:1043-1096 | A whole cycle of collector steps leaves, strings apart, only objects that are in every set that holds the roots and the objects with finalizers and is closed under what objects keep alive (strong references, keys of tables with weak values, values of ephemerons whose key is in the set): whatever else there was is freed |
| GcComplete.SeparatedAre | lemon/src/main/cpp/lua/lgc.c:875-890 | Exactly the objects with finalizers that are not marked when values have been cleared go to the end of the list of those to be finalized |
| GcComplete.FinalizedInReverse | lemon/src/main/cpp/lua/lgc.c:875-890 | Of two objects separated in the same cycle, the one whose finalizer was set later is finalized first |
| GcRuns.AtomicKeepsStrong | lemon/src/main/cpp/lua/lgc.c:980-1024 | What strong references lead to from the roots is marked when the atomic phase ends |
| GcRuns.GuardIsExact | lemon/src/main/cpp/lua/lgc.c:150-171 | A write of references with its barrier keeps the collector's invariant if and only if it is not unguarded: not a white object stored in an already visited table with weak keys and values while marking |
| GcUnguarded.UnguardedDangles | lemon/src/main/cpp/lua/lgc.c:446-466 | After every unguarded write to a table held by strong references, the current collection leaves the program with a reference to a dead object if and only if it would not have marked that object without the write |
| GcUnguarded.UnguardedMarksNothing | lemon/src/main/cpp/lua/lgc.c:446-466 | The rest of marking is the same with and without the unguarded write: the object keeps its new references and nothing else differs |
| GcUnguarded.ModeChangeComesTooLate | lemon/src/main/cpp/lua/lgc.c:446-466 | A table that was visited as all weak and then gets a metatable without a mode is cleared as all weak: an entry stays if and only if its value is marked (or a string, or no object) when values are cleared and its key is when keys are |
| GcDangling.MetatableIsFreed | lemon/src/main/cpp/lua/lgc.c:446-466 | A reachable state in which the program can still reach an object that has been freed |
| GcClearing.EntryStaysExactly | lemon/src/main/cpp/lua/lgc.c:980-1024 | For every table on the list of tables to be cleared by key: the atomic step keeps an entry if and only if its value is marked when values are cleared, and its key when keys are, after objects to be finalized were marked |
| GcClearing.EntryGoesExactly | lemon/src/main/cpp/lua/lgc.c:633-668 | For a table on any list (weak values, ephemeron, both, or found to be one of these only while objects were resurrected): an entry goes if and only if its value or its key is not marked at the time when the list the table is on by then is cleared of them |
| GcLostEntry.EntryIsLost | lemon/src/main/cpp/lua/lgc.c:446-466 | A reachable state in which a visited table with an entry gets a metatable without a mode and the atomic step removes the entry |
| GcLeast.ConvergeIsLeastFixpoint | lemon/src/main/cpp/lua/lgc.c:602-617 | The set of marked objects after convergence is closed under strong references, keys of tables with weak values, and values of marked keys, contains what was marked before, and lies in every set that is and does; strings count as values and are in every set |
| GcClean.AtomicClean | lemon/src/main/cpp/lua/lgc.c:980-1024 | After the atomic step no marked object refers, even weakly, to an unmarked one; roots and objects with finalizers are marked, and exactly the unmarked ones of those moved to the list of pending finalizers |
| GcCollector.Collector.VisitEphemeron | lemon/src/main/cpp/lua/lgc.c:389-425 | The loop over the entries ends as the function convergence is proved about, with the list the table is linked to and whether it marked anything |
| GcCollector.Collector.ConvergeEphemerons | lemon/src/main/cpp/lua/lgc.c:602-617 | The loop over passes terminates in the state ConvergeIsLeastFixpoint is about |
| GcCollector.Collector.MarkAtomically | lemon/src/main/cpp/lua/lgc.c:980-1024 | The atomic phase in place ends in the state AtomicClean is about |
| GcCollector.Collector.SweepUntilLive | lemon/src/main/cpp/lua/lgc.c:751-760 | Dead objects at the head of a list are freed until the first live one, which turns white |
| GcCollector.Collector.Step | lemon/src/main/cpp/lua/lgc.c:1043-1096 | One collector step in place is the step of the machine CollectorIsSafe is about, in every phase |
| GcCollector.Collector.StoreRefs | lemon/src/main/cpp/lua/lgc.c:150-171 | A write with the forward or backward barrier is the write of the machine |
| TableNodes.PutHereOk | lemon/src/main/cpp/lua/ltable.c:447-461 | A new key in its free main position keeps the node invariant: chains are acyclic and lead from the main position of each key to the key, at most one link leads to a node, and a key away from its main position has a colliding key there |
| TableNodes.PutAfterOk | lemon/src/main/cpp/lua/ltable.c:483-492 | So does a new key in a free node that is linked behind the main position |
| TableNodes.MoveOk | lemon/src/main/cpp/lua/ltable.c:470-482 | So does moving a node that is out of its main position to the free node, with its relative links corrected, and the new key in its place |
| TableCounts.MoveSame | lemon/src/main/cpp/lua/ltable.c:469-482 | The move loses no binding and adds only the new key |
| TableSizes.ComputeSizes | lemon/src/main/cpp/lua/ltable.c:226-245 | Finds the largest power of two of which more than half is in use, and how many keys go there; 0 exactly if there is none |
| TableSizes.BestIsBestSize | lemon/src/main/cpp/lua/ltable.c:383-400 | What is best for the counts per slice is best for the keys themselves, the new key included |
| TableSizes.NumUseArray | lemon/src/main/cpp/lua/ltable.c:264-288 | Each slice (2^(x-1), 2^x] of the array part is counted, and all of it |
| TableSizes.NumUseHash | lemon/src/main/cpp/lua/ltable.c:290-303 | Each node with a value is counted once, and in its slice if it has one |
| LuaTable.Table.FindNode | lemon/src/main/cpp/lua/ltable.c:545-570 | Following relative links from the main position terminates and finds the node of a key exactly if there is one |
| LuaTable.Table.Get | lemon/src/main/cpp/lua/ltable.c:502-570 | The value of the abstract map at the key, for a float with an integer value that of the integer (`TableKeys.FloatFindsInteger`); no key of the table is passed over |
| LuaTable.Table.GetFreePos | lemon/src/main/cpp/lua/ltable.c:429-436 | The last unused node, and none only if all are in use |
| LuaTable.Table.NewKey | lemon/src/main/cpp/lua/ltable.c:447-496 | Inserts an absent key and keeps every other binding, or changes nothing because the vector is full |
| LuaTable.Table.Set | lemon/src/main/cpp/lua/ltable.c:577-582 | The cell of a key, found or made, in a valid table in which every key has the value it had; the recursion through rehash ends |
| LuaTable.Table.SetValue | lemon/src/main/cpp/lua/ltable.c:577-596 | Changes the value of one key, of those that stand for the same integer, and of no other; nil, and floats that are not a number, are refused and change nothing |
| LuaTable.Table.Resize | lemon/src/main/cpp/lua/ltable.c:340-372 | New sizes for both parts, growing or shrinking, with the same bindings |
| LuaTable.Table.Rehash | lemon/src/main/cpp/lua/ltable.c:383-400 | The array part gets the best size for the keys and the new one, every binding stays, and there is room for the new key |
| TableKeys.FloatFindsInteger | lemon/src/main/cpp/lua/ltable.c:545-570 | Reading under a float with an integer value is reading under the integer |
| TableKeys.LoadUnderFloat | lemon/src/main/cpp/lua/ltable.c:545-570 | `Get` with such a float returns what is stored under the integer |
| TableKeys.StoreUnderFloat | lemon/src/main/cpp/lua/ltable.c:447-459 | After a write under a float with the value i, the integer i has the value, no node has the float as its key, and every key that is neither i nor a float with the value i has the value it had |
| TableKeys.NoIntegralFloats | lemon/src/main/cpp/lua/ltable.c:447-459 | In a valid table no node has a float with an integer value as its key |
| TableKeys.DifferentKeys | lemon/src/main/cpp/lua/ltable.c:545-570 | Which keys are the same key: integers, strings, objects and booleans only if they are equal, floats if they have the same integer value or, without one, the same bits |
| TableKeys.KeysAreCounted | lemon/src/main/cpp/lua/ltable.c:264-303 | The counts are the numbers of integer keys with a value, the new key included |
| TableKeys.BestSizeMeans | lemon/src/main/cpp/lua/ltable.c:215-245 | The size of the array part after a rehash is the largest power of two up to 2^31 such that more than half of the integers from 1 to it have a value or are the new key; 0 if there is none |
| TableTraversal.GetN | lemon/src/main/cpp/lua/ltable.c:627-646 | The length is a border: n is 0 or has a value, and n + 1 has none |
| TableTraversal.UnboundSearch | lemon/src/main/cpp/lua/ltable.c:599-620 | Doubling, then halving or counting past the integer limit, ends at a border |
| TableTraversal.Next | lemon/src/main/cpp/lua/ltable.c:193-213 | The entry with a value that follows a key in array and node order, or an error for a key that is not there |
| TableTraversal.TraversalIsComplete | lemon/src/main/cpp/lua/ltable.c:166-213 | A traversal visits each key with a value exactly once, with its value, and no other |
| TableTraversal.TraversalFollowsNext | lemon/src/main/cpp/lua/ltable.c:193-213 | Calling `next` on the keys it returns goes through that traversal in order and then ends |
| SeriRoundTrip.PackParse | iolua/src/main/cpp/iolua/ltask/serializer.c:361-401 | What a value packs to is parsed to what it means, and the bytes that follow are left over |
| SeriRoundTrip.RoundTrip | iolua/src/main/cpp/iolua/ltask/serializer.c:412-420 | A packed list of values parses to what the values mean, in order |
| SeriRoundTrip.PackSucceeds | iolua/src/main/cpp/iolua/ltask/serializer.c:361-401 | Packing succeeds exactly for values of supported types that are not nested too deep |
| SeriWire.IntegerBytes | iolua/src/main/cpp/iolua/ltask/serializer.c:224-255 | The bytes of an integer: none besides the type for zero, one or two if it fits and is not negative, otherwise four, or eight, in two's complement, lowest first |
| SeriWire.SmallBytes | iolua/src/main/cpp/iolua/ltask/serializer.c:212-222 | Nil is the byte 0, false 1 and true 9 |
| SeriWire.LargeBytes | iolua/src/main/cpp/iolua/ltask/serializer.c:257-269 | A double is the byte 66 and its eight bytes, a pointer the byte 3 and its eight bytes |
| SeriWire.ShortBytes | iolua/src/main/cpp/iolua/ltask/serializer.c:271-278 | A string below 32 bytes has its length in the type byte |
| SeriWire.LongBytes | iolua/src/main/cpp/iolua/ltask/serializer.c:271-295 | The bytes of a string of 32 bytes or more: its length in two bytes below 65536 and in four from there on, then the string |
| SeriWire.TableBytes | iolua/src/main/cpp/iolua/ltask/serializer.c:299-350 | The bytes of a table: the number of array elements in the type byte below 31 and as an integer from there on, the elements, the other entries, and a nil |
| SeriWire.ByteAt | iolua/src/main/cpp/iolua/ltask/serializer.c:224-255 | Byte k of an integer is its k-th digit to the base 256 |
| SeriWire.NestingLimit | iolua/src/main/cpp/iolua/ltask/serializer.c:361-401 | A value in 32 tables is packed and in 33 it is not, whether the tables are nested as array elements or under keys |
| SeriWire.FieldsMean | iolua/src/main/cpp/iolua/ltask/serializer.c:321-338 | What is received for a table has a value for a key exactly if the table had one, and it is what that value means; array elements are at 1 to n |
| SeriWire.HeadRead | iolua/src/main/cpp/iolua/ltask/serializer.c:548-595 | On any bytes: nil and booleans are read whatever the number beside the type, and number kinds other than six, and the type 7, are refused |
| SeriWire.SmallRead | iolua/src/main/cpp/iolua/ltask/serializer.c:442-470 | On any bytes: integers of one and two bytes are read without a sign, lower byte first, and refused if they are cut off |
| SeriStream.WriteBlock.Push | iolua/src/main/cpp/iolua/ltask/serializer.c:58-78 | Bytes copied over block boundaries are appended to the flat contents; the rest of the heap is untouched |
| SeriStream.WriteBlock.Close | iolua/src/main/cpp/iolua/ltask/serializer.c:102-109 | The chain is handed over with the length of the contents in its first four bytes |
| SeriStream.WriteBlock.Free | iolua/src/main/cpp/iolua/ltask/serializer.c:111-123 | Every block of the chain is given back, each once, and nothing else |
| SeriStream.ReadBlock.Read | iolua/src/main/cpp/iolua/ltask/serializer.c:147-199 | The next bytes of the flat contents, exactly if there are so many; used-up blocks are freed and not read again |
| SeriStream.ReadBlock.Close | iolua/src/main/cpp/iolua/ltask/serializer.c:201-210 | The blocks that are left are given back |
| Serializer.PackValue | iolua/src/main/cpp/iolua/ltask/serializer.c:361-401 | Appends what the value packs to, or fails exactly if it cannot be packed, after giving back every block |
| Serializer.UnpackOne | iolua/src/main/cpp/iolua/ltask/serializer.c:597-605 | Reads one value as the parser of flat bytes does, leaving the stream at the byte after it |
| Serializer.SeriPack | iolua/src/main/cpp/iolua/ltask/serializer.c:412-420 | A chain of fresh blocks that holds the message, or a failure that leaves the heap as it was |
| Serializer.SeriUnpack | iolua/src/main/cpp/iolua/ltask/serializer.c:607-632 | What was packed comes out, and all blocks of the message, and no others, are freed |
| PatternMatching.BestUnique | lemon/src/main/cpp/lua/lstrlib.c:425-525 | There is at most one best match: `*`, `+` and `?` take the most and `-` the least that lets the rest match, first items first |
| PatternMatching.BalanceIs | lemon/src/main/cpp/lua/lstrlib.c:341-358 | The counting scan of `%b` stops where, for the first time, as many closing as opening characters were seen; the closing one is looked for first, if both are the same |
| PatternMatching.Chosen | lemon/src/main/cpp/lua/lstrlib.c:361-386 | The first end, in the order an item tries them, after which the rest matches is the start of the best match |
| PatternMatcher.MatchBracketClass | lemon/src/main/cpp/lua/lstrlib.c:302-322 | The loop over a set decides membership: ranges, classes, escapes and complement |
| PatternMatcher.MatchState.Match | lemon/src/main/cpp/lua/lstrlib.c:425-525 | For any pattern: the best match with its captures, or no match exactly if there is none, with captures and their open or closed state restored; a malformed pattern raises an error exactly if what comes before the malformed place matches, and otherwise fails; the depth limit is reached only by patterns with at least that many items left |
| PatternMatcher.MatchState.MaxExpand | lemon/src/main/cpp/lua/lstrlib.c:361-373 | Of the repetitions after which the rest matches, the most |
| PatternMatcher.MatchState.MinExpand | lemon/src/main/cpp/lua/lstrlib.c:376-386 | Of the repetitions after which the rest matches, the fewest |
| PatternMatcher.MatchState.StartCapture | lemon/src/main/cpp/lua/lstrlib.c:389-400 | The best match with a new capture, which is undone if there is none; an error exactly if there is no room for it |
| PatternMatcher.MatchState.EndCapture | lemon/src/main/cpp/lua/lstrlib.c:403-411 | The best match with the innermost open capture closed, which is open again if there is none; an error exactly if no capture is open |
| PatternExtents.ClassMeans | lemon/src/main/cpp/lua/lstrlib.c:282-299 | Every lower-case class accepts exactly the characters of its extent, given as a set of characters, and the upper-case class exactly the others |
| PatternExtents.ClassFinds | lemon/src/main/cpp/lua/lstrlib.c:282-299 | On a subject of one character, a search for `%d` and so on finds it if and only if it is in the extent, and one for `%D` if and only if it is not |
| PatternText.SetMeans | lemon/src/main/cpp/lua/lstrlib.c:302-322 | The text of a set ends at its closing bracket and accepts exactly the characters of its parts (characters, ranges, classes), or with `^` exactly the others |
| PatternPieces.WrittenRead | lemon/src/main/cpp/lua/lstrlib.c:425-525 | A pattern written as pieces (classes with suffixes, groups, positions, references, `%b`, `%f`, anchors) is read as items for just these pieces, and is well formed if and only if there are at most 32 captures, every end has an open group and every reference a closed capture |
| PatternFinds.EndCloses | lemon/src/main/cpp/lua/lstrlib.c:250-255 | An end closes the capture that was opened last among those still open |
| PatternFinds.WalkIsBest | lemon/src/main/cpp/lua/lstrlib.c:425-525 | Walking from piece to piece, taking at each the end it would rather have of those the others can go on from, is the best match of the items, with its captures |
| StringFind.PatternFind | lemon/src/main/cpp/lua/lstrlib.c:613-640 | The leftmost position at which the pattern matches (only the first if anchored), with the best match there; an error exactly if the pattern is malformed and what comes before the malformed place matches somewhere |
| PatternFinds.SearchExactly | lemon/src/main/cpp/lua/lstrlib.c:613-640 | For every subject and every written pattern whose captures fit, a search finds a place, an end and captures if and only if the walk over the pieces from there leads to them and no walk from an earlier place to any match, and finds nothing if and only if no walk does; stated in terms of the characters of the subject alone |
| StringFind.PlainIsPattern | lemon/src/main/cpp/lua/lstrlib.c:601-611 | For a well-formed pattern without special characters, the plain search finds a place exactly if it is the leftmost best match, and nothing exactly if nothing matches |
| StringFind.LeftmostUnique | lemon/src/main/cpp/lua/lstrlib.c:613-640 | A search has one answer |
| StringFind.NoCloseExactly | lemon/src/main/cpp/lua/lstrlib.c:580-588 | A pattern without special characters is well formed if and only if it has no closing parenthesis |
| StringFind.ShortcutExactly | lemon/src/main/cpp/lua/lstrlib.c:601-611 | For every pattern without special characters the plain search gives the answer of the matcher if and only if there is no closing parenthesis in it or what comes before the first one does not occur; otherwise the matcher raises an error |
| StringFind.CloseIsNotSpecial | lemon/src/main/cpp/lua/lstrlib.c:580-588 | The plain search finds "a)" in "a)", the matcher raises an error |
| StringFind.Search | lemon/src/main/cpp/lua/lstrlib.c:591-640 | `find` and `match` on all inputs: the start position (negative ones from the end), nothing past the end, the plain search where it is asked for or the pattern has no special characters, and otherwise the answer of the matcher, errors included |
| StringFind.StartAt | lemon/src/main/cpp/lua/lstrlib.c:591-600 | For 1 <= k <= n the position -k starts at offset n - k, k itself at k - 1; 0 and positions before the start start at 0 |

## Findings

Properties that turned out not to hold of the code, each with an input and the exact condition.

- **A table with weak keys and values can lose its metatable.** `traversetable`
  (`lgc.c:446-466`) links such a table to the `allweak` list and leaves it gray, and the
  barriers act on black objects only. A metatable set after that visit is not marked on account
  of the table and can be freed while the table refers to it (`GcDangling.MetatableIsFreed`).
  `GcRuns.GuardIsExact` and `GcUnguarded.UnguardedDangles` give the condition in both directions;
  in runs without that write `GcRuns.CollectorIsSafe` holds.
- **Wake-ups can be lost.** A task that selected on a channel and then did something else stays
  in its waiting queue and can absorb the wake-up of a second receiver
  (`LtaskRuns.StaleWaiterAbsorbsWakeup`). With one receiver, `recv` on several channels goes to
  sleep after the first one it chose turns out closed, without having registered with the
  channels behind it (`LtaskRuns.CloseDuringRecvLosesWakeup`). A message for a channel with one
  receiver is slept through exactly if the receiver is not in the waiting queue when it is
  pushed (`LtaskRuns.SendIsLostExactly`); it is there whenever its last `select` got past the
  channel (`LtaskRuns.ListenersWait`), and may be from an earlier one
  (`LtaskRuns.StillQueuedFromBefore`). `LtaskRuns.SoleStopsShortExactly` says when a `select` does
  not get past a channel.
- **Channels leak.** `send` and `select` take references that are never given back, so a channel
  that was ever used that way is never deleted (`LtaskRuns.DeletedExactlyWhen`;
  `LtaskRuns.CloseDuringRecvLosesWakeup` ends with such a channel).
- **`find` accepts patterns that `match` rejects.** `)` is not among the special characters, so
  `string.find(s, "a)")` is a plain search (`StringFind.CloseIsNotSpecial`).
  `StringFind.ShortcutExactly` says for which patterns and subjects the answers differ.

Documented behaviour that looks like a failure: a change of a table's mode takes effect only in
the next cycle if the table was visited already (section 2.5.2 of the Lua 5.3 Reference Manual).
`GcUnguarded.ModeChangeComesTooLate` and `GcLostEntry.EntryIsLost` show what that means for a
table that stops being weak; no dangling reference comes of it.

## Left out

- StatementsCorrect.FunctionCorrect: `return` has one value or is the implicit one at the end; returning no value explicitly, several values, open results and tail calls are not modelled; an `elseif` is an `if` in the `else` part, and the form of `if` that only jumps is left out with `goto`. The same holds for LuaCompiler.Function.
- The compiler: code is generated from a syntax tree; the lexer and the recursive-descent parser with its precedence table are not modelled, nor are loops, `goto`, calls, table constructors, closures, varargs, and multiple assignment.
- CodeCorrect.CompileOk: registers, constants and jump offsets are unbounded (no LOADKX, no "function too complex" errors); metamethods appear only as the result the value operations are given.
- CodeOperators.CodeArithOk: which operations `validop` and `constfolding` fold is not modelled: constant folding is a parameter that must agree with the operation at run time and give a number.
- The generator in place: the A field of a JMP, which closes upvalues, is 0 throughout; line information is not kept.
- The scheduler: ids do not wrap around; starting and joining threads and logging are not modelled; the null entries that `operator[]` leaves in the maps count as absent; finding an id and inserting under it is one step.
- LtaskRuns.DeletedExactlyWhen: references leaked by `send` and `select` are counted as the code leaves them, so nothing says that channels are freed in the end.
- GcRuns.CollectorIsSafe: the kind of a table is the mode it is next visited with, so a new mode of a table that was visited already appears as a step of the next cycle; open upvalues of unmarked threads, running finalizers while sweeping, fixed strings, memory debt and pauses are not modelled.
- The collector's heap: objects are identifiers with a list of strong references and a list of entries that may be weak; the array part of a table with weak values appears as entries without a collectable key.
- LuaTable.Table.Set: array and node vector together have fewer than 2^30 slots, as the 32-bit counters of `computesizes` need; SetValue and Rehash have the same condition. Resize is called with a hash size that holds the remaining entries, as rehash does; a smaller one would make the code rehash once more.
- TableSizes.ComputeSizes: at most 2^30 integer keys are counted, for the same reason.
- Tables: allocation does not fail, a reallocated array is a new array, `luaO_ceillog2` is computed and not looked up, and dead keys left by the collector, barriers and the metamethod cache are not modelled.
- TableTraversal.Next: the key is found by value; a dead key, which the collector may leave in a node, is not.
- Serializer.SeriPack: the total length fits the 32-bit header; on longer messages the length that is written is not the length of the contents.
- Messages: integers are written as on a little-endian machine; tables are values, so shared and cyclic tables and tables as keys are not modelled; keys that are floats or pointers are opaque bytes.
- Serializer.UnpackOne: on a malformed message the model fails where the code does other things: `_get_buffer` copies through the pointer that `rb_read` gives it without a look at it, and a type 7 pushes no value. Blocks that are left after a failure are not freed, as in the code. The same holds for SeriUnpack.
- PatternFinds.SearchExactly: patterns that are written as pieces; a set is written with its special characters escaped, so a `]` or `-` that stands for itself by its place in a set is only covered by MatchBracketClass and Match.
- PatternMatcher.MatchState.Match: character classes are those of the C locale; errors are not told apart by their message.
- StringFind.Search: captures are positions and lengths; pushing them as values, the error about a capture that is still open then, `gmatch` and `gsub` are not modelled.
- Not modelled at all: bytecode dump and undump, `string.pack` and `string.unpack`, `%q`, the quicksort of `table.sort`, the string table and the list of open upvalues, none of which a property above depends on.
