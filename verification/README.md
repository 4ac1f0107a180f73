# Verified models of YHsys

YHsys is a small RV32 operating system with an optimising compiler for its own language. This project models the parts
of it whose correctness is hardest to see from the code, and proves for all inputs and all runs what those parts are
for. `dafny verify dfyconfig.toml` checks everything.

- **Compiler** (`IR`, `Simplify`, `PassSimulation`, `Optimizer`, `O1`, `OptimizerLoops`, `Lowering`, `LoweringProof`,
  `IRBuilder`, `Pipeline`, `Parser`, `ParserConverse`). The label/goto intermediate code has a small-step semantics
  with a trace of writes, pauses and calls, parametric in the operators. Every O1 pass is a simulation; their iteration
  ends, never grows the code, and keeps trace and outcome. Lowering structured statements to labels and gotos keeps
  them too, and the two compose for every function of a program. Expression parsing inverts minimally parenthesised
  printing, and accepts nothing but printings.
- **Redo log and buffer cache** (`RedoLog`, `LogDevice`, `LogCache`, `LogCacheProof`, `LogCacheRuns`, `LogBuffers`).
  The disk is an array of blocks with atomic block writes, and the machine may stop between any two. `LogCache` is a
  state machine in which any number of processes read, change, log and release buffers, operations begin and end,
  commits and recovery write block by block, and crashes strike anywhere.
- **Memory** (`Buddy`, `Kalloc`, `Cow`, `AddrSpace`). The buddy allocator's free lists are canonical for the set of free
  pages; copy-on-write address spaces on top of reference-counted pages isolate processes.
- **File blocks** (`Fs`, `FileSystem`). Bitmap, direct and indirect blocks refine byte sequences.
- **Processes** (`ProcTable`, `ProcMachine`, `ProcSafety`, `ProcMlfq`). Fork, exit, wait, sleep, wakeup, kill and the
  multi-level feedback scheduler as one state machine; on one processor a step is the stretch between two scheduling
  points.
- **User heap, pipe, pattern matching, long division** (`FreeList`, `UserHeap`, `Pipe`, `Grep`, `Div64`).

Where the code changes things in place the model is a class or a method with loops, proved against value-level
specifications about which the properties are then proved. The outside world enters as parameters: whether a copy to or
from user memory succeeds, what `sbrk` answers, which page an allocation returns.

Five places where the code does less than one might expect are stated as such, with the exact condition:

- The simplifier's `*0`, `&& 0` and `|| 1` rules drop an operand together with any call in it
  (`Simplify.DiscardedCallIsLost`). In any frame, a rule is right exactly when evaluating what it drops makes no call
  there (`Simplify.RulesExact`). For operands that call on every evaluation or on none, it is right in every frame
  exactly when no call occurs in what it drops (`Simplify.SafeRuleExact`).
- A compound assignment, an increment or a decrement lowers its index twice, so a call in the index runs twice. In any
  frame, the emitted code has the statement's effect exactly when evaluating the index makes no call there
  (`LoweringProof.CompoundExact`). For an index that calls on every evaluation or on none, it has the effect in every
  frame exactly when no call occurs in the index (`LoweringProof.UpdateExact`).
- A function that has lowered some return gets none appended. A run falls off the end exactly when the body runs to its
  end and holds a return that no constant condition rules out (`LoweringProof.FallsOffExactly`).
- `kkill(0)` finds a slot that is not in use and marks it killed, and the next process forked there is born killed
  (`ProcSafety.KillExact`, `ProcSafety.KillZeroDoomsNextChild`). A child is born killed exactly when a `kkill(0)` has
  found its slot since the slot was last freed (`ProcSafety.BornKilledExactly`).
- `malloc` adds up the size in 32 bits, so the largest request gets a header and no room at all
  (`UserHeap.LargestRequestWraps`). The block holds what was asked for exactly when the sum does not wrap
  (`UserHeap.UnitsExact`).

## Model

| member | source | states |
|---|---|---|
| `IR.EvalAgree` | compiler/ir/optimizer.py:382-401 | the value and the events of an expression depend only on the variables that the read set collects |
| `IR.CallFreeSilent` | compiler/ir/optimizer.py:404-422 | an expression without calls adds nothing to the trace |
| `Simplify.SimplifyExpr` | compiler/ir/optimizer.py:97-176 | one pass either leaves an expression alone or lowers its weight |
| `Simplify.SimplifyFixedPoint` | compiler/ir/optimizer.py:179-185 | the repeat-until-unchanged loop ends and computes the fixed point |
| `Simplify.RulesSound` | compiler/ir/optimizer.py:121-176 | each folding and algebraic rule keeps value and trace when it drops no call |
| `Simplify.RulesLoseCalls` | compiler/ir/optimizer.py:145-172 | in a frame where the dropped operand calls, the rule shows a strictly shorter trace |
| `Simplify.RulesExact` | compiler/ir/optimizer.py:121-176 | in any frame, a rule keeps value and trace if and only if evaluating what it drops makes no call there |
| `Simplify.SafeRuleExact` | compiler/ir/optimizer.py:121-176 | for operands that call on every evaluation or on none, a rule keeps value and trace in every frame if and only if no call occurs in what it drops |
| `Simplify.SimplifyExprSound` | compiler/ir/optimizer.py:97-176 | a pass over an expression keeps value and trace in every frame its constants are true of |
| `Simplify.FixedPointSound` | compiler/ir/optimizer.py:179-185 | so does the whole fixed point |
| `Simplify.DiscardedCallIsLost` | compiler/ir/optimizer.py:145-151 | multiplying a call by 0 loses the call |
| `Simplify.FoldOpsLawful` | compiler/ir/optimizer.py:31-80 | the fold functions satisfy the algebra that the rules rely on |
| `PassSimulation.SimulationEquivalent` | compiler/ir/optimizer.py:226-320 | a pass that rewrites or drops instructions in lockstep shows the same observations as its input, in both directions |
| `PassSimulation.UniqueLabelsKept` | compiler/ir/optimizer.py:226-320 | such a pass keeps labels unique |
| `Optimizer.ConstPropEquivalent` | compiler/ir/optimizer.py:226-320 | constant propagation with invalidation at labels, stores and calls keeps trace and outcome |
| `Optimizer.DeadBranchesEquivalent` | compiler/ir/optimizer.py:323-336 | resolving branches on constants keeps trace and outcome |
| `Optimizer.UnreachableEquivalent` | compiler/ir/optimizer.py:339-379 | dropping instructions that no path reaches keeps trace and outcome |
| `Optimizer.LivenessEquation` | compiler/ir/optimizer.py:477-492 | liveness by paths satisfies the data-flow equations |
| `Optimizer.DeadStoresEquivalent` | compiler/ir/optimizer.py:425-503 | dropping stores of side-effect-free expressions to variables that no path reads keeps trace and outcome |
| `Optimizer.DropJumpsEquivalent` | compiler/ir/optimizer.py:506-534 | dropping jumps to the next instruction keeps trace and outcome |
| `Optimizer.DropLabelsEquivalent` | compiler/ir/optimizer.py:506-534 | dropping labels that nothing jumps to keeps trace and outcome |
| `O1.CleanupEquivalent` | compiler/ir/optimizer.py:506-534 | the whole cleanup loop keeps trace and outcome |
| `O1.OptimizeOnceEquivalent` | compiler/ir/optimizer.py:226-320 | one round of all passes keeps trace, outcome and unique labels |
| `O1.OptimizeOnceShrinks` | compiler/ir/optimizer.py:205-216 | one round never adds weight, and loses some whenever it changes anything |
| `O1.OptimizeIrSettles` | compiler/ir/optimizer.py:205-216 | wherever the folds are defined, module iteration ends in a module that another round leaves alone, with no more instructions than the input and less weight if anything changed |
| `O1.OptimizeIrEquivalent` | compiler/ir/optimizer.py:205-216 | every function of the optimised module has the traces and outcomes of the original, both ways |
| `O1.TameModuleKeepsCalls` | compiler/ir/optimizer.py:145-172 | a condition on the input module alone under which no round ever drops a call |
| `OptimizerLoops.PropagateConstants` | compiler/ir/optimizer.py:226-320 | the loop over instructions with its environment computes constant propagation, or stops where a fold is undefined |
| `OptimizerLoops.PruneBranches` | compiler/ir/optimizer.py:323-336 | the branch loop computes the pass |
| `OptimizerLoops.VisitReachable` | compiler/ir/optimizer.py:339-379 | the work list ends with exactly the reachable instructions |
| `OptimizerLoops.PruneUnreachable` | compiler/ir/optimizer.py:339-379 | the filter loop computes the pass |
| `OptimizerLoops.Liveness` | compiler/ir/optimizer.py:477-492 | the sweeps end, in the least solution of the liveness equations, which is liveness by paths |
| `OptimizerLoops.PruneDeadStores` | compiler/ir/optimizer.py:425-503 | the dead-store loop computes the pass |
| `OptimizerLoops.CleanupControlFlow` | compiler/ir/optimizer.py:506-534 | the cleanup loop ends and computes the pass |
| `OptimizerLoops.OptimizeRound` | compiler/ir/optimizer.py:226-320 | one imperative round over all functions computes one round |
| `OptimizerLoops.Optimize` | compiler/ir/optimizer.py:205-216 | the outer loop ends and computes the optimised module |
| `Lowering.LabelNameInjective` | compiler/ir/builder.py:53-57 | generated label names are distinct for distinct numbers |
| `Lowering.LowerExprSound` | compiler/ir/builder.py:148-168 | lowering an expression with folding keeps value and trace |
| `Lowering.FunctionLabels` | compiler/ir/builder.py:53-57 | lowered code defines every label once and every branch target |
| `LoweringProof.SimpleSim` | compiler/ir/builder.py:264-302 | the code of a simple statement has its effect |
| `LoweringProof.BranchSim` | compiler/ir/builder.py:201-231 | the code of an if has the effect of the chosen branch |
| `LoweringProof.LoopSim` | compiler/ir/builder.py:233-249 | the code of a while has the effect of the loop |
| `LoweringProof.BlockSim` | compiler/ir/builder.py:304-308 | the code of a block has the effect of the block |
| `LoweringProof.LoweringForward` | compiler/ir/builder.py:264-314 | whatever the structured function shows, its lowered code shows, the way it ends included |
| `LoweringProof.LoweringBackward` | compiler/ir/builder.py:264-314 | after any number of steps the lowered code has shown a prefix of what the structured function shows; when it halts, the function ends with the same events and outcome |
| `LoweringProof.ConstantsDistinct` | compiler/ir/builder.py:62-66 | string constants of one function have distinct names |
| `LoweringProof.UpdateCallsTwice` | compiler/ir/builder.py:170-188 | in a frame where the index calls, the code of a compound assignment shows a strictly longer trace than the statement |
| `LoweringProof.UpdateExact` | compiler/ir/builder.py:170-188 | for an index that calls on every evaluation or on none, a compound assignment keeps its meaning in every frame if and only if no call occurs in the index |
| `LoweringProof.CompoundExact` | compiler/ir/builder.py:170-199 | in any frame, the code of a compound assignment, increment or decrement has the statement's effect if and only if finding its place makes no call there |
| `LoweringProof.BlockReturns` | compiler/ir/builder.py:201-308 | a return has been emitted for a block if and only if the source has one that no constant condition rules out |
| `LoweringProof.FallsOffExactly` | compiler/ir/builder.py:310-314 | a run falls off the end if and only if the body runs to its end and has such a return |
| `LoweringProof.FallsOffTheEnd` | compiler/ir/builder.py:310-314 | a function with a return on one branch only can fall off its end |
| `IRBuilder.Builder.FreshLabel` | compiler/ir/builder.py:53-57 | the label differs from every label issued before, whatever its kind, so no emitted instruction defines it |
| `IRBuilder.Builder.LowerIf` | compiler/ir/builder.py:201-231 | appends exactly the specified code and advances the counters |
| `IRBuilder.Builder.LowerWhile` | compiler/ir/builder.py:233-249 | appends exactly the specified code and advances the counters |
| `IRBuilder.Builder.LowerBlock` | compiler/ir/builder.py:304-308 | lowers statement by statement and stops after a return |
| `IRBuilder.Builder.Finalize` | compiler/ir/builder.py:310-314 | from the end of the body, in every frame, one step returns zero, or falls off if a return was lowered |
| `IRBuilder.LowerFunction` | compiler/ir/builder.py:317-322 | the builder run over a body computes the lowered function |
| `Pipeline.LowerProgram` | compiler/ir/builder.py:317-363 | the loop over the functions computes the lowered program |
| `Pipeline.ProgramConstantsDistinct` | compiler/ir/builder.py:331-361 | string constants of a whole program have distinct names |
| `Pipeline.CompiledProgram` | compiler/ir/builder.py:324-363 | lowering a program and optimising it keeps every function: its code shows what the body shows and never anything else, and halts only as the body ends |
| `Parser.Full` | compiler/frontend/parser/parser.py:240-367 | a printed tree, followed by a token that does not continue it, parses back at every level |
| `Parser.Spine` | compiler/frontend/parser/parser.py:240-338 | a level reads a whole left-nested chain before it looks further |
| `Parser.FullArgs` | compiler/frontend/parser/parser.py:225-235 | printed argument lists parse back |
| `Parser.ParseInvertsPrint` | compiler/frontend/parser/parser.py:237-367 | parsing the minimally parenthesised printing gives the tree back and consumes exactly its tokens |
| `ParserConverse.AcceptsOnlyPrintings` | compiler/frontend/parser/parser.py:225-367 | whatever is accepted is the returned tree as written, with parentheses wherever the levels ask for them and perhaps elsewhere; no other tokens yield it |
| `ParserConverse.MinimalShown` | compiler/frontend/parser/parser.py:240-367 | the minimal printing is the tree as written with parentheses only where they are needed |
| `Parser.Cursor.Level` | compiler/frontend/parser/parser.py:240-338 | the loop over operators of a level computes the specified parse and moves the cursor to its end |
| `Parser.Cursor.Prefix` | compiler/frontend/parser/parser.py:340-346 | unary operators |
| `Parser.Cursor.Atom` | compiler/frontend/parser/parser.py:348-367 | primary expressions, or the position of the token that is none |
| `Parser.Cursor.CallExpr` | compiler/frontend/parser/parser.py:225-235 | calls, or the position of the token that does not fit |
| `RedoLog.HeadRoundTrip` | os/kernel/log.c:88-115 | a header written is read back |
| `RedoLog.InstallAgain` | os/kernel/log.c:67-84 | installing again over a partly installed disk gives the fully installed one |
| `RedoLog.RecoveryCrash` | os/kernel/log.c:118-124 | recovery cut short after any write leaves a disk that recovers to the same home blocks |
| `RedoLog.RecoveryCompletes` | os/kernel/log.c:118-124 | completed recovery leaves an empty log and the recovered home blocks |
| `RedoLog.RepeatedCrashes` | os/kernel/log.c:118-124 | however often recovery is cut short, the outcome is the same |
| `RedoLog.CrashAtomicity` | os/kernel/log.c:180-204 | a commit cut short anywhere recovers to all old or all new home blocks, new exactly from the header write on |
| `RedoLog.CommitCompletes` | os/kernel/log.c:195-204 | a completed commit leaves an empty log and the transaction applied |
| `RedoLog.DurableHistory` | os/kernel/log.c:66-124 | over any history of commits and crashes the disk recovers to exactly the committed transactions, in order |
| `RedoLog.CommitWritesAt` | os/kernel/log.c:195-204 | the disks that the writes of a commit pass through are the ones the crash theorem speaks of |
| `RedoLog.RecoveryWritesAt` | os/kernel/log.c:118-124 | likewise for the writes of recovery |
| `LogDevice.Log.WriteLog` | os/kernel/log.c:180-192 | copies the cached blocks to the log, disk write by disk write |
| `LogDevice.Log.WriteHead` | os/kernel/log.c:104-115 | one disk write that puts the block list in the header |
| `LogDevice.Log.InstallTrans` | os/kernel/log.c:67-84 | copies the log blocks home, disk write by disk write |
| `LogDevice.Log.Commit` | os/kernel/log.c:195-204 | the disk writes of a commit are, in order, those the crash theorem speaks of |
| `LogDevice.Log.RecoverFromLog` | os/kernel/log.c:118-124 | the disk writes of recovery are, in order, those the crash theorem speaks of |
| `LogCacheProof.BgetKeeps` | os/kernel/bio.c:59-89 | finding or recycling a buffer loses nothing and never duplicates a block |
| `LogCacheProof.ReadDiskKeeps` | os/kernel/bio.c:93-103 | filling a buffer from disk gives what everyone sees of the block |
| `LogCacheProof.ReleaseKeeps` | os/kernel/bio.c:117-137 | releasing keeps counts, contents and the order of recycling |
| `LogCacheProof.ModifyKeeps` | os/kernel/log.c:206-214 | changing a locked buffer inside an operation keeps the invariant |
| `LogCacheProof.LogWriteKeeps` | os/kernel/log.c:216-236 | logging a block, new or absorbed, keeps the invariant and finds room |
| `LogCacheProof.BeginOpKeeps` | os/kernel/log.c:128-143 | joining or falling asleep keeps the reservation |
| `LogCacheProof.EndOpKeeps` | os/kernel/log.c:148-176 | the last operation out starts the commit, any other wakes the sleepers |
| `LogCacheProof.CommitWriteKeeps` | os/kernel/log.c:180-204 | every single write of a commit keeps the invariant |
| `LogCacheProof.CrashKeeps` | os/kernel/log.c:118-124 | a crash at any moment leaves a state that recovery starts from |
| `LogCacheRuns.StepKeeps` | os/kernel/bio.c:58-151 | every step of every process keeps the whole invariant |
| `LogCacheRuns.RunInv` | os/kernel/bio.c:58-151 | so every state of every run satisfies it |
| `LogCacheRuns.ReadersSeeFlat` | os/kernel/bio.c:93-103 | whoever holds a buffer reads the latest contents of its block |
| `LogCacheRuns.UnloggedIsOnDisk` | os/kernel/bio.c:58-151 | a valid, unlocked, unlogged buffer equals its disk block |
| `LogCacheRuns.LoggedStaysCached` | os/kernel/log.c:216-236 | a logged block stays cached, in one buffer, with its latest contents, until it is installed |
| `LogCacheRuns.LogNeverFull` | os/kernel/log.c:216-224 | the overflow panic of log_write is never hit |
| `LogBuffers.PinsBounded` | os/kernel/log.c:127-236 | in every state of every run at most LOGBLOCKS - 2 blocks are pinned, so at least two of the NBUF buffers are not |
| `LogBuffers.BgetExactly` | os/kernel/bio.c:58-95 | an uncached block can be had if and only if the pinned buffers and those held beside them leave a buffer over |
| `LogBuffers.OneHeldIsHarmless` | os/kernel/bio.c:58-95 | in every run, write_log, write_head, install_trans or anyone else gets a buffer while at most one buffer beside the pinned ones is held |
| `LogCacheRuns.CommitRunsAlone` | os/kernel/log.c:148-176 | while a commit runs no operation is outstanding |
| `LogCacheRuns.SleeperHasWaker` | os/kernel/log.c:128-143 | a process asleep in begin_op has an operation or a commit that will wake it |
| `LogCacheRuns.Refinement` | os/kernel/log.c:66-236 | every step is a step of a disk that changes atomically at commit points |
| `LogCacheRuns.CrashSafety` | os/kernel/log.c:66-236 | in every state of every run, recovery of the disk gives the contents of the last commit point |
| `Buddy.RemoveBlock` | os/kernel/kalloc.c:104-130 | taking a block off its list and marking it used keeps the lists canonical |
| `Buddy.AddBlock` | os/kernel/kalloc.c:133-159 | listing and freeing a block whose buddy is not free keeps the lists canonical |
| `Buddy.ListsDetermined` | os/kernel/kalloc.c:103-159 | the lists, as sets, depend only on which pages are free |
| `Buddy.ListedAligned` | os/kernel/kalloc.c:103-159 | a listed block starts at a multiple of its size, lies within the managed pages, and all its pages are free |
| `Buddy.ListedDisjoint` | os/kernel/kalloc.c:103-159 | listed blocks are free and pairwise disjoint, each the aligned run of pages around any page in it |
| `Buddy.FreePageListed` | os/kernel/kalloc.c:103-159 | every free page lies in a listed block |
| `Kalloc.Kmem.SetBlockState` | os/kernel/kalloc.c:51-59 | marks exactly the pages of the block |
| `Kalloc.Kmem.FreelistRemove` | os/kernel/kalloc.c:83-101 | unlinks the entry if it is there |
| `Kalloc.Kmem.BuddyAlloc` | os/kernel/kalloc.c:104-130 | fails exactly when no page is free, otherwise takes one page and keeps the lists canonical |
| `Kalloc.Kmem.BuddyFree` | os/kernel/kalloc.c:133-159 | gives one page back and keeps the lists canonical |
| `Kalloc.Kmem.Alloc` | os/kernel/kalloc.c:231-247 | fails exactly when every managed page has references, otherwise hands out an unreferenced one |
| `Kalloc.Kmem.Free` | os/kernel/kalloc.c:203-225 | drops one reference; the last one frees the page |
| `Kalloc.Kmem.AddRef` | os/kernel/kalloc.c:183-196 | adds one reference in 16 bits; the allocator stays sound if and only if the count does not wrap |
| `Kalloc.Kmem.constructor` | os/kernel/kalloc.c:162-180 | every page above the kernel ends up free |
| `Kalloc.Conservation` | os/kernel/kalloc.c:61-247 | listed pages and referenced pages are together all managed pages |
| `Kalloc.FreeIffUnreferenced` | os/kernel/kalloc.c:61-247 | a managed page lies in a listed block if and only if it has no references |
| `Cow.StepKeeps` | os/kernel/addrspace.c:389-600 | every page operation keeps counts equal to mappings and writable pages private, and changes only what its own process reads |
| `Cow.Isolation` | os/kernel/addrspace.c:543-600 | over any run, a process for which no step acts reads at the end what it read at the start |
| `Cow.WritableIsPrivate` | os/kernel/addrspace.c:783-801 | a page mapped writable has one mapping and one reference |
| `Cow.CountBounded` | os/kernel/kalloc.c:183-196 | a page has at most one mapping per process, so its 16-bit count never wraps |
| `Cow.BreakKeeps` | os/kernel/addrspace.c:783-801 | breaking a share gives a private writable copy and nobody reads anything different |
| `AddrSpace.AddressSpaces.AddRegion` | os/kernel/addrspace.c:233-272 | accepts a region exactly when it is aligned, new and disjoint, and keeps the regions in order |
| `AddrSpace.AddressSpaces.ResizeRegion` | os/kernel/addrspace.c:338-367 | moves an end exactly when no other region is in the way |
| `AddrSpace.AddressSpaces.RemoveRegion` | os/kernel/addrspace.c:290-309 | drops the region and what was mapped in it, and nothing else |
| `AddrSpace.AddressSpaces.UnmapRange` | os/kernel/addrspace.c:390-417 | unmaps the range, keeps every other entry |
| `AddrSpace.AddressSpaces.AsCopy` | os/kernel/addrspace.c:544-600 | on success the child maps the parent's pages and reads the same, neither may write them; on failure it is empty, and there were fewer free pages than pages to copy or a region ends inside a page; all other processes read what they did |
| `AddrSpace.AddressSpaces.VmFault` | os/kernel/addrspace.c:769-819 | exactly which faults are refused; a resolved one gives a private copy or a page of zeros; nothing else changes |
| `AddrSpace.RegionIndex` | os/kernel/addrspace.c:197-206 | the first region of a kind |
| `AddrSpace.FindRegion` | os/kernel/addrspace.c:275-287 | the first region that holds an address |
| `Fs.WordRoundTrip` | os/kernel/fs.c:426-438 | an entry written into an indirect block is read back and disturbs no other |
| `Fs.AttachKeeps` | os/kernel/fs.c:406-444 | recording a newly allocated block keeps every block with one owner and its bit set |
| `Fs.AttachBytes` | os/kernel/fs.c:406-444 | allocation changes no byte of any file |
| `Fs.PokeBytes` | os/kernel/fs.c:541-551 | writing into a file block changes those bytes of that file and no others |
| `Fs.EmptiedKeeps` | os/kernel/fs.c:449-476 | emptying a file keeps all other files and their blocks |
| `FileSystem.Blocks.Balloc` | os/kernel/fs.c:67-89 | takes the first free block, zeroed, or fails exactly when there is none |
| `Fs.FreeExact` | os/kernel/fs.c:93-106 | clearing a block's bit keeps every owned block marked if and only if no slot holds the block |
| `FileSystem.Blocks.Bfree` | os/kernel/fs.c:93-106 | frees the block without changing a byte of any file, and keeps the disk in order if and only if no slot holds the block |
| `FileSystem.Blocks.Bmap` | os/kernel/fs.c:406-444 | finds or allocates the block, unseen by any file and losing no block; an existing block changes nothing |
| `FileSystem.Blocks.Readi` | os/kernel/fs.c:495-519 | returns the slice of the file, and on a hole-free file all of it without allocating |
| `FileSystem.Blocks.Writei` | os/kernel/fs.c:529-562 | splices exactly the returned count of bytes, fewer only if the disk is full, keeps files hole-free and loses no block; exactly when it refuses |
| `FileSystem.Blocks.Itrunc` | os/kernel/fs.c:449-476 | returns exactly the file's blocks to the free map, losing none, and leaves it empty |
| `ProcTable.BestIsLeast` | os/kernel/taskmgr.c:484-502 | the scan picks the lexicographically least level and stamp, the first of several |
| `ProcTable.Scans.Wakeup` | os/kernel/taskmgr.c:634-647 | wakes everyone asleep on the channel but the caller |
| `ProcTable.Scans.Boost` | os/kernel/taskmgr.c:76-88 | resets every process in use |
| `ProcTable.Scans.PickBest` | os/kernel/taskmgr.c:484-502 | the loop computes the scan's choice |
| `ProcTable.Scans.ReparentChildren` | os/kernel/taskmgr.c:349-359 | every child goes to init, which is woken if there is one |
| `ProcTable.Scans.ScanChildren` | os/kernel/taskmgr.c:418-444 | finds the first exited child and whether there are children |
| `ProcMachine.SchedulingKeeps` | os/kernel/taskmgr.c:463-671 | dispatching, ticking, yielding, sleeping, waking and killing keep the invariant |
| `ProcSafety.ForkAllocKeeps` | os/kernel/taskmgr.c:168-209 | so does allocating a child, also when memory runs out |
| `ProcSafety.ExitKeeps` | os/kernel/taskmgr.c:365-404 | so does exiting, with children given to init |
| `ProcSafety.WaitKeeps` | os/kernel/taskmgr.c:409-453 | so does a scan of kwait, whatever it finds |
| `ProcSafety.StepKeeps` | os/kernel/taskmgr.c:296-671 | every step keeps the invariant |
| `ProcSafety.NoLostExit` | os/kernel/taskmgr.c:365-453 | in every state of every run an exited process has a live parent that is not asleep in kwait |
| `ProcSafety.SleeperHasChild` | os/kernel/taskmgr.c:365-453 | in every state of every run a process asleep in kwait has a live child, whose exit is still to come |
| `ProcSafety.ReapedOnce` | os/kernel/taskmgr.c:409-453 | no process is reaped twice; each is reaped by its parent with the status of its own exit |
| `ProcSafety.WakeupWakes` | os/kernel/taskmgr.c:634-647 | after a wakeup nobody sleeps on the channel and nobody else has changed |
| `ProcSafety.KillExact` | os/kernel/taskmgr.c:653-671 | exactly when kkill touches only processes |
| `ProcSafety.KillZeroDoomsNextChild` | os/kernel/taskmgr.c:168-209 | after kkill(0) the next child is born killed |
| `ProcSafety.UnusedMarkedExactly` | os/kernel/taskmgr.c:653-671 | in every run a slot not in use is marked killed if and only if a kkill(0) has found it since it was last freed |
| `ProcSafety.BornKilledExactly` | os/kernel/taskmgr.c:168-209 | in every run a child is born killed if and only if a kkill(0) has found its slot since the slot was last freed |
| `ProcMlfq.DispatchLeast` | os/kernel/taskmgr.c:463-515 | each dispatch picks a least level and stamp, after a boost if one is due, and stamps it last |
| `ProcMlfq.BypassedOnce` | os/kernel/taskmgr.c:463-515 | while a process stays runnable at a level, nobody started from that level or below passes it twice |
| `ProcMlfq.BypassesBounded` | os/kernel/taskmgr.c:476-515 | a process waiting at level 0 is passed over fewer than NPROC times, plus once for every process created meanwhile |
| `ProcMlfq.RunsWithinNproc` | os/kernel/taskmgr.c:476-515 | at level 0, or boosted to it, a runnable process is started within NPROC dispatches, plus one for every process created meanwhile |
| `ProcMlfq.SliceUse` | os/kernel/taskmgr.c:33-73 | a slice lasts exactly its quantum, then the level drops |
| `ProcMlfq.EarlyExitRises` | os/kernel/taskmgr.c:546-558 | giving up early raises the level by one |
| `Pipe.Buffer.Write` | os/kernel/pipe.c:77-103 | appends bytes in order across counter wrap, sleeps only on a full open pipe, wakes the readers |
| `Pipe.Buffer.Read` | os/kernel/pipe.c:106-134 | delivers the oldest bytes in order, sleeps only on an empty open pipe, wakes the writers |
| `Pipe.Buffer.Close` | os/kernel/pipe.c:59-74 | closing an end wakes those who wait for it |
| `Pipe.StoreByte` | os/kernel/pipe.c:92-96 | the ring gains a byte at its end, also when the 32-bit counter wraps |
| `Pipe.TakeByte` | os/kernel/pipe.c:119-130 | the ring loses its first byte, also when the 32-bit counter wraps |
| `FreeList.FreedOk` | os/user/umalloc.c:25-44 | freeing keeps the list in address order with no two blocks adjacent |
| `FreeList.FreedCovers` | os/user/umalloc.c:25-44 | freeing adds the block's headers to the free ones and no others |
| `FreeList.CarvedOk` | os/user/umalloc.c:75-84 | taking all or the tail of a block keeps the list in order |
| `FreeList.CarvedCovers` | os/user/umalloc.c:75-84 | what is taken and what stays partition what was there |
| `UserHeap.FindPrev` | os/user/umalloc.c:30-32 | the search of free ends at the place where the block belongs, wherever it starts |
| `UserHeap.FirstFit` | os/user/umalloc.c:74-88 | a round finds a block with room, or there is none |
| `UserHeap.Heap.Free` | os/user/umalloc.c:25-44 | a live block joins the free list; live and free blocks stay disjoint and account for all that sbrk gave |
| `UserHeap.Heap.Morecore` | os/user/umalloc.c:47-61 | exactly the headers that sbrk gave, none of them had before, are added to the heap's, and the free list has room for the request |
| `UserHeap.Heap.Malloc` | os/user/umalloc.c:64-90 | a new live block that holds the bytes asked for if and only if the 32-bit sum does not wrap; it fails if and only if no free block has room and sbrk fails; the heap's headers grow by exactly what one sbrk gave, and only if no free block had room |
| `UserHeap.UnitsExact` | os/user/umalloc.c:69 | the headers taken hold the bytes, with less than a header to spare, if and only if the 32-bit sum does not wrap |
| `UserHeap.LargestRequestWraps` | os/user/umalloc.c:69 | the largest request takes one header |
| `UserHeap.RequestExact` | os/user/umalloc.c:53-55 | the byte count handed to sbrk is exact if and only if it fits an int |
| `Grep.MatchHere` | os/user/grep.c:85-96 | true if and only if the pattern describes a prefix of the text |
| `Grep.MatchStar` | os/user/grep.c:99-106 | true if and only if the pattern matches after some run of fitting characters |
| `Grep.Match` | os/user/grep.c:73-82 | true if and only if the pattern describes some part of the text |
| `Div64.Udivmod64` | os/user/div64.c:4-26 | exact quotient and remainder for every divisor; zero for a zero divisor |
| `Div64.RoomToShift` | os/user/div64.c:16-17 | the shift never overflows, however large the divisor |
| `Div64.Uabs64` | os/user/div64.c:43-48 | the magnitude, also of the least number |
| `Div64.Divdi3` | os/user/div64.c:51-58 | the truncated quotient if and only if it fits, and otherwise the least number |
| `Div64.Moddi3` | os/user/div64.c:61-68 | the remainder that completes the truncated quotient, with the sign of the dividend |

## Left out

- Simplify.FoldOpsLawful: division folds through a floating-point quotient in the source; the model divides exactly, so it does not capture rounding for operands beyond 53 bits.
- Pipeline.CompiledProgram: a call is an oracle that leaves the caller's frame alone, so functions are compared one by one; the copy of main's instructions that the source keeps at module level is not modelled.
- O1.OptimizeIrEquivalent: arrays are unbounded maps from index to value, so out-of-range accesses are not modelled.
- LoweringProof.ConstantsDistinct: string constants are treated as already encoded text.
- LogCacheRuns.CrashSafety: one disk device; operations are assumed to modify, log and release buffers in that order and to log fewer than MAXOPBLOCKS distinct blocks, as the code asks of its callers.
- LogCacheProof.BgetKeeps: running out of buffers, a panic in the source, is a step that cannot be taken; `LogBuffers.BgetExactly` says when that is.
- Kalloc.Kmem.BuddyAlloc: a block on a free list is named by its number at its order instead of its address, and the links that the source keeps inside free pages are a sequence.
- Cow.StepKeeps: page tables are a map from virtual page to entry; page-table pages appear only as kernel pages that come and go.
- AddrSpace.AddressSpaces.AddRegion: only the kinds of region that the kernel creates (text, heap, stack), not device regions whose pages are never freed.
- AddrSpace.AddressSpaces.AsCopy: the address space is a value that the method replaces; the two-level walk and the TLB flushes are not modelled, so whether mapping a page needs a table page is left open and the bound on failure counts one for every page.
- FileSystem.Blocks.Writei: copies from user memory succeed; the path in which a copy fails after a block was changed is outside the log's protocol and not modelled.
- FileSystem.Blocks.Readi: copies to user memory succeed.
- ProcMlfq.BypassedOnce: holds while the 32-bit stamps do not wrap.
- ProcMlfq.RunsWithinNproc: holds while the 32-bit stamps do not wrap.
- ProcSafety.ReapedOnce: process ids are unbounded integers; wrap-around of the id counter is not modelled.
- UserHeap.Heap.Malloc: the static base header lies below all heap addresses.
- UserHeap.Heap.Morecore: sbrk is taken to answer for as many bytes as the headers recorded; `UserHeap.RequestExact` says when that is what it is asked for.
- Growing and shrinking user memory (uvmalloc, growproc) and copying across the user boundary (copyin, copyout): they would add easier members about the same page operations.
- The inode cache, directories and path names, and the inode's own log writes.
- The lexer, the semantic checks, statement parsing and the RISC-V code generator.
- The processor's hardware description, trap and switch code, device drivers, and the user programs other than the heap, the pattern matcher of grep and the 64-bit division.
