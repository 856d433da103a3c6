# Zephir, modelled in Dafny

Zephir is a compiler from a PHP-like language to PHP extensions.  The repository holds two of them: the compiler
in PHP under `Library/`, which emits C, and a compiler in C under `runtime/`, which builds LLVM code. In both,
one pass decides something that must hold in every run of the code it emits.  This project models those
decisions and proves what they guarantee.

**Reference-counted code** (`Zval`, `RefCounts`, `Ir`, `Helpers`, `Simulation`, `Builder`, `Conversions`,
`Runtime`, `RuntimeValues`, `RuntimePaths`, `RuntimeCompiler`, `RuntimeMethods`).  Memory is a heap of counted
zvals, the slots of a method, and the frame that releases them; counters are 32-bit and wrap around.  `Ir` is a
small language of basic blocks with phi instructions and a step semantics.  The class `Builder` appends blocks
and moves an insertion point as the C code does, and each of its methods states what the blocks it emitted mean
as a command on memory.  Above it, `RuntimeCompiler` compiles assignments, temporaries, conditionals and loops
into one method, and `RuntimeMethods` shows that a call that completes leaves no trace in the caller's memory,
and that the method computes what a plain interpreter of its statements says (`RuntimeValues`).  Two conditions
are exact.  Copy on write fails exactly when its value is null or is copied to itself by its only holder.  The
runtime compiler does not count `let x = y` as an initialization of `x`, so a literal assigned to `x` later may
get the allocation that insists on a null slot.  `Runtime.Safe` excludes that for every path at once;
`RuntimePaths` shows that along each path, through branches and rounds of loops, the condition is exact.

**Initialization and reads** (`Branches`, `Variables`, `Statements`, `Walks`, `Discipline`, `WholeWalk`,
`Effects`, `Reads`, `Runs`, `Flows`, `Outlines`, `Sources`, `Overwrites`, `Initialization`, `Openings`,
`FirstTimes`, `Counterexamples`, `BlockCompiler`).  `Statements` writes the compile walk of `StatementsBlock`
and of every control statement as a function on the compilation state; `BlockCompiler` does the same walk with
mutable objects and loops, is proved equal to it, and states for every statement and for whole methods what
follows.  Emitted code is a tree whose runs are given by `Runs`: rounds of loops, early exits, exceptions and
handlers, and all prefixes of runs.  `Walks` names the facts that every part of the walk keeps, `Discipline` and
`WholeWalk` prove them for every step and every statement, and `Initialization` draws the conclusions about
runs.  `Variables`, `Effects`, `Reads` and `Openings` say by cases on fields, records and text what single steps
do: which macro is emitted, what an assignment or declaration changes, when a read is an error, and which
branches are opened.  `Outlines` proves that reads, assignments, uncounted macros and jumps in the emitted code
are fixed by the source alone, and `Flows` decides exactly what their runs can do; together they say for every
method whether some run reads a variable before it is assigned, and whether a `break` leaves it.

The read check accepts a read as soon as one record of the variable was made in the current, the root or the
external branch.  Only three kinds of records are made where a value is stored: parameters, assignments, and
declarations of scalars without initializer, which are declared zero.  A read accepted on one of these is safe
in every run (`AcceptedReadsAreInitialized`).  A declaration of any other kind, the target of a traversal or of
a `catch`, and the assignment of a variable to itself are recorded too, though the pointer may still be null; a
read accepted on these alone proves nothing, and `Counterexamples` has a method and a run for each.

Other gaps of the walk: the key of a traversal and a caught variable are initialized without being counted, so
the next assignment may allocate over them (`Overwrites` decides that for whole methods, `FirstTimes` for any
statement and the assignment after it); a `switch` without clauses leaves the switch counter raised, so that a
stray `break` compiles after it.

**Symbol table** (`Names`, `Scopes`, `Temporaries`, `SymbolTable`).  Lookup through enclosing branches, names
with `$$`, and the pools from which idle temporaries are reused.  A parameter and a variable of the root block
may share a name; then `getVariables` loses one of them, and only then.

**Classes** (`ClassDefinitions`, `Dependencies`, `RankSort`, `Ranking`, `ClassLookup`, `PropertyInit`).  Ranks
count dependency paths; sorting by rank gives an order in which dependencies come first; member lookup agrees
with one flattened table; the initializers of array properties do not depend on their order.

**Strings and options** (`Slashes`, `Arguments`, `ArgumentTokens`).  C string escaping against the simple escape
sequences of section 6.4.4.4 of ISO/IEC 9899:2011, and the command line parser with PHP's integer keys.

Where comments and code of the repository differ, the model follows the code.  The comment on `ZEPHIR_INIT_NVAR`
in `Library/Variable.php:793-797` promises that later allocations always use it; the key of a traversal does not
count as an allocation, so they do not.  `getConstant` documents a Boolean result but throws for names that PHP
considers empty, which `hasConstant` accepts.

Assumed rather than proved, and stated as parameters of the model: what the allocator returns (a fresh address,
`Zval.Lawful`), what destructors leave behind, the conversions of the kernel library, and that its test for
truth depends on values only (`RuntimeValues.Tests`).

## Model

| member | source | states |
|---|---|---|
| RefCounts.InitNvarExact | runtime/builder.c:374-470 | Re-initialization from any heap with exact counts completes, keeps counts exact, leaves the slot sole owner of a null zval, and changes no other slot |
| RefCounts.PlainAllocExact | runtime/kernel/memory.c:368-418 | The plain allocation fails exactly when its slot is not null; otherwise it does what re-initialization does |
| RefCounts.CopyOnWriteExact | runtime/builder.c:475-553 | Copy on write fails exactly when the value slot is null, or the sole holder is copied to itself; otherwise both slots share the zval, counts stay exact, other slots keep their zvals |
| RefCounts.LiteralExact | runtime/statements/let.c:33-174 | Assigning a Boolean, long or double literal leaves exactly that value in the slot and keeps counts exact and other slots as they are |
| RefCounts.ReleaseLeavesOnlyExternal | runtime/kernel/memory.c:91-163 | Restoring the memory frame frees everything but what is held from outside, with exactly its outside count |
| Helpers.OpRuns | runtime/builder.c:83-677 | From any heap, the instructions of every single-zval helper (allocation, destructors, reference counting, null, Boolean, long, double) have the effect of the macro they stand for |
| Ir.ReachExtend | runtime/builder.c:374-470 | Code that is only appended to keeps all its runs |
| Ir.FinalUnique | runtime/builder.c:374-470 | A configuration has one outcome |
| Simulation.SimulatesIfNotNull | runtime/builder.c:374-400 | A pointer test, two arms and a merge block mean if/else from any heap |
| Simulation.SimulatesIfAbove | runtime/builder.c:400-440 | A reference count test means its comparison |
| Simulation.SimulatesWhile | runtime/statements/while.c:37-83 | Start, body and merge blocks mean a loop: every round, the exit and every crash |
| Builder.Builder.AppendBlock | runtime/builder.c:374-400 | A new block is empty and follows all others; nothing else moves |
| Builder.Builder.BranchIfNotNull | runtime/builder.c:374-400 | Closes the current block with the test on three new blocks and moves nothing else |
| Builder.Builder.MemoryNalloc | runtime/builder.c:374-470 | The emitted blocks mean the re-initialization command from any heap; every appended block but the merge block is closed and the builder ends in it |
| Builder.Builder.BuildCopyOnWrite | runtime/builder.c:475-553 | The emitted blocks mean copy on write from any heap; every appended block but the merge block is closed and the builder ends in it |
| Conversions.Get | runtime/builder.c:764-830 | The phi picks the stored long or double when the tag matches and the library conversion otherwise; a null slot crashes; the heap does not change |
| Conversions.ConversionReads | runtime/builder.c:911-967 | Test, two arms and a merge block with a phi read the converted value, whichever arm runs |
| Runtime.StatementKeeps | runtime/statements/let.c:33-174 | Every statement keeps counts exact and leaves alone the slots it does not name |
| Runtime.ProgramRefines | runtime/variable.c:42-52 | For every structured program that passes the check of Safe, the plain allocation only runs on null slots: the program means the same as with re-initialization everywhere |
| Runtime.NoCopiesIsSafe | runtime/symtable.c:147-184 | Programs with temporaries and literals, in and out of loops, pass that check |
| Runtime.CopyThenLiteralIsUnsafe | runtime/statements/let.c:33-174 | A copy is not counted as an initialization, so a literal assigned after it fails the check |
| Runtime.CopyThenLiteralCrashes | runtime/statements/let.c:33-174 | That program aborts in every run, on the allocation that insists on a null slot |
| RuntimePaths.UnsafePathNeverCompletes | runtime/variable.c:42-52 | Along every path through branches and rounds of loops the check is exact: a run on an unsafe path never completes, and a run that completes keeps counts exact and leaves null what is not initialized on the path |
| RuntimePaths.SafePathRefines | runtime/variable.c:42-52 | A run on a safe path means the same as with re-initialization everywhere, even if other paths are unsafe |
| RuntimePaths.EveryRunTakesAPath | runtime/statements/if.c:37-89 | Every run of every program takes one of these paths |
| RuntimePaths.LoopFreeEnds | runtime/statements/if.c:37-89 | Every run of a program without loops ends, so that on an unsafe path it crashes |
| RuntimeValues.BlockAgrees | runtime/statements/let.c:33-174 | An interpreter of statements over what variables hold, with Booleans stored as 1 and 0: from any heap, every run with re-initialization completes with exactly its values, goes on where it does, and crashes only where it fails or copies a variable to itself |
| RuntimeValues.CrashesOrRefines | runtime/variable.c:42-52 | Whatever the cheap first allocation does, safe or not, the program crashes or means the same as with re-initialization |
| RuntimeValues.TempHoldsNull | runtime/symtable.c:147-184 | Every temporary is sole owner of a null zval, in a slot no variable and no earlier temporary has |
| RuntimeCompiler.Variable.InitVariant | runtime/variable.c:42-52 | Plain allocation for the first initialization outside cycles, re-initialization otherwise |
| RuntimeCompiler.Compiler.TempVariable | runtime/symtable.c:147-184 | A fresh slot is declared null in the declaration block and initialized at the insertion point |
| RuntimeCompiler.Compiler.CompileIf | runtime/statements/if.c:37-89 | The blocks of an if mean the command of the statement, and the counters follow both arms |
| RuntimeCompiler.Compiler.CompileWhile | runtime/statements/while.c:37-83 | The blocks of a loop mean the command of the statement, with the cycle counter raised and lowered |
| RuntimeCompiler.Compiler.CompileBlock | runtime/blocks.c:39-110 | The blocks of a statement list mean the statements in order |
| RuntimeCompiler.MethodAssembled | runtime/classes.c:262-357 | Declarations, body and epilogue together run as one method |
| RuntimeMethods.CompileMethod | runtime/classes.c:262-357 | Every block of a compiled method has its terminator, and the method runs as its translation |
| RuntimeMethods.CompiledMethodComputes | runtime/classes.c:262-357 | A compiled method crashes where the interpreter of its statements fails; where that ends, the method gets to its end with exactly those values in its variables, or crashes, which it cannot if it passes the check of Safe and copies no variable to itself |
| RuntimeMethods.CallLeavesNoTrace | runtime/classes.c:262-357 | A call that completes returns with the caller heap and counts unchanged and nothing leaked; it crashes only where its reference does |
| Branches.BranchManager.AddBranch | Library/BranchManager.php:42-60 | The new branch is current, below the previous one, with the next id; the history of branches stays well formed |
| Branches.BranchManager.RemoveBranch | Library/BranchManager.php:67-72 | Closing the current branch makes its parent current and lowers the level |
| Branches.AncestorsAreOrdered | Library/Branch.php:25-162 | Ids and levels grow from parent to child, so an ancestor is determined by either |
| Branches.AncestorsAreRecorded | Library/BranchManager.php:42-72 | Every ancestor of an opened branch was itself opened, under its own id |
| Variables.Variable.InitVariant | Library/Variable.php:786-834 | Which macro is emitted, and the counters after it, by the rule on the fields as well |
| Variables.Variable.TrackVariant | Library/Variable.php:841-877 | The counters after a tracked call result, by the rule on the fields as well |
| Variables.Variable.InitComplexLiteralVariant | Library/Variable.php:885-916 | Which literal macro is emitted, and the counters after it, by the rule on the fields as well |
| Variables.Variable.ObserveVariant | Library/Variable.php:923-947 | Which observe macro is emitted, and the counters after it, by the rule on the fields as well |
| Variables.Variable.ObserveOrNullifyVariant | Library/Variable.php:955-980 | The counters after observe-or-nullify, which emits nothing, by the rule on the fields as well |
| Variables.Variable.SetIsInitialized | Library/Variable.php:612-623 | The current branch is recorded as initializing the variable |
| Variables.Variable.SetIdle | Library/Variable.php:319-328 | Only reusable variables become idle |
| Variables.Variable.EnableDefaultAutoInitValue | Library/Variable.php:691-718 | Scalars get the default zero; dynamic variables are forced to null and off the stack |
| Variables.VariantInitializedIs | Library/Variable.php:786-834 | On the fields alone: nothing for skipped and reserved variables; stack macros if and only if the variable is on the stack; a first-time macro if and only if it was never counted, outside cycles; when the macro without null test is taken; when the declaration is forced to null; counted once |
| Variables.VariantTrackedIs | Library/Variable.php:841-877 | On the fields alone: when a tracked call result forces the declaration to null |
| Variables.LiteralInitializedIs | Library/Variable.php:885-916 | On the fields alone: the stack macros and the first-time macros for literals, and when the declaration is forced to null |
| Variables.VariantObservedIs | Library/Variable.php:923-947 | On the fields alone: the first observation or a repeated one, and when the declaration is forced to null |
| Variables.VariantNullifiedIs | Library/Variable.php:955-980 | Nothing is emitted; the variable is counted once and its declaration forced to null |
| Variables.DefaultEnabledIs | Library/Variable.php:691-718 | Scalars become zero and stay otherwise as they are; dynamic variables are forced to null and leave the stack |
| Variables.VariantInitializedDisciplined | Library/Variable.php:786-834 | First-time macros are only chosen outside cycles for variables never counted; all others force a null declaration; the macro without null test is never chosen at depth 1 or more |
| Variables.VariantTrackedDisciplined | Library/Variable.php:841-877 | Tracking counts as an initialization and emits nothing |
| Variables.LiteralInitializedDisciplined | Library/Variable.php:885-916 | The same discipline for literals |
| Variables.VariantObservedDisciplined | Library/Variable.php:923-980 | The same discipline for both observe operations |
| Statements.CompileSwitch | Library/Statements/SwitchStatement.php:39-167 | The switch counter is restored, plus one for every switch without clauses |
| Statements.CompileAll | Library/StatementsBlock.php:117-306 | A statement list raises the switch counter by exactly its switches without clauses |
| Openings.AllOpen | Library/StatementsBlock.php:89-115 | Compiling statements opens exactly the branches written down from their text: in that order, so nested, of these kinds, with these flags of unreachable conditions |
| Openings.MethodOpens | Library/ClassMethod.php:1714-1724 | A method opens its root branch under the external one, with id 2, and inside it exactly the branches of its text |
| Walks.KeptThen | Library/StatementsBlock.php:117-306 | What two pieces of a walk keep, their sequence keeps |
| Discipline.ReadKept | Library/SymbolTable.php:283-413 | A read keeps all facts of the walk; one accepted on a parameter, an assignment or a zeroed scalar is of a variable whose record vouches for it |
| Reads.ReadFails | Library/SymbolTable.php:283-413 | A read is an error if and only if the variable is not declared in an enclosing branch, was never recorded as initialized, or is analysed and has exactly one record, made under a condition that is never true (or the else of one that always is), or deeper than the current branch in the else of a condition that is never true |
| Reads.ReadDoes | Library/SymbolTable.php:309-402 | What a read emits and changes: the pointer check, the records it is accepted on, and the default value, which is given if and only if the only record was made deeper than the current branch in a conditional and does not reject the read |
| Reads.DeclaredIsReadable | Library/SymbolTable.php:339-375 | A variable declared in a block that depends on no unreachable condition can be read there and in every block inside it, whatever happens to it meanwhile |
| Reads.ReadableInBlock | Library/StatementsBlock.php:89-115 | So it can be read at the start of any block opened inside the block of its declaration |
| Discipline.ActKept | Library/Variable.php:612-980 | Every single step on a variable keeps the discipline of macros and records |
| Discipline.DeclarationKept | Library/Statements/DeclareStatement.php:50-119 | A declaration keeps all facts of the walk, its initializer included, and vouches for a value only where one is stored |
| Discipline.ScalarsAreZeroed | Library/Variable.php:691-718 | A declaration without initializer vouches for a value if and only if the variable is a scalar, which is then declared zero; all others are declared null |
| Effects.LetDoes | Library/Statements/Let/Variable.php:733-1145 | For every way to store a value: the macro by its rule, the value, the counters, the null flag and the record of an assignment; all other variables stay as they are |
| Effects.LetFails | Library/Statements/LetStatement.php:63-170 | An assignment compiles if and only if what it reads does and its variable is visible |
| Effects.PlainDeclarationDoes | Library/Statements/DeclareStatement.php:50-119 | The new variable field by field, for a declaration without initializer |
| Effects.InitializedDeclarationDoes | Library/Statements/DeclareStatement.php:50-119 | A declaration with an initializer is the declared variable, field by field, and then an assignment; a repeated declaration is an error |
| Effects.MovedOutAre | Library/Statements/IfStatement.php:81-93 | Which variables are initialized in front of an if, and how often |
| Effects.HoistOneDoes | Library/Statements/IfStatement.php:81-93 | Each is initialized by the rule on its fields, and its next two initializations are swallowed; variables that are not dynamic are left alone |
| Effects.TargetDoes | Library/Statements/ForStatement.php:655-752 | What a traversal does to its targets; the value is counted, the key is not; only visible dynamic variables can be targets |
| Effects.CaughtDoes | Library/Statements/TryCatchStatement.php:79-124 | What a catch does to its variable |
| Effects.JumpsCompile | Library/Statements/BreakStatement.php:36-43 | Where break and continue compile |
| Effects.HasBreakIs | Library/Passes/LoopBreakPass.php:41-65 | The break, return or throw that a loop without test must have is looked for in its block, and in the first and the else arms of conditionals there, at any depth |
| WholeWalk.BlockKept | Library/StatementsBlock.php:89-326 | The records of a closed block vouch for nothing outside, and the place is restored |
| WholeWalk.LoopKept | Library/Statements/WhileStatement.php:42-79 | Code compiled with the cycle counter raised has no first-time macro, so it may run any number of times |
| WholeWalk.CompileWhileKept | Library/Statements/WhileStatement.php:42-79 | A test and a body compiled in a raised cycle keep all facts outside, and assign nothing for sure |
| WholeWalk.CompileDoWhileKept | Library/Statements/DoWhileStatement.php:37-71 | The same with the test behind the body |
| WholeWalk.CompileLoopKept | Library/Statements/LoopStatement.php:41-71 | The same without a test |
| WholeWalk.CompileSwitchKept | Library/Statements/SwitchStatement.php:39-167 | Clauses keep all facts; only with clauses are breaks taken |
| WholeWalk.CompileForKept | Library/Statements/ForStatement.php:655-752 | A hash traversal keeps the discipline, though its key is not counted |
| WholeWalk.CompileTryKept | Library/Statements/TryCatchStatement.php:43-127 | A guarded block and its handlers keep the discipline |
| WholeWalk.CompileIfKept | Library/Statements/IfStatement.php:50-142 | Conditionals with hoisted initializations keep the discipline |
| Discipline.HoistsAvoidTest | Library/Statements/IfStatement.php:81-93 | What is initialized in front of an if is no variable that its test reads, so that the order of the two makes no difference |
| WholeWalk.CompileKept | Library/StatementsBlock.php:117-306 | Every statement that compiles restores the place and keeps all facts of the walk |
| Runs.OrderedRuns | Library/Variable.php:786-834 | Ordered code never runs a first-time macro after a counted one, in any run |
| Runs.CoveredRuns | Library/SymbolTable.php:339-356 | In covered code every guaranteed read comes after an assignment, in any run, with loops, early exits and exceptions |
| Runs.ExitsRuns | Library/Statements/BreakStatement.php:36-43 | A run only leaves code by an exit that is in the code |
| Outlines.AllOutlined | Library/StatementsBlock.php:117-306 | What is emitted for statements is fixed by their text, except for macros that depend on counters, pointer checks, and the records of reads |
| Sources.BreaksAll | Library/Statements/BreakStatement.php:36-43 | Breaks leave the outline of statements if and only if one stands outside loops and switches with clauses |
| Sources.SneaksAll | Library/Statements/ForStatement.php:655-752 | Uncounted macros in the outline of statements are of its keys and caught variables, and of all of them |
| Flows.AvoidsIsExact | Library/StatementsBlock.php:117-306 | Code can leave by an exit without assigning a variable if and only if a recursion on the code says so |
| Flows.ExposedIsExact | Library/SymbolTable.php:245-413 | Code can read a variable that the run has not assigned if and only if a recursion on the code says so |
| Initialization.BlocksRestoreThePlace | Library/StatementsBlock.php:89-326 | Compiling any block restores current branch, levels, printer, cycle counter and cycle stack; ids are fresh and levels count ancestors; the switch counter is restored if and only if no switch lacks clauses |
| Initialization.FirstTimeMacrosRunOnce | Library/Variable.php:786-834 | In every run of every method, a first-time macro of a variable runs at most once, and never after a counted macro of it |
| Initialization.FirstTimeMacrosSeeNothing | Library/Variable.php:885-947 | In all runs nothing but a pointer check precedes the first-time macro of a variable, if and only if the analysis of the emitted code finds no way from an uncounted macro to it; it finds none for a variable that the source neither uses as a key nor to catch |
| Initialization.UncountedMacros | Library/Statements/ForStatement.php:655-752 | A variable gets a macro that is not counted if and only if the source uses it as a key or to catch |
| Overwrites.MayOverwriteIsExact | Library/Variable.php:786-834 | Some run of code applies a first-time macro to a variable after an uncounted one, if and only if a recursion on the code says so |
| FirstTimes.NextAssignment | Library/StatementsBlock.php:117-306 | After any statement, some run of the next assignment allocates over an uncounted zval, if and only if the statement does so itself, or its source can end with such a zval and the variable looks untouched |
| FirstTimes.NextLet | Library/Variable.php:786-834 | Outside cycles an assignment uses a first-time macro if and only if its variable was not counted, skipped or reserved before |
| FirstTimes.KeyIsAllocatedOver | Library/Statements/ForStatement.php:655-752 | After a traversal with a key and any statements, some run of the next assignment to the key allocates over what was fetched, if and only if the source of a round can end without leaving the method, and the key was not counted, skipped or reserved |
| FirstTimes.EmptyTraversalKeepsKey | Library/Statements/ForStatement.php:655-752 | Without statements the traversal leaves the key uncounted if and only if it was so before, and is not the value too |
| FirstTimes.CaughtIsAllocatedOver | Library/Statements/TryCatchStatement.php:79-124 | After a try with any statements and any handlers, some run of the next assignment to the caught variable allocates over an uncounted zval, if and only if the try does so itself, or the variable looks untouched and the source can get there with one: the body throws and a handler ends, or the body ends with one of its own |
| Initialization.PointersAreDefined | Library/Variable.php:786-834 | In every run, a macro that may read the pointer belongs to a variable declared null, and the macro without null test never runs |
| Initialization.AcceptedReadsAreInitialized | Library/SymbolTable.php:309-356 | In every run, a read accepted on a parameter, an assignment or a zeroed scalar, recorded for the current, root or external branch, is of a parameter or comes after an assignment or zero declaration of its variable |
| Initialization.ReadsBeforeAssignment | Library/SymbolTable.php:245-413 | Some run of a compiled method reads a variable before it assigns it, if and only if a flow analysis of the source says so |
| Initialization.AcceptedReadsBeforeAssignment | Library/SymbolTable.php:339-356 | Some run gets to an accepted read of a variable it has not assigned, if and only if the same analysis of the emitted reads and their records says so; then the read was accepted on nothing but declarations, targets and assignments of a variable to itself |
| Initialization.NoStrayJumps | Library/Statements/BreakStatement.php:36-43 | No break or continue leaves a method, provided that no switch lacks clauses |
| Initialization.StrayJumps | Library/Statements/BreakStatement.php:36-43 | A break is left over if and only if the source has one outside loops and switches with clauses; some run leaves by it if and only if the outline reaches it; no continue ever leaves |
| Initialization.StrayBreakNeedsEmptySwitch | Library/Statements/SwitchStatement.php:39-167 | A method with a stray break only compiles if a switch without clauses comes no later than the statement that has it |
| Counterexamples.FirstTimeMacroAfterKey | Library/Statements/ForStatement.php:655-752 | A traversal key is initialized but not counted, so a later assignment allocates over it |
| Counterexamples.FirstTimeMacroAfterCatch | Library/Statements/TryCatchStatement.php:79-124 | A caught variable is initialized but not counted, so a later assignment allocates over it |
| Counterexamples.EmptySwitchLetsBreakOut | Library/Statements/SwitchStatement.php:39-167 | After a switch without clauses, a break outside any loop is accepted |
| Counterexamples.InitializerReadsItself | Library/Statements/DeclareStatement.php:82-108 | A declaration lets a read through on itself alone if and only if its initializer reads the variable being declared, whatever its type |
| Counterexamples.DeclarationIsNoValue | Library/Statements/DeclareStatement.php:82-118 | var k; return k; is accepted, and reads a variable that nothing assigned |
| Counterexamples.TargetIsNoValue | Library/Statements/ForStatement.php:681-695 | A read after a traversal of nothing is accepted on its target, which nothing assigned |
| Counterexamples.CaughtIsNoValue | Library/Statements/TryCatchStatement.php:79-96 | A read after a try whose call does not throw is accepted on its caught variable, which nothing assigned |
| Counterexamples.AssigningItselfIsNoValue | Library/Statements/Let/Variable.php:1031-1047 | let k = k; is recorded as an assignment of k but emits nothing, so a later read is accepted and unassigned |
| BlockCompiler.Judgement | Library/SymbolTable.php:309-402 | The loops over recorded branches and their ancestors decide as the analysis says |
| BlockCompiler.CompilationContext.Read | Library/SymbolTable.php:245-413 | Over mutable state: the read check, its pointer check, its default value and its errors |
| BlockCompiler.CompilationContext.HasVariable | Library/SymbolTable.php:48-59 | The walk through parent branches finds a variable exactly if its branch encloses the current one |
| BlockCompiler.CompilationContext.OpenBlock | Library/StatementsBlock.php:89-115 | The whole new state when a block is opened |
| BlockCompiler.CompilationContext.CloseBlock | Library/StatementsBlock.php:308-326 | The whole new state when a block is closed |
| BlockCompiler.CompilationContext.CompileBlock | Library/StatementsBlock.php:89-326 | Over mutable state: succeeds exactly when the walk does, with its code and its state |
| BlockCompiler.CompilationContext.CompileAll | Library/StatementsBlock.php:117-306 | Over mutable state, the loop over statements succeeds exactly when the walk does, with its code and its state |
| BlockCompiler.CompilationContext.Compile | Library/StatementsBlock.php:117-306 | Over mutable state, any statement inside a block: restores the place, and keeps the discipline of macros, records, reads and jumps |
| BlockCompiler.CompilationContext.CompileMethod | Library/ClassMethod.php:1714-1724 | Over mutable state, a method body: the place is restored; in every run of its code first-time macros come first, pointers are defined, reads accepted on stored values are assigned, and only stray breaks leave; whether a run reads a variable too early is decided by the source |
| Names.GeneratedNamesAreReadBack | Library/SymbolTable.php:184-202 | A generated name gives back its declared name and its branch |
| Names.GeneratedNamesDiffer | Library/SymbolTable.php:131-161 | Equal generated names come from the same name and branch, or are both plain |
| Scopes.FindIsInnermost | Library/SymbolTable.php:48-59 | Lookup through parent branches is lookup in a stack of scopes, innermost first |
| Scopes.GeneratedNamesAreFound | Library/SymbolTable.php:184-202 | In every table, whatever an inner branch declares is found by its generated name from every branch |
| Scopes.NamesGiven | Library/SymbolTable.php:131-141 | Superglobals and call caches go to the external branch under their plain names; any other name is followed by two dollar signs and the branch id, unless the branch is external or the root |
| Scopes.BlocksRestoreNames | Library/SymbolTable.php:131-202 | Closing a block restores what every name meant, except names added to the external branch |
| Scopes.NamesAreUnique | Library/SymbolTable.php:131-161 | Generated names are unique if and only if no name is declared in two branches with plain names |
| SymbolTable.SymbolTable.ResolveVariableToBranch | Library/SymbolTable.php:48-59 | The loop finds the innermost enclosing branch that declares the name |
| SymbolTable.SymbolTable.GetVariable | Library/SymbolTable.php:184-202 | Lookup by generated or declared name |
| SymbolTable.SymbolTable.AddVariable | Library/SymbolTable.php:131-161 | The whole new table, the generated name and the new variable |
| SymbolTable.SymbolTable.GetVariables | Library/SymbolTable.php:209-218 | Every name is there, and every variable is, if names are unique |
| SymbolTable.AddingKeepsNames | Library/SymbolTable.php:131-161 | Every variable carries the name generated for its branch |
| SymbolTable.VariablesAreFound | Library/SymbolTable.php:184-202 | A variable of an inner branch is found by the name it carries, from every branch |
| SymbolTable.NoVariableIsLost | Library/SymbolTable.php:209-218 | No variable is lost if and only if no name is declared both in the external and in the root branch |
| SymbolTable.SymbolTable.ReuseTempVariable | Library/SymbolTable.php:564-580 | The first idle temporary of the very pool, which stops being idle; all others stay as they are |
| SymbolTable.SymbolTable.RegisterTempVariable | Library/SymbolTable.php:546-555 | The temporary is appended to its pool |
| SymbolTable.SymbolTable.GetTempVariableForWrite | Library/SymbolTable.php:612-635 | Reuses or makes a heap temporary and initializes it |
| SymbolTable.SymbolTable.GetTempComplexLiteralVariableForWrite | Library/SymbolTable.php:715-739 | The same for literal temporaries |
| SymbolTable.SymbolTable.GetTempLocalVariableForWrite | Library/SymbolTable.php:748-774 | The same for stack temporaries, which get the stack macros |
| SymbolTable.SymbolTable.GetTempVariableForObserve | Library/SymbolTable.php:811-831 | The same for observed temporaries |
| SymbolTable.SymbolTable.GetTempVariableForObserveOrNullify | Library/SymbolTable.php:841-862 | The same for call results |
| SymbolTable.SymbolTable.GetTempNonTrackedVariable | Library/SymbolTable.php:647-673 | The same for temporaries that are not tracked |
| SymbolTable.SymbolTable.GetTempNonTrackedUninitializedVariable | Library/SymbolTable.php:684-703 | The same for temporaries that are neither tracked nor initialized |
| SymbolTable.SymbolTable.MarkTemporalVariablesIdle | Library/SymbolTable.php:881-903 | The loops mark exactly the temporaries of the current branch whose name says so |
| Temporaries.NeverSharedWhileBusy | Library/SymbolTable.php:564-636 | In every run, a temporary handed out twice became idle in between |
| Temporaries.WhatMakesIdle | Library/Variable.php:319-328 | Only marking it, or closing the block it belongs to, makes a temporary idle |
| Temporaries.RequestsReuse | Library/SymbolTable.php:564-580 | Reuse is from the same branch, location and type; a fresh temporary is made if and only if none there is idle |
| Temporaries.ClosingIdles | Library/SymbolTable.php:881-903 | Closing an inner block makes exactly its reusable temporaries idle, call caches excepted; closing the root block changes none |
| Temporaries.RunKeeps | Library/SymbolTable.php:546-636 | In every run, names are distinct and say the branch of their pool |
| Dependencies.PathsAreComplete | Library/Compiler.php:1931-1956 | The listed paths are exactly the dependency paths |
| Dependencies.PathsAreDistinct | Library/Compiler.php:1931-1956 | No path is listed twice |
| Dependencies.PathsIntoAreExact | Library/Compiler.php:1931-1956 | The paths counted into a definition are exactly the nonempty ones from non-external definitions, each once |
| Dependencies.EdgesRaise | Library/Compiler.php:1931-1956 | A dependency gains at least one more than the definition that depends on it |
| Dependencies.AcyclicMeansNoCycle | Library/Compiler.php:1924-1957 | A height that decreases along dependencies exists if and only if there is no cycle |
| Dependencies.NoPathBack | Library/Compiler.php:1924-1957 | Without cycles no path comes back |
| ClassDefinitions.ClassDefinition.GetDependencies | Library/ClassDefinition.php:435-453 | The loops collect the parent and the interfaces, those with ranks only |
| ClassDefinitions.DependenciesAre | Library/ClassDefinition.php:435-453 | A definition depends on another if and only if it extends it or implements it, and as often |
| ClassDefinitions.ParentIsFirst | Library/ClassDefinition.php:438-443 | The parent is the first dependency |
| ClassDefinitions.DependenciesInOrder | Library/ClassDefinition.php:444-450 | The interfaces are listed in their order |
| ClassDefinitions.ClassDefinition.IncreaseDependencyRank | Library/ClassDefinition.php:460-463 | The rank grows by one more than the argument |
| Ranking.Compiler.CalculateFrom | Library/Compiler.php:1948-1956 | The recursion raises every rank by the number of nonempty paths from the definition, and ends |
| Ranking.Compiler.CalculateDependencies | Library/Compiler.php:1924-1947 | The walk raises every rank by the number of paths into it, whatever the ranks were before |
| Ranking.Compiler.RankFiles | Library/Compiler.php:981-1001 | The file list is a permutation in which every file comes after all that its definition extends or implements, directly or through non-external definitions; ranks decrease along it, and files of one rank keep their order; the ranks left behind are fit for another walk over the sorted list |
| Ranking.RanksGrow | Library/Compiler.php:1924-1957 | After the walk, ranks grow along every path |
| Ranking.Compiler.InitSequence | Library/Compiler.php:1983-2056 | Interfaces, then classes, by decreasing rank and by string inside a rank; the call of each non-external definition once, after all it extends or implements, directly or indirectly |
| Ranking.InitsAre | Library/Compiler.php:1991-2025 | The calls of one kind are exactly those of the non-external definitions of that kind |
| RankSort.SortByRank | Library/Compiler.php:996-1000 | Highest rank first; inside a rank the order of arrival; nothing lost |
| RankSort.SortInits | Library/Compiler.php:2029-2056 | Highest rank first; inside a rank by string; nothing lost |
| ClassLookup.PropertiesAreInTable | Library/ClassDefinition.php:550-584 | hasProperty and getProperty agree with each other and with the flattened table |
| ClassLookup.ConstantsAreInTable | Library/ClassDefinition.php:592-642 | hasConstant and getConstant agree with each other and with the table: own constants, then the parent with its interfaces, then own interfaces in order |
| ClassLookup.InterfaceConstantsAreInTable | Library/ClassDefinition.php:1867-1895 | The first interface that has the constant provides it |
| ClassLookup.MethodsAreInTable | Library/ClassDefinition.php:717-764 | hasMethod and getMethod agree with each other and with the table, whatever the case of the name |
| ClassLookup.InvalidConstantNames | Library/ClassDefinition.php:614-624 | getConstant rejects exactly the names that are empty to PHP |
| PropertyInit.ClassProperty.RemoveInitializationStatements | Library/ClassProperty.php:347-360 | Removes exactly the initializers of the property |
| PropertyInit.ClassProperty.InitializeArray | Library/ClassProperty.php:239-304 | The whole new initialization method of the class |
| PropertyInit.ClassInitializers | Library/ClassProperty.php:239-304 | After any sequence of properties: one initializer per name, the last compiled one for compiled names, the parent's for all others |
| PropertyInit.RunIs | Library/ClassProperty.php:365-402 | Running the list turns nulls into the defaults of their initializers and changes nothing else |
| PropertyInit.OrderAndRepetitionDoNotMatter | Library/ClassProperty.php:365-402 | Neither the order of the initializers nor running them twice matters |
| PropertyInit.NewObjectsGetDefaults | Library/ClassProperty.php:239-304 | In a new object the own default wins over the parent's |
| Slashes.AddSlashes | Library/Utils.php:47-100 | The index loop computes the escaped string, with the pair of a backslash and a recognized character copied |
| Slashes.DecodesToMeaning | Library/Utils.php:47-100 | The C literal denotes the input with pairs of a backslash and n, v, t, r, quote or backslash decoded and other backslashes literal (section 6.4.4.4 of ISO/IEC 9899:2011) |
| Slashes.RoundTrip | Library/Utils.php:47-100 | The C literal denotes the input itself if and only if the input has no such pair |
| Slashes.ResultIsWellEscaped | Library/Utils.php:47-100 | Outside pairs no quote, newline, tab, carriage return or vertical tab, and no dangling backslash; length between n and 2n |
| Slashes.WellEscapedIsFixed | Library/Utils.php:47-100 | Exactly the well-escaped strings are left alone |
| Slashes.Idempotent | Library/Utils.php:47-100 | Escaping twice is escaping once |
| Arguments.CommandArgumentParser.ParseArguments | Library/CommandArgumentParser.php:79-138 | The index loop with look-ahead parses as the recursive definition says |
| Arguments.OptionsRoundTrip | Library/CommandArgumentParser.php:79-138 | Both renderings of a map of options parse to exactly that map |
| Arguments.BundlesSplit | Library/CommandArgumentParser.php:114-132 | A bundle of letters may be replaced by its letters, anywhere among the arguments |
| Arguments.PositionalsInOrder | Library/CommandArgumentParser.php:133-138 | Positional arguments get consecutive numbers in order, if no option has a number for a key |
| ArgumentTokens.ReadsTokens | Library/CommandArgumentParser.php:79-138 | The parser gives a list of tokens (seven forms of options and values) the meaning written down for each, one after the other |
| ArgumentTokens.EveryLineIsTokens | Library/CommandArgumentParser.php:79-138 | Every command line is such a list of tokens, so they describe the parser completely |
| ArgumentTokens.IntegerKeysAre | Library/CommandArgumentParser.php:79-138 | Exactly the decimal numbers of 64 bits without leading zeros or plus are stored as integer keys |
| Arguments.KeysDiffer | Library/CommandArgumentParser.php:79-138 | Different strings are different array keys |

## Left out

- RuntimeMethods.CallLeavesNoTrace: assumes a program that passes `Runtime.Safe`, because programs that fail it may abort (`RuntimePaths.UnsafePathNeverCompletes`).
- Initialization.AcceptedReadsAreInitialized: says nothing about reads accepted on declarations, targets or assignments of a variable to itself, because they need not be of assigned variables (`Counterexamples`), nor about reads that no record vouches for, because the read check tolerates them (`Library/SymbolTable.php:365-375`).
- Initialization.AcceptedReadsBeforeAssignment: its condition is on the emitted code, because which reads are accepted is decided by records; the condition of `Initialization.ReadsBeforeAssignment` is on the source, for reads of any kind.
- Initialization.FirstTimeMacrosSeeNothing: its condition is on the emitted code, because counters decide which macros are first-time ones.
- Initialization.NoStrayJumps: goes one way, because a switch without clauses does no harm where no stray break follows; `Initialization.StrayJumps` is exact.
- Initialization.StrayBreakNeedsEmptySwitch: goes one way, because a method may fail to compile for other reasons.
- Arguments.PositionalsInOrder: assumes options without numeric keys, because such an option may overwrite a positional argument.
- Ranking.Compiler.RankFiles: asks for a height that decreases along dependencies, because the walk does not end on cycles.
- Ranking.Compiler.InitSequence: asks that interfaces depend on interfaces only, because interfaces are always initialized first.
- SymbolTable.SymbolTable.ReuseTempVariable: does not model that marking a temporary idle also forgets its class types.
- Branches.BranchManager.AddBranch: a branch is a value made there, because its attributes are only set before it is shared; the related statement of a branch is left out, its flags are those of the branch.
- Parallel address computations: loading a field through a pointer is one instruction of the IR.
- LLVM types, optimization passes and the execution engine.
- The runtime compiler's `return`, `break` and infinite loops, declarations inside loops, and the truncation of the names of temporaries.
- RuntimeMethods.CompiledMethodComputes: leaves open whether a program that fails `Runtime.Safe` crashes, because that depends on the path it takes (`RuntimePaths`), and whether copying a variable to itself does, because that depends on its reference count.
- Whether a method opens a memory frame (`mustGrownStack`).
- Zvals held inside arrays and objects; the isref flag is only cleared, never tested.
- The Boolean conversion in `runtime/builder.c`, which adds nothing to the other two.
- Macros at depth 0: parameters are compiled before any block, so statements are always at depth 1 or more.
- Superglobals, `this` in static methods, temporaries of expressions, and substitute variables for parameters inside the compile walk.
- Expressions: a statement lists the variables it reads, and whether it may throw.
- The passes that choose which variables are hoisted in front of an `if`: any list is allowed, of which the walk takes the dynamic variables that the test does not read.
- Traversal of ranges, iterators and strings; `insideTryCatch` and the numbering of try blocks, which only name labels.
- A `switch` over a value that is not a variable, and the grouping of its clauses.
- The names of the walk are generated names; a declaration may not repeat one.
- Interface constants of classes of PHP itself; reflection.
- Static properties, whose initializers are handled like the others.
- Recompiling a class that already has an initialization method inherited through `getLocalOrParentInitMethod`.
- Integer overflow of array indices in the option parser, and substring rules of PHP before version 7.
- Process and file work, templates, configuration, logging and documentation.
