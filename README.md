# checkmerge-llvm in Dafny

This project models the three LLVM passes of checkmerge-llvm over an abstract IR:

- **DependenceCollector** walks every instruction of a function. It records, for each instruction that touches memory, the memory dependencies reported by LLVM's memory-dependence analysis. Each instruction gets an insertion-ordered, duplicate-free set.
- **SourceVariableMapper** scans a function for address-of debug intrinsics. It records which source variable each IR value stands for, and the last binding wins.
- **CheckMergePrinter** numbers the instructions of a function in program order. It renders the function, its blocks and its instructions into a `.ll.cm` report, with each instruction's source variable and its dependencies, and prints summary counts.

In the abstract IR (module `IR`):

- a function is a sequence of blocks, and a block is a sequence of instructions;
- an instruction carries an `id` that stands for its pointer identity, its name and opcode, the `mayRead`/`mayWrite`/`isCall` flags, an optional debug location and optional debug-intrinsic information.

The memory-dependence analysis is not code here. It is an input value (`Dependence.Oracle`) holding three total functions:

- the local answer for an instruction;
- the call-site query;
- the pointer query.

Modules:

| file | module | models |
|---|---|---|
| `wrappers.dfy` | `Wrappers` | `Option` |
| `text.dfy` | `Text` | decimal rendering of numbers; line splitting with `std::getline` semantics; `indentLine`/`withIndent` |
| `ir.dfy` | `IR` | instructions, blocks, functions and modules; `instructions(function)` in program order |
| `dependence_collector.dfy` | `Dependence` | `DependenceCollector.h`/`.cpp` |
| `source_variable_mapper.dfy` | `Variables` | `SourceVariableMapper.h`/`.cpp` |
| `check_merge_printer.dfy` | `Printer` | `CheckMergePrinter.cpp` |

Each pass is a `class` whose fields are the pass's fields. Each pass's `RunOnFunction` is a loop method. Its postcondition ties the new field value to a specification function. `Collect` and `BindAll` are left folds over the function's instructions. `FunctionText` is the function's header followed by a left fold over its blocks (`BlocksText`), each block's text a left fold over its instructions (`InstructionsText`). The properties the source promises are proved as lemmas about those functions.

The model keeps these details of the code:

- Classification uses three independent `if`s (`checkmerge/DependenceCollector.cpp:29-37`), so the last flag that holds wins: NonFuncLocal over Def over Clobber.
- Instruction and variable locations in the report are written `:line:col`, without a file name. Function locations are `file:line:0`, or `~` without a subprogram.
- A dependency line in the report starts with `"*` before the identifier: `    "*instruction.3": "RAW"`.

## Model

| member | source | states |
|---|---|---|
| Text.NatToString | checkmerge/CheckMergePrinter.cpp:242 | the decimal text of a number is all digits and starts with '0' only for zero |
| Text.ParseNatToString | checkmerge/CheckMergePrinter.cpp:242 | reading the decimal text of a number back gives the number |
| Text.NatToStringInjective | checkmerge/CheckMergePrinter.cpp:242 | distinct numbers have distinct decimal texts |
| Text.FirstNewline | checkmerge/CheckMergePrinter.cpp:15-18 | the position `getline` stops at: the first '\n', or the end of the text |
| Text.Lines | checkmerge/CheckMergePrinter.cpp:12-21 | the lines `getline` reads: there are none exactly when the text is empty |
| Text.LinesHaveNoNewline | checkmerge/CheckMergePrinter.cpp:12-21 | no line `getline` reads contains '\n' |
| Text.LinesAppend | checkmerge/CheckMergePrinter.cpp:12-21 | text made of complete lines splits into its own lines followed by the lines of whatever comes after it |
| Text.LinesOfJoinLines | checkmerge/CheckMergePrinter.cpp:77-84 | splitting what the output iterator joined (each line followed by "\n") gives back the lines |
| Text.JoinLinesOfLines | checkmerge/CheckMergePrinter.cpp:72-85 | splitting and rejoining a text restores it, adding a final '\n' only when it is non-empty and lacks one |
| Text.IndentLine | checkmerge/CheckMergePrinter.cpp:62-64 | `indentLine` prepends exactly two spaces and keeps the rest |
| Text.IndentAll | checkmerge/CheckMergePrinter.cpp:77-82 | every line is indented, and the count is kept |
| Text.WithIndentLines | checkmerge/CheckMergePrinter.cpp:72-85 | the lines of `withIndent(s)` are exactly the lines of `s`, each indented by two spaces, so the line count is preserved |
| Text.WithIndent | checkmerge/CheckMergePrinter.cpp:72-85 | `withIndent(s)` is empty exactly when `s` is, and otherwise ends in '\n' |
| Text.WithIndentIndented | checkmerge/CheckMergePrinter.cpp:72-85 | every line of `withIndent(s)` starts with two spaces |
| Text.JoinLines | checkmerge/CheckMergePrinter.cpp:80 | what the output iterator writes is empty exactly when there are no lines, and otherwise ends in '\n' |
| IR.Instructions | checkmerge/CheckMergePrinter.cpp:277-281 | the instructions of a function in program order: one entry per instruction of each block, and nothing else |
| Dependence.TypeTag | checkmerge/DependenceCollector.h:24-32 | the four dependency kinds are numbered below 4 (they fit the 2-bit tag), and the number gives the kind back |
| Dependence.Insert | checkmerge/DependenceCollector.h:37 | set-vector insertion: keeps order and freedom from duplicates, adds exactly the new pair at the end, and re-inserting a present pair changes nothing |
| Dependence.BuildDependency | checkmerge/DependenceCollector.cpp:26-40 | target is the result's instruction; NonFuncLocal iff that flag holds, Def iff Def holds and NonFuncLocal does not, Clobber iff only Clobber holds, Unknown iff no flag holds |
| Dependence.EntryPair | checkmerge/DependenceCollector.cpp:42-44 | the pair for a non-local answer targets the answer's instruction and is tagged with the answer's block |
| Dependence.EntryPairsAt | checkmerge/DependenceCollector.cpp:123-127 | one pair per non-local entry, in order, each built from the entry's result and tagged with its block |
| Dependence.InEntryPairs | checkmerge/DependenceCollector.cpp:134-138 | a pair is recorded for a list of answers exactly when some answer yields it |
| Dependence.InsertAllProperties | checkmerge/DependenceCollector.cpp:114-139 | inserting pairs for one instruction creates its key exactly when there is a pair, leaves other keys alone, adds exactly those pairs after the old ones, keeps the set duplicate-free and non-empty |
| Dependence.InsertAllSnoc | checkmerge/DependenceCollector.cpp:123-127 | inserting one more pair is one more set-vector insertion into the instruction's set |
| Dependence.LocalResultInsertsOnePair | checkmerge/DependenceCollector.cpp:114-117 | a local answer inserts exactly one pair, whose target is the oracle's instruction and whose block is null |
| Dependence.NonLocalResultInsertsEntries | checkmerge/DependenceCollector.cpp:118-138 | a non-local answer inserts one pair per entry of the call-site query (calls) or the pointer query (otherwise), each with its entry's block; an empty list creates no key |
| Dependence.CollectInstructionProperties | checkmerge/DependenceCollector.cpp:103-139 | one loop iteration: which key it creates, that other keys are untouched, which pairs it adds and where, and that sets stay non-empty and duplicate-free |
| Dependence.Collect | checkmerge/DependenceCollector.cpp:103-140 | the walk never removes a key from the map |
| Dependence.CollectKeys | checkmerge/DependenceCollector.cpp:103-140 | after the walk an instruction is a key exactly when it was one before, or it was visited, touches memory and its answer listed a pair |
| Dependence.CollectFrame | checkmerge/DependenceCollector.cpp:95-144 | the map is never cleared: an instruction outside the walked function keeps its key status and its set |
| Dependence.CollectContents | checkmerge/DependenceCollector.cpp:103-140 | an instruction's set after the walk holds exactly its old pairs and the pairs of every visit to it |
| Dependence.CollectKeepsOrder | checkmerge/DependenceCollector.h:37 | the walk only appends: an instruction's old set is a prefix of its new set |
| Dependence.CollectWellFormed | checkmerge/DependenceCollector.cpp:114-139 | every set stored in the map is non-empty and duplicate-free after the walk, if it was before |
| Dependence.NoMemoryInstructionsNoKeys | checkmerge/DependenceCollector.cpp:106-109 | a function whose instructions touch no memory leaves an empty map empty |
| Dependence.FormatDependencyType | checkmerge/DependenceCollector.cpp:80-87 | the four kinds print as "non-local", "clobber", "def" and "unknown", and each name reads back as its kind |
| Dependence.FormatInst | checkmerge/DependenceCollector.cpp:46-61 | `[name] opcode (address)`, followed by ` @ ` and the debug location exactly when there is one |
| Dependence.FormatDebugLoc | checkmerge/DependenceCollector.cpp:63-78 | "file:line:col" of the debug location, and "" exactly when there is none |
| Dependence.DependencyLine | checkmerge/DependenceCollector.cpp:201-218 | a pair prints no line exactly when it names neither an instruction nor a block |
| Dependence.DependencyLineForm | checkmerge/DependenceCollector.cpp:196-219 | a printed line is "Depends (kind) on ", the instruction, " in " only when both are present, the block with its first instruction's location, then '\n' |
| Dependence.DependencyLinesEmpty | checkmerge/DependenceCollector.cpp:196-220 | a set prints nothing exactly when none of its pairs names an instruction or a block |
| Dependence.DependenceCollector.constructor | checkmerge/DependenceCollector.h:54-56 | a new collector has no function and an empty map |
| Dependence.DependenceCollector.RunOnFunction | checkmerge/DependenceCollector.cpp:95-144 | records the function, sets the map to the walk's result over the old map, keeps the sets well formed, returns false |
| Dependence.DependenceCollector.RecordDependencies | checkmerge/DependenceCollector.cpp:112-139 | one memory-touching instruction: inserts the pairs its answer yields, in order |
| Dependence.DependenceCollector.RecordEntries | checkmerge/DependenceCollector.cpp:123-127 | inserts one pair per non-local entry, in order |
| Dependence.DependenceCollector.ReleaseMemory | checkmerge/DependenceCollector.h:65-68 | the map is empty and the function is null |
| Dependence.DependenceCollector.GetDependencies | checkmerge/DependenceCollector.cpp:223-225 | returns the current map, whose sets are non-empty and duplicate-free |
| Dependence.DependenceCollector.PrintInstDeps | checkmerge/DependenceCollector.cpp:184-221 | nothing for an instruction without a key; otherwise the line of each pair of its set, in order |
| Variables.Bind | checkmerge/SourceVariableMapper.cpp:36-48 | only an address-of debug intrinsic changes the map; it binds its variable-location value and no other key |
| Variables.BindAll | checkmerge/SourceVariableMapper.cpp:34-50 | the walk never removes a binding's key |
| Variables.BindAllKeys | checkmerge/SourceVariableMapper.cpp:34-50 | after the walk a value is bound exactly when it was before or some address-of intrinsic of the function binds it |
| Variables.LastWriteWins | checkmerge/SourceVariableMapper.cpp:34-47 | a value's binding is the variable and location of the last address-of intrinsic that binds it |
| Variables.UnboundValueUntouched | checkmerge/SourceVariableMapper.cpp:46-47 | a value no intrinsic binds keeps its binding, or its absence |
| Variables.NonDebugInstructionsIgnored | checkmerge/SourceVariableMapper.cpp:36 | instructions that are not debug intrinsics leave the map unchanged |
| Variables.SourceVariableMapper.constructor | checkmerge/SourceVariableMapper.h:29 | a new mapper has an empty map |
| Variables.SourceVariableMapper.RunOnFunction | checkmerge/SourceVariableMapper.cpp:32-51 | the map becomes the walk's result over the old map |
| Variables.SourceVariableMapper.ReleaseMemory | checkmerge/SourceVariableMapper.h:38-40 | the map is empty |
| Variables.SourceVariableMapper.GetMapping | checkmerge/SourceVariableMapper.h:45-48 | returns the current map |
| Variables.SourceVariableMapper.Print | checkmerge/SourceVariableMapper.cpp:54 | reports the number of keys in "Found n mappings" |
| Printer.FirstIndexOfJoin | checkmerge/CheckMergePrinter.cpp:208-210 | in `a + "." + b` with no '.' in `a`, the first '.' is the one after `a` |
| Printer.SeparatorSplit | checkmerge/CheckMergePrinter.cpp:208-210 | text joined around a separator that the left part lacks splits back into its two parts |
| Printer.FormatIdentifier | checkmerge/CheckMergePrinter.cpp:208-210 | `prefix.descriptor` reads back, after the prefix and its '.', as the descriptor |
| Printer.FormatIdentifierInjective | checkmerge/CheckMergePrinter.cpp:208-210 | for prefixes without '.', `prefix.descriptor` is injective: it determines both the prefix and the descriptor |
| Printer.FunctionIdentifierNames | checkmerge/CheckMergePrinter.cpp:218-220 | two functions get the same identifier exactly when they have the same name |
| Printer.BlockIdentifierNames | checkmerge/CheckMergePrinter.cpp:228-230 | two blocks get the same identifier exactly when they have the same name |
| Printer.IdentifierKindsDistinct | checkmerge/CheckMergePrinter.cpp:218-243 | a function, a block and an instruction never share an identifier |
| Printer.IndexOf | checkmerge/CheckMergePrinter.cpp:239-242 | the position `std::find` returns: an index holding the instruction, with no earlier occurrence |
| Printer.EnumeratedInstructionIdentifier | checkmerge/CheckMergePrinter.cpp:238-243 | when no instruction occurs twice in the enumeration, the k-th enumerated instruction is `instruction.k` |
| Printer.WellFormedInstructionIdentifiers | checkmerge/CheckMergePrinter.cpp:238-243 | in a function whose instructions have distinct ids, the identifiers number its instructions 0, 1, 2, ... in program order |
| Printer.InstructionIdentifierRoundTrip | checkmerge/CheckMergePrinter.cpp:238-243 | an instruction identifier reads back as an index whose entry in the enumeration is that instruction |
| Printer.InstructionIdentifierInjective | checkmerge/CheckMergePrinter.cpp:238-243 | distinct enumerated instructions get distinct identifiers |
| Printer.FormatDepType | checkmerge/CheckMergePrinter.cpp:245-263 | three characters with 'A' in the middle; the first is R iff the instruction may read, W iff it only may write, U iff neither; the last is W iff the target may write, R iff it only may read, U iff neither |
| Printer.LoadAfterStoreIsRAW | checkmerge/CheckMergePrinter.cpp:245-263 | a load depending on a store is "RAW" |
| Printer.FormatLocationInjective | checkmerge/CheckMergePrinter.cpp:197-199 | ":line:col" determines its line and column |
| Printer.FormatFileLocationInjective | checkmerge/CheckMergePrinter.cpp:186-188 | for a fixed file, "file:line:col" is equal for two locations exactly when their lines and columns are |
| Printer.DependencyEntry | checkmerge/CheckMergePrinter.cpp:156-169 | a pair renders no line exactly when it names neither an instruction nor a block |
| Printer.DependencyEntryForm | checkmerge/CheckMergePrinter.cpp:155-170 | a target gives `"*` with the instruction identifier and the direction code, indented twice; a block alone gives the block identifier and "Unknown" |
| Printer.DependencyEntries | checkmerge/CheckMergePrinter.cpp:155-170 | the lines of a set are empty exactly when every pair in it names neither an instruction nor a block |
| Printer.DependencyEntriesEmpty | checkmerge/CheckMergePrinter.cpp:155-170 | a set renders no line exactly when none of its pairs names an instruction or a block |
| Printer.DependencyReferenceRoundTrip | checkmerge/CheckMergePrinter.cpp:126-168 | the identifier a dependency line cites is the one its target's entry is listed under, and it reads back as the target's position |
| Printer.InstructionTextLines | checkmerge/CheckMergePrinter.cpp:120-176 | an instruction's entry is the line `- ` identifier `:`, followed by lines that are all indented under it |
| Printer.EnumeratedInstructionEntry | checkmerge/CheckMergePrinter.cpp:126 | when no instruction occurs twice in the enumeration, the entry of the k-th instruction is headed `- instruction.k:` |
| Printer.InstructionsTextLines | checkmerge/CheckMergePrinter.cpp:113-115 | the entries of a block's instructions are complete lines, all indented |
| Printer.BlockTextLines | checkmerge/CheckMergePrinter.cpp:108-118 | a block's entry is the line `block.name:`, followed by lines that are all indented under it |
| Printer.BlocksTextLines | checkmerge/CheckMergePrinter.cpp:101-103 | the entries of a function's blocks are complete lines, each indented or blank |
| Printer.FunctionTextLines | checkmerge/CheckMergePrinter.cpp:87-106 | a function's entry is the line `function.name:`, followed by lines that are each indented under it or blank |
| Printer.FunctionRenderable | checkmerge/CheckMergePrinter.cpp:274-290 | once the enumeration is rebuilt, every instruction of the function can be given an identifier |
| Printer.TotalRemove | checkmerge/CheckMergePrinter.cpp:302-304 | the summed set sizes do not depend on the order the entries are visited |
| Printer.TotalAtLeastKeys | checkmerge/CheckMergePrinter.cpp:302-310 | with non-empty sets, "Total" is at least the number of instructions with dependencies, and zero exactly when there are none |
| Printer.LastDot | checkmerge/CheckMergePrinter.cpp:317 | `find_last_of('.')`: the position of a '.' with none after it, or none when the name has no '.' |
| Printer.OutputFileName | checkmerge/CheckMergePrinter.cpp:316-318 | the name ends in ".ll.cm"; its stem is the source name up to its last '.', or the whole name when it has none |
| Printer.EnumerateInstructions | checkmerge/CheckMergePrinter.cpp:277-281 | the nested loops collect every block's instructions in order |
| Printer.CheckMergePrinter.constructor | checkmerge/CheckMergePrinter.cpp:31-33 | a new printer has no function and empty state |
| Printer.CheckMergePrinter.DoInitialization | checkmerge/CheckMergePrinter.cpp:316-320 | the file name is derived from the module's source file name, and the file is open as the open succeeded |
| Printer.CheckMergePrinter.DoFinalization | checkmerge/CheckMergePrinter.cpp:322-326 | the file is closed |
| Printer.CheckMergePrinter.RunOnFunction | checkmerge/CheckMergePrinter.cpp:274-295 | the enumeration is rebuilt from scratch as the function's instructions in order, with length equal to the instruction count; the analyses' results are taken over; the function's entry is appended when the file is open; returns false |
| Printer.CheckMergePrinter.TakeFunction | checkmerge/CheckMergePrinter.cpp:275-286 | the function is recorded, the enumeration is rebuilt as its instructions in program order, and the analyses' maps are taken over |
| Printer.CheckMergePrinter.WriteFunction | checkmerge/CheckMergePrinter.cpp:288-291 | the function's whole entry is appended to what the report file holds |
| Printer.CheckMergePrinter.FormatFunction | checkmerge/CheckMergePrinter.cpp:87-106 | the function's identifier, its name, module and location, then each block indented and followed by a blank line |
| Printer.CheckMergePrinter.FormatBasicBlock | checkmerge/CheckMergePrinter.cpp:108-118 | the block's identifier, then each instruction's entry indented |
| Printer.CheckMergePrinter.FormatInstruction | checkmerge/CheckMergePrinter.cpp:120-176 | the instruction's identifier, opcode and location, its source variable when it has one, and its dependency lines when it has a set |
| Printer.CheckMergePrinter.FormatDependencies | checkmerge/CheckMergePrinter.cpp:150-171 | the line of each pair of the set, in order |
| Printer.CheckMergePrinter.FormatDependency | checkmerge/CheckMergePrinter.cpp:155-169 | the line of one pair, as `DependencyEntry` states it |
| Printer.CheckMergePrinter.DependencyCount | checkmerge/CheckMergePrinter.cpp:300-304 | the sum of the set sizes over all entries |
| Printer.CheckMergePrinter.Print | checkmerge/CheckMergePrinter.cpp:297-314 | the summary: the number of enumerated instructions, the variable-map size, the number of keys and the total number of pairs of the dependency map, and the file name, all indented |

## Left out

- LLVM pass plumbing is not modelled: `RegisterPass`, `getAnalysisUsage`, pass IDs. `getAnalysis<...>` becomes a parameter: the oracle for the collector, and the dependency and variable maps for the printer.
- `MemoryDependenceResults` is not code here. Its answers are the input `Oracle`, with total query functions. LLVM's caching and the order of its non-local answers are whatever the oracle returns.
- Debug metadata lookups (`getAllMetadata`, `dyn_cast<DILocation>`, `getSubprogram`, `DbgInfoIntrinsic`) become optional fields of the abstract instruction and function.
- File I/O is not modelled. Opening the report file is a boolean parameter of `DoInitialization`, and the text appended to the stream is the `written` field. Nothing about the file system is modelled.
- `doInitialization`, `doFinalization` and `SourceVariableMapper::runOnFunction` fall off the end of non-void functions, which is undefined behaviour in C++. Their models return nothing.
- `DependenceCollector::print`, which dumps the whole function, is not modelled; only `printInstDeps` is. Dependence.FormatInst takes an instruction's machine address as a parameter, because addresses are not deterministic.
- `SourceVariableMapper::print`'s per-entry lines are not modelled; they print machine addresses. Only the header with the count is.
- The `formatv`/`stringstream` formatting internals are not modelled. Numbers are rendered in decimal by `Text.NatToString`.
- Integer widths are not modelled: line and column numbers, sizes and the dependency total are unbounded naturals. The `unsigned long` total in `print` cannot overflow in the model.
- A null `Value*` key in the variable map is an ordinary `ValueRef` here.
- Dependence.BlockDebugLoc: `front()` of an empty block is undefined in C++; the model gives "" for it.
- Variables.Bind stores the instruction's own optional location. The source stores a pointer to the instruction's `DebugLoc`, which is never null, and the printer then reads line and column from it even when the location is empty. The model renders an absent location as "" instead.
- `SourceVariableMapper.cpp` redeclares the pass in an anonymous namespace and defines no `getMapping`. Variables.SourceVariableMapper.GetMapping models the behaviour the header declares.
- Printer.CheckMergePrinter.RunOnFunction requires, when the file is open, that every dependency of the function's instructions targets an instruction of the same function. The source asserts this inside `formatIdentifier` (`checkmerge/CheckMergePrinter.cpp:240`).
- Printer.FunctionIdentifierNames, Printer.BlockIdentifierNames: function and block identifiers are only as distinct as the names LLVM gives them. Two blocks or functions with the same name share an identifier, and an unnamed block has the identifier `block.`.
- Printer.BlockTextLines, Printer.FunctionTextLines: the line structure is proved for block and function names without '\n'. The source does not escape names, so a name containing '\n' breaks its header line.
- Printer.EnumeratedInstructionIdentifier, Printer.WellFormedInstructionIdentifiers, Printer.EnumeratedInstructionEntry: instructions are compared as values. They are proved for enumerations whose instructions have distinct `id`s (`IR.DistinctIds`, `IR.WellFormed`), as pointer identity guarantees in LLVM. Without that, `std::find` returns the first equal entry, as `Printer.IndexOf` states.
- `test/fibonacci.c` is sample input to the compiler and is not part of this model.
