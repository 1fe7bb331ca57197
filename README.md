# Compartment entry guards for RISC-V: a Dafny model

This project models the three small passes that make up the compartment
machinery of the Shakti/MIRAGE LLVM fork. It proves properties of each one:

- **The cap-file writer** (`hello` in `llvm/lib/Transforms/FunctionName/Hello.cpp`).
  When `-cap-file-path` is set, it writes `<dir>/<source stem>.cap`. The stem
  is the module's source file name cut at its last `.`. The file holds one
  `name:id` line per function defined in the module, in module order. Every
  line carries the unit's default compartment. That default is 290 unless
  `-default-compartment` was given, and the pass stores the 290 back into the
  option.
- **The machine-level entry guard** (`riscv-expand-checkcap` in
  `llvm/lib/Target/RISCV/MachinePassCheckcap.cpp`). It puts `CHECKCAP 23` at
  the head of a machine function's first block, with the debug location of the
  instruction that was first. It then counts the function's instructions. On
  the first call in a process only, it moves the global `glb` from 20 to 22.
- **The IR-level entry guard** (`hello` in `llvm/lib/Transforms/Hello/Hello.cpp`).
  For every function with a body, it inserts `call @llvm.riscv.checkcap(i16 23)`
  before the first instruction of the entry block.

All three passes report "not modified". Both `Hello.cpp` files also have a
`hello2` pass that only counts the functions it visits.

The compiler substrate is reduced to what the passes touch (`ir.dfy`):

- A module has a source file name and a function list, which passes update in
  place (class `IR.Module`).
- A function is a name and a list of blocks. A function with no blocks is a
  declaration.
- A block is a list of instructions.
- An instruction is an opcode, its operands and a debug location.

The machine function (`MachineCheckcap.MachineFunction`) has the same shape.
Insertion before the first instruction is a prepend on the entry block
(`IR.PrependToEntry`).

Modules, one per file:

- `Wrappers`: the Option type.
- `Text`: `find_last_of`, the decimal text `operator<<` writes, and reading it back.
- `IR`
- `CapFile`
- `MachineCheckcap`
- `EntryGuard`

Facts about the code that the model keeps:

- Both guards always carry the constant 23, whatever the function.
- The fallback default compartment is 290.
- The cap file is opened with `std::ofstream`, which truncates. Each run
  replaces the file's contents (`FileSystem.files[path := contents]`).
- An empty `-cap-file-path` is not an error: the pass writes nothing.

## Model

| member | source | states |
|---|---|---|
| `Text.FindLastOf` | llvm/lib/Transforms/FunctionName/Hello.cpp:53 | `find_last_of(".")`: None (npos) exactly when the character is absent; otherwise an index holding it with none after it |
| `Text.Decimal` | llvm/lib/Transforms/FunctionName/Hello.cpp:63 | the id's text is a non-empty run of digits with no leading zero (only the id 0 is written `0`), so it contains neither `:` nor a newline |
| `Text.DecimalRoundTrip` | llvm/lib/Transforms/FunctionName/Hello.cpp:63 | reading back the decimal text written for an id gives the id |
| `Text.DecimalInjective` | llvm/lib/Transforms/FunctionName/Hello.cpp:63 | distinct ids are written as distinct texts |
| `Text.FindLastOfSeparator` | llvm/lib/Transforms/FunctionName/Hello.cpp:53 | in `a + [c] + b` with no `c` in `b`, the last `c` is the one at index `|a|` |
| `Text.IndexOfSeparator` | llvm/lib/Transforms/FunctionName/Hello.cpp:63 | in `a + [c] + b` with no `c` in `a`, the first `c` is at index `|a|`; this is how a line's end is found |
| `CapFile.StripExtension` | llvm/lib/Transforms/FunctionName/Hello.cpp:52-53 | the stem is a prefix of the source name. With a `.` it ends just before the last `.`. With no `.` it is the whole name (`substr(0, npos)`) |
| `CapFile.StemUnique` | llvm/lib/Transforms/FunctionName/Hello.cpp:53 | at most one prefix meets that description, so the stem is determined by it |
| `CapFile.StemAtLastDot` | llvm/lib/Transforms/FunctionName/Hello.cpp:53-54 | the cut falls at the last `.` even inside a directory component: the stem of `pre.rest` with no `.` in `rest` is `pre`, and any `/` it holds is kept verbatim |
| `CapFile.CapPath` | llvm/lib/Transforms/FunctionName/Hello.cpp:50-55 | the path is the directory, then `/`, then the source stem, then `.cap` |
| `CapFile.Line` | llvm/lib/Transforms/FunctionName/Hello.cpp:62-63 | a written line is at least three characters longer than the function's name (the `:`, at least one digit and the newline) and ends with a newline; `CapFile.LineRoundTrip` shows that it splits back into the name and the id |
| `CapFile.Ledger` | llvm/lib/Transforms/FunctionName/Hello.cpp:60-65 | the text written for a list of records is empty exactly when the list is, otherwise ends with a newline, and has at least three characters per record |
| `CapFile.RecordOf` | llvm/lib/Transforms/FunctionName/Hello.cpp:61-63 | a declaration contributes no record; a definition contributes exactly one, carrying its name and the default id |
| `CapFile.Records` | llvm/lib/Transforms/FunctionName/Hello.cpp:60-65 | at most one record per function, and every record carries the same compartment id |
| `CapFile.RecordsCount` | llvm/lib/Transforms/FunctionName/Hello.cpp:60-65 | the number of records written equals the number of functions that are not declarations: exactly one line per defined function |
| `CapFile.RecordsAppend` | llvm/lib/Transforms/FunctionName/Hello.cpp:60 | the records of `a + b` are those of `a` followed by those of `b`, so module order is kept |
| `CapFile.RecordsMembership` | llvm/lib/Transforms/FunctionName/Hello.cpp:61-63 | a record `name:id` is written if and only if the id is the default and a defined (non-declaration) function has that name |
| `CapFile.LedgerAppend` | llvm/lib/Transforms/FunctionName/Hello.cpp:63 | the text for `a + b` is the text for `a` followed by the text for `b` |
| `CapFile.WriteRecordStep` | llvm/lib/Transforms/FunctionName/Hello.cpp:61-64 | one loop iteration appends exactly the next function's record text: nothing for a declaration, `name:id\n` for a definition |
| `CapFile.WriteRecords` | llvm/lib/Transforms/FunctionName/Hello.cpp:60-65 | the loop's output is the text of the module's records, in module order |
| `CapFile.LineRoundTrip` | llvm/lib/Transforms/FunctionName/Hello.cpp:63 | splitting a written `name:id` line at its last `:` recovers the name and the id, even when the name contains `:` |
| `CapFile.LedgerRoundTrip` | llvm/lib/Transforms/FunctionName/Hello.cpp:63 | when no name contains a newline, reading back the text written for a list of records gives exactly that list |
| `CapFile.CapFileReadsBack` | llvm/lib/Transforms/FunctionName/Hello.cpp:60-65 | the cap file of a module reads back as one record per defined function, in module order, each with the default id, when no defined name contains a newline |
| `CapFile.Options.constructor` | llvm/lib/Transforms/FunctionName/Hello.cpp:32-40 | `-default-compartment` counts as given exactly when it occurred on the command line; an absent option holds 0 |
| `CapFile.RunOnModule` | llvm/lib/Transforms/FunctionName/Hello.cpp:48-71 | with an empty path, neither the files nor the option change. Otherwise the default becomes 290 unless it was given, and the cap file's contents are replaced by the records text. The module is never changed and the result is always false |
| `CapFile.Hello2RunOnFunction` | llvm/lib/Transforms/FunctionName/Hello.cpp:96-101 | the counter grows by exactly one per function visited, and the result is false |
| `IR.TotalInstrs` | llvm/lib/Target/RISCV/MachinePassCheckcap.cpp:96-105 | every block's instructions are included in the count, and the count is zero exactly when every block is empty |
| `IR.TotalInstrsAppend` | llvm/lib/Target/RISCV/MachinePassCheckcap.cpp:96-105 | the instruction count of `a + b` is the count of `a` plus the count of `b` |
| `IR.PrependToEntry` | llvm/lib/Target/RISCV/MachinePassCheckcap.cpp:85-88 | the entry block's new head is the inserted instruction, its old instructions follow in order, the other blocks are untouched, and the total count grows by one |
| `IR.DropAfterPrepend` | llvm/lib/Target/RISCV/MachinePassCheckcap.cpp:85-88 | insertion loses nothing: dropping the inserted head gives back the original blocks |
| `MachineCheckcap.CheckcapInstr` | llvm/lib/Target/RISCV/MachinePassCheckcap.cpp:84-88 | the built instruction is CHECKCAP with the single immediate 23 and the debug location it is given |
| `MachineCheckcap.OneShot` | llvm/lib/Target/RISCV/MachinePassCheckcap.cpp:107-111 | afterwards `status` is set; `glb` has grown by 2 exactly when `status` was clear, and is unchanged otherwise |
| `MachineCheckcap.Globals.constructor` | llvm/lib/Target/RISCV/MachinePassCheckcap.cpp:26-27 | a process starts with `glb` 20 and `status` clear |
| `MachineCheckcap.GlobalsAfterCalls` | llvm/lib/Target/RISCV/MachinePassCheckcap.cpp:107-111 | `glb` is raised by 2 exactly once per process. After zero calls the state is (20, clear); after any positive number of calls it is (22, set) |
| `MachineCheckcap.CountInstructions` | llvm/lib/Target/RISCV/MachinePassCheckcap.cpp:93-105 | the nested loop's `num_instr` is the total number of instructions, and `bb` is the number of blocks |
| `MachineCheckcap.RunOnMachineFunction` | llvm/lib/Target/RISCV/MachinePassCheckcap.cpp:79-119 | requires a first block with a first instruction. CHECKCAP with the single immediate 23 becomes the first instruction and copies the old first instruction's debug location; nothing else moves. `num_instr` is the old total plus one. The globals take one one-shot step. The result is false |
| `EntryGuard.GuardCall` | llvm/lib/Transforms/Hello/Hello.cpp:97-105 | the inserted instruction calls `llvm.riscv.checkcap` with the single argument `i16 23`, at the debug location it is given |
| `EntryGuard.GuardFunction` | llvm/lib/Transforms/Hello/Hello.cpp:90-106 | a definition's entry block starts with `call @llvm.riscv.checkcap(i16 23)` at the old first instruction's location, followed by its old instructions. Its other blocks and its name are untouched, and it grows by one instruction. A declaration is unchanged |
| `EntryGuard.UnguardAfterGuard` | llvm/lib/Transforms/Hello/Hello.cpp:94-105 | removing the inserted call gives back the original function |
| `EntryGuard.IntrinsicDeclaration` | llvm/lib/Transforms/Hello/Hello.cpp:89 | the fetched intrinsic is a function named `llvm.riscv.checkcap` with no body |
| `EntryGuard.WithIntrinsic` | llvm/lib/Transforms/Hello/Hello.cpp:85-89 | the function list once the loop has fetched the intrinsic: the old list is kept as a prefix; one declaration is appended exactly when the module is non-empty and lacks it; a non-empty module then declares the intrinsic |
| `EntryGuard.GuardModule` | llvm/lib/Transforms/Hello/Hello.cpp:85-108 | the function list after the pass: no function is lost, every entry block still holds an instruction, and a non-empty module declares the intrinsic |
| `EntryGuard.GuardModuleContents` | llvm/lib/Transforms/Hello/Hello.cpp:85-108 | after the pass, every original function is in its place, guarded if defined and unchanged if a declaration. The intrinsic's declaration is appended only when the module was non-empty and lacked it |
| `EntryGuard.GuardTwice` | llvm/lib/Transforms/Hello/Hello.cpp:85-108 | there is no idempotence guard: after two runs, a definition's entry block starts with two guard calls ahead of its original instructions |
| `EntryGuard.GuardKeepsNames` | llvm/lib/Transforms/Hello/Hello.cpp:89 | guarding functions keeps their names, so a name is declared in the list after guarding exactly when it was before |
| `EntryGuard.GetDeclaration` | llvm/lib/Transforms/Hello/Hello.cpp:89 | `Intrinsic::getDeclaration` appends the body-less `llvm.riscv.checkcap` declaration to the function list exactly when no function of that name is there yet |
| `EntryGuard.FetchIntrinsic` | llvm/lib/Transforms/Hello/Hello.cpp:89 | `getDeclaration` adds the intrinsic's declaration at most once: on the first function visited, and only if it is missing |
| `EntryGuard.GuardStep` | llvm/lib/Transforms/Hello/Hello.cpp:85-107 | guarding the function at index `i` extends the guarded prefix of the list by one, leaving the functions after it as they were |
| `EntryGuard.GuardEntryBlock` | llvm/lib/Transforms/Hello/Hello.cpp:90-107 | the block loop changes only the front block, so a function's blocks end up exactly as `GuardFunction` says. A declaration, whose loop runs zero times, is unchanged |
| `EntryGuard.RunOnModule` | llvm/lib/Transforms/Hello/Hello.cpp:62-203 | requires every entry block to hold an instruction. The function list becomes `GuardModule` of the old list, and the result is false |
| `EntryGuard.Hello2RunOnFunction` | llvm/lib/Transforms/Hello/Hello.cpp:228-233 | the counter grows by exactly one per function visited, and the result is false |

`CapFile.ParseRecord` and `CapFile.ParseLedger` do not model source code. They
model how a consumer of the cap file reads it: each newline-terminated line is
split at its last `:`. They are the partner against which the writer's round
trip is proved.

`IR.DropEntryHead` and `EntryGuard.UnguardFunction` do not model source code
either. They remove the first instruction of the entry block, which no pass
does. They are the inverse partners of the insertion, used to prove that it
loses nothing (`IR.DropAfterPrepend`, `EntryGuard.UnguardAfterGuard`).

## Left out

- Diagnostic output to `errs()` is left out. This covers the names, the
  instruction dumps and "Finished". None of it has an observable contract.
- MachineCheckcap.RunOnMachineFunction: the source prints `I->front()` for
  every machine block. On an empty block that call is undefined. The model
  drops the print, so it places no requirement on blocks after the first.
- CapFile.RunOnModule: a failure to open the cap file is not modelled. For
  example, the directory may not exist. `std::ofstream` then writes nothing
  and reports nothing.
- MachineCheckcap.CountInstructions: it counts with an unbounded `nat`. The
  source's `unsigned num_instr` would wrap past 2^32 - 1 instructions.
- CapFile.Hello2RunOnFunction: assumes LLVM is built with statistics enabled.
  In a build with `NDEBUG` and without `LLVM_FORCE_ENABLE_STATS`, `STATISTIC`
  is a no-op and `++HelloCounter` does nothing. The counter is an unbounded
  `nat`, so the width of LLVM's counter type is not modelled.
- EntryGuard.Hello2RunOnFunction: the same assumption that statistics are
  enabled, and the same unbounded counter.
- `Function::isDeclaration` is modelled as "has no blocks". LLVM also requires
  the function not to be materializable. Lazy loading of function bodies is
  not part of this model.
- EntryGuard.FetchIntrinsic: the model looks for the intrinsic's declaration
  by name only, among functions. An existing global of that name with another
  type or of another kind is not modelled.
- The value name `stack_chackcap` given to the inserted call is not modelled,
  because values carry no names here. The intrinsic's type is not modelled
  either.
- `IRBuilder`, `BuildMI`, `TII->get` and liveness are replaced by a prepend
  on the entry block.
- Pass registration, `INITIALIZE_PASS`, `RegisterStandardPasses` and the pass
  manager are left out. The pass manager is what calls `hello2` once per
  function; the model states only the effect of one call.
- `cl::opt` parsing is left out. The options are constructor arguments. The
  unused `-checkcap-file-name` option of the machine pass is not modelled.
- `llvm/include/llvm/Transforms/ShaktiMS.h` is left out: every line of it is
  commented out.
- All commented-out code is left out, because none of it executes. This
  includes the copy of the cap-file block in `Transforms/Hello/Hello.cpp`, the
  stack-cookie pass, the load-validation rewrite and the `BuildMI` sketches.
