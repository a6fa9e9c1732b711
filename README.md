# ScriptDed compile-and-execute core, in Dafny

ScriptDed is a small scripting language. The compiler lowers an abstract syntax tree into a compiled unit: a constant pool plus one instruction list per code block. A stack-based virtual machine then runs those blocks. Values form a tagged union with `IsConst`/`IsGlobal` flags and annotations. Both the machine's own scope and every script object are binding containers: a name-to-value map plus an event registry.

The project models four parts of that core:

- **Values** (`values.dfy`): the `Value` record with all of its fields, the opcode set, instructions and the compiled unit. `ForceToString` is the rendering behind `+` on strings and behind `==`/`!=`. Decimal rendering of integers is proved invertible.
- **Bindings** (`holders.dfy`, `binding.dfy`):
  - `Holders` states `DataHolder` and `ScriptObject` as functions on a `Holder` value.
  - `Binding.DataHolder` is the class with its two dictionaries, updated in place. Each of its methods is proved to leave the state the matching function computes.
- **Compiler** (`syntax.dfy`, `codegen.dfy`, `codegen_facts.dfy`, `compiler.dfy`):
  - `Syntax` is the tree the compiler consumes.
  - `CodeGen` is the code generator as functions over the compiler state (`Emitter`).
  - `Compiling.Compiler` is the imperative compiler: its mutable pool, block list and block stack. Every method is proved to leave exactly the state its `CodeGen` function computes.
  - `CodeGenFacts` proves what the emitted code looks like: pool sharing, the `Const2` switch, the backpatch, the `and`/`or` layout, the if-chain jump offsets, and the refused nodes.
- **Virtual machine** (`machine.dfy`, `machine_facts.dfy`, `vm.dfy`):
  - `Machine.Step` is one turn of the dispatch loop. `Machine.RunLoop`/`Machine.Run` are the loop, and the host operations are functions on the state record `Vm`.
  - `Interpreter.VM` is the class the source defines, with its stack, frames, queue, global names, pending annotations and state as fields. Each method is proved to produce what the matching function produces. Its `Run` loop carries the invariant that the remaining loop outcome is unchanged.
  - `MachineFacts` proves behaviour over several instructions: a decided left operand of `and`/`or` skips the right operand's code; a halting native stops the loop and `ContinueExecution` resumes it; queued blocks run in order; globals survive a reload.

Script objects live in an object table inside the machine state. An object value carries its index there, so two values share an object exactly when they carry the same index. Native functions are a parameter of the machine: a pure function from the callee's handle and the arguments to an optional result and a halt request.

Behaviours of the code worth noting:

- `Fetch` and `Assign` always use the machine's own bindings; the frame's object is never read.
- `Czjmp`/`Cjmp` leave the condition on the stack.
- `GenIdentifier` emits `Fetch` between the segments of a dotted name.
- `SetFunction` ignores its `isGlobal` argument.
- An object renders as the empty string, so any two objects compare equal under `==`.
- `Run` sets Running whatever state it finds the machine in, and `ContinueExecution` reaches the loop through it.
- `SetOp` also applies the `Const`→`Const2` switch.
- `Debug` always throws: its format string holds a format item without an index, which the .NET formatter rejects, so nothing is printed.
- Every operand goes through the `(byte)` cast, so a jump over 256 or more instructions (a long branch body, chain tail or right operand of `and`/`or`) wraps and lands elsewhere.

In the table below, "only extends the state" means `CodeGen.Extends`: the block stack is kept, the pool is only appended to, and every block but the open one is untouched. The open block is only appended to, except where it is patched after the state the contract names.

## Model

| member | source | states |
|---|---|---|
| Values.ToByte | Compiler.cs:353-359 | the `(byte)` cast keeps the value modulo 256 and leaves 0..255 unchanged |
| Values.CompUnit.constructor | CompUnit.cs:6-15 | a unit holds exactly the name, file name, pool, blocks and the four name lists it is assembled from |
| Values.OfType | Value.cs:38-51 | `new Value(type)`: see `Values.ConstructorsSetOnlyTheirPayload` (own tag, no flags, no annotations, default payloads) |
| Values.OfFunc | Value.cs:53-55 | a native function value; see `Values.ConstructorsSetOnlyTheirPayload` |
| Values.OfString | Value.cs:57-59 | a string value; see `Values.ConstructorsSetOnlyTheirPayload` |
| Values.OfNumber | Value.cs:61-63 | a number value; see `Values.ConstructorsSetOnlyTheirPayload` |
| Values.OfBool | Value.cs:65-67 | a boolean value; see `Values.ConstructorsSetOnlyTheirPayload` |
| Values.OfBlock | Value.cs:69-71 | a block value; see `Values.ConstructorsSetOnlyTheirPayload` |
| Values.OfObject | Value.cs:73-75 | an object value; see `Values.ConstructorsSetOnlyTheirPayload` |
| Values.Is | Value.cs:88-90 | true iff the value carries the given tag |
| Values.ForceToString | Value.cs:92-113 | the rendering behind `+` on strings and `==`/`!=`; `Values.ParseIntToString` proves a number's rendering reads back as the number, and `MachineFacts.EqualityByRendering` and `MachineFacts.ThreeEqualsStringThree` prove what `==` then means |
| Values.ConstructorsSetOnlyTheirPayload | Value.cs:39-76 | every constructor sets its own tag, clears both flags, starts with no annotations, and sets only its own payload; the other payloads keep the defaults ("" / 0 / false / null) |
| Values.HasAnnotation | Value.cs:78-86 | true iff some annotation of the value has the given name |
| Values.AnyNamed | Value.cs:79-85 | the front-to-back search finds a match iff one exists |
| Values.NatToString | Value.cs:103-105 | the rendering of a natural number is non-empty and consists of decimal digits only |
| Values.DigitsValueOfNat | Value.cs:103-105 | reading the digits of a natural number's rendering gives the number back |
| Values.NatToStringHasNoSign | Value.cs:103-105 | the rendering of a natural number never starts with a minus sign |
| Values.ParseIntToString | Value.cs:103-105 | the integral rendering `"" + (int)n` reads back as the number it renders |
| Values.IntToStringInjective | Value.cs:102-105 | two integers render to the same string iff they are equal, so `==` on two numbers is numeric equality |
| Holders.EnableEvent | DataHolder.cs:16-20 | registers the name with an empty list only when it is absent; bindings and every existing list are unchanged |
| Holders.AddEvent | DataHolder.cs:22-30 | afterwards the block is registered under the name; the old list is a prefix of the new one and grows by one exactly when the block was absent; other names and the bindings are unchanged |
| Holders.GetVariable | DataHolder.cs:32-44 | returns the bound value, or a fresh plain null when the name is unbound |
| Holders.SetVariable | DataHolder.cs:46-52 | binds the name to the value whatever was there, leaves every other binding and the registry unchanged, and returns true |
| Holders.FunctionValue | DataHolder.cs:54-58 | the value `SetFunction` stores is a native function of that handle, flagged constant and global, without annotations |
| Holders.SetFunction | DataHolder.cs:54-59 | binds the name to that constant global native value, leaves the registry alone, and returns true |
| Holders.GetEvents | ScriptObject.cs:12-18 | the registered list of the name, or empty when the name is unregistered |
| Holders.GetVarEvents | ScriptObject.cs:20-34 | empty when the variable is unbound or not an object; otherwise the event list of the object it refers to (empty when that object lacks the event) |
| Holders.EnableEventIdempotent | DataHolder.cs:16-20 | enabling twice is enabling once, and enabling a registered event changes nothing |
| Holders.AddEventIdempotent | DataHolder.cs:22-30 | adding an already registered block only enables the event; adding the same block twice is adding it once |
| Holders.AddEventAppends | DataHolder.cs:22-30 | a new block goes to the end of its list, after every block registered before it |
| Holders.AddEventKeepsDistinct | DataHolder.cs:22-30 | if no list holds a block twice before the add, none does after it |
| Holders.FirstOccurrencesSameElements | DataHolder.cs:22-30 | the deduplicated registration order contains exactly the registered blocks |
| Holders.RegisteredInOrder | DataHolder.cs:22-30 | registering a sequence of blocks under a fresh name yields the distinct blocks in the order of their first registration |
| Holders.SetThenGet | DataHolder.cs:32-52 | a read after a write of the same name sees the written value; reads of other names are unaffected; the bound names are the old ones plus the written one |
| Holders.SetFunctionIgnoresIsGlobal | DataHolder.cs:54-59 | the `isGlobal` argument makes no difference, and the stored value is global either way |
| Binding.DataHolder.constructor | DataHolder.cs:10-11 | a new holder has no bindings and no events |
| Binding.DataHolder.EnableEvent | DataHolder.cs:16-20 | the dictionaries end as `Holders.EnableEvent` says |
| Binding.DataHolder.AddEvent | DataHolder.cs:22-30 | the dictionaries end as `Holders.AddEvent` says |
| Binding.DataHolder.GetVariable | DataHolder.cs:32-44 | returns what `Holders.GetVariable` returns, changing nothing |
| Binding.DataHolder.SetVariable | DataHolder.cs:46-52 | the new state and the result are those of `Holders.SetVariable` |
| Binding.DataHolder.SetFunction | DataHolder.cs:54-59 | the new state and the result are those of `Holders.SetFunction` |
| Binding.DataHolder.HasVar | DataHolder.cs:61-63 | true iff the name is bound |
| Binding.DataHolder.HasEvent | DataHolder.cs:65-67 | true iff the event name is registered |
| CodeGen.FirstMatch | Compiler.cs:386-391 | a found index lies in the searched range of the pool |
| CodeGen.DeduplicatedMeans | Compiler.cs:385-413 | a pool built by `FetchConst` holds no literal twice: no two entries have the same tag and payload |
| CodeGen.FirstMatchIsFirst | Compiler.cs:386-391 | the linear search returns the first entry with the same tag and payload, and fails exactly when there is none |
| CodeGen.FetchConst | Compiler.cs:385-413 | only the pool changes, the old pool is a prefix of the new one, and a pool without duplicates stays without duplicates |
| CodeGen.FetchConstFinds | Compiler.cs:385-413 | the index holds the literal; with an existing match the pool is unchanged and the index is the first match; otherwise exactly one entry is appended and its index is the old size |
| CodeGen.CurrentIP | Compiler.cs:119-125 | the index of the open block's last instruction, 0 with no open block; `CodeGen.AddOp` proves it is the index of the instruction just appended |
| CodeGen.MakeInstr | Compiler.cs:353-360 | an instruction whose three operands are each cut to a byte by `Values.ToByte` |
| CodeGen.AddOp | Compiler.cs:348-365 | one instruction is appended to the open block only, with byte-truncated operands and `Const2` in place of `Const`; the result is its index, which is the new `CurrentIP` |
| CodeGen.SetOp | Compiler.cs:367-383 | the instruction at `ip` of the open block is replaced (with the same `Const2` rule) and the block keeps its length |
| CodeGen.NewBlock | Compiler.cs:46-52 | the new block's id is the old block count; it is empty and becomes the open block |
| CodeGen.PopBlock | Compiler.cs:54-56 | only the top of the block stack is removed |
| CodeGen.AddOpExtends | Compiler.cs:348-365 | `AddOp` extends the state by exactly one instruction |
| CodeGen.FetchConstExtends | Compiler.cs:385-413 | `FetchConst` emits nothing and touches no block |
| CodeGen.SetOpExtends | Compiler.cs:367-383 | patching an instruction emitted after a state keeps every earlier block and instruction and the count appended since |
| CodeGen.EmitName | Compiler.cs:81 | a segment's `Const` is one instruction appended to the open block |
| CodeGen.GenIdentifier | Compiler.cs:80-91 | returns the number of segments and appends two instructions per segment but one (`Const` each, `Fetch` between) |
| CodeGen.GenFetchIdentifier | Compiler.cs:93-105 | appends two instructions per segment: a `Const` and a fetch |
| CodeGen.GenHandle | Compiler.cs:145-166 | the handle loop only appends to the open block and records names |
| CodeGen.HandleSegment | Compiler.cs:149-165 | one pass of the handle loop only appends to the open block and records names |
| CodeGen.GenAnnotations | Compiler.cs:127-131 | appends exactly one instruction per annotation |
| CodeGen.EmitAnnotation | Compiler.cs:129 | one `Annotation` instruction is appended |
| CodeGen.GenAst | Compiler.cs:133-342 | on success the state only grows, and the count returned is the number of instructions appended to the open block (`CurrentIP` after minus before) |
| CodeGen.MeasuredNode | Compiler.cs:134-341 | `GenAst` is the switch's result measured by the two `CurrentIP` readings |
| CodeGen.Measured | Compiler.cs:133-342 | the difference of the two `CurrentIP` readings is the number of instructions appended |
| CodeGen.GenNode | Compiler.cs:136-339 | on success the state only grows, and a block node adds a block |
| CodeGen.GenBlockNode | Compiler.cs:137-143 | a block node adds a new block and only extends the state |
| CodeGen.GenIdentifierNode | Compiler.cs:246-258 | an identifier read only extends the state |
| CodeGen.GenBool | Compiler.cs:311-313 | a boolean literal appends exactly one instruction |
| CodeGen.GenGlobal | Compiler.cs:314-322 | a `global` statement only extends the state |
| CodeGen.DeclareGlobals | Compiler.cs:315-320 | the declaration loop only extends the state |
| CodeGen.DeclareGlobal | Compiler.cs:316-319 | one declaration only extends the state |
| CodeGen.GenRun | Compiler.cs:278-280 | `run` only extends the state |
| CodeGen.EmitConst | Compiler.cs:270-274 | a pooled literal is exactly one appended instruction |
| CodeGen.GenNumber | Compiler.cs:259-269 | a number literal is exactly one appended instruction |
| CodeGen.GenOn | Compiler.cs:144-171 | `on` only extends the state |
| CodeGen.GenAssign | Compiler.cs:172-210 | an assignment only extends the state |
| CodeGen.GenAssignUnfold | Compiler.cs:173-209 | an assignment is the target code, the recorded name and the value code, followed by `AssignField` for a dotted target and `Assign` otherwise |
| CodeGen.GenAssignValue | Compiler.cs:179-203 | the value code only extends the state |
| CodeGen.GenExpr | Compiler.cs:211-245 | an operator missing from `_opsToOpcodes` fails with the compile error; otherwise the state only grows |
| CodeGen.GenIf | Compiler.cs:281-310 | an if-chain only extends the state |
| CodeGen.GenObject | Compiler.cs:323-335 | an object literal only extends the state |
| CodeGen.GenBlock | Compiler.cs:58-70 | the block's id is the old block count, the state only grows, and the new block ends with `Ret` |
| CodeGen.NewBlockKeeps | Compiler.cs:58-70 | whatever is generated into a new block leaves the blocks that existed before untouched once it is closed |
| CodeGen.GenBlockContents | Compiler.cs:72-78 | returns the number of instructions the children appended to the open block |
| CodeGen.GenStatements | Compiler.cs:61-63 | the loop over children or arguments only extends the state |
| CodeGen.GenCall | Compiler.cs:107-117 | a call only extends the state |
| CodeGen.GenShortCircuit | Compiler.cs:219-239 | `and`/`or` only extends the state |
| CodeGen.CloseShortCircuit | Compiler.cs:224-239 | the patch and the closing triple only extend the state |
| CodeGen.GenFields | Compiler.cs:328-334 | the field loop only extends the state |
| CodeGen.GenFieldsStep | Compiler.cs:328-334 | the field loop is field `k` followed by the loop from `k + 1`, stopping at the first failure |
| CodeGen.GenField | Compiler.cs:329-333 | one field only extends the state |
| CodeGen.GenCondBranch | Compiler.cs:286-298 | a branch with a condition returns the position of its end jump, which lies in the code that branch appended |
| CodeGen.GenIfChain | Compiler.cs:285-304 | the recorded end jumps extend the list given, and every new one lies in the code the chain appended |
| CodeGen.GenBranch | Compiler.cs:286-303 | one branch records one end jump when it has a condition and none otherwise, inside the code it appended; `CodeGenFacts.InlineBranch` proves a branch without a condition is its block's code emitted inline |
| CodeGen.PatchEndJmps | Compiler.cs:307-309 | the backward patch loop keeps the open block and its length |
| CodeGen.PatchEndJmpsExtends | Compiler.cs:307-309 | patching jumps emitted after a state keeps every earlier instruction and the count appended since |
| CodeGen.Compile | Compiler.cs:38-44 | a compiled program leaves no block open and at least one block |
| CodeGenFacts.AddOpAppends | Compiler.cs:362 | the open block's code becomes the old code followed by the one new instruction |
| CodeGenFacts.ConstOperand | Compiler.cs:348-359 | `Const` is written as `Const2` iff the pool already holds at least 255 entries, and its operand is the pool index modulo 256 |
| CodeGenFacts.SetOpOnlyAt | Compiler.cs:367-383 | the open block equals the old one with only index `ip` replaced; the other blocks and the pool are unchanged |
| CodeGenFacts.FetchConstStable | Compiler.cs:385-413 | asking for the same literal again returns the same index and leaves the pool as it is |
| CodeGenFacts.StringsAndNumbersApart | Compiler.cs:385-413 | a string and a number never share a pool entry, whatever their payloads |
| CodeGenFacts.NumberLayout | Compiler.cs:259-269 | a number below 255 (negative ones included) is `PushNumber` of its byte truncation; a number from 255 up is a `Const` (or `Const2`) of a pool entry holding it |
| CodeGenFacts.IdentifierLayout | Compiler.cs:80-91 | an assignment target's code alternates pooled names and `Fetch` |
| CodeGenFacts.IdentifierUnfold | Compiler.cs:80-91 | one segment is its `Const`, and for a dotted name a `Fetch` followed by the rest |
| CodeGenFacts.RefusedNodes | Compiler.cs:136-339 | an operator missing from the table and a null node are both refused with their compile errors |
| CodeGenFacts.RefusalPropagates | Compiler.cs:61-63 | a null statement makes the statement loop fail from any earlier position on |
| CodeGenFacts.RefusedProgram | Compiler.cs:38-44 | a program with a null statement in its root block does not compile |
| CodeGenFacts.RootIsBlockZero | Compiler.cs:38-70 | `Compile` succeeds iff generating the root block does; the root block is block 0 and ends with `Ret` |
| CodeGenFacts.CloseShortCircuitLayout | Compiler.cs:224-239 | closing overwrites the conditional jump with offset `rhsamount + 1` and appends `Jmp 1`, the constant (`PushFalse` for `and`, `PushTrue` for `or`) and the operator |
| CodeGenFacts.ClosingTriple | Compiler.cs:225-239 | the three closing instructions are appended in order |
| CodeGenFacts.ShortCircuitUnfold | Compiler.cs:219-239 | `and`/`or` is the conditional jump, the right operand, then the close; a failing right operand fails the whole |
| CodeGenFacts.ShortCircuitLayout | Compiler.cs:219-239 | the emitted code is `Czjmp`/`Cjmp` with operand the byte of `len(rhs) + 1` (that offset itself only for a right operand below 255 instructions), the right operand's code, `Jmp 1`, `PushFalse`/`PushTrue`, `Band`/`Bor` |
| CodeGenFacts.CondBranchLayout | Compiler.cs:286-298 | a conditional branch puts its `Czjmp` right after the condition's code and ends with its end jump (emitted as `Jmp 255`, the byte of -1); the `Czjmp` operand is the byte of the end jump's index minus its own, which lands past the end jump when the body is below 255 instructions |
| CodeGenFacts.CzjmpPatched | Compiler.cs:288-296 | after the condition's code and the body, the end `Jmp` is appended last and the `Czjmp` placeholder right after the condition is patched with the distance to it |
| CodeGenFacts.InlineBranch | Compiler.cs:299-301 | a branch without a condition succeeds iff its block does, leaves exactly the state of its block's code, and records no end jump |
| CodeGenFacts.BranchIncreasing | Compiler.cs:285-304 | one branch keeps the end-jump list increasing and inside the open block |
| CodeGenFacts.IfChainIncreasing | Compiler.cs:285-304 | the end jumps of a chain are recorded in increasing order |
| CodeGenFacts.PatchEndJmpsSets | Compiler.cs:306-309 | each end jump becomes `Jmp` with offset `endPoint` minus its index, and no other instruction changes |
| CodeGenFacts.IfEndJumps | Compiler.cs:281-310 | after an if-chain every end jump holds the byte of its distance to the chain's last instruction, so it lands one past that instruction when the distance is below 256; the chain fails iff one of its branches does |
| Compiling.Compiler.constructor | Compiler.cs:27-31 | a new compiler names its unit after the file, with an empty pool, no blocks and no open block |
| Compiling.Compiler.Compile | Compiler.cs:38-44 | succeeds iff generating the root does, with the same error; on success its state is the generator's, and the fresh unit holds exactly its pool, blocks and name lists |
| Compiling.Compiler.FetchConst | Compiler.cs:385-413 | the pool and the index are those of `CodeGen.FetchConst` |
| Compiling.Compiler.CurrentIP | Compiler.cs:119-125 | returns `CodeGen.CurrentIP` of the current state |
| Compiling.Compiler.AddOp | Compiler.cs:348-365 | state and index as `CodeGen.AddOp` |
| Compiling.Compiler.SetOp | Compiler.cs:367-383 | state as `CodeGen.SetOp`; returns the index of the block's last instruction |
| Compiling.Compiler.AddDebug | Compiler.cs:344-346 | a `Debug` instruction naming the pooled text |
| Compiling.Compiler.NewBlock | Compiler.cs:46-52 | state and id as `CodeGen.NewBlock` |
| Compiling.Compiler.PopBlock | Compiler.cs:54-56 | state as `CodeGen.PopBlock` |
| Compiling.Compiler.GenBlock | Compiler.cs:58-70 | outcome, state and id as `CodeGen.GenBlock` |
| Compiling.Compiler.GenBlockContents | Compiler.cs:72-78 | outcome, state and count as `CodeGen.GenBlockContents` |
| Compiling.Compiler.GenChildren | Compiler.cs:61-63 | outcome and state as `CodeGen.GenStatements` from the first item |
| Compiling.Compiler.GenIdentifier | Compiler.cs:80-91 | state and segment count as `CodeGen.GenIdentifier` |
| Compiling.Compiler.GenFetchIdentifier | Compiler.cs:93-105 | state as `CodeGen.GenFetchIdentifier` |
| Compiling.Compiler.GenCall | Compiler.cs:107-117 | outcome and state as `CodeGen.GenCall` |
| Compiling.Compiler.GenAnnotations | Compiler.cs:127-131 | state as `CodeGen.GenAnnotations` over all names |
| Compiling.Compiler.EmitAnnotation | Compiler.cs:129 | state as `CodeGen.EmitAnnotation` |
| Compiling.Compiler.GenAst | Compiler.cs:133-342 | outcome, state and instruction count as `CodeGen.GenAst` |
| Compiling.Compiler.GenNode | Compiler.cs:136-339 | outcome and state as `CodeGen.GenNode` |
| Compiling.Compiler.GenBlockNode | Compiler.cs:137-143 | outcome and state as `CodeGen.GenBlockNode` |
| Compiling.Compiler.GenIdentifierNode | Compiler.cs:246-258 | state as `CodeGen.GenIdentifierNode` |
| Compiling.Compiler.GenNumber | Compiler.cs:259-269 | state as `CodeGen.GenNumber` |
| Compiling.Compiler.EmitConst | Compiler.cs:270-274 | state as `CodeGen.EmitConst` |
| Compiling.Compiler.GenRun | Compiler.cs:278-280 | outcome and state as `CodeGen.GenRun` |
| Compiling.Compiler.GenGlobal | Compiler.cs:314-322 | state as `CodeGen.GenGlobal` |
| Compiling.Compiler.DeclareGlobals | Compiler.cs:315-320 | state as `CodeGen.DeclareGlobals` over all names |
| Compiling.Compiler.DeclareGlobal | Compiler.cs:316-319 | state as `CodeGen.DeclareGlobal` |
| Compiling.Compiler.GenOn | Compiler.cs:144-171 | outcome and state as `CodeGen.GenOn` |
| Compiling.Compiler.GenHandleSegment | Compiler.cs:149-165 | state as `CodeGen.HandleSegment` |
| Compiling.Compiler.GenAssign | Compiler.cs:172-210 | outcome and state as `CodeGen.GenAssign` |
| Compiling.Compiler.GenAssignValue | Compiler.cs:179-203 | outcome and state as `CodeGen.GenAssignValue` |
| Compiling.Compiler.GenExpr | Compiler.cs:211-245 | outcome and state as `CodeGen.GenExpr` |
| Compiling.Compiler.GenShortCircuit | Compiler.cs:219-239 | outcome and state as `CodeGen.GenShortCircuit` |
| Compiling.Compiler.CloseShortCircuit | Compiler.cs:224-239 | state as `CodeGen.CloseShortCircuit` |
| Compiling.Compiler.GenObject | Compiler.cs:323-335 | outcome and state as `CodeGen.GenObject` |
| Compiling.Compiler.GenFields | Compiler.cs:328-334 | outcome and state as `CodeGen.GenFields` from the first field |
| Compiling.Compiler.GenField | Compiler.cs:329-333 | outcome and state as `CodeGen.GenField` |
| Compiling.Compiler.GenIf | Compiler.cs:281-310 | outcome and state as `CodeGen.GenIf` |
| Compiling.Compiler.GenIfChain | Compiler.cs:282-304 | outcome, state and end jumps as `CodeGen.GenIfChain` from the first branch |
| Compiling.Compiler.PatchEndJmps | Compiler.cs:306-309 | state as `CodeGen.PatchEndJmps` over all end jumps |
| Compiling.Compiler.GenBranch | Compiler.cs:286-303 | outcome, state and end jumps as `CodeGen.GenBranch` |
| Compiling.Compiler.GenCondBranch | Compiler.cs:286-298 | outcome, state and end-jump position as `CodeGen.GenCondBranch` |
| Machine.Initial | VM.cs:33-47 | a new machine is Running with no unit, no frames and an empty stack |
| Machine.SetIp | VM.cs:435-451 | only the top frame's instruction pointer changes |
| Machine.NewFrame | VM.cs:71-75 | one frame at instruction 0 is added on top; nothing else changes |
| Machine.PopFrame | VM.cs:77-79 | only the top frame is removed |
| Machine.Push | VM.cs:88-90 | only the value is appended to the stack |
| Machine.Drop | VM.cs:81-86 | only the top values are removed from the stack |
| Machine.DropDrop | VM.cs:81-86 | two pops in a row remove the top values in order |
| Machine.RemoveAt | VM.cs:83 | removing position `i` shifts the later entries down by one and keeps the earlier ones |
| Machine.NextQueuedBlock | VM.cs:186-190 | the oldest queued block leaves the queue and becomes a frame with no object |
| Machine.RaiseError | VM.cs:180-184 | the state becomes Errored and each subscribed default handler pops a frame; popping more frames than exist throws |
| Machine.Annotate | VM.cs:192-197 | the pending annotations are appended to the value's own, and nothing else changes |
| Machine.Underflow | VM.cs:81-86 | popping an empty stack throws |
| Machine.Step | VM.cs:208-210 | without a frame, or past the end of the block, the fetch throws; otherwise the instruction under the pointer executes |
| Machine.StepFetches | VM.cs:209-212 | inside the block, a step executes the instruction under the pointer with the pointer already advanced |
| Machine.Execute | VM.cs:212-492 | an instruction other than `Ret` that leaves the machine running keeps the frames and the queue and does not move the pointer backwards |
| Machine.StepConst | VM.cs:213-216 | pushes pool entry `a`; an index outside the pool throws |
| Machine.StepPushBlock | VM.cs:217-225 | pushes block `a` of the unit carrying all pending annotations and clears them; a missing block throws |
| Machine.StepFetch | VM.cs:226-240 | pops a name; a non-string raises a runtime error; otherwise it pushes the machine's own binding, or null when unbound |
| Machine.StepFetchField | VM.cs:241-248 | pops a name and an object and pushes that object's binding; a non-object throws |
| Machine.StepOn | VM.cs:249-263 | pops a block, an event name and an object; a non-block or non-object raises; otherwise the block is added to the object's event (a block-tagged value without a block is `NotModelled`) |
| Machine.Coerce | VM.cs:278-286 | a null operand reads as the number 0 and any other is unchanged |
| Machine.Arith | VM.cs:288-351 | `+` concatenates renderings when either operand is a string, adds two numbers, and otherwise fails; the other operators succeed iff both are numbers and yield a number or a boolean |
| Machine.StepArith | VM.cs:267-352 | the right operand is popped first; nulls read as 0; an undefined result raises a runtime error; a division by zero or one that does not come out even is `NotModelled`; otherwise the result is pushed |
| Machine.StepLogic | VM.cs:353-382 | `==`/`!=` compare renderings whatever the tags; `and`/`or` of two booleans push their connective, and anything else raises |
| Machine.StepAssign | VM.cs:383-396 | assigning to a constant raises; otherwise the name is rebound in the machine's own scope, flagged global when the name was declared global, and nothing else changes |
| Machine.StepAssignField | VM.cs:397-409 | the object is popped only for operand 0; a constant field raises; otherwise only that field of that object changes |
| Machine.StepCall | VM.cs:410-434 | a non-native callee is removed from under its arguments and raises; a native gets the arguments in push order, its non-null result is pushed, and a halt request sets Halted |
| Machine.StepJump | VM.cs:435-451 | the conditional jumps peek without popping; a taken jump adds its operand to the advanced pointer |
| Machine.StepDebug | VM.cs:456-458 | `Debug` always throws, with the state unchanged, because of its invalid format string |
| Machine.StepRet | VM.cs:462-470 | pops the frame, then starts the oldest queued block in a frame with no object; with none queued and no frame left the state becomes Completed |
| Machine.AddName | VM.cs:474-476 | the name is added when absent; no name is ever listed twice |
| Machine.Declared | VM.cs:472-477 | declaring only adds names |
| Machine.DeclareGlobals | VM.cs:472-477 | after `k` turns of the `Global` loop, `k` names are popped and the global list only grew |
| Machine.DeclaredHasPopped | VM.cs:472-477 | every popped name is declared global |
| Machine.DeclaredOnlyPopped | VM.cs:472-477 | no name other than a popped one is newly declared |
| Machine.DeclaredUnique | VM.cs:472-477 | the global list never holds a name twice |
| Machine.DeclareGlobalsNext | VM.cs:472-477 | one more turn pops the next name and adds it to the global list |
| Machine.StepGlobal | VM.cs:471-478 | pops `n` names and declares each; running out of stack throws after the names that were there |
| Machine.StepPushNewObject | VM.cs:479-483 | a new empty object is pushed carrying all pending annotations, which are cleared |
| Machine.StepAnnotation | VM.cs:484-488 | the pooled name joins the pending annotations; a missing pool entry throws |
| Machine.StepProgresses | VM.cs:208-492 | a step that keeps the machine running consumes a queued block, a frame, or part of the current block |
| Machine.RunLoop | VM.cs:208-495 | when the loop returns, the state it reports is the machine's final state, which is no longer Running |
| Machine.Turn | VM.cs:209-492 | one pass of the loop body returns only once the state has left Running |
| Machine.LoopStep | VM.cs:208-493 | a throwing instruction ends the loop with that state; otherwise the loop continues from the stepped state |
| Machine.Run | VM.cs:199-206 | with no frame and no queued block, `Run` reports Completed and changes nothing |
| Machine.Purge | VM.cs:159-165 | exactly the bindings flagged global survive, unchanged |
| Machine.SetCompUnit | VM.cs:59-65 | the unit is loaded with one frame (block 0, instruction 0, no object), no pending annotations and only global bindings; stack, queue, global names, objects and state are untouched |
| Machine.QueueBlocks | VM.cs:110-127 | refused unless Completed; otherwise the first block becomes a frame bound to the object and the rest are queued in order |
| Machine.CallVarEvent | VM.cs:129-152 | succeeds iff the machine is Completed and the variable is an object with handlers for the event; then those handlers are queued on that object; the registry and bindings are not changed |
| Machine.RunBlock | VM.cs:96-104 | only when Completed, the block runs in a fresh frame with no object; otherwise the state is reported unchanged |
| Machine.HaltExecution | VM.cs:176-178 | only the state changes, to Halted |
| Machine.ContinueExecution | VM.cs:167-174 | any state but Halted is reported unchanged; a Halted machine resumes the loop where it stopped |
| MachineFacts.PushedPair | VM.cs:275-276 | after two pushes the two pops see the pushed values and restore the stack |
| MachineFacts.EqualityByRendering | VM.cs:361-363 | `==` pushes a boolean; on two numbers it is numeric equality, a number and a string compare by rendering, and two objects are always equal |
| MachineFacts.ThreeEqualsStringThree | VM.cs:361-363 | `3 == "3"` holds |
| MachineFacts.NullReadsAsZero | VM.cs:278-301 | `"a" + null` is `"a0"` and `n + null` is `n` |
| MachineFacts.MinusOperandOrder | VM.cs:275-336 | the operand pushed first is the left one: `x - y` and `x < y` |
| MachineFacts.BooleanOperatorsNeedBooleans | VM.cs:367-380 | `and`/`or` on anything but two booleans raises a runtime error, which sets Errored |
| MachineFacts.ConditionalJumpsPeek | VM.cs:435-448 | a conditional jump leaves the stack unchanged and advances the pointer by its operand exactly when taken |
| MachineFacts.ShortCircuitSkips | Compiler.cs:219-239 | for `and` with a false left operand (`or` with a true one), running the emitted layout skips the right operand's code and continues after the operator with the left value as the result |
| MachineFacts.ConstantDecides | Compiler.cs:226-239 | the pushed constant combined with an equal boolean leaves that boolean |
| MachineFacts.JumpLoop | VM.cs:435-451 | a jump continues the loop at its target |
| MachineFacts.PushBoolLoop | VM.cs:452-455 | `PushTrue`/`PushFalse` continues the loop with the boolean pushed |
| MachineFacts.BooleanLoop | VM.cs:367-380 | `Band`/`Bor` on two booleans continues the loop with their connective in their place |
| MachineFacts.JumpStep | VM.cs:435-451 | a jump as one step sets the pointer to its target |
| MachineFacts.PushBoolStep | VM.cs:452-455 | `PushTrue`/`PushFalse` as one step |
| MachineFacts.BooleanStep | VM.cs:367-380 | `Band`/`Bor` as one step |
| MachineFacts.ShortCircuitJoins | Compiler.cs:225-239 | when the left operand does not decide, `Jmp 1` skips the constant and the operator combines the two operands |
| MachineFacts.AnnotationsGoOnNextObject | VM.cs:479-488 | an annotation goes onto the next object pushed and no further |
| MachineFacts.NativeFunctionsAreConstant | VM.cs:383-396 | a script assignment to a name bound as a native function raises a runtime error |
| MachineFacts.GlobalsSurviveReload | VM.cs:59-65 | after `global x` then `x = v` the binding survives loading another unit; an undeclared non-global binding does not |
| MachineFacts.AssignFieldLeavesObject | VM.cs:397-409 | `AssignField 0` pops the object; any other operand leaves it on top; the field is set either way |
| MachineFacts.QueuedBlocksRunInOrder | VM.cs:110-127 | blocks queued together run in the order given: the first bound to the object, each later one after the previous returns, bound to no object; the last return completes |
| MachineFacts.HaltedCallResumes | VM.cs:167-174 | a native asking to halt stops the loop right after its `Call`, and `ContinueExecution` resumes the loop there |
| MachineFacts.CallHalts | VM.cs:410-434 | the `Call` of a halting native is one step that sets Halted and keeps the frames with the pointer advanced |
| MachineFacts.IdleHaltThenContinue | VM.cs:167-178 | halting an idle machine and continuing reports Completed but leaves it Running, so it refuses new work from then on |
| Interpreter.VM.constructor | VM.cs:46-47 | a new machine is `Machine.Initial` |
| Interpreter.VM.Load | VM.cs:49-51 | a machine built on a unit is `Machine.SetCompUnit` of the initial one |
| Interpreter.VM.AddDefaultErrorEvent | VM.cs:53-57 | one more error handler is subscribed, which pops a frame on every error |
| Interpreter.VM.SetCompUnit | VM.cs:59-65 | state as `Machine.SetCompUnit` |
| Interpreter.VM.CurrentFrame | VM.cs:67-69 | the top frame |
| Interpreter.VM.SetCurrentIp | VM.cs:435-451 | state as `Machine.SetIp` |
| Interpreter.VM.NewFrame | VM.cs:71-75 | state as `Machine.NewFrame`; returns the new frame |
| Interpreter.VM.PopFrame | VM.cs:77-79 | state as `Machine.PopFrame` |
| Interpreter.VM.PopStack | VM.cs:81-86 | returns the value `-num` slots below the top and removes exactly that entry |
| Interpreter.VM.PopPair | VM.cs:275-276 | two pops give the top and the value below it; running out of stack throws |
| Interpreter.VM.PushStack | VM.cs:88-90 | state as `Machine.Push` |
| Interpreter.VM.GetStackVal | VM.cs:92-94 | the value `-num` slots below the top |
| Interpreter.VM.RunBlock | VM.cs:96-104 | final state and outcome as `Machine.RunBlock` |
| Interpreter.VM.SetGlobalFunction | VM.cs:106-108 | binds a constant global native in the machine's scope and returns true |
| Interpreter.VM.QueueBlocks | VM.cs:110-127 | state, result and list left behind as `Machine.QueueBlocks` |
| Interpreter.VM.CallVarEvent | VM.cs:129-152 | state and result as `Machine.CallVarEvent` |
| Interpreter.VM.RunCallVarEvent | VM.cs:154-157 | runs whatever `CallVarEvent` leaves, as `Machine.Run` |
| Interpreter.VM.PurgeLocalVariables | VM.cs:159-165 | the bindings become `Machine.Purge` of the old ones; events unchanged |
| Interpreter.VM.ContinueExecution | VM.cs:167-174 | final state and outcome as `Machine.ContinueExecution` |
| Interpreter.VM.HaltExecution | VM.cs:176-178 | state as `Machine.HaltExecution`; returns Halted |
| Interpreter.VM.RaiseError | VM.cs:180-184 | state and outcome as `Machine.RaiseError` |
| Interpreter.VM.NextQueuedBlock | VM.cs:186-190 | state as `Machine.NextQueuedBlock` |
| Interpreter.VM.AddAnnotationToValue | VM.cs:192-197 | returns the value with the pending annotations added and clears them |
| Interpreter.VM.Run | VM.cs:199-496 | final state and outcome as `Machine.Run` |
| Interpreter.VM.ExecuteNext | VM.cs:209-492 | one turn: state and outcome as `Machine.Step` |
| Interpreter.VM.Dispatch | VM.cs:212-492 | state and outcome as `Machine.Execute` |
| Interpreter.VM.DispatchControl | VM.cs:397-491 | state and outcome as `Machine.Execute` for the remaining opcodes |
| Interpreter.VM.OpConst | VM.cs:213-216 | as `Machine.StepConst` |
| Interpreter.VM.OpPushBlock | VM.cs:217-225 | as `Machine.StepPushBlock` |
| Interpreter.VM.OpFetch | VM.cs:226-240 | as `Machine.StepFetch` |
| Interpreter.VM.OpFetchField | VM.cs:241-248 | as `Machine.StepFetchField` |
| Interpreter.VM.OpOn | VM.cs:249-263 | as `Machine.StepOn` |
| Interpreter.VM.OpArith | VM.cs:267-352 | as `Machine.StepArith` |
| Interpreter.VM.OpLogic | VM.cs:353-382 | as `Machine.StepLogic` |
| Interpreter.VM.PushLogic | VM.cs:360-381 | pushes the rendering comparison or the connective, or raises for non-booleans |
| Interpreter.VM.OpAssign | VM.cs:383-396 | as `Machine.StepAssign` |
| Interpreter.VM.OpAssignField | VM.cs:397-409 | as `Machine.StepAssignField` |
| Interpreter.VM.SetField | VM.cs:402-408 | a non-object throws, a constant field raises, otherwise only that field changes |
| Interpreter.VM.OpCall | VM.cs:410-434 | as `Machine.StepCall` |
| Interpreter.VM.PopArgs | VM.cs:418-421 | returns the top `n` values in push order and removes them |
| Interpreter.VM.OpJump | VM.cs:435-451 | as `Machine.StepJump` |
| Interpreter.VM.OpDebug | VM.cs:456-458 | as `Machine.StepDebug`: the throw signal, with nothing changed |
| Interpreter.VM.OpRet | VM.cs:462-470 | as `Machine.StepRet` |
| Interpreter.VM.OpGlobal | VM.cs:471-478 | as `Machine.StepGlobal` |
| Interpreter.VM.DeclareTop | VM.cs:473-476 | pops one name and adds it to the global list unless present |
| Interpreter.VM.OpPushNewObject | VM.cs:479-483 | as `Machine.StepPushNewObject` |
| Interpreter.VM.OpAnnotation | VM.cs:484-488 | as `Machine.StepAnnotation` |

## Left out

- Lexer.cs, Parser.cs and Token.cs are not part of this model. Compilation starts from the syntax tree (`Syntax.Ast`). A compile error is a failure result, not an exception.
- Numbers are integers, where the source uses doubles. A division by zero (which pushes an infinity or NaN in the source) and a division that does not come out even both yield the outcome `NotModelled`. `AstNumber` holds an integer, so the `% 1 == 0` test of the source always holds.
- `Values.ForceToString`, `Values.IntToString`: every integer renders as plain decimal digits. The source renders `"" + (int)n` only for numbers inside the 32-bit range and otherwise `NumValue + ""`, which gives exponent notation from 10^15 on; doubles are also inexact above 2^53. Neither is represented.
- Native function bodies are foreign code. They are a pure parameter that cannot touch the machine, so the cleanup loop after a call removes nothing and is not modelled.
- The read and write hooks of `DataHolder` (`GetVariableEvents`, `SetVariableEvents`) are host callbacks whose results the source ignores; they are not modelled. The `ErrorEvents` event is modelled only through `AddDefaultErrorEvent`: a count of handlers, each popping a frame.
- The debug printing of a unit is not modelled.
- `Run` (the opcode), `Const2` and `PushNull` throw in the source; `Machine.Execute` gives `Throws` for them.
- Exceptions other than compile errors become outcomes. Out-of-range indexes, null dereferences and stack underflow all become `Throws`, which the loop reports as `Threw`, with the state as the source leaves it at the throw.
- Annotations are compiled only for object literals, so `Syntax.Ast` carries them only there.
- The fields of an object literal are an ordered sequence, not a dictionary.
- The frame's bound object is stored but never read, as in the source.
- Object references are indexes into an object table. A handler list returned by `GetEvents` is a value, so mutating it cannot alias the registry.
- `Machine.SetCompUnit`, `Interpreter.VM.SetCompUnit`, `Interpreter.VM.Load`: require a unit with at least one block; the source throws on an empty one, and a compiled unit always has block 0.
- `Machine.QueueBlocks`, `Interpreter.VM.QueueBlocks`: require a non-empty list when the machine is Completed; the source throws on an empty one.
- `Machine.CallVarEvent`, `Interpreter.VM.CallVarEvent`, `Interpreter.VM.RunCallVarEvent`: require that an object bound to the variable is in the object table; the source cannot hold a dangling object.
- `CodeGen.GenOn`, `CodeGen.GenCall`, `CodeGen.GenObject`, `CodeGen.GenGlobal`, `CodeGen.GenRun`, `CodeGen.GenIf`: their contracts state only that the state is extended. The emitted instruction sequence is stated in `CodeGenFacts` for numbers, identifiers, assignments, `and`/`or` and if-chains, not for these nodes. Their imperative counterparts in `Compiling.Compiler` are still proved to emit exactly the same code.
- `Machine.StepOn`, `Interpreter.VM.OpOn`: a block-tagged value without a block (only a native can return one) would register a null handler in the source and execution would go on; the model's event lists hold no null, so that case yields `NotModelled`.
- `MachineFacts.ShortCircuitSkips` and `MachineFacts.ShortCircuitJoins` take the shape of the emitted code (`CodeGenFacts.ShortCircuitLayout`) as a precondition rather than compiling and running in one lemma.
