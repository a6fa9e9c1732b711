/**
 * The virtual machine of VM.cs as functions over its state.  `Vm` holds
 * every field the source's `VM` object mutates; `Step` is one turn of the
 * dispatch loop in `Run`, and `Run`, `SetCompUnit`, `QueueBlocks`,
 * `CallVarEvent` and the other host operations are functions from state to
 * state.  The `VM` class (vm.dfy) is proved to do exactly what they say.
 *
 * Script objects live in an object table: an object value carries the index
 * of its `Holder` there, so two values share an object exactly when they
 * carry the same index.  Native functions are a parameter: a pure function
 * from the callee's handle and the arguments to an optional result and a
 * request to halt.
 */
module Machine {
  import opened Values
  import opened Holders

  datatype VMState = Running | Completed | Halted | Errored

  /** A `StackFrame`: the block it runs, its instruction pointer and the object it is bound to. */
  datatype Frame = Frame(Block: BlockRef, Ip: nat, Obj: Option<ObjectId>)

  /** What a native function returns, and whether it asked the machine to halt. */
  datatype NativeOutcome = NativeOutcome(Result: Option<Value>, Halt: bool)

  type Natives = (NativeId, seq<Value>) -> NativeOutcome

  datatype Vm = Vm(
    State: VMState,
    Unit: CompUnit?,
    Stack: seq<Value>,
    Frames: seq<Frame>,
    QueuedBlocks: seq<BlockRef>,
    GlobalVariables: seq<string>,
    NextAnnotations: seq<ValueAnnotation>,
    Scope: Holder,
    Objects: seq<Holder>,
    ErrorPops: nat)

  /**
   * The result of one instruction: the next state; an exception the source
   * throws, with the state as the source leaves it at the throw; or an
   * outcome that integral numbers cannot represent (a division that does not
   * come out even), with the state when it arises.
   */
  datatype Exec = Ok(vm: Vm) | Throws(vm: Vm) | NotModelled(vm: Vm)

  /** How a call of `Run` ends. */
  datatype Ret = Returned(state: VMState) | Threw | Outside

  datatype Final = Final(vm: Vm, ret: Ret)

  /** A machine before `SetCompUnit`: nothing loaded, nothing bound. */
  function Initial(): (vm: Vm)
    ensures vm.State == Running && vm.Unit == null && vm.Frames == [] && vm.Stack == []
  {
    Vm(Running, null, [], [], [], [], [], EmptyHolder, [], 0)
  }

  // ---------------------------------------------------------------------------
  // Frames and the operand stack
  // ---------------------------------------------------------------------------

  function Top(vm: Vm): Frame
    requires |vm.Frames| > 0
  {
    vm.Frames[|vm.Frames| - 1]
  }

  /** `CurrentFrame().Ip = ip`. */
  function SetIp(vm: Vm, ip: nat): (r: Vm)
    requires |vm.Frames| > 0
    ensures |r.Frames| == |vm.Frames| && Top(r) == Top(vm).(Ip := ip)
    ensures r == vm.(Frames := r.Frames)
  {
    vm.(Frames := vm.Frames[..|vm.Frames| - 1] + [Top(vm).(Ip := ip)])
  }

  /** `NewFrame(block, obj)`: a frame at instruction 0 on top of the others. */
  function NewFrame(vm: Vm, block: BlockRef, obj: Option<ObjectId>): (r: Vm)
    ensures r.Frames == vm.Frames + [Frame(block, 0, obj)] && r == vm.(Frames := r.Frames)
  {
    vm.(Frames := vm.Frames + [Frame(block, 0, obj)])
  }

  /** `PopFrame()`. */
  function PopFrame(vm: Vm): (r: Vm)
    requires |vm.Frames| > 0
    ensures r.Frames == vm.Frames[..|vm.Frames| - 1] && r == vm.(Frames := r.Frames)
  {
    vm.(Frames := vm.Frames[..|vm.Frames| - 1])
  }

  function Push(vm: Vm, v: Value): (r: Vm)
    ensures r.Stack == vm.Stack + [v] && r == vm.(Stack := r.Stack)
  {
    vm.(Stack := vm.Stack + [v])
  }

  /** `GetStackVal(-k)`: the value `k` slots below the top. */
  function Peek(vm: Vm, k: nat): Value
    requires k < |vm.Stack|
  {
    vm.Stack[|vm.Stack| - 1 - k]
  }

  /** The stack without its top `k` values. */
  function Drop(vm: Vm, k: nat): (r: Vm)
    requires k <= |vm.Stack|
    ensures |r.Stack| == |vm.Stack| - k && r == vm.(Stack := r.Stack)
  {
    vm.(Stack := vm.Stack[..|vm.Stack| - k])
  }

  lemma DropDrop(vm: Vm, j: nat, k: nat)
    requires j + k <= |vm.Stack|
    ensures Drop(Drop(vm, j), k) == Drop(vm, j + k)
    ensures k < |vm.Stack| - j ==> Peek(Drop(vm, j), k) == Peek(vm, j + k)
  {
    assert Drop(Drop(vm, j), k).Stack == Drop(vm, j + k).Stack;
  }

  /** `List.RemoveAt(i)` on a sequence. */
  function RemoveAt<T>(s: seq<T>, i: nat): (r: seq<T>)
    requires i < |s|
    ensures |r| == |s| - 1
    ensures forall j :: 0 <= j < i ==> r[j] == s[j]
    ensures forall j :: i <= j < |r| ==> r[j] == s[j + 1]
  {
    s[..i] + s[i + 1..]
  }

  /** `NextQueuedBlock()`: the oldest queued block becomes a frame with no object. */
  function NextQueuedBlock(vm: Vm): (r: Vm)
    requires |vm.QueuedBlocks| > 0
    ensures r.QueuedBlocks == vm.QueuedBlocks[1..]
    ensures r.Frames == vm.Frames + [Frame(vm.QueuedBlocks[0], 0, None)]
    ensures r == vm.(QueuedBlocks := r.QueuedBlocks, Frames := r.Frames)
  {
    NewFrame(vm.(QueuedBlocks := vm.QueuedBlocks[1..]), vm.QueuedBlocks[0], None)
  }

  /**
   * `RaiseError`: the state becomes Errored and every subscribed default
   * error handler pops one frame; popping with no frame left throws.
   */
  function RaiseError(vm: Vm): (r: Exec)
    ensures r.Ok? <==> vm.ErrorPops <= |vm.Frames|
    ensures r.Ok? ==> r.vm == vm.(State := Errored, Frames := vm.Frames[..|vm.Frames| - vm.ErrorPops])
    ensures !r.Ok? ==> r == Throws(vm.(State := Errored, Frames := []))
  {
    if vm.ErrorPops <= |vm.Frames| then Ok(vm.(State := Errored, Frames := vm.Frames[..|vm.Frames| - vm.ErrorPops]))
    else Throws(vm.(State := Errored, Frames := []))
  }

  /** `addAnnotationToValue`: the pending annotations go onto `v`. */
  function Annotate(v: Value, pending: seq<ValueAnnotation>): (r: Value)
    ensures r.Annotations == v.Annotations + pending && r == v.(Annotations := r.Annotations)
  {
    v.(Annotations := v.Annotations + pending)
  }

  // ---------------------------------------------------------------------------
  // One instruction
  // ---------------------------------------------------------------------------

  /** The operator families of the dispatch loop. */
  predicate IsArith(op: OpCode) {
    op in {OpCode.Gt, OpCode.Lt, OpCode.Gte, OpCode.Lte, OpCode.Mul, OpCode.Div, OpCode.Plus, OpCode.Minus}
  }

  predicate IsLogic(op: OpCode) {
    op in {OpCode.Eq, OpCode.Neq, OpCode.Band, OpCode.Bor}
  }

  predicate IsJump(op: OpCode) {
    op in {OpCode.Czjmp, OpCode.Cjmp, OpCode.Jmp}
  }

  /**
   * A pop or peek past the bottom of the stack throws; by then the
   * instruction's earlier pops have emptied the stack.
   */
  function Underflow(vm: Vm): (r: Exec)
    ensures r.Throws? && r.vm == vm.(Stack := [])
  {
    Throws(vm.(Stack := []))
  }

  /** A step that leaves the machine running leaves its frames and its queue alone. */
  predicate KeepsControl(vm: Vm, r: Exec) {
    r.Ok? && r.vm.State == Running ==> r.vm.Frames == vm.Frames && r.vm.QueuedBlocks == vm.QueuedBlocks
  }

  /**
   * One turn of the loop: fetch the instruction at the current frame's
   * instruction pointer, advance the pointer, execute the instruction.
   * With no frame, or past the end of the block (where the pointer has
   * already advanced), the fetch throws.
   */
  function Step(natives: Natives, vm: Vm): (r: Exec)
    ensures |vm.Frames| == 0 ==> r == Throws(vm)
    ensures |vm.Frames| > 0 && Top(vm).Ip >= |Code(Top(vm).Block)| ==> r == Throws(SetIp(vm, Top(vm).Ip + 1))
    ensures r.Ok? ==> |vm.Frames| > 0 && Top(vm).Ip < |Code(Top(vm).Block)|
  {
    if |vm.Frames| == 0 then Throws(vm)
    else
      var top := Top(vm);
      var code := Code(top.Block);
      var vm1 := SetIp(vm, top.Ip + 1);
      if top.Ip >= |code| then Throws(vm1)
      else Execute(natives, vm1, code[top.Ip])
  }

  /** A fetch inside the block executes the instruction under the pointer, with the pointer advanced. */
  lemma StepFetches(natives: Natives, vm: Vm)
    requires |vm.Frames| > 0 && Top(vm).Ip < |Code(Top(vm).Block)|
    ensures Step(natives, vm) == Execute(natives, SetIp(vm, Top(vm).Ip + 1), Code(Top(vm).Block)[Top(vm).Ip])
  {
  }

  /** The instruction after its fetch; `vm` already has the advanced pointer. */
  function Execute(natives: Natives, vm: Vm, ins: Instr): (r: Exec)
    requires |vm.Frames| > 0
    ensures r.Ok? && r.vm.State == Running && ins.Op != OpCode.Ret ==>
              && |r.vm.Frames| == |vm.Frames| && r.vm.QueuedBlocks == vm.QueuedBlocks
              && Top(r.vm).Block == Top(vm).Block && Top(r.vm).Ip >= Top(vm).Ip
  {
    var a := ins.Arg0;
    match ins.Op
    case Const => StepConst(vm, a)
    case PushBlock => StepPushBlock(vm, a)
    case Fetch => StepFetch(vm)
    case FetchField => StepFetchField(vm)
    case On => StepOn(vm)
    case Run => Throws(vm)
    case Gt => StepArith(vm, ins.Op)
    case Lt => StepArith(vm, ins.Op)
    case Gte => StepArith(vm, ins.Op)
    case Lte => StepArith(vm, ins.Op)
    case Mul => StepArith(vm, ins.Op)
    case Div => StepArith(vm, ins.Op)
    case Plus => StepArith(vm, ins.Op)
    case Minus => StepArith(vm, ins.Op)
    case Eq => StepLogic(vm, ins.Op)
    case Neq => StepLogic(vm, ins.Op)
    case Band => StepLogic(vm, ins.Op)
    case Bor => StepLogic(vm, ins.Op)
    case Assign => StepAssign(vm)
    case AssignField => StepAssignField(vm, a)
    case Call => StepCall(natives, vm, a)
    case Czjmp => StepJump(vm, ins.Op, a)
    case Cjmp => StepJump(vm, ins.Op, a)
    case Jmp => StepJump(vm, ins.Op, a)
    case PushTrue => Ok(Push(vm, OfBool(true)))
    case PushFalse => Ok(Push(vm, OfBool(false)))
    case Debug => StepDebug(vm, a)
    case PushNumber => Ok(Push(vm, OfNumber(a)))
    case Ret => Ok(StepRet(vm))
    case Global => StepGlobal(vm, a)
    case PushNewObject => Ok(StepPushNewObject(vm))
    case Annotation => StepAnnotation(vm, a)
    case Const2 => Throws(vm)
    case PushNull => Throws(vm)
  }

  /** `Const a`: pushes pool entry `a` of the loaded unit. */
  function StepConst(vm: Vm, a: byte): (r: Exec)
    ensures KeepsControl(vm, r)
    ensures r.Ok? <==> vm.Unit != null && a < |vm.Unit.Consts|
    ensures r.Ok? ==> r.vm == Push(vm, vm.Unit.Consts[a])
    ensures !r.Ok? ==> r == Throws(vm)
  {
    if vm.Unit == null || a >= |vm.Unit.Consts| then Throws(vm) else Ok(Push(vm, vm.Unit.Consts[a]))
  }

  /**
   * `PushBlock a`: pushes block `a` of the loaded unit as a value carrying
   * the pending annotations, which are consumed.
   */
  function StepPushBlock(vm: Vm, a: byte): (r: Exec)
    ensures KeepsControl(vm, r)
    ensures r.Ok? <==> vm.Unit != null && a < |vm.Unit.Blocks|
    ensures !r.Ok? ==> r == Throws(vm)
    ensures r.Ok? ==> && r.vm.Stack == vm.Stack + [Annotate(OfBlock(BlockRef(vm.Unit, a)), vm.NextAnnotations)]
                      && r.vm == vm.(Stack := r.vm.Stack, NextAnnotations := [])
  {
    if vm.Unit == null || a >= |vm.Unit.Blocks| then Throws(vm)
    else
      var val := Annotate(OfBlock(BlockRef(vm.Unit, a)), vm.NextAnnotations);
      Ok(Push(vm.(NextAnnotations := []), val))
  }

  /**
   * `Fetch`: pops a name and pushes what the machine's own scope binds to it
   * (null when unbound); a non-string name is a runtime error.
   */
  function StepFetch(vm: Vm): (r: Exec)
    ensures KeepsControl(vm, r)
    ensures |vm.Stack| == 0 ==> r == Underflow(vm)
    ensures |vm.Stack| > 0 && Peek(vm, 0).Type != String ==> r == RaiseError(Drop(vm, 1))
    ensures |vm.Stack| > 0 && Peek(vm, 0).Type == String ==>
              r == Ok(Push(Drop(vm, 1), GetVariable(vm.Scope, Peek(vm, 0).StrValue)))
  {
    if |vm.Stack| == 0 then Underflow(vm)
    else
      var name := Peek(vm, 0);
      var vm1 := Drop(vm, 1);
      if name.Type != String then RaiseError(vm1)
      else if name.StrValue !in vm.Scope.Variables then Ok(Push(vm1, OfType(NullVal)))
      else Ok(Push(vm1, vm.Scope.Variables[name.StrValue]))
  }

  /** `FetchField`: pops a field name and an object and pushes the object's binding. */
  function StepFetchField(vm: Vm): (r: Exec)
    ensures KeepsControl(vm, r)
    ensures |vm.Stack| < 2 ==> r == Underflow(vm)
    ensures |vm.Stack| >= 2 ==>
              if ResolvesIn(Peek(vm, 1), vm.Objects)
              then r == Ok(Push(Drop(vm, 2), GetVariable(vm.Objects[Peek(vm, 1).ObjectValue.value], Peek(vm, 0).StrValue)))
              else r == Throws(Drop(vm, 2))
  {
    if |vm.Stack| < 2 then Underflow(vm)
    else
      var fieldName := Peek(vm, 0);
      var current := Peek(vm, 1);
      var vm2 := Drop(vm, 2);
      if !ResolvesIn(current, vm.Objects) then Throws(vm2)
      else Ok(Push(vm2, GetVariable(vm.Objects[current.ObjectValue.value], fieldName.StrValue)))
  }

  /**
   * `On`: pops a block, an event name and a target and registers the block
   * as a handler of that event on the target object.  A block-tagged value
   * without a block (which only a native can make) would register a null
   * handler; the event lists hold no null, so that case is `NotModelled`.
   */
  function StepOn(vm: Vm): (r: Exec)
    ensures KeepsControl(vm, r)
    ensures |vm.Stack| < 3 ==> r == Underflow(vm)
    ensures |vm.Stack| >= 3 && (Peek(vm, 0).Type != Block || Peek(vm, 2).Type != Object) ==> r == RaiseError(Drop(vm, 3))
    ensures |vm.Stack| >= 3 && Peek(vm, 0).Type == Block && Peek(vm, 2).Type == Object ==>
              if !ResolvesIn(Peek(vm, 2), vm.Objects) then r == Throws(Drop(vm, 3))
              else if Peek(vm, 0).BlockValue.None? then r == NotModelled(Drop(vm, 3))
              else
                var id := Peek(vm, 2).ObjectValue.value;
                r == Ok(Drop(vm, 3).(Objects := vm.Objects[id := AddEvent(vm.Objects[id], Peek(vm, 1).StrValue, Peek(vm, 0).BlockValue.value)]))
  {
    if |vm.Stack| < 3 then Underflow(vm)
    else
      var block := Peek(vm, 0);
      var eventName := Peek(vm, 1);
      var obj := Peek(vm, 2);
      var vm3 := Drop(vm, 3);
      if block.Type != Block then RaiseError(vm3)
      else if obj.Type != Object then RaiseError(vm3)
      else if !ResolvesIn(obj, vm.Objects) then Throws(vm3)
      else if block.BlockValue.None? then NotModelled(vm3)
      else
        var id := obj.ObjectValue.value;
        Ok(vm3.(Objects := vm.Objects[id := AddEvent(vm.Objects[id], eventName.StrValue, block.BlockValue.value)]))
  }

  /** A null operand of arithmetic or comparison is read as the number 0. */
  function Coerce(v: Value): (r: Value)
    ensures v.Type != NullVal ==> r == v
    ensures v.Type == NullVal ==> r.Type == Number && r.NumValue == 0
  {
    if v.Type == NullVal then v.(Type := Number, NumValue := 0) else v
  }

  predicate BothNumbers(a: Value, b: Value) {
    a.Type == Number && b.Type == Number
  }

  /** Integral numbers represent the result: a division must come out even. */
  predicate ArithDefined(op: OpCode, first: Value, second: Value) {
    op == OpCode.Div && BothNumbers(first, second) ==>
      second.NumValue != 0 && first.NumValue % second.NumValue == 0
  }

  /**
   * The value an arithmetic or comparison operator computes from its left
   * and right operands (after null coercion); `None` is a type error.
   */
  function Arith(op: OpCode, first: Value, second: Value): (r: Option<Value>)
    requires IsArith(op) && ArithDefined(op, first, second)
    ensures op == OpCode.Plus ==>
              r == (if first.Type == String || second.Type == String then Some(OfString(ForceToString(first) + ForceToString(second)))
                    else if BothNumbers(first, second) then Some(OfNumber(first.NumValue + second.NumValue))
                    else None)
    ensures op != OpCode.Plus ==> (r.Some? <==> BothNumbers(first, second))
    ensures r.Some? && op in {OpCode.Minus, OpCode.Mul, OpCode.Div} ==> r.value.Type == Number
    ensures r.Some? && op in {OpCode.Gt, OpCode.Lt, OpCode.Gte, OpCode.Lte} ==> r.value.Type == Boolean
  {
    var x := first.NumValue;
    var y := second.NumValue;
    if op == OpCode.Plus then
      if first.Type == String || second.Type == String then Some(OfString(ForceToString(first) + ForceToString(second)))
      else if BothNumbers(first, second) then Some(OfNumber(x + y))
      else None
    else if !BothNumbers(first, second) then None
    else
      match op
      case Minus => Some(OfNumber(x - y))
      case Mul => Some(OfNumber(x * y))
      case Div => Some(OfNumber(x / y))
      case Gt => Some(OfBool(x > y))
      case Lt => Some(OfBool(x < y))
      case Gte => Some(OfBool(x >= y))
      case Lte => Some(OfBool(x <= y))
  }

  /**
   * `Gt`..`Minus`: pops the right operand, then the left, reads a null as 0
   * and pushes the result; a type error raises the runtime error.
   */
  function StepArith(vm: Vm, op: OpCode): (r: Exec)
    requires IsArith(op)
    ensures KeepsControl(vm, r)
    ensures |vm.Stack| < 2 ==> r == Underflow(vm)
    ensures |vm.Stack| >= 2 ==>
              var first := Coerce(Peek(vm, 1));
              var second := Coerce(Peek(vm, 0));
              if !ArithDefined(op, first, second) then r == NotModelled(Drop(vm, 2))
              else match Arith(op, first, second)
                   case None => r == RaiseError(Drop(vm, 2))
                   case Some(v) => r == Ok(Push(Drop(vm, 2), v))
  {
    if |vm.Stack| < 2 then Underflow(vm)
    else
      var second := Coerce(Peek(vm, 0));
      var first := Coerce(Peek(vm, 1));
      var vm2 := Drop(vm, 2);
      if !ArithDefined(op, first, second) then NotModelled(vm2)
      else
        match Arith(op, first, second)
        case None => RaiseError(vm2)
        case Some(v) => Ok(Push(vm2, v))
  }

  /**
   * `Eq`/`Neq` compare the renderings of any two values; `Band`/`Bor` need
   * two booleans.  The right operand is popped first.
   */
  /** What `Band` and `Bor` compute from two booleans. */
  function Connective(op: OpCode, l: bool, r: bool): bool
    requires op == OpCode.Band || op == OpCode.Bor
  {
    if op == OpCode.Band then l && r else l || r
  }

  function StepLogic(vm: Vm, op: OpCode): (r: Exec)
    requires IsLogic(op)
    ensures KeepsControl(vm, r)
    ensures |vm.Stack| < 2 ==> r == Underflow(vm)
    ensures |vm.Stack| >= 2 && op == OpCode.Eq ==>
              r == Ok(Push(Drop(vm, 2), OfBool(ForceToString(Peek(vm, 1)) == ForceToString(Peek(vm, 0)))))
    ensures |vm.Stack| >= 2 && op == OpCode.Neq ==>
              r == Ok(Push(Drop(vm, 2), OfBool(ForceToString(Peek(vm, 1)) != ForceToString(Peek(vm, 0)))))
    ensures |vm.Stack| >= 2 && (op == OpCode.Band || op == OpCode.Bor) ==>
              (if Peek(vm, 1).Type == Boolean && Peek(vm, 0).Type == Boolean
               then r == Ok(Push(Drop(vm, 2), OfBool(Connective(op, Peek(vm, 1).BoolValue, Peek(vm, 0).BoolValue))))
               else r == RaiseError(Drop(vm, 2)))
  {
    if |vm.Stack| < 2 then Underflow(vm)
    else
      var second := Peek(vm, 0);
      var first := Peek(vm, 1);
      var vm2 := Drop(vm, 2);
      match op
      case Eq => Ok(Push(vm2, OfBool(ForceToString(first) == ForceToString(second))))
      case Neq => Ok(Push(vm2, OfBool(ForceToString(first) != ForceToString(second))))
      case Band =>
        if first.Type == Boolean && second.Type == Boolean then Ok(Push(vm2, OfBool(first.BoolValue && second.BoolValue)))
        else RaiseError(vm2)
      case Bor =>
        if first.Type == Boolean && second.Type == Boolean then Ok(Push(vm2, OfBool(first.BoolValue || second.BoolValue)))
        else RaiseError(vm2)
  }

  /** The binding `name` holds a constant. */
  predicate IsConstIn(h: Holder, name: string) {
    name in h.Variables && h.Variables[name].IsConst
  }

  /**
   * `Assign`: pops a value and a name and binds them in the machine's own
   * scope, marking the value global when the name was declared global; a
   * constant binding cannot be overwritten.
   */
  function StepAssign(vm: Vm): (r: Exec)
    ensures KeepsControl(vm, r)
    ensures |vm.Stack| < 2 ==> r == Underflow(vm)
    ensures |vm.Stack| >= 2 && IsConstIn(vm.Scope, Peek(vm, 1).StrValue) ==> r == RaiseError(Drop(vm, 2))
    ensures |vm.Stack| >= 2 && !IsConstIn(vm.Scope, Peek(vm, 1).StrValue) ==>
              var name := Peek(vm, 1).StrValue;
              && r.Ok? && r.vm == Drop(vm, 2).(Scope := r.vm.Scope)
              && r.vm.Scope.Events == vm.Scope.Events
              && r.vm.Scope.Variables.Keys == vm.Scope.Variables.Keys + {name}
              && r.vm.Scope.Variables[name] == (if name in vm.GlobalVariables then Peek(vm, 0).(IsGlobal := true) else Peek(vm, 0))
              && forall n :: n in vm.Scope.Variables && n != name ==> r.vm.Scope.Variables[n] == vm.Scope.Variables[n]
  {
    if |vm.Stack| < 2 then Underflow(vm)
    else
      var val := Peek(vm, 0);
      var name := Peek(vm, 1);
      var vm2 := Drop(vm, 2);
      if IsConstIn(vm.Scope, name.StrValue) then RaiseError(vm2)
      else
        var stored := if name.StrValue in vm.GlobalVariables then val.(IsGlobal := true) else val;
        Ok(vm2.(Scope := SetVariable(vm.Scope, name.StrValue, stored).0))
  }

  /**
   * `AssignField a`: pops a value and a name, then takes the object below
   * them (popping it when `a` is 0, leaving it in place otherwise) and binds
   * the field on that object; a constant field cannot be overwritten.
   */
  function StepAssignField(vm: Vm, a: byte): (r: Exec)
    ensures KeepsControl(vm, r)
    ensures |vm.Stack| < 3 ==> r == Underflow(vm)
    ensures |vm.Stack| >= 3 ==>
              var vm1 := Drop(vm, if a == 0 then 3 else 2);
              if !ResolvesIn(Peek(vm, 2), vm.Objects) then r == Throws(vm1)
              else
                var id := Peek(vm, 2).ObjectValue.value;
                r == if IsConstIn(vm.Objects[id], Peek(vm, 1).StrValue) then RaiseError(vm1)
                     else Ok(vm1.(Objects := vm.Objects[id := SetVariable(vm.Objects[id], Peek(vm, 1).StrValue, Peek(vm, 0)).0]))
  {
    if |vm.Stack| < 3 then Underflow(vm)
    else
      var val := Peek(vm, 0);
      var name := Peek(vm, 1);
      var objVal := Peek(vm, 2);
      var vm1 := Drop(vm, if a == 0 then 3 else 2);
      if !ResolvesIn(objVal, vm.Objects) then Throws(vm1)
      else
        var id := objVal.ObjectValue.value;
        if IsConstIn(vm.Objects[id], name.StrValue) then RaiseError(vm1)
        else Ok(vm1.(Objects := vm.Objects[id := SetVariable(vm.Objects[id], name.StrValue, val).0]))
  }

  /**
   * `Call n`: the callee sits below `n` arguments.  It is taken out first,
   * then the arguments, in the order they were pushed; the native's result
   * is pushed when there is one.  A callee that is not a native function is
   * a runtime error.
   */
  function StepCall(natives: Natives, vm: Vm, n: byte): (r: Exec)
    ensures KeepsControl(vm, r)
    ensures |vm.Stack| <= n ==> r == Throws(vm)
    ensures |vm.Stack| > n && Peek(vm, n).Type != NativeFunc ==>
              r == RaiseError(vm.(Stack := RemoveAt(vm.Stack, |vm.Stack| - 1 - n)))
    ensures |vm.Stack| > n && Peek(vm, n).Type == NativeFunc && Peek(vm, n).FuncValue.None? ==>
              r == Throws(vm.(Stack := vm.Stack[..|vm.Stack| - 1 - n]))
    ensures |vm.Stack| > n && Peek(vm, n).Type == NativeFunc && Peek(vm, n).FuncValue.Some? ==>
              var out := natives(Peek(vm, n).FuncValue.value, vm.Stack[|vm.Stack| - n..]);
              && r.Ok?
              && r.vm.Stack == vm.Stack[..|vm.Stack| - 1 - n] + (if out.Result.Some? then [out.Result.value] else [])
              && r.vm == vm.(Stack := r.vm.Stack, State := if out.Halt then Halted else vm.State)
  {
    if |vm.Stack| <= n then Throws(vm)
    else
      var f := Peek(vm, n);
      var rest := RemoveAt(vm.Stack, |vm.Stack| - 1 - n);
      if f.Type != NativeFunc then RaiseError(vm.(Stack := rest))
      else
        var args := vm.Stack[|vm.Stack| - n..];
        var below := vm.Stack[..|vm.Stack| - 1 - n];
        if f.FuncValue.None? then Throws(vm.(Stack := below))
        else
          var out := natives(f.FuncValue.value, args);
          var vm1 := vm.(State := if out.Halt then Halted else vm.State);
          Ok(vm1.(Stack := if out.Result.Some? then below + [out.Result.value] else below))
  }

  /** Whether the jump is taken: always for `Jmp`, on a false top for `Czjmp`, on a true top for `Cjmp`. */
  predicate JumpTaken(vm: Vm, op: OpCode)
    requires IsJump(op)
  {
    if op == OpCode.Jmp then true
    else |vm.Stack| > 0 && (if op == OpCode.Czjmp then !Peek(vm, 0).BoolValue else Peek(vm, 0).BoolValue)
  }

  /**
   * `Czjmp a` / `Cjmp a` / `Jmp a`: the conditional jumps look at the top of
   * the stack without popping it; a taken jump adds `a` to the already
   * advanced instruction pointer.
   */
  function StepJump(vm: Vm, op: OpCode, a: byte): (r: Exec)
    requires IsJump(op) && |vm.Frames| > 0
    ensures op != OpCode.Jmp && |vm.Stack| == 0 ==> r == Throws(vm)
    ensures op == OpCode.Jmp || |vm.Stack| > 0 ==> r == Ok(if JumpTaken(vm, op) then SetIp(vm, Top(vm).Ip + a) else vm)
  {
    if op == OpCode.Jmp then Ok(SetIp(vm, Top(vm).Ip + a))
    else if |vm.Stack| == 0 then Throws(vm)
    else if JumpTaken(vm, op) then Ok(SetIp(vm, Top(vm).Ip + a))
    else Ok(vm)
  }

  /**
   * `Debug a` hands pool entry `a` to a format string without a valid
   * format item, so it throws whether or not the entry exists, and nothing
   * changes before the throw.
   */
  function StepDebug(vm: Vm, a: byte): (r: Exec)
    ensures r.vm == vm && r.Throws?
  {
    Throws(vm)
  }

  /**
   * `Ret`: pops the frame; the oldest queued block, if any, starts in a
   * fresh frame, and otherwise the machine completes once no frame is left.
   */
  function StepRet(vm: Vm): (r: Vm)
    requires |vm.Frames| > 0
    ensures |vm.QueuedBlocks| > 0 ==> r.QueuedBlocks == vm.QueuedBlocks[1..] && r.State == vm.State
                                       && r.Frames == vm.Frames[..|vm.Frames| - 1] + [Frame(vm.QueuedBlocks[0], 0, None)]
    ensures |vm.QueuedBlocks| == 0 ==> r.Frames == vm.Frames[..|vm.Frames| - 1] && r.QueuedBlocks == []
                                        && r.State == (if |vm.Frames| == 1 then Completed else vm.State)
    ensures r == vm.(Frames := r.Frames, QueuedBlocks := r.QueuedBlocks, State := r.State)
  {
    var vm1 := PopFrame(vm);
    if |vm1.QueuedBlocks| > 0 then NextQueuedBlock(vm1)
    else if |vm1.Frames| == 0 then vm1.(State := Completed)
    else vm1
  }

  /** No name occurs twice. */
  predicate Unique(names: seq<string>) {
    forall i, j :: 0 <= i < j < |names| ==> names[i] != names[j]
  }

  /** Adds `name` to a list of names unless it is already there. */
  function AddName(names: seq<string>, name: string): (r: seq<string>)
    ensures name in r && (forall n :: n in r <==> n in names || n == name)
    ensures names <= r && |r| <= |names| + 1
    ensures Unique(names) ==> Unique(r)
  {
    if name in names then names else names + [name]
  }

  /**
   * The global names after the first `k` iterations of `Global`'s loop,
   * each popping the next name from the top of `stack` and declaring it.
   */
  function Declared(names: seq<string>, stack: seq<Value>, k: nat): (r: seq<string>)
    requires k <= |stack|
    ensures names <= r
  {
    if k == 0 then names else AddName(Declared(names, stack, k - 1), stack[|stack| - k].StrValue)
  }

  /** The machine after the first `k` iterations of `Global`'s loop. */
  function DeclareGlobals(vm: Vm, k: nat): (r: Vm)
    requires k <= |vm.Stack|
    ensures r == Drop(vm, k).(GlobalVariables := r.GlobalVariables)
    ensures vm.GlobalVariables <= r.GlobalVariables
  {
    Drop(vm, k).(GlobalVariables := Declared(vm.GlobalVariables, vm.Stack, k))
  }

  /** After `k` pops every popped name is declared. */
  lemma {:induction false} DeclaredHasPopped(names: seq<string>, stack: seq<Value>, k: nat)
    requires k <= |stack|
    ensures forall i :: |stack| - k <= i < |stack| ==> stack[i].StrValue in Declared(names, stack, k)
  {
    if k > 0 {
      DeclaredHasPopped(names, stack, k - 1);
    }
  }

  /** Nothing but the popped names is newly declared. */
  lemma {:induction false} DeclaredOnlyPopped(names: seq<string>, stack: seq<Value>, k: nat)
    requires k <= |stack|
    ensures forall n :: n in Declared(names, stack, k) && n !in names ==>
              exists i :: |stack| - k <= i < |stack| && stack[i].StrValue == n
  {
    if k > 0 {
      DeclaredOnlyPopped(names, stack, k - 1);
      forall n | n in Declared(names, stack, k) && n !in names
        ensures exists i :: |stack| - k <= i < |stack| && stack[i].StrValue == n
      {
        if n == stack[|stack| - k].StrValue {
          assert stack[|stack| - k].StrValue == n;
        }
      }
    }
  }

  /** No name is declared twice. */
  lemma {:induction false} DeclaredUnique(names: seq<string>, stack: seq<Value>, k: nat)
    requires k <= |stack| && Unique(names)
    ensures Unique(Declared(names, stack, k))
  {
    if k > 0 {
      DeclaredUnique(names, stack, k - 1);
    }
  }

  /** One more pop declares the name on top of what the previous pops left. */
  lemma DeclareGlobalsNext(vm: Vm, k: nat)
    requires k < |vm.Stack|
    ensures var v := DeclareGlobals(vm, k);
            && Peek(v, 0) == vm.Stack[|vm.Stack| - 1 - k]
            && DeclareGlobals(vm, k + 1) == Drop(v, 1).(GlobalVariables := AddName(v.GlobalVariables, vm.Stack[|vm.Stack| - 1 - k].StrValue))
  {
    DropDrop(vm, k, 1);
  }

  /** `Global n`: pops `n` names and declares each global, without duplicates. */
  function StepGlobal(vm: Vm, n: byte): (r: Exec)
    ensures KeepsControl(vm, r)
    ensures n <= |vm.Stack| ==> r == Ok(DeclareGlobals(vm, n))
    ensures n > |vm.Stack| ==> r == Throws(DeclareGlobals(vm, |vm.Stack|))
  {
    if |vm.Stack| < n then Throws(DeclareGlobals(vm, |vm.Stack|))
    else Ok(DeclareGlobals(vm, n))
  }

  /**
   * `PushNewObject`: a fresh, empty object joins the table and is pushed
   * with the pending annotations, which are consumed.
   */
  function StepPushNewObject(vm: Vm): (r: Vm)
    ensures r.Objects == vm.Objects + [EmptyHolder]
    ensures r.Stack == vm.Stack + [Annotate(OfObject(|vm.Objects|), vm.NextAnnotations)]
    ensures r.NextAnnotations == []
    ensures r == vm.(Objects := r.Objects, Stack := r.Stack, NextAnnotations := [])
  {
    var val := Annotate(OfObject(|vm.Objects|), vm.NextAnnotations);
    Push(vm.(Objects := vm.Objects + [EmptyHolder], NextAnnotations := []), val)
  }

  /** `Annotation a`: the string in pool entry `a` joins the pending annotations. */
  function StepAnnotation(vm: Vm, a: byte): (r: Exec)
    ensures KeepsControl(vm, r)
    ensures r.Ok? <==> vm.Unit != null && a < |vm.Unit.Consts|
    ensures r.Ok? ==> r.vm == vm.(NextAnnotations := vm.NextAnnotations + [ValueAnnotation(vm.Unit.Consts[a].StrValue)])
    ensures !r.Ok? ==> r == Throws(vm)
  {
    if vm.Unit == null || a >= |vm.Unit.Consts| then Throws(vm)
    else Ok(vm.(NextAnnotations := vm.NextAnnotations + [ValueAnnotation(vm.Unit.Consts[a].StrValue)]))
  }

  // ---------------------------------------------------------------------------
  // The dispatch loop
  // ---------------------------------------------------------------------------

  /** How much of the current frame's block is left to run. */
  function Remaining(vm: Vm): nat {
    if |vm.Frames| == 0 then 0
    else
      var top := Top(vm);
      if top.Ip < |Code(top.Block)| then |Code(top.Block)| - top.Ip else 0
  }

  /**
   * A step that keeps the machine running makes progress: it consumes a
   * queued block, pops a frame, or moves forward in the current block.
   * Jumps only go forward, and nothing in the loop pushes a frame except
   * for a queued block.
   */
  lemma StepProgresses(natives: Natives, vm: Vm)
    requires Step(natives, vm).Ok? && Step(natives, vm).vm.State == Running
    ensures var vm' := Step(natives, vm).vm;
            || |vm'.QueuedBlocks| < |vm.QueuedBlocks|
            || (|vm'.QueuedBlocks| == |vm.QueuedBlocks| && |vm'.Frames| < |vm.Frames|)
            || (|vm'.QueuedBlocks| == |vm.QueuedBlocks| && |vm'.Frames| == |vm.Frames| && Remaining(vm') < Remaining(vm))
  {
    var top := Top(vm);
    var ins := Code(top.Block)[top.Ip];
    var vm1 := SetIp(vm, top.Ip + 1);
    var vm' := Execute(natives, vm1, ins).vm;
    if ins.Op == OpCode.Ret {
      assert vm' == StepRet(vm1);
    } else {
      ForwardInBlock(vm, vm');
    }
  }

  /** Staying in the same block at a later instruction leaves less of it to run. */
  lemma ForwardInBlock(vm: Vm, vm': Vm)
    requires |vm.Frames| > 0 && |vm'.Frames| == |vm.Frames|
    requires Top(vm').Block == Top(vm).Block && Top(vm').Ip > Top(vm).Ip
    requires Top(vm).Ip < |Code(Top(vm).Block)|
    ensures Remaining(vm') < Remaining(vm)
  {
  }

  /** `while (State == Running)`: steps until the state changes or an instruction throws. */
  function RunLoop(natives: Natives, vm: Vm): (r: Final)
    ensures r.ret.Returned? ==> r.vm.State != Running && r.ret.state == r.vm.State
    decreases |vm.QueuedBlocks|, |vm.Frames|, Remaining(vm), 1
  {
    if vm.State != Running then Final(vm, Returned(vm.State)) else Turn(natives, vm)
  }

  /** One pass of the `while` body: the instruction's outcome, then the loop again while the machine still runs. */
  function Turn(natives: Natives, vm: Vm): (r: Final)
    requires vm.State == Running
    ensures r.ret.Returned? ==> r.vm.State != Running && r.ret.state == r.vm.State
    decreases |vm.QueuedBlocks|, |vm.Frames|, Remaining(vm), 0
  {
    match Step(natives, vm)
    case Throws(vm') => Final(vm', Threw)
    case NotModelled(vm') => Final(vm', Outside)
    case Ok(vm') =>
      if vm'.State != Running then Final(vm', Returned(vm'.State))
      else
        StepProgresses(natives, vm);
        RunLoop(natives, vm')
  }

  /** What one turn of the loop contributes to the loop's outcome. */
  lemma LoopStep(natives: Natives, vm: Vm)
    requires vm.State == Running
    ensures var e := Step(natives, vm);
            && (e.Throws? ==> RunLoop(natives, vm) == Final(e.vm, Threw))
            && (e.NotModelled? ==> RunLoop(natives, vm) == Final(e.vm, Outside))
            && (e.Ok? ==> RunLoop(natives, vm) == RunLoop(natives, e.vm))
            && (e.Ok? && e.vm.State == Running ==>
                  || |e.vm.QueuedBlocks| < |vm.QueuedBlocks|
                  || (|e.vm.QueuedBlocks| == |vm.QueuedBlocks| && |e.vm.Frames| < |vm.Frames|)
                  || (|e.vm.QueuedBlocks| == |vm.QueuedBlocks| && |e.vm.Frames| == |vm.Frames| && Remaining(e.vm) < Remaining(vm)))
  {
    var e := Step(natives, vm);
    assert RunLoop(natives, vm) == Turn(natives, vm);
    if e.Ok? && e.vm.State == Running {
      StepProgresses(natives, vm);
    } else if e.Ok? {
      assert RunLoop(natives, e.vm) == Final(e.vm, Returned(e.vm.State));
    }
  }

  /**
   * `Run()`: with no frame and no queued block it reports Completed and
   * touches nothing; otherwise it starts the oldest queued block when no
   * frame is left, sets Running and loops.
   */
  function Run(natives: Natives, vm: Vm): (r: Final)
    ensures |vm.Frames| == 0 && |vm.QueuedBlocks| == 0 ==> r == Final(vm, Returned(Completed))
  {
    if |vm.Frames| == 0 && |vm.QueuedBlocks| == 0 then Final(vm, Returned(Completed))
    else
      var vm1 := if |vm.Frames| == 0 then NextQueuedBlock(vm) else vm;
      RunLoop(natives, vm1.(State := Running))
  }

  // ---------------------------------------------------------------------------
  // Host operations
  // ---------------------------------------------------------------------------

  /** `PurgeLocalVariables()`: only the bindings flagged global survive. */
  function Purge(vars: map<string, Value>): (r: map<string, Value>)
    ensures forall n :: n in r <==> n in vars && vars[n].IsGlobal
    ensures forall n :: n in r ==> r[n] == vars[n]
  {
    map n | n in vars && vars[n].IsGlobal :: vars[n]
  }

  /**
   * `SetCompUnit`: loads `unit` and starts over with a single frame on its
   * first block.  Frames and pending annotations are cleared and non-global
   * bindings are dropped; the stack, the queue and the global names stay.
   */
  function SetCompUnit(vm: Vm, unit: CompUnit): (r: Vm)
    requires |unit.Blocks| > 0
    ensures r.Unit == unit && r.Frames == [Frame(BlockRef(unit, 0), 0, None)] && r.NextAnnotations == []
    ensures r.Scope == vm.Scope.(Variables := Purge(vm.Scope.Variables))
    ensures r.Stack == vm.Stack && r.QueuedBlocks == vm.QueuedBlocks && r.GlobalVariables == vm.GlobalVariables
    ensures r.State == vm.State && r.Objects == vm.Objects && r.ErrorPops == vm.ErrorPops
  {
    var vm1 := vm.(Unit := unit, Frames := []);
    var vm2 := vm1.(Scope := vm1.Scope.(Variables := Purge(vm1.Scope.Variables)));
    var vm3 := vm2.(NextAnnotations := []);
    NewFrame(vm3, BlockRef(unit, 0), None)
  }

  /**
   * `QueueBlocks(blocks, obj)`: refused unless the machine is Completed.
   * Otherwise the first block becomes a frame bound to `obj` and the others
   * are queued in order.  The caller's list loses its first element, which
   * the second component reports.
   */
  function QueueBlocks(vm: Vm, blocks: seq<BlockRef>, obj: Option<ObjectId>): (r: (Vm, bool, seq<BlockRef>))
    requires vm.State == Completed ==> |blocks| > 0
    ensures !r.1 <==> vm.State != Completed
    ensures !r.1 ==> r.0 == vm && r.2 == blocks
    ensures r.1 ==> && r.0 == vm.(Frames := r.0.Frames, QueuedBlocks := r.0.QueuedBlocks)
                    && r.0.Frames == vm.Frames + [Frame(blocks[0], 0, obj)]
                    && r.0.QueuedBlocks == vm.QueuedBlocks + blocks[1..]
                    && r.2 == blocks[1..]
  {
    if vm.State != Completed then (vm, false, blocks)
    else (NewFrame(vm.(QueuedBlocks := vm.QueuedBlocks + blocks[1..]), blocks[0], obj), true, blocks[1..])
  }

  /** The object `CallVarEvent` can look up its target in the table. */
  predicate TargetResolves(vm: Vm, varName: string) {
    HasVar(vm.Scope, varName) && vm.Scope.Variables[varName].Type == Object ==>
      ResolvesIn(vm.Scope.Variables[varName], vm.Objects)
  }

  /**
   * `CallVarEvent(var, eventName)`: refused unless the machine is Completed,
   * `var` is bound to an object, and that object has handlers for the
   * event.  Otherwise the handlers are queued as by `QueueBlocks`, bound to
   * the object, from a copy of the registry's list.
   */
  function CallVarEvent(vm: Vm, varName: string, eventName: string): (r: (Vm, bool))
    requires TargetResolves(vm, varName)
    ensures !r.1 ==> r.0 == vm
    ensures r.1 <==> && vm.State == Completed && HasVar(vm.Scope, varName)
                     && vm.Scope.Variables[varName].Type == Object
                     && |GetVarEvents(vm.Scope, vm.Objects, varName, eventName)| > 0
    ensures r.1 ==> r.0 == QueueBlocks(vm, GetVarEvents(vm.Scope, vm.Objects, varName, eventName),
                                       vm.Scope.Variables[varName].ObjectValue).0
    ensures r.0.Objects == vm.Objects && r.0.Scope == vm.Scope
  {
    if vm.State != Completed then (vm, false)
    else if !HasVar(vm.Scope, varName) then (vm, false)
    else if vm.Scope.Variables[varName].Type != Object then (vm, false)
    else
      var obj := vm.Scope.Variables[varName].ObjectValue;
      var events := GetEvents(vm.Objects[obj.value], eventName);
      if |events| == 0 then (vm, false)
      else (QueueBlocks(vm, events, obj).0, true)
  }

  /** `RunBlock(block)`: only when Completed, runs `block` in a fresh frame with no object. */
  function RunBlock(natives: Natives, vm: Vm, block: BlockRef): (r: Final)
    ensures vm.State != Completed ==> r == Final(vm, Returned(vm.State))
    ensures vm.State == Completed ==> r == RunLoop(natives, NewFrame(vm, block, None).(State := Running))
  {
    if vm.State != Completed then Final(vm, Returned(vm.State))
    else Run(natives, NewFrame(vm, block, None))
  }

  /** `HaltExecution()`. */
  function HaltExecution(vm: Vm): (r: Vm)
    ensures r.State == Halted && r == vm.(State := Halted)
  {
    vm.(State := Halted)
  }

  /** `ContinueExecution()`: anything but Halted is reported unchanged; Halted resumes the loop. */
  function ContinueExecution(natives: Natives, vm: Vm): (r: Final)
    ensures vm.State != Halted ==> r == Final(vm, Returned(vm.State))
    ensures vm.State == Halted && |vm.Frames| > 0 ==> r == RunLoop(natives, vm.(State := Running))
  {
    if vm.State != Halted then Final(vm, Returned(vm.State))
    else Run(natives, vm.(State := Running))
  }
}
