/**
 * The `VM` class of VM.cs: the operand stack, the frame stack, the queue of
 * blocks, the global names, the pending annotations and the state are
 * fields updated in place, and the machine's own bindings are a
 * `DataHolder` it owns (the source's `VM` inherits from `DataHolder`).
 * Every method is proved to leave the state the corresponding function of
 * module `Machine` computes.
 */
module Interpreter {
  import opened Values
  import Holders
  import Binding
  import Machine

  /** How one instruction ended: normally, by an exception, or outside what the model represents. */
  datatype Signal = Continue | Throw | Unrepresentable

  /** The step result a signal stands for, given the state the method left. */
  function AsExec(vm: Machine.Vm, s: Signal): Machine.Exec {
    match s
    case Continue => Machine.Ok(vm)
    case Throw => Machine.Throws(vm)
    case Unrepresentable => Machine.NotModelled(vm)
  }

  class VM {
    /** The host's native functions, looked up by the handle a native function value carries. */
    const Natives: Machine.Natives
    /** The machine's own bindings and event registry. */
    const Scope: Binding.DataHolder

    var State: Machine.VMState
    var Compunit: CompUnit?
    var Stack: seq<Value>
    var Frames: seq<Machine.Frame>
    var QueuedBlocks: seq<BlockRef>
    var GlobalVariables: seq<string>
    var NextAnnotations: seq<ValueAnnotation>
    /** The script objects, by identity. */
    var Objects: seq<Holders.Holder>
    /** How many default error handlers are subscribed; each pops a frame on an error. */
    var ErrorPops: nat

    function Snapshot(): Machine.Vm
      reads this, Scope
    {
      Machine.Vm(State, Compunit, Stack, Frames, QueuedBlocks, GlobalVariables, NextAnnotations,
                 Scope.Snapshot(), Objects, ErrorPops)
    }

    /** `new VM()`. */
    constructor (natives: Machine.Natives)
      ensures Snapshot() == Machine.Initial() && Natives == natives && fresh(Scope)
    {
      Natives := natives;
      Scope := new Binding.DataHolder();
      State := Machine.Running;
      Compunit := null;
      Stack, Frames, QueuedBlocks, GlobalVariables, NextAnnotations := [], [], [], [], [];
      Objects, ErrorPops := [], 0;
    }

    /** `new VM(compunit)`. */
    constructor Load(natives: Machine.Natives, compunit: CompUnit)
      requires |compunit.Blocks| > 0
      ensures Snapshot() == Machine.SetCompUnit(Machine.Initial(), compunit) && Natives == natives && fresh(Scope)
    {
      Natives := natives;
      Scope := new Binding.DataHolder();
      State := Machine.Running;
      Compunit := null;
      Stack, Frames, QueuedBlocks, GlobalVariables, NextAnnotations := [], [], [], [], [];
      Objects, ErrorPops := [], 0;
      new;
      SetCompUnit(compunit);
    }

    /** Subscribes the default error handler, which pops the current frame. */
    method AddDefaultErrorEvent()
      modifies this
      ensures Snapshot() == old(Snapshot()).(ErrorPops := old(ErrorPops) + 1)
    {
      ErrorPops := ErrorPops + 1;
    }

    method SetCompUnit(compunit: CompUnit)
      requires |compunit.Blocks| > 0
      modifies this, Scope
      ensures Snapshot() == Machine.SetCompUnit(old(Snapshot()), compunit)
    {
      Compunit := compunit;
      Frames := [];
      PurgeLocalVariables();
      NextAnnotations := [];
      var _ := NewFrame(BlockRef(compunit, 0), None);
    }

    method CurrentFrame() returns (frame: Machine.Frame)
      requires |Frames| > 0
      ensures frame == Machine.Top(Snapshot())
    {
      frame := Frames[|Frames| - 1];
    }

    /** `CurrentFrame().Ip = ip`: the frame is a value here, so the top entry is replaced. */
    method SetCurrentIp(ip: nat)
      requires |Frames| > 0
      modifies this
      ensures Snapshot() == Machine.SetIp(old(Snapshot()), ip)
    {
      Frames := Frames[..|Frames| - 1] + [Frames[|Frames| - 1].(Ip := ip)];
    }

    method NewFrame(block: BlockRef, obj: Option<ObjectId>) returns (frame: Machine.Frame)
      modifies this
      ensures Snapshot() == Machine.NewFrame(old(Snapshot()), block, obj)
      ensures frame == Machine.Frame(block, 0, obj)
    {
      frame := Machine.Frame(block, 0, obj);
      Frames := Frames + [frame];
    }

    method PopFrame()
      requires |Frames| > 0
      modifies this
      ensures Snapshot() == Machine.PopFrame(old(Snapshot()))
    {
      Frames := Frames[..|Frames| - 1];
    }

    /** `PopStack(num)`: removes and returns the value `-num` slots below the top. */
    method PopStack(num: int := 0) returns (val: Value)
      requires 0 <= |Stack| - 1 + num < |Stack|
      modifies this
      ensures val == old(Stack)[|old(Stack)| - 1 + num]
      ensures Snapshot() == old(Snapshot()).(Stack := Machine.RemoveAt(old(Stack), |old(Stack)| - 1 + num))
      ensures num == 0 ==> val == Machine.Peek(old(Snapshot()), 0) && Snapshot() == Machine.Drop(old(Snapshot()), 1)
    {
      val := Stack[|Stack| - 1 + num];
      Stack := Machine.RemoveAt(Stack, |Stack| - 1 + num);
      assert num == 0 ==> Stack == old(Stack)[..|old(Stack)| - 1];
    }

    /** Two `PopStack()` calls in a row; `ok` is false when the stack runs out on the way. */
    method PopPair() returns (ok: bool, top: Value, below: Value)
      modifies this
      ensures ok <==> |old(Stack)| >= 2
      ensures !ok ==> Snapshot() == old(Snapshot()).(Stack := [])
      ensures ok ==> && top == Machine.Peek(old(Snapshot()), 0) && below == Machine.Peek(old(Snapshot()), 1)
                     && Snapshot() == Machine.Drop(old(Snapshot()), 2)
    {
      ghost var vm := Snapshot();
      ok, top, below := false, OfType(NullVal), OfType(NullVal);
      if |Stack| == 0 {
        return;
      }
      top := PopStack();
      if |Stack| == 0 {
        return;
      }
      below := PopStack();
      Machine.DropDrop(vm, 1, 1);
      ok := true;
    }

    method PushStack(value: Value)
      modifies this
      ensures Snapshot() == Machine.Push(old(Snapshot()), value)
    {
      Stack := Stack + [value];
    }

    method GetStackVal(num: int := 0) returns (val: Value)
      requires 0 <= |Stack| - 1 + num < |Stack|
      ensures val == Stack[|Stack| - 1 + num]
    {
      val := Stack[|Stack| - 1 + num];
    }

    method RunBlock(block: BlockRef) returns (ret: Machine.Ret)
      modifies this, Scope
      ensures Machine.RunBlock(Natives, old(Snapshot()), block) == Machine.Final(Snapshot(), ret)
    {
      if State != Machine.Completed {
        return Machine.Returned(State);
      }
      var _ := NewFrame(block, None);
      ret := Run();
    }

    /** Binds a native function in the machine's own scope, global and constant. */
    method SetGlobalFunction(name: string, func: NativeId) returns (ok: bool)
      modifies Scope
      ensures Snapshot() == old(Snapshot()).(Scope := Holders.SetFunction(old(Snapshot()).Scope, name, func, true).0)
      ensures ok
    {
      ok := Scope.SetFunction(name, func, true);
    }

    method QueueBlocks(blocks: seq<BlockRef>, obj: Option<ObjectId>) returns (ok: bool, blocksAfter: seq<BlockRef>)
      requires State == Machine.Completed ==> |blocks| > 0
      modifies this
      ensures (Snapshot(), ok, blocksAfter) == Machine.QueueBlocks(old(Snapshot()), blocks, obj)
    {
      if State != Machine.Completed {
        return false, blocks;
      }
      var firstBlock := blocks[0];
      blocksAfter := blocks[1..];
      if |blocksAfter| != 0 {
        var i := 0;
        while i < |blocksAfter|
          invariant i <= |blocksAfter|
          invariant Snapshot() == old(Snapshot()).(QueuedBlocks := old(QueuedBlocks) + blocksAfter[..i])
        {
          QueuedBlocks := QueuedBlocks + [blocksAfter[i]];
          i := i + 1;
          assert blocksAfter[..i] == blocksAfter[..i - 1] + [blocksAfter[i - 1]];
        }
        assert blocksAfter[..i] == blocksAfter;
      } else {
        assert old(QueuedBlocks) + blocksAfter == old(QueuedBlocks);
      }
      var _ := NewFrame(firstBlock, obj);
      ok := true;
    }

    method CallVarEvent(varName: string, eventName: string) returns (ok: bool)
      requires Machine.TargetResolves(Snapshot(), varName)
      modifies this
      ensures (Snapshot(), ok) == Machine.CallVarEvent(old(Snapshot()), varName, eventName)
    {
      if State != Machine.Completed {
        return false;
      }
      var has := Scope.HasVar(varName);
      if !has {
        return false;
      }
      if Scope.Variables[varName].Type != Object {
        return false;
      }
      var obj := Scope.Variables[varName].ObjectValue;
      var events := Holders.GetEvents(Objects[obj.value], eventName);
      if |events| == 0 {
        return false;
      }
      var _, _ := QueueBlocks(events, obj);
      ok := true;
    }

    method RunCallVarEvent(varName: string, eventName: string) returns (ret: Machine.Ret)
      requires Machine.TargetResolves(Snapshot(), varName)
      modifies this, Scope
      ensures Machine.Run(Natives, Machine.CallVarEvent(old(Snapshot()), varName, eventName).0) == Machine.Final(Snapshot(), ret)
    {
      var _ := CallVarEvent(varName, eventName);
      ret := Run();
    }

    /** Drops every binding of the machine's own scope that is not flagged global. */
    method PurgeLocalVariables()
      modifies Scope
      ensures Scope.Variables == Machine.Purge(old(Scope.Variables)) && Scope.Events == old(Scope.Events)
    {
      var keys := Scope.Variables.Keys;
      while keys != {}
        invariant keys <= old(Scope.Variables).Keys && Scope.Events == old(Scope.Events)
        invariant forall n :: n in Scope.Variables <==> n in old(Scope.Variables) && (n in keys || old(Scope.Variables)[n].IsGlobal)
        invariant forall n :: n in Scope.Variables ==> Scope.Variables[n] == old(Scope.Variables)[n]
        decreases keys
      {
        var key :| key in keys;
        if !Scope.Variables[key].IsGlobal {
          Scope.Variables := Scope.Variables - {key};
        }
        keys := keys - {key};
      }
    }

    method ContinueExecution() returns (ret: Machine.Ret)
      modifies this, Scope
      ensures Machine.ContinueExecution(Natives, old(Snapshot())) == Machine.Final(Snapshot(), ret)
    {
      if State != Machine.Halted {
        return Machine.Returned(State);
      }
      State := Machine.Running;
      ret := Run();
    }

    method HaltExecution() returns (state: Machine.VMState)
      modifies this
      ensures Snapshot() == Machine.HaltExecution(old(Snapshot())) && state == Machine.Halted
    {
      State := Machine.Halted;
      state := State;
    }

    /** Sets Errored and runs the subscribed error handlers, each popping a frame. */
    method RaiseError() returns (sig: Signal)
      modifies this
      ensures Machine.RaiseError(old(Snapshot())) == AsExec(Snapshot(), sig)
    {
      State := Machine.Errored;
      var k := 0;
      while k < ErrorPops
        invariant k <= ErrorPops && k <= |old(Frames)|
        invariant Snapshot() == old(Snapshot()).(State := Machine.Errored, Frames := old(Frames)[..|old(Frames)| - k])
      {
        if |Frames| == 0 {
          return Throw;
        }
        PopFrame();
        k := k + 1;
      }
      sig := Continue;
    }

    method NextQueuedBlock()
      requires |QueuedBlocks| > 0
      modifies this
      ensures Snapshot() == Machine.NextQueuedBlock(old(Snapshot()))
    {
      var nextBlock := QueuedBlocks[0];
      QueuedBlocks := QueuedBlocks[1..];
      var _ := NewFrame(nextBlock, None);
    }

    /** `addAnnotationToValue`: moves the pending annotations onto `value`. */
    method AddAnnotationToValue(value: Value) returns (annotated: Value)
      modifies this
      ensures annotated == Machine.Annotate(value, old(NextAnnotations))
      ensures Snapshot() == old(Snapshot()).(NextAnnotations := [])
    {
      annotated := value;
      var i := 0;
      while i < |NextAnnotations|
        invariant i <= |NextAnnotations|
        invariant annotated == value.(Annotations := value.Annotations + NextAnnotations[..i])
      {
        annotated := annotated.(Annotations := annotated.Annotations + [NextAnnotations[i]]);
        i := i + 1;
        assert NextAnnotations[..i] == NextAnnotations[..i - 1] + [NextAnnotations[i - 1]];
      }
      assert NextAnnotations[..i] == NextAnnotations;
      NextAnnotations := [];
    }

    /** The dispatch loop. */
    method Run() returns (ret: Machine.Ret)
      modifies this, Scope
      ensures Machine.Run(Natives, old(Snapshot())) == Machine.Final(Snapshot(), ret)
    {
      if |Frames| == 0 && |QueuedBlocks| == 0 {
        return Machine.Returned(Machine.Completed);
      } else if |Frames| == 0 {
        NextQueuedBlock();
      }
      State := Machine.Running;
      ghost var start := Snapshot();
      while State == Machine.Running
        invariant Machine.RunLoop(Natives, Snapshot()) == Machine.RunLoop(Natives, start)
        decreases |QueuedBlocks|, |Frames|, Machine.Remaining(Snapshot())
      {
        ghost var before := Snapshot();
        var sig := ExecuteNext();
        Machine.LoopStep(Natives, before);
        if sig == Throw {
          return Machine.Threw;
        } else if sig == Unrepresentable {
          return Machine.Outside;
        }
        if State != Machine.Running {
          return Machine.Returned(State);
        }
      }
      ret := Machine.Returned(State);
    }

    /** One turn of the loop: fetch, advance the pointer, execute. */
    method ExecuteNext() returns (sig: Signal)
      modifies this, Scope
      ensures Machine.Step(Natives, old(Snapshot())) == AsExec(Snapshot(), sig)
    {
      if |Frames| == 0 {
        return Throw;
      }
      var frame := CurrentFrame();
      var code := Code(frame.Block);
      SetCurrentIp(frame.Ip + 1);
      if frame.Ip >= |code| {
        return Throw;
      }
      sig := Dispatch(code[frame.Ip]);
    }

    /** The `switch` on the opcode. */
    method Dispatch(nextInstr: Instr) returns (sig: Signal)
      requires |Frames| > 0
      modifies this, Scope
      ensures Machine.Execute(Natives, old(Snapshot()), nextInstr) == AsExec(Snapshot(), sig)
    {
      var firstArg := nextInstr.Arg0;
      match nextInstr.Op
      case Const => sig := OpConst(firstArg);
      case PushBlock => sig := OpPushBlock(firstArg);
      case Fetch => sig := OpFetch();
      case FetchField => sig := OpFetchField();
      case On => sig := OpOn();
      case Run => sig := Throw;
      case Gt => sig := OpArith(nextInstr.Op);
      case Lt => sig := OpArith(nextInstr.Op);
      case Gte => sig := OpArith(nextInstr.Op);
      case Lte => sig := OpArith(nextInstr.Op);
      case Mul => sig := OpArith(nextInstr.Op);
      case Div => sig := OpArith(nextInstr.Op);
      case Plus => sig := OpArith(nextInstr.Op);
      case Minus => sig := OpArith(nextInstr.Op);
      case Eq => sig := OpLogic(nextInstr.Op);
      case Neq => sig := OpLogic(nextInstr.Op);
      case Band => sig := OpLogic(nextInstr.Op);
      case Bor => sig := OpLogic(nextInstr.Op);
      case Assign => sig := OpAssign();
      case _ => sig := DispatchControl(nextInstr);
    }

    /** The rest of the `switch`: fields, calls, jumps, literals, frames and declarations. */
    method DispatchControl(nextInstr: Instr) returns (sig: Signal)
      requires |Frames| > 0
      requires nextInstr.Op !in {OpCode.Const, OpCode.PushBlock, OpCode.Fetch, OpCode.FetchField, OpCode.On, OpCode.Run, OpCode.Gt, OpCode.Lt, OpCode.Gte, OpCode.Lte, OpCode.Mul, OpCode.Div, OpCode.Plus, OpCode.Minus, OpCode.Eq, OpCode.Neq, OpCode.Band, OpCode.Bor, OpCode.Assign}
      modifies this, Scope
      ensures Machine.Execute(Natives, old(Snapshot()), nextInstr) == AsExec(Snapshot(), sig)
    {
      var firstArg := nextInstr.Arg0;
      match nextInstr.Op
      case AssignField => sig := OpAssignField(firstArg);
      case Call => sig := OpCall(firstArg);
      case Czjmp => sig := OpJump(nextInstr.Op, firstArg);
      case Cjmp => sig := OpJump(nextInstr.Op, firstArg);
      case Jmp => sig := OpJump(nextInstr.Op, firstArg);
      case PushTrue =>
        Stack := Stack + [OfBool(true)];
        sig := Continue;
      case PushFalse =>
        Stack := Stack + [OfBool(false)];
        sig := Continue;
      case Debug => sig := OpDebug(firstArg);
      case PushNumber =>
        PushStack(OfNumber(firstArg));
        sig := Continue;
      case Ret =>
        OpRet();
        sig := Continue;
      case Global => sig := OpGlobal(firstArg);
      case PushNewObject =>
        OpPushNewObject();
        sig := Continue;
      case Annotation => sig := OpAnnotation(firstArg);
      case Const2 => sig := Throw;
      case PushNull => sig := Throw;
      case _ => assert false; sig := Throw;
    }

    method OpConst(firstArg: byte) returns (sig: Signal)
      modifies this
      ensures Machine.StepConst(old(Snapshot()), firstArg) == AsExec(Snapshot(), sig)
    {
      if Compunit == null || firstArg >= |Compunit.Consts| {
        return Throw;
      }
      var cnst := Compunit.Consts[firstArg];
      PushStack(cnst);
      sig := Continue;
    }

    method OpPushBlock(firstArg: byte) returns (sig: Signal)
      modifies this
      ensures Machine.StepPushBlock(old(Snapshot()), firstArg) == AsExec(Snapshot(), sig)
    {
      if Compunit == null || firstArg >= |Compunit.Blocks| {
        return Throw;
      }
      var block := BlockRef(Compunit, firstArg);
      var val := OfBlock(block);
      val := AddAnnotationToValue(val);
      PushStack(val);
      sig := Continue;
    }

    method OpFetch() returns (sig: Signal)
      modifies this
      ensures Machine.StepFetch(old(Snapshot())) == AsExec(Snapshot(), sig)
    {
      if |Stack| == 0 {
        return Throw;
      }
      var name := PopStack();
      if name.Type != String {
        sig := RaiseError();
        return;
      }
      if name.StrValue !in Scope.Variables {
        PushStack(OfType(NullVal));
      } else {
        var variable := Scope.Variables[name.StrValue];
        PushStack(variable);
      }
      sig := Continue;
    }

    method OpFetchField() returns (sig: Signal)
      modifies this
      ensures Machine.StepFetchField(old(Snapshot())) == AsExec(Snapshot(), sig)
    {
      ghost var vm := Snapshot();
      var ok, fieldName, currentObject := PopPair();
      if !ok {
        return Throw;
      }
      if !Holders.ResolvesIn(currentObject, Objects) {
        return Throw;
      }
      var objectValue := Holders.GetVariable(Objects[currentObject.ObjectValue.value], fieldName.StrValue);
      PushStack(objectValue);
      sig := Continue;
    }

    method OpOn() returns (sig: Signal)
      modifies this
      ensures Machine.StepOn(old(Snapshot())) == AsExec(Snapshot(), sig)
    {
      ghost var vm := Snapshot();
      var ok, block, eventName := PopPair();
      if !ok {
        return Throw;
      }
      if |Stack| == 0 {
        return Throw;
      }
      var obj := PopStack();
      Machine.DropDrop(vm, 2, 1);
      assert Snapshot() == Machine.Drop(vm, 3);
      assert block == Machine.Peek(vm, 0) && eventName == Machine.Peek(vm, 1) && obj == Machine.Peek(vm, 2);
      if block.Type != Block {
        sig := RaiseError();
        return;
      }
      if obj.Type != Object {
        sig := RaiseError();
        return;
      }
      if !Holders.ResolvesIn(obj, Objects) {
        return Throw;
      }
      if block.BlockValue.None? {
        return Unrepresentable;
      }
      var id := obj.ObjectValue.value;
      Objects := Objects[id := Holders.AddEvent(Objects[id], eventName.StrValue, block.BlockValue.value)];
      sig := Continue;
    }

    method OpArith(op: OpCode) returns (sig: Signal)
      requires Machine.IsArith(op)
      modifies this
      ensures Machine.StepArith(old(Snapshot()), op) == AsExec(Snapshot(), sig)
    {
      ghost var vm := Snapshot();
      var ok, second, first := PopPair();
      if !ok {
        return Throw;
      }
      first := Machine.Coerce(first);
      second := Machine.Coerce(second);
      if !Machine.ArithDefined(op, first, second) {
        return Unrepresentable;
      }
      var result := Machine.Arith(op, first, second);
      if result.None? {
        sig := RaiseError();
        return;
      }
      PushStack(result.value);
      sig := Continue;
    }

    method OpLogic(op: OpCode) returns (sig: Signal)
      requires Machine.IsLogic(op)
      modifies this
      ensures Machine.StepLogic(old(Snapshot()), op) == AsExec(Snapshot(), sig)
    {
      ghost var vm := Snapshot();
      var ok, second, first := PopPair();
      if !ok {
        return Throw;
      }
      sig := PushLogic(op, first, second);
    }

    /** The inner `switch` of the comparison and boolean cases, on the popped operands. */
    method PushLogic(op: OpCode, first: Value, second: Value) returns (sig: Signal)
      requires Machine.IsLogic(op)
      modifies this
      ensures AsExec(Snapshot(), sig) ==
                match op
                case Eq => Machine.Ok(Machine.Push(old(Snapshot()), OfBool(ForceToString(first) == ForceToString(second))))
                case Neq => Machine.Ok(Machine.Push(old(Snapshot()), OfBool(ForceToString(first) != ForceToString(second))))
                case Band =>
                  if first.Type == Boolean && second.Type == Boolean
                  then Machine.Ok(Machine.Push(old(Snapshot()), OfBool(first.BoolValue && second.BoolValue)))
                  else Machine.RaiseError(old(Snapshot()))
                case Bor =>
                  if first.Type == Boolean && second.Type == Boolean
                  then Machine.Ok(Machine.Push(old(Snapshot()), OfBool(first.BoolValue || second.BoolValue)))
                  else Machine.RaiseError(old(Snapshot()))
    {
      match op {
      case Eq => PushStack(OfBool(ForceToString(first) == ForceToString(second)));
      case Neq => PushStack(OfBool(ForceToString(first) != ForceToString(second)));
      case Band =>
        if first.Type == Boolean && second.Type == Boolean {
          PushStack(OfBool(first.BoolValue && second.BoolValue));
        } else {
          sig := RaiseError();
          return;
        }
      case Bor =>
        if first.Type == Boolean && second.Type == Boolean {
          PushStack(OfBool(first.BoolValue || second.BoolValue));
        } else {
          sig := RaiseError();
          return;
        }
      }
      sig := Continue;
    }

    method OpAssign() returns (sig: Signal)
      modifies this, Scope
      ensures Machine.StepAssign(old(Snapshot())) == AsExec(Snapshot(), sig)
    {
      ghost var vm := Snapshot();
      var ok, val, name := PopPair();
      if !ok {
        return Throw;
      }
      if name.StrValue in Scope.Variables && Scope.Variables[name.StrValue].IsConst {
        sig := RaiseError();
        return;
      }
      if name.StrValue in GlobalVariables {
        val := val.(IsGlobal := true);
      }
      var _ := Scope.SetVariable(name.StrValue, val);
      sig := Continue;
    }

    method OpAssignField(firstArg: byte) returns (sig: Signal)
      modifies this
      ensures Machine.StepAssignField(old(Snapshot()), firstArg) == AsExec(Snapshot(), sig)
    {
      ghost var vm := Snapshot();
      var ok, val, name := PopPair();
      if !ok {
        return Throw;
      }
      if |Stack| == 0 {
        return Throw;
      }
      var objVal;
      if firstArg == 0 {
        objVal := PopStack();
        Machine.DropDrop(vm, 2, 1);
      } else {
        objVal := GetStackVal();
        Machine.DropDrop(vm, 2, 0);
      }
      assert Snapshot() == Machine.Drop(vm, if firstArg == 0 then 3 else 2);
      assert val == Machine.Peek(vm, 0) && name == Machine.Peek(vm, 1) && objVal == Machine.Peek(vm, 2);
      sig := SetField(objVal, name.StrValue, val);
    }

    /** The store of `AssignField`, once its operands are off the stack. */
    method SetField(objVal: Value, name: string, val: Value) returns (sig: Signal)
      modifies this
      ensures AsExec(Snapshot(), sig) ==
                if !Holders.ResolvesIn(objVal, old(Objects)) then Machine.Throws(old(Snapshot()))
                else
                  var id := objVal.ObjectValue.value;
                  if Machine.IsConstIn(old(Objects)[id], name) then Machine.RaiseError(old(Snapshot()))
                  else Machine.Ok(old(Snapshot()).(Objects := old(Objects)[id := Holders.SetVariable(old(Objects)[id], name, val).0]))
    {
      if !Holders.ResolvesIn(objVal, Objects) {
        return Throw;
      }
      var id := objVal.ObjectValue.value;
      if name in Objects[id].Variables && Objects[id].Variables[name].IsConst {
        sig := RaiseError();
        return;
      }
      Objects := Objects[id := Holders.SetVariable(Objects[id], name, val).0];
      sig := Continue;
    }

    method OpCall(firstArg: byte) returns (sig: Signal)
      modifies this
      ensures Machine.StepCall(Natives, old(Snapshot()), firstArg) == AsExec(Snapshot(), sig)
    {
      if |Stack| - 1 - firstArg < 0 {
        return Throw;
      }
      var funcVal := PopStack(-(firstArg as int));
      if funcVal.Type != NativeFunc {
        sig := RaiseError();
        return;
      }
      var args := PopArgs(firstArg);
      if funcVal.FuncValue.None? {
        return Throw;
      }
      var retVal := Natives(funcVal.FuncValue.value, args);
      if retVal.Halt {
        var _ := HaltExecution();
      }
      if retVal.Result.Some? {
        PushStack(retVal.Result.value);
      }
      sig := Continue;
    }

    /** The argument loop of `Call`: pops the top `n` values, deepest first. */
    method PopArgs(n: nat) returns (args: seq<Value>)
      requires n <= |Stack|
      modifies this
      ensures args == old(Stack)[|old(Stack)| - n..]
      ensures Snapshot() == old(Snapshot()).(Stack := old(Stack)[..|old(Stack)| - n])
    {
      args := [];
      var s: nat := n;
      while s > 0
        invariant s <= n <= |old(Stack)| && |Stack| == |old(Stack)| - n + s
        invariant args == old(Stack)[|old(Stack)| - n..|old(Stack)| - s]
        invariant Snapshot() == old(Snapshot()).(Stack := old(Stack)[..|old(Stack)| - n] + old(Stack)[|old(Stack)| - s..])
      {
        var arg := PopStack(-(s - 1));
        args := args + [arg];
        s := s - 1;
      }
    }

    method OpJump(op: OpCode, firstArg: byte) returns (sig: Signal)
      requires Machine.IsJump(op) && |Frames| > 0
      modifies this
      ensures Machine.StepJump(old(Snapshot()), op, firstArg) == AsExec(Snapshot(), sig)
    {
      ghost var vm := Snapshot();
      if op == OpCode.Jmp {
        var frame := CurrentFrame();
        SetCurrentIp(frame.Ip + firstArg);
        assert Snapshot() == Machine.SetIp(vm, Machine.Top(vm).Ip + firstArg);
        return Continue;
      }
      if |Stack| == 0 {
        return Throw;
      }
      var success := GetStackVal();
      if (op == OpCode.Czjmp && !success.BoolValue) || (op == OpCode.Cjmp && success.BoolValue) {
        var frame := CurrentFrame();
        SetCurrentIp(frame.Ip + firstArg);
        assert Machine.JumpTaken(vm, op);
        assert Snapshot() == Machine.SetIp(vm, Machine.Top(vm).Ip + firstArg);
      } else {
        assert !Machine.JumpTaken(vm, op);
      }
      sig := Continue;
    }

    /** `Debug` throws: its format string has no valid format item. */
    method OpDebug(firstArg: byte) returns (sig: Signal)
      ensures Machine.StepDebug(Snapshot(), firstArg) == AsExec(Snapshot(), sig)
      ensures sig == Throw
    {
      sig := Throw;
    }

    method OpRet()
      requires |Frames| > 0
      modifies this
      ensures Snapshot() == Machine.StepRet(old(Snapshot()))
    {
      PopFrame();
      if |QueuedBlocks| > 0 {
        NextQueuedBlock();
      } else if |Frames| == 0 {
        State := Machine.Completed;
      }
    }

    method OpGlobal(firstArg: byte) returns (sig: Signal)
      modifies this
      ensures Machine.StepGlobal(old(Snapshot()), firstArg) == AsExec(Snapshot(), sig)
    {
      ghost var vm := Snapshot();
      var c := 0;
      while c < firstArg
        invariant c <= firstArg && c <= |vm.Stack|
        invariant Snapshot() == Machine.DeclareGlobals(vm, c)
      {
        if |Stack| == 0 {
          return Throw;
        }
        Machine.DeclareGlobalsNext(vm, c);
        DeclareTop();
        c := c + 1;
      }
      sig := Continue;
    }

    /** One turn of the `Global` loop: pops a name and declares it global unless it already is. */
    method DeclareTop()
      requires |Stack| > 0
      modifies this
      ensures Snapshot() == Machine.Drop(old(Snapshot()), 1).(GlobalVariables := Machine.AddName(old(GlobalVariables), old(Stack)[|old(Stack)| - 1].StrValue))
    {
      var ident := PopStack();
      if ident.StrValue !in GlobalVariables {
        GlobalVariables := GlobalVariables + [ident.StrValue];
      }
    }

    method OpPushNewObject()
      modifies this
      ensures Snapshot() == Machine.StepPushNewObject(old(Snapshot()))
    {
      Objects := Objects + [Holders.EmptyHolder];
      var objVal := OfObject(|Objects| - 1);
      objVal := AddAnnotationToValue(objVal);
      PushStack(objVal);
    }

    method OpAnnotation(firstArg: byte) returns (sig: Signal)
      modifies this
      ensures Machine.StepAnnotation(old(Snapshot()), firstArg) == AsExec(Snapshot(), sig)
    {
      if Compunit == null || firstArg >= |Compunit.Consts| {
        return Throw;
      }
      var name := Compunit.Consts[firstArg];
      NextAnnotations := NextAnnotations + [ValueAnnotation(name.StrValue)];
      sig := Continue;
    }
  }
}
