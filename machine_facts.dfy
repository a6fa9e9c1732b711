/**
 * What the virtual machine promises about the programs it runs: how `==`
 * and the arithmetic operators read their operands, that conditional jumps
 * look without popping, where annotations go, which bindings survive a
 * reload, the order queued blocks run in, and how halting and resuming
 * behave.
 */
module MachineFacts {
  import opened Values
  import opened Holders
  import opened Machine

  /** Two pushes then two pops: the operands are the pushed values and the rest is untouched. */
  lemma PushedPair(vm: Vm, left: Value, right: Value)
    ensures var v := Push(Push(vm, left), right);
      && |v.Stack| >= 2 && Peek(v, 1) == left && Peek(v, 0) == right
      && Drop(v, 2) == vm
  {
    var v := Push(Push(vm, left), right);
    assert v.Stack[..|v.Stack| - 2] == vm.Stack;
  }

  // ---------------------------------------------------------------------------
  // Operators
  // ---------------------------------------------------------------------------

  /**
   * `==` compares renderings: two numbers are equal exactly when they are
   * the same number, a number equals the string of its decimal digits, and
   * any two objects are equal.
   */
  lemma EqualityByRendering(vm: Vm, left: Value, right: Value)
    ensures var r := StepLogic(Push(Push(vm, left), right), OpCode.Eq);
      && r.Ok? && |r.vm.Stack| == |vm.Stack| + 1 && r.vm.Stack[..|vm.Stack|] == vm.Stack
      && (var b := r.vm.Stack[|vm.Stack|];
          && b.Type == Boolean
          && (left.Type == Number && right.Type == Number ==> b.BoolValue == (left.NumValue == right.NumValue))
          && (left.Type == Number && right.Type == String ==> b.BoolValue == (right.StrValue == IntToString(left.NumValue)))
          && (left.Type == Object && right.Type == Object ==> b.BoolValue))
  {
    PushedPair(vm, left, right);
    IntToStringInjective(left.NumValue, right.NumValue);
  }

  /** The number 3 and the string "3" are equal under `==`. */
  lemma ThreeEqualsStringThree(vm: Vm)
    ensures StepLogic(Push(Push(vm, OfNumber(3)), OfString("3")), OpCode.Eq) == Ok(Push(vm, OfBool(true)))
  {
    PushedPair(vm, OfNumber(3), OfString("3"));
    assert IntToString(3) == [DigitChar(3)];
  }

  /** A null operand is read as 0: `"a" + null` is `"a0"`, and `n + null` is `n`. */
  lemma NullReadsAsZero(vm: Vm, s: string, n: int)
    ensures StepArith(Push(Push(vm, OfString(s)), OfType(NullVal)), OpCode.Plus) == Ok(Push(vm, OfString(s + "0")))
    ensures StepArith(Push(Push(vm, OfNumber(n)), OfType(NullVal)), OpCode.Plus) == Ok(Push(vm, OfNumber(n)))
  {
    PushedPair(vm, OfString(s), OfType(NullVal));
    PushedPair(vm, OfNumber(n), OfType(NullVal));
    assert IntToString(0) == "0" by {
      assert IntToString(0) == [DigitChar(0)];
    }
  }

  /** The operand pushed first is the left one: `x - y`, not `y - x`. */
  lemma MinusOperandOrder(vm: Vm, x: int, y: int)
    ensures StepArith(Push(Push(vm, OfNumber(x)), OfNumber(y)), OpCode.Minus) == Ok(Push(vm, OfNumber(x - y)))
    ensures StepArith(Push(Push(vm, OfNumber(x)), OfNumber(y)), OpCode.Lt) == Ok(Push(vm, OfBool(x < y)))
  {
    PushedPair(vm, OfNumber(x), OfNumber(y));
  }

  /** `and` / `or` on anything but two booleans is a runtime error. */
  lemma BooleanOperatorsNeedBooleans(vm: Vm, left: Value, right: Value, op: OpCode)
    requires op == OpCode.Band || op == OpCode.Bor
    requires left.Type != Boolean || right.Type != Boolean
    ensures StepLogic(Push(Push(vm, left), right), op) == RaiseError(vm)
    ensures RaiseError(vm).Ok? ==> RaiseError(vm).vm.State == Errored
  {
    PushedPair(vm, left, right);
  }

  /**
   * `Czjmp` and `Cjmp` read the top of the stack without popping it; a
   * taken jump moves the pointer by its operand, an untaken one not at all.
   */
  lemma ConditionalJumpsPeek(vm: Vm, op: OpCode, a: byte)
    requires (op == OpCode.Czjmp || op == OpCode.Cjmp) && |vm.Frames| > 0 && |vm.Stack| > 0
    ensures var r := StepJump(vm, op, a);
      && r.Ok? && r.vm.Stack == vm.Stack && |r.vm.Frames| == |vm.Frames|
      && Top(r.vm).Ip == Top(vm).Ip + (if (op == OpCode.Czjmp) != Peek(vm, 0).BoolValue then a else 0)
  {
  }

  /** The three instructions that end `and` / `or` after its right operand. */
  predicate ShortCircuitTail(code: seq<Instr>, p: nat, opcode: OpCode) {
    && p + 3 <= |code|
    && code[p] == Instr(OpCode.Jmp, 1, 0, 0)
    && code[p + 1] == Instr(if opcode == OpCode.Band then OpCode.PushFalse else OpCode.PushTrue, 0, 0, 0)
    && code[p + 2] == Instr(opcode, 0, 0, 0)
  }

  /**
   * A left operand that decides `and` (false) or `or` (true): the
   * conditional jump skips the right operand and the `Jmp 1`, the constant is
   * pushed and the operator combines it with the left operand, so the right
   * operand's code never runs and the result is the left operand's truth
   * value.
   */
  lemma ShortCircuitSkips(natives: Natives, vm: Vm, opcode: OpCode, k: nat)
    requires opcode == OpCode.Band || opcode == OpCode.Bor
    requires vm.State == Running && |vm.Frames| > 0 && |vm.Stack| > 0 && k < 255
    requires Peek(vm, 0).Type == Boolean && Peek(vm, 0).BoolValue == (opcode == OpCode.Bor)
    requires Top(vm).Ip < |Code(Top(vm).Block)|
    requires Code(Top(vm).Block)[Top(vm).Ip] == Instr(if opcode == OpCode.Band then OpCode.Czjmp else OpCode.Cjmp, k + 1, 0, 0)
    requires ShortCircuitTail(Code(Top(vm).Block), Top(vm).Ip + k + 1, opcode)
    ensures RunLoop(natives, vm) ==
              RunLoop(natives, SetIp(Push(Drop(vm, 1), OfBool(opcode == OpCode.Bor)), Top(vm).Ip + k + 4))
  {
    assert JumpTaken(vm, Code(Top(vm).Block)[Top(vm).Ip].Op);
    var vm2 := SetIp(vm, Top(vm).Ip + k + 2);
    assert Top(vm2).Block == Top(vm).Block && Top(vm2).Ip == Top(vm).Ip + k + 2;
    assert vm2.Stack == vm.Stack && vm2.State == Running;
    ReplaceAfterSetIp(vm, 1, OfBool(opcode == OpCode.Bor), Top(vm).Ip + k + 2, Top(vm).Ip + k + 4);
    ConstantDecides(natives, SetIp(vm, Top(vm).Ip + k + 2), opcode, Top(vm).Ip + k + 4);
    JumpLoop(natives, vm, Top(vm).Ip + k + 2);
  }

  /**
   * The constant of a short-circuit tail that equals the boolean on top
   * leaves that boolean as the operator's result.
   */
  lemma ConstantDecides(natives: Natives, vm: Vm, opcode: OpCode, next: nat)
    requires opcode == OpCode.Band || opcode == OpCode.Bor
    requires vm.State == Running && |vm.Frames| > 0 && |vm.Stack| > 0
    requires Peek(vm, 0).Type == Boolean && Peek(vm, 0).BoolValue == (opcode == OpCode.Bor)
    requires Top(vm).Ip + 2 <= |Code(Top(vm).Block)|
    requires Code(Top(vm).Block)[Top(vm).Ip] == Instr(if opcode == OpCode.Band then OpCode.PushFalse else OpCode.PushTrue, 0, 0, 0)
    requires Code(Top(vm).Block)[Top(vm).Ip + 1] == Instr(opcode, 0, 0, 0)
    requires next == Top(vm).Ip + 2
    ensures RunLoop(natives, vm) == RunLoop(natives, SetIp(Push(Drop(vm, 1), OfBool(opcode == OpCode.Bor)), next))
  {
    var b := opcode == OpCode.Bor;
    var vm1 := SetIp(Push(vm, OfBool(b)), Top(vm).Ip + 1);
    assert Top(vm1).Block == Top(vm).Block && Top(vm1).Ip == Top(vm).Ip + 1;
    assert Peek(vm1, 0) == OfBool(b) && Peek(vm1, 1) == Peek(vm, 0);
    ReplaceAfterSetIp(Push(vm, OfBool(b)), 2, OfBool(b), Top(vm).Ip + 1, next);
    assert Drop(Push(vm, OfBool(b)), 2) == Drop(vm, 1);
    BooleanLoop(natives, vm1, opcode, b, next);
    PushBoolLoop(natives, vm, b, Top(vm).Ip + 1);
  }

  /** Moving the pointer before replacing the top values makes no difference once it is set again. */
  lemma ReplaceAfterSetIp(vm: Vm, k: nat, v: Value, a: nat, c: nat)
    requires |vm.Frames| > 0 && k <= |vm.Stack|
    ensures SetIp(Push(Drop(SetIp(vm, a), k), v), c) == SetIp(Push(Drop(vm, k), v), c)
  {
    assert Drop(SetIp(vm, a), k) == SetIp(Drop(vm, k), a);
    assert Push(SetIp(Drop(vm, k), a), v) == SetIp(Push(Drop(vm, k), v), a);
    SetIpTwice(Push(Drop(vm, k), v), a, c);
  }

  /** Setting the instruction pointer twice is setting it once. */
  lemma SetIpTwice(vm: Vm, a: nat, b: nat)
    requires |vm.Frames| > 0
    ensures SetIp(SetIp(vm, a), b) == SetIp(vm, b)
  {
    assert SetIp(SetIp(vm, a), b).Frames == SetIp(vm, b).Frames;
  }

  /** A jump continues the loop at its target. */
  lemma JumpLoop(natives: Natives, vm: Vm, next: nat)
    requires vm.State == Running && |vm.Frames| > 0 && Top(vm).Ip < |Code(Top(vm).Block)|
    requires IsJump(Code(Top(vm).Block)[Top(vm).Ip].Op)
    requires Code(Top(vm).Block)[Top(vm).Ip].Op != OpCode.Jmp ==> |vm.Stack| > 0
    requires next == Top(vm).Ip + 1 +
      (if JumpTaken(vm, Code(Top(vm).Block)[Top(vm).Ip].Op) then Code(Top(vm).Block)[Top(vm).Ip].Arg0 else 0)
    ensures RunLoop(natives, vm) == RunLoop(natives, SetIp(vm, next))
  {
    JumpStep(natives, vm, next);
    LoopStep(natives, vm);
  }

  /** `PushTrue` / `PushFalse` continues the loop with the boolean pushed. */
  lemma PushBoolLoop(natives: Natives, vm: Vm, b: bool, next: nat)
    requires vm.State == Running && |vm.Frames| > 0 && Top(vm).Ip < |Code(Top(vm).Block)|
    requires Code(Top(vm).Block)[Top(vm).Ip].Op == (if b then OpCode.PushTrue else OpCode.PushFalse)
    requires next == Top(vm).Ip + 1
    ensures RunLoop(natives, vm) == RunLoop(natives, SetIp(Push(vm, OfBool(b)), next))
  {
    PushBoolStep(natives, vm, b, next);
    LoopStep(natives, vm);
  }

  /** `Band` / `Bor` on two booleans continues the loop with their combination pushed. */
  lemma BooleanLoop(natives: Natives, vm: Vm, opcode: OpCode, res: bool, next: nat)
    requires opcode == OpCode.Band || opcode == OpCode.Bor
    requires vm.State == Running
    requires |vm.Frames| > 0 && Top(vm).Ip < |Code(Top(vm).Block)| && Code(Top(vm).Block)[Top(vm).Ip].Op == opcode
    requires |vm.Stack| >= 2 && Peek(vm, 1).Type == Boolean && Peek(vm, 0).Type == Boolean
    requires res == Connective(opcode, Peek(vm, 1).BoolValue, Peek(vm, 0).BoolValue)
    requires next == Top(vm).Ip + 1
    ensures RunLoop(natives, vm) == RunLoop(natives, SetIp(Push(Drop(vm, 2), OfBool(res)), next))
  {
    BooleanStep(natives, vm, opcode, res, next);
    LoopStep(natives, vm);
  }

  /** A jump instruction as one turn of the loop. */
  lemma JumpStep(natives: Natives, vm: Vm, next: nat)
    requires |vm.Frames| > 0 && Top(vm).Ip < |Code(Top(vm).Block)|
    requires IsJump(Code(Top(vm).Block)[Top(vm).Ip].Op)
    requires Code(Top(vm).Block)[Top(vm).Ip].Op != OpCode.Jmp ==> |vm.Stack| > 0
    requires next == Top(vm).Ip + 1 +
      (if JumpTaken(vm, Code(Top(vm).Block)[Top(vm).Ip].Op) then Code(Top(vm).Block)[Top(vm).Ip].Arg0 else 0)
    ensures Step(natives, vm) == Ok(SetIp(vm, next))
  {
    var ins := Code(Top(vm).Block)[Top(vm).Ip];
    var vm1 := SetIp(vm, Top(vm).Ip + 1);
    StepFetches(natives, vm);
    assert Execute(natives, vm1, ins) == StepJump(vm1, ins.Op, ins.Arg0);
    assert JumpTaken(vm1, ins.Op) == JumpTaken(vm, ins.Op);
    SetIpTwice(vm, Top(vm).Ip + 1, next);
  }

  /** `PushTrue` / `PushFalse` as one turn of the loop. */
  lemma PushBoolStep(natives: Natives, vm: Vm, b: bool, next: nat)
    requires |vm.Frames| > 0 && Top(vm).Ip < |Code(Top(vm).Block)|
    requires Code(Top(vm).Block)[Top(vm).Ip].Op == (if b then OpCode.PushTrue else OpCode.PushFalse)
    requires next == Top(vm).Ip + 1
    ensures Step(natives, vm) == Ok(SetIp(Push(vm, OfBool(b)), next))
  {
    StepFetches(natives, vm);
    PushSetIp(vm, OfBool(b), next);
  }

  /** Pushing a value and moving the instruction pointer commute. */
  lemma PushSetIp(vm: Vm, v: Value, a: nat)
    requires |vm.Frames| > 0
    ensures Push(SetIp(vm, a), v) == SetIp(Push(vm, v), a)
  {
  }

  /** `Band` / `Bor` on two booleans as one turn of the loop. */
  lemma BooleanStep(natives: Natives, vm: Vm, opcode: OpCode, res: bool, next: nat)
    requires opcode == OpCode.Band || opcode == OpCode.Bor
    requires |vm.Frames| > 0 && Top(vm).Ip < |Code(Top(vm).Block)| && Code(Top(vm).Block)[Top(vm).Ip].Op == opcode
    requires |vm.Stack| >= 2 && Peek(vm, 1).Type == Boolean && Peek(vm, 0).Type == Boolean
    requires res == Connective(opcode, Peek(vm, 1).BoolValue, Peek(vm, 0).BoolValue)
    requires next == Top(vm).Ip + 1
    ensures Step(natives, vm) == Ok(SetIp(Push(Drop(vm, 2), OfBool(res)), next))
  {
    StepFetches(natives, vm);
    assert SetIp(vm, next).Stack == vm.Stack;
    ReplaceAfterSetIp(vm, 2, OfBool(res), next, next);
    SetIpTwice(Push(Drop(vm, 2), OfBool(res)), next, next);
  }

  /**
   * A left operand that does not decide: once the right operand has left its
   * value on top, `Jmp 1` skips the constant and the operator combines the
   * two operands.
   */
  lemma ShortCircuitJoins(natives: Natives, vm: Vm, opcode: OpCode)
    requires opcode == OpCode.Band || opcode == OpCode.Bor
    requires vm.State == Running && |vm.Frames| > 0 && |vm.Stack| >= 2
    requires Peek(vm, 1).Type == Boolean && Peek(vm, 0).Type == Boolean
    requires ShortCircuitTail(Code(Top(vm).Block), Top(vm).Ip, opcode)
    ensures RunLoop(natives, vm) ==
              RunLoop(natives, SetIp(Push(Drop(vm, 2), OfBool(Connective(opcode, Peek(vm, 1).BoolValue, Peek(vm, 0).BoolValue))),
                                     Top(vm).Ip + 3))
  {
    assert RunLoop(natives, vm) == RunLoop(natives, SetIp(vm, Top(vm).Ip + 2)) by {
      JumpLoop(natives, vm, Top(vm).Ip + 2);
    }
    assert RunLoop(natives, SetIp(vm, Top(vm).Ip + 2)) ==
           RunLoop(natives, SetIp(Push(Drop(SetIp(vm, Top(vm).Ip + 2), 2),
                                       OfBool(Connective(opcode, Peek(vm, 1).BoolValue, Peek(vm, 0).BoolValue))),
                                  Top(vm).Ip + 3)) by {
      BooleanLoop(natives, SetIp(vm, Top(vm).Ip + 2), opcode,
                  Connective(opcode, Peek(vm, 1).BoolValue, Peek(vm, 0).BoolValue), Top(vm).Ip + 3);
    }
    ReplaceAfterSetIp(vm, 2, OfBool(Connective(opcode, Peek(vm, 1).BoolValue, Peek(vm, 0).BoolValue)),
                      Top(vm).Ip + 2, Top(vm).Ip + 3);
  }

  // ---------------------------------------------------------------------------
  // Annotations and bindings
  // ---------------------------------------------------------------------------

  /**
   * An `Annotation` instruction's name goes onto the next object pushed and
   * no further: the object after it starts with none.
   */
  lemma AnnotationsGoOnNextObject(vm: Vm, a: byte)
    requires vm.Unit != null && a < |vm.Unit.Consts| && vm.NextAnnotations == []
    ensures var name := vm.Unit.Consts[a].StrValue;
            var v1 := StepAnnotation(vm, a).vm;
            var v2 := StepPushNewObject(v1);
            var v3 := StepPushNewObject(v2);
      && v2.Stack[|vm.Stack|].Annotations == [ValueAnnotation(name)]
      && HasAnnotation(v2.Stack[|vm.Stack|], name)
      && v3.Stack[|vm.Stack| + 1].Annotations == []
      && v3.NextAnnotations == []
  {
  }

  /** A native function bound by the host is constant: a script assignment to its name is a runtime error. */
  lemma NativeFunctionsAreConstant(vm: Vm, name: string, f: NativeId, isGlobal: bool, value: Value)
    ensures var bound := vm.(Scope := SetFunction(vm.Scope, name, f, isGlobal).0);
      StepAssign(Push(Push(bound, OfString(name)), value)) == RaiseError(bound)
  {
    var bound := vm.(Scope := SetFunction(vm.Scope, name, f, isGlobal).0);
    PushedPair(bound, OfString(name), value);
    assert IsConstIn(bound.Scope, name);
  }

  /**
   * `global x` followed by `x = v` makes the binding global, so it survives
   * loading another unit; a binding of an undeclared name holding a
   * non-global value does not.
   */
  lemma GlobalsSurviveReload(vm: Vm, name: string, value: Value, unit: CompUnit)
    requires |unit.Blocks| > 0 && !IsConstIn(vm.Scope, name)
    ensures var declared := StepGlobal(Push(vm, OfString(name)), 1);
      && declared == Ok(vm.(GlobalVariables := AddName(vm.GlobalVariables, name)))
      && (var stored := StepAssign(Push(Push(declared.vm, OfString(name)), value));
          && stored.Ok?
          && (var loaded := SetCompUnit(stored.vm, unit);
              name in loaded.Scope.Variables && loaded.Scope.Variables[name] == value.(IsGlobal := true)))
    ensures name !in vm.GlobalVariables && !value.IsGlobal ==>
              var stored := StepAssign(Push(Push(vm, OfString(name)), value));
              stored.Ok? && name !in SetCompUnit(stored.vm, unit).Scope.Variables
  {
    var pushed := Push(vm, OfString(name));
    assert pushed.Stack[..|pushed.Stack| - 1] == vm.Stack;
    assert Declared(pushed.GlobalVariables, pushed.Stack, 1) == AddName(vm.GlobalVariables, name);
    var declared := StepGlobal(pushed, 1);
    assert declared == Ok(vm.(GlobalVariables := AddName(vm.GlobalVariables, name)));
    PushedPair(declared.vm, OfString(name), value);
    PushedPair(vm, OfString(name), value);
  }

  /**
   * `AssignField 0` pops the object with the name and the value;
   * `AssignField` with any other operand leaves the object on top for the
   * next field of a literal.
   */
  lemma AssignFieldLeavesObject(vm: Vm, obj: Value, name: string, value: Value, a: byte)
    requires ResolvesIn(obj, vm.Objects) && !IsConstIn(vm.Objects[obj.ObjectValue.value], name)
    ensures var r := StepAssignField(Push(Push(Push(vm, obj), OfString(name)), value), a);
      var id := obj.ObjectValue.value;
      && r.Ok?
      && r.vm.Stack == (if a == 0 then vm.Stack else vm.Stack + [obj])
      && r.vm.Objects[id] == SetVariable(vm.Objects[id], name, value).0
  {
    var v1 := Push(vm, obj);
    PushedPair(v1, OfString(name), value);
    var v := Push(Push(v1, OfString(name)), value);
    assert v.Stack[..|v.Stack| - 3] == vm.Stack;
  }

  // ---------------------------------------------------------------------------
  // Frames, the queue, halting
  // ---------------------------------------------------------------------------

  /**
   * Blocks queued together run in the order given: the first in a frame
   * bound to the object, each later one, once the one before returns, in a
   * frame bound to no object.  The last one's return completes the machine.
   */
  lemma QueuedBlocksRunInOrder(vm: Vm, blocks: seq<BlockRef>, obj: Option<ObjectId>)
    requires vm.State == Completed && vm.Frames == [] && vm.QueuedBlocks == [] && |blocks| >= 2
    ensures var q := QueueBlocks(vm, blocks, obj);
      && q.1 && q.0.Frames == [Frame(blocks[0], 0, obj)]
      && StepRet(q.0).Frames == [Frame(blocks[1], 0, None)] && StepRet(q.0).QueuedBlocks == blocks[2..]
    ensures var last := vm.(State := Running, Frames := [Frame(blocks[|blocks| - 1], 3, obj)]);
      StepRet(last).State == Completed && StepRet(last).Frames == []
  {
  }

  /**
   * A native that asks to halt stops the loop after its `Call`, with the
   * instruction pointer already past it, and `ContinueExecution` resumes the
   * loop right there.
   */
  lemma HaltedCallResumes(natives: Natives, vm: Vm, n: byte)
    requires vm.State == Running && |vm.Frames| > 0
    requires Top(vm).Ip < |Code(Top(vm).Block)| && Code(Top(vm).Block)[Top(vm).Ip].Op == OpCode.Call
    requires Code(Top(vm).Block)[Top(vm).Ip].Arg0 == n && |vm.Stack| > n
    requires Peek(vm, n).Type == NativeFunc && Peek(vm, n).FuncValue.Some?
    requires natives(Peek(vm, n).FuncValue.value, vm.Stack[|vm.Stack| - n..]).Halt
    ensures Step(natives, vm).Ok? && Step(natives, vm).vm.State == Halted
    ensures Step(natives, vm).vm.Frames == SetIp(vm, Top(vm).Ip + 1).Frames
    ensures RunLoop(natives, vm) == Final(Step(natives, vm).vm, Returned(Halted))
    ensures ContinueExecution(natives, Step(natives, vm).vm) == RunLoop(natives, Step(natives, vm).vm.(State := Running))
  {
    CallHalts(natives, vm, n);
    LoopStep(natives, vm);
  }

  /** The `Call` of a native that asks to halt, as one turn of the loop. */
  lemma CallHalts(natives: Natives, vm: Vm, n: byte)
    requires |vm.Frames| > 0
    requires Top(vm).Ip < |Code(Top(vm).Block)| && Code(Top(vm).Block)[Top(vm).Ip].Op == OpCode.Call
    requires Code(Top(vm).Block)[Top(vm).Ip].Arg0 == n && |vm.Stack| > n
    requires Peek(vm, n).Type == NativeFunc && Peek(vm, n).FuncValue.Some?
    requires natives(Peek(vm, n).FuncValue.value, vm.Stack[|vm.Stack| - n..]).Halt
    ensures Step(natives, vm).Ok? && Step(natives, vm).vm.State == Halted
    ensures Step(natives, vm).vm.Frames == SetIp(vm, Top(vm).Ip + 1).Frames
  {
    StepFetches(natives, vm);
    assert Step(natives, vm) == StepCall(natives, SetIp(vm, Top(vm).Ip + 1), n);
  }

  /**
   * Halting a machine with nothing to run and then continuing it reports
   * Completed but leaves the state Running, so the machine refuses new work
   * from then on.
   */
  lemma IdleHaltThenContinue(natives: Natives, vm: Vm, blocks: seq<BlockRef>, obj: Option<ObjectId>, block: BlockRef)
    requires vm.Frames == [] && vm.QueuedBlocks == []
    ensures var c := ContinueExecution(natives, HaltExecution(vm));
      && c == Final(vm.(State := Running), Returned(Completed))
      && !QueueBlocks(c.vm, blocks, obj).1
      && RunBlock(natives, c.vm, block) == Final(c.vm, Returned(Running))
  {
  }
}
