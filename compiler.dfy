/**
 * The `Compiler` object of Compiler.cs: it appends to the unit's constant
 * pool and to the instruction list of the block on top of its block stack,
 * and overwrites emitted instructions to backpatch jumps.  Every method is
 * proved to leave exactly the state that the matching function of `CodeGen`
 * computes, so the properties proved about those functions (and about their
 * execution, in `MachineFacts`) are properties of this code.
 */
module Compiling {
  import opened Values
  import opened Syntax
  import CodeGen

  /** The method finished as the function says: same outcome, and on success the same state and count. */
  ghost predicate Mirrors<T>(r: CodeGen.Result<T>, spec: CodeGen.Result<(CodeGen.Emitter, T)>, now: CodeGen.Emitter) {
    match r
    case Ok(v) => spec == CodeGen.Ok((now, v))
    case Err(err) => spec == CodeGen.Err(err)
  }

  /** The same for a generator that returns no value. */
  ghost predicate Follows(r: CodeGen.Result<()>, spec: CodeGen.Result<CodeGen.Emitter>, now: CodeGen.Emitter) {
    match r
    case Ok(_) => spec == CodeGen.Ok(now)
    case Err(err) => spec == CodeGen.Err(err)
  }

  class Compiler {
    const Name: string
    const Filename: string
    var Consts: seq<Value>
    var Blocks: seq<CodeBlock>
    var BlockStack: seq<nat>
    var VariablesUsed: seq<string>
    var VariablesAssigned: seq<string>
    var GlobalVariables: seq<string>
    var AddedEventsToObjectNamed: seq<string>

    /** The compiler's mutable state as a value. */
    ghost function Snapshot(): CodeGen.Emitter
      reads this
    {
      CodeGen.Emitter(Consts, Blocks, BlockStack, VariablesUsed, VariablesAssigned,
                      GlobalVariables, AddedEventsToObjectNamed)
    }

    ghost predicate Ready()
      reads this
    {
      CodeGen.HasCurrent(Snapshot())
    }

    /** A compiler for one file: the unit is named after the file and starts empty. */
    constructor (filename: string)
      ensures Name == filename && Filename == filename
      ensures Snapshot() == CodeGen.Empty
    {
      Name, Filename := filename, filename;
      Consts, Blocks, BlockStack := [], [], [];
      VariablesUsed, VariablesAssigned, GlobalVariables, AddedEventsToObjectNamed := [], [], [], [];
    }

    /**
     * `Compile`: generates the root block and hands out the unit.  The parse
     * step is not modelled, so the tree is an argument; the parser's result
     * is always a block.
     */
    method Compile(root: Ast) returns (r: CodeGen.Result<CompUnit>)
      requires root.AstBlock? && CodeGen.Wf(Snapshot())
      modifies this
      ensures var spec := CodeGen.GenAst(root, false, old(Snapshot()));
        (r.Ok? <==> spec.Ok?) && (r.Err? ==> spec.error == r.error)
      ensures r.Ok? ==> Snapshot() == CodeGen.GenAst(root, false, old(Snapshot())).value.0 && fresh(r.value)
      ensures r.Ok? ==> r.value.Name == Name && r.value.Filename == Filename
      ensures r.Ok? ==> r.value.Consts == Consts && r.value.Blocks == Blocks
      ensures r.Ok? ==> r.value.VariablesUsed == VariablesUsed && r.value.VariablesAssigned == VariablesAssigned
      ensures r.Ok? ==> r.value.GlobalVariables == GlobalVariables
      ensures r.Ok? ==> r.value.AddedEventsToObjectNamed == AddedEventsToObjectNamed
    {
      var _ :- GenAst(root, false);
      var unit := new CompUnit(Name, Filename, Consts, Blocks, VariablesUsed, VariablesAssigned,
                               GlobalVariables, AddedEventsToObjectNamed);
      r := CodeGen.Ok(unit);
    }

    // -------------------------------------------------------------------------
    // Constant pool and emission
    // -------------------------------------------------------------------------

    /** `FetchConst`, both overloads: a linear search of the pool, appending on a miss. */
    method FetchConst(lit: CodeGen.Literal) returns (index: nat)
      modifies this
      ensures (Snapshot(), index) == CodeGen.FetchConst(old(Snapshot()), lit)
    {
      ghost var e0 := Snapshot();
      CodeGen.FirstMatchIsFirst(Consts, lit, 0);
      var c := 0;
      while c < |Consts|
        invariant 0 <= c <= |Consts| && Snapshot() == e0
        invariant forall j :: 0 <= j < c ==> !CodeGen.Matches(Consts[j], lit)
      {
        if CodeGen.Matches(Consts[c], lit) {
          return c;
        }
        c := c + 1;
      }
      index := |Consts|;
      Consts := Consts + [CodeGen.LiteralValue(lit)];
    }

    /** `CurrentIP`. */
    method CurrentIP() returns (ip: int)
      requires CodeGen.Wf(Snapshot())
      ensures ip == CodeGen.CurrentIP(Snapshot())
    {
      if |BlockStack| == 0 {
        return 0;
      }
      ip := |Blocks[BlockStack[|BlockStack| - 1]].Instructions| - 1;
    }

    /** `AddOp`. */
    method AddOp(op: OpCode, a1: int := 0, a2: int := 0, a3: int := 0) returns (ip: int)
      requires Ready()
      modifies this
      ensures (Snapshot(), ip) == CodeGen.AddOp(old(Snapshot()), op, a1, a2, a3)
    {
      var code := op;
      if code == Const && |Consts| >= 255 {
        code := Const2;
      }
      var instr := Instr(code, ToByte(a1), ToByte(a2), ToByte(a3));
      var cur := BlockStack[|BlockStack| - 1];
      Blocks := Blocks[cur := CodeBlock(Blocks[cur].Instructions + [instr])];
      ip := CurrentIP();
    }

    /** `SetOp`. */
    method SetOp(ip: int, op: OpCode, a1: int := 0, a2: int := 0, a3: int := 0) returns (last: int)
      requires Ready() && 0 <= ip < |CodeGen.CurCode(Snapshot())|
      modifies this
      ensures Snapshot() == CodeGen.SetOp(old(Snapshot()), ip, op, a1, a2, a3)
      ensures last == |CodeGen.CurCode(Snapshot())| - 1
    {
      var code := op;
      if code == Const && |Consts| >= 255 {
        code := Const2;
      }
      var cur := BlockStack[|BlockStack| - 1];
      Blocks := Blocks[cur := CodeBlock(Blocks[cur].Instructions[ip := Instr(code, ToByte(a1), ToByte(a2), ToByte(a3))])];
      last := |Blocks[cur].Instructions| - 1;
    }

    /** `AddDebug`: a `Debug` instruction naming a pooled string. */
    method AddDebug(text: string) returns (ip: int)
      requires Ready()
      modifies this
      ensures var c := CodeGen.FetchConst(old(Snapshot()), CodeGen.Str(text));
        (Snapshot(), ip) == CodeGen.AddOp(c.0, Debug, c.1)
    {
      var k := FetchConst(CodeGen.Str(text));
      ip := AddOp(Debug, k);
    }

    /** `NewBlock`. */
    method NewBlock() returns (id: nat)
      requires CodeGen.Wf(Snapshot())
      modifies this
      ensures (Snapshot(), id) == CodeGen.NewBlock(old(Snapshot()))
    {
      id := |Blocks|;
      Blocks := Blocks + [CodeBlock([])];
      BlockStack := BlockStack + [id];
    }

    /** `PopBlock`. */
    method PopBlock()
      requires Ready()
      modifies this
      ensures Snapshot() == CodeGen.PopBlock(old(Snapshot()))
    {
      BlockStack := BlockStack[..|BlockStack| - 1];
    }

    // -------------------------------------------------------------------------
    // Blocks
    // -------------------------------------------------------------------------

    /** `GenBlock`. */
    method GenBlock(block: Ast) returns (r: CodeGen.Result<nat>)
      requires block.AstBlock? && CodeGen.Wf(Snapshot())
      modifies this
      ensures Mirrors(r, CodeGen.GenBlock(block, old(Snapshot())), Snapshot())
      decreases block, 1
    {
      var blockId := NewBlock();
      var _ :- GenChildren(block, block.Children, false);
      var _ := AddOp(Ret);
      PopBlock();
      r := CodeGen.Ok(blockId);
    }

    /** `GenBlockContents`. */
    method GenBlockContents(owner: Ast, children: seq<Ast>) returns (r: CodeGen.Result<int>)
      requires Ready()
      requires owner.AstIf? && exists i :: 0 <= i < |owner.Branches| && owner.Branches[i].Block == children
      modifies this
      ensures Mirrors(r, CodeGen.GenBlockContents(owner, children, old(Snapshot())), Snapshot())
      decreases owner, 1
    {
      var startip := CurrentIP();
      var _ :- GenChildren(owner, children, false);
      var endip := CurrentIP();
      r := CodeGen.Ok(endip - startip);
    }

    /** The `foreach` over a block's children or a call's arguments. */
    method GenChildren(owner: Ast, items: seq<Ast>, isExpr: bool) returns (r: CodeGen.Result<()>)
      requires CodeGen.ChildList(owner, items) && Ready()
      modifies this
      ensures Follows(r, CodeGen.GenStatements(owner, items, 0, isExpr, old(Snapshot())), Snapshot())
      decreases owner, 0
    {
      ghost var e0 := Snapshot();
      var k := 0;
      while k < |items|
        invariant k <= |items| && Ready()
        invariant CodeGen.GenStatements(owner, items, 0, isExpr, e0)
               == CodeGen.GenStatements(owner, items, k, isExpr, Snapshot())
      {
        CodeGen.ChildListSmaller(owner, items, k);
        var _ :- GenAst(items[k], isExpr);
        k := k + 1;
      }
      r := CodeGen.Ok(());
    }

    // -------------------------------------------------------------------------
    // Identifiers, calls, annotations
    // -------------------------------------------------------------------------

    /** `GenIdentifier`. */
    method GenIdentifier(id: Identifier) returns (parts: int)
      requires Ready()
      modifies this
      ensures (Snapshot(), parts) == CodeGen.GenIdentifier(id, old(Snapshot()))
      decreases id
    {
      var k := FetchConst(CodeGen.Str(id.Name));
      var _ := AddOp(Const, k);
      parts := 1;
      if id.SubField.Some? {
        var _ := AddOp(Fetch);
        var more := GenIdentifier(id.SubField.value);
        parts := parts + more;
      }
    }

    /** `GenFetchIdentifier`. */
    method GenFetchIdentifier(id: Identifier, isSubField: bool)
      requires Ready()
      modifies this
      ensures Snapshot() == CodeGen.GenFetchIdentifier(id, isSubField, old(Snapshot()))
      decreases id
    {
      var k := FetchConst(CodeGen.Str(id.Name));
      var _ := AddOp(Const, k);
      if isSubField {
        var _ := AddOp(FetchField);
      } else {
        var _ := AddOp(Fetch);
      }
      if id.SubField.Some? {
        GenFetchIdentifier(id.SubField.value, true);
      }
    }

    /** `GenCall`. */
    method GenCall(call: Ast, expectedToReturn: bool) returns (r: CodeGen.Result<()>)
      requires call.AstCall? && Ready()
      modifies this
      ensures Follows(r, CodeGen.GenCall(call, expectedToReturn, old(Snapshot())), Snapshot())
      decreases call, 1
    {
      GenFetchIdentifier(call.Name, false);
      var _ :- GenChildren(call, call.Args, true);
      var _ := AddOp(Call, |call.Args|, if expectedToReturn then 1 else 0);
      r := CodeGen.Ok(());
    }

    /** `GenAnnotations`. */
    method GenAnnotations(names: seq<string>)
      requires Ready()
      modifies this
      ensures Snapshot() == CodeGen.GenAnnotations(names, |names|, old(Snapshot()))
    {
      ghost var e0 := Snapshot();
      var k := 0;
      while k < |names|
        invariant k <= |names| && Ready()
        invariant Snapshot() == CodeGen.GenAnnotations(names, k, e0)
      {
        EmitAnnotation(names[k]);
        k := k + 1;
      }
    }

    /** The body of the annotation loop. */
    method EmitAnnotation(name: string)
      requires Ready()
      modifies this
      ensures Snapshot() == CodeGen.EmitAnnotation(old(Snapshot()), name)
    {
      var c := FetchConst(CodeGen.Str(name));
      var _ := AddOp(Annotation, c);
    }

    // -------------------------------------------------------------------------
    // GenAst
    // -------------------------------------------------------------------------

    /** `GenAst`: the node's code; returns the number of instructions appended to the open block. */
    method GenAst(ast: Ast, isExpr: bool) returns (r: CodeGen.Result<int>)
      requires CodeGen.CanGen(Snapshot(), ast, isExpr)
      modifies this
      ensures Mirrors(r, CodeGen.GenAst(ast, isExpr, old(Snapshot())), Snapshot())
      decreases ast, 6
    {
      ghost var e := Snapshot();
      var startip := CurrentIP();
      var g := GenNode(ast, isExpr);
      ghost var spec := CodeGen.GenNode(ast, isExpr, e);
      CodeGen.MeasuredNode(ast, isExpr, e, spec);
      if g.Err? {
        return CodeGen.Err(g.error);
      }
      var endip := CurrentIP();
      r := CodeGen.Ok(endip - startip);
    }

    /** The `switch` of `GenAst`. */
    method GenNode(ast: Ast, isExpr: bool) returns (r: CodeGen.Result<()>)
      requires CodeGen.CanGen(Snapshot(), ast, isExpr)
      modifies this
      ensures Follows(r, CodeGen.GenNode(ast, isExpr, old(Snapshot())), Snapshot())
      decreases ast, 5
    {
      ghost var e := Snapshot();
      match ast
      case AstBlock(_) =>
        assert CodeGen.GenNode(ast, isExpr, e) == CodeGen.GenBlockNode(ast, isExpr, e);
        r := GenBlockNode(ast, isExpr);
      case AstOn(_, _) =>
        assert CodeGen.GenNode(ast, isExpr, e) == CodeGen.GenOn(ast, e);
        r := GenOn(ast);
      case AstAssign(_, _, _) =>
        assert CodeGen.GenNode(ast, isExpr, e) == CodeGen.GenAssign(ast, e);
        r := GenAssign(ast);
      case AstExpr(_, _, _) =>
        assert CodeGen.GenNode(ast, isExpr, e) == CodeGen.GenExpr(ast, e);
        r := GenExpr(ast);
      case AstIdentifier(id) =>
        assert CodeGen.GenNode(ast, isExpr, e) == CodeGen.Ok(CodeGen.GenIdentifierNode(id, e));
        GenIdentifierNode(id);
        r := CodeGen.Ok(());
      case AstNumber(n) =>
        assert CodeGen.GenNode(ast, isExpr, e) == CodeGen.Ok(CodeGen.GenNumber(n, e));
        GenNumber(n);
        r := CodeGen.Ok(());
      case AstString(s) =>
        assert CodeGen.GenNode(ast, isExpr, e) == CodeGen.Ok(CodeGen.EmitConst(e, CodeGen.Str(s)));
        EmitConst(CodeGen.Str(s));
        r := CodeGen.Ok(());
      case AstCall(_, _) =>
        assert CodeGen.GenNode(ast, isExpr, e) == CodeGen.GenCall(ast, isExpr, e);
        r := GenCall(ast, isExpr);
      case AstRun(_) =>
        assert CodeGen.GenNode(ast, isExpr, e) == CodeGen.GenRun(ast, isExpr, e);
        r := GenRun(ast, isExpr);
      case AstIf(_) =>
        assert CodeGen.GenNode(ast, isExpr, e) == CodeGen.GenIf(ast, e);
        r := GenIf(ast);
      case AstBool(b) =>
        assert CodeGen.GenNode(ast, isExpr, e) == CodeGen.Ok(CodeGen.GenBool(b, e));
        var _ := AddOp(if b then PushTrue else PushFalse);
        r := CodeGen.Ok(());
      case AstGlobal(ids) =>
        assert CodeGen.GenNode(ast, isExpr, e) == CodeGen.Ok(CodeGen.GenGlobal(ids, e));
        GenGlobal(ids);
        r := CodeGen.Ok(());
      case AstObject(_, _) =>
        assert CodeGen.GenNode(ast, isExpr, e) == CodeGen.GenObject(ast, e);
        r := GenObject(ast);
      case AstNull => r := CodeGen.Err(CodeGen.UnhandledNode);
    }

    /** A block node; as an expression its id is pushed. */
    method GenBlockNode(block: Ast, isExpr: bool) returns (r: CodeGen.Result<()>)
      requires block.AstBlock? && CodeGen.CanGen(Snapshot(), block, isExpr)
      modifies this
      ensures Follows(r, CodeGen.GenBlockNode(block, isExpr, old(Snapshot())), Snapshot())
      decreases block, 4
    {
      var blockId :- GenBlock(block);
      if isExpr {
        var _ := AddOp(PushBlock, blockId);
      }
      r := CodeGen.Ok(());
    }

    /** An identifier read. */
    method GenIdentifierNode(id: Identifier)
      requires Ready()
      modifies this
      ensures Snapshot() == CodeGen.GenIdentifierNode(id, old(Snapshot()))
    {
      if id.Name !in VariablesUsed {
        VariablesUsed := VariablesUsed + [id.Name];
      }
      if id.Name == "this" && id.SubField.Some? {
        var _ := GenIdentifier(id);
      } else {
        GenFetchIdentifier(id, false);
      }
    }

    /** A number literal. */
    method GenNumber(n: int)
      requires Ready()
      modifies this
      ensures Snapshot() == CodeGen.GenNumber(n, old(Snapshot()))
    {
      if n < 255 {
        var _ := AddOp(PushNumber, n);
      } else {
        EmitConst(CodeGen.Num(n));
      }
    }

    /** `AddOp(OpCode.Const, FetchConst(…))`. */
    method EmitConst(lit: CodeGen.Literal)
      requires Ready()
      modifies this
      ensures Snapshot() == CodeGen.EmitConst(old(Snapshot()), lit)
    {
      var k := FetchConst(lit);
      var _ := AddOp(Const, k);
    }

    /** `run body`. */
    method GenRun(run: Ast, isExpr: bool) returns (r: CodeGen.Result<()>)
      requires run.AstRun? && Ready()
      modifies this
      ensures Follows(r, CodeGen.GenRun(run, isExpr, old(Snapshot())), Snapshot())
      decreases run, 4
    {
      var _ :- GenAst(run.Body, isExpr);
      r := CodeGen.Ok(());
    }

    /** `global a, b`. */
    method GenGlobal(ids: seq<Identifier>)
      requires Ready()
      modifies this
      ensures Snapshot() == CodeGen.GenGlobal(ids, old(Snapshot()))
    {
      DeclareGlobals(ids);
      var _ := AddOp(OpCode.Global, |ids|);
    }

    /** The `foreach` of `global`: every name declared in turn. */
    method DeclareGlobals(ids: seq<Identifier>)
      requires Ready()
      modifies this
      ensures Snapshot() == CodeGen.DeclareGlobals(ids, |ids|, old(Snapshot()))
    {
      ghost var start := Snapshot();
      var k := 0;
      while k < |ids|
        invariant k <= |ids| && Ready()
        invariant Snapshot() == CodeGen.DeclareGlobals(ids, k, start)
      {
        DeclareGlobal(ids[k]);
        k := k + 1;
      }
    }

    /** The body of the `global` loop. */
    method DeclareGlobal(id: Identifier)
      requires Ready()
      modifies this
      ensures Snapshot() == CodeGen.DeclareGlobal(id, old(Snapshot()))
    {
      var _ := GenIdentifier(id);
      if id.Name !in GlobalVariables {
        GlobalVariables := GlobalVariables + [id.Name];
      }
    }

    /** `on handle run body`: one `Const` per handle segment with its fetch, the body, then `On`. */
    method GenOn(on: Ast) returns (r: CodeGen.Result<()>)
      requires on.AstOn? && Ready()
      modifies this
      ensures Follows(r, CodeGen.GenOn(on, old(Snapshot())), Snapshot())
      decreases on, 4
    {
      ghost var e0 := Snapshot();
      var handle: Option<Identifier> := Some(on.Handle);
      var first := true;
      while handle.Some?
        invariant Ready()
        invariant handle.Some? ==>
          CodeGen.GenHandle(on.Handle, true, e0) == CodeGen.GenHandle(handle.value, first, Snapshot())
        invariant handle.None? ==> CodeGen.GenHandle(on.Handle, true, e0) == Snapshot()
        decreases handle
      {
        GenHandleSegment(handle.value, first);
        first := false;
        handle := handle.value.SubField;
      }
      var _ :- GenAst(on.Run, true);
      var _ := AddOp(On);
      r := CodeGen.Ok(());
    }

    /**
     * One pass of the handle loop.  The source's `hasAddedCurrentObjectName`
     * flag is always the negation of `first`, so `first` alone decides both.
     */
    method GenHandleSegment(h: Identifier, first: bool)
      requires Ready()
      modifies this
      ensures Snapshot() == CodeGen.HandleSegment(h, first, old(Snapshot()))
    {
      var k := FetchConst(CodeGen.Str(h.Name));
      var _ := AddOp(Const, k);
      if first && h.Name !in AddedEventsToObjectNamed {
        AddedEventsToObjectNamed := AddedEventsToObjectNamed + [h.Name];
      }
      if first {
        var _ := AddOp(Fetch);
      } else if h.SubField.Some? {
        var _ := AddOp(FetchField);
      }
    }

    /** An assignment node. */
    method GenAssign(assign: Ast) returns (r: CodeGen.Result<()>)
      requires assign.AstAssign? && Ready()
      modifies this
      ensures Follows(r, CodeGen.GenAssign(assign, old(Snapshot())), Snapshot())
      decreases assign, 4
    {
      CodeGen.GenAssignUnfold(assign, Snapshot());
      var parts := GenIdentifier(assign.Target);
      if assign.Target.Name !in VariablesAssigned {
        VariablesAssigned := VariablesAssigned + [assign.Target.Name];
      }
      var _ :- GenAssignValue(assign);
      if parts > 1 {
        var _ := AddOp(AssignField);
      } else {
        var _ := AddOp(OpCode.Assign);
      }
      r := CodeGen.Ok(());
    }

    /** The `switch (astAssign.Op)` of an assignment. */
    method GenAssignValue(assign: Ast) returns (r: CodeGen.Result<()>)
      requires assign.AstAssign? && Ready()
      modifies this
      ensures Follows(r, CodeGen.GenAssignValue(assign, old(Snapshot())), Snapshot())
      decreases assign, 1
    {
      if assign.Op == TokenType.Assign {
        var _ :- GenAst(assign.Expr, true);
      } else if assign.Op in CodeGen.CompoundOps {
        GenFetchIdentifier(assign.Target, false);
        var _ :- GenAst(assign.Expr, true);
        var _ := AddOp(CodeGen.CompoundOps[assign.Op]);
      }
      r := CodeGen.Ok(());
    }

    /** A binary expression node. */
    method GenExpr(expr: Ast) returns (r: CodeGen.Result<()>)
      requires expr.AstExpr? && Ready()
      modifies this
      ensures Follows(r, CodeGen.GenExpr(expr, old(Snapshot())), Snapshot())
      decreases expr, 4
    {
      if expr.Op !in CodeGen.OpsToOpcodes {
        return CodeGen.Err(CodeGen.UnexpectedOpcode);
      }
      var _ :- GenAst(expr.Lhs, true);
      var opcode := CodeGen.OpsToOpcodes[expr.Op];
      if opcode == OpCode.Band || opcode == OpCode.Bor {
        r := GenShortCircuit(expr, opcode);
      } else {
        var _ :- GenAst(expr.Rhs, true);
        var _ := AddOp(opcode);
        r := CodeGen.Ok(());
      }
    }

    /**
     * The `Band` and `Bor` branches of the expression case, which differ only
     * in the conditional jump and the literal pushed in place of the right
     * operand.
     */
    method GenShortCircuit(expr: Ast, opcode: OpCode) returns (r: CodeGen.Result<()>)
      requires expr.AstExpr? && (opcode == OpCode.Band || opcode == OpCode.Bor) && Ready()
      modifies this
      ensures Follows(r, CodeGen.GenShortCircuit(expr, opcode, old(Snapshot())), Snapshot())
      decreases expr, 1
    {
      var jump := if opcode == OpCode.Band then Czjmp else Cjmp;
      ghost var e := Snapshot();
      var jmppos := AddOp(jump);
      var rhsamount :- GenAst(expr.Rhs, true);
      CloseShortCircuit(e, jmppos, rhsamount, opcode);
      r := CodeGen.Ok(());
    }

    /** The code after the right operand of `and` / `or`. */
    method CloseShortCircuit(ghost e0: CodeGen.Emitter, jmppos: int, rhsamount: int, opcode: OpCode)
      requires CodeGen.Extends(e0, Snapshot()) && CodeGen.HasCurrent(e0)
      requires |CodeGen.CurCode(e0)| <= jmppos < |CodeGen.CurCode(Snapshot())|
      modifies this
      ensures Snapshot() == CodeGen.CloseShortCircuit(e0, old(Snapshot()), jmppos, rhsamount, opcode)
    {
      var jump := if opcode == OpCode.Band then Czjmp else Cjmp;
      var _ := SetOp(jmppos, jump, rhsamount + 1);
      var _ := AddOp(Jmp, 1);
      var _ := AddOp(if opcode == OpCode.Band then PushFalse else PushTrue);
      var _ := AddOp(opcode);
    }

    /** An object literal: annotations, `PushNewObject`, then key, value and `AssignField 1` per field. */
    method GenObject(obj: Ast) returns (r: CodeGen.Result<()>)
      requires obj.AstObject? && Ready()
      modifies this
      ensures Follows(r, CodeGen.GenObject(obj, old(Snapshot())), Snapshot())
      decreases obj, 4
    {
      GenAnnotations(obj.Annotations);
      var _ := AddOp(PushNewObject);
      r := GenFields(obj);
    }

    /** The `foreach` over an object literal's fields. */
    method GenFields(obj: Ast) returns (r: CodeGen.Result<()>)
      requires obj.AstObject? && Ready()
      modifies this
      ensures Follows(r, CodeGen.GenFields(obj, 0, old(Snapshot())), Snapshot())
      decreases obj, 3
    {
      ghost var e0 := Snapshot();
      var k := 0;
      while k < |obj.Fields|
        invariant k <= |obj.Fields| && Ready()
        invariant CodeGen.GenFields(obj, 0, e0) == CodeGen.GenFields(obj, k, Snapshot())
      {
        CodeGen.GenFieldsStep(obj, k, Snapshot());
        var _ :- GenField(obj, k);
        k := k + 1;
      }
      r := CodeGen.Ok(());
    }

    /** One pass of the loop over an object literal's fields. */
    method GenField(obj: Ast, k: nat) returns (r: CodeGen.Result<()>)
      requires obj.AstObject? && k < |obj.Fields| && Ready()
      modifies this
      ensures Follows(r, CodeGen.GenField(obj, k, old(Snapshot())), Snapshot())
      decreases obj, 2, 0
    {
      var c := FetchConst(CodeGen.Str(obj.Fields[k].0));
      var _ := AddOp(Const, c);
      assert obj.Fields[k].1 < obj.Fields[k] < obj;
      var _ :- GenAst(obj.Fields[k].1, true);
      var _ := AddOp(AssignField, 1);
      r := CodeGen.Ok(());
    }

    /** An if-chain: its branches, then the patch of every end jump to the chain's end. */
    method GenIf(chain: Ast) returns (r: CodeGen.Result<()>)
      requires chain.AstIf? && Ready()
      modifies this
      ensures Follows(r, CodeGen.GenIf(chain, old(Snapshot())), Snapshot())
      decreases chain, 4
    {
      var endJmps :- GenIfChain(chain);
      var endPoint := CurrentIP();
      PatchEndJmps(endJmps, endPoint);
      r := CodeGen.Ok(());
    }

    /** The `while (astIf != null)` loop over the branches, collecting the end jumps. */
    method GenIfChain(chain: Ast) returns (r: CodeGen.Result<seq<int>>)
      requires chain.AstIf? && Ready()
      modifies this
      ensures Mirrors(r, CodeGen.GenIfChain(chain, 0, old(Snapshot()), []), Snapshot())
      decreases chain, 3, |chain.Branches| + 1
    {
      ghost var e0 := Snapshot();
      var endJmps: seq<int> := [];
      var k := 0;
      while k < |chain.Branches|
        invariant k <= |chain.Branches| && Ready()
        invariant CodeGen.GenIfChain(chain, 0, e0, []) == CodeGen.GenIfChain(chain, k, Snapshot(), endJmps)
      {
        endJmps :- GenBranch(chain, k, endJmps);
        k := k + 1;
      }
      r := CodeGen.Ok(endJmps);
    }

    /** The backward `for` loop setting each end jump to land one past `endPoint`. */
    method PatchEndJmps(endJmps: seq<int>, endPoint: int)
      requires Ready() && forall i :: 0 <= i < |endJmps| ==> 0 <= endJmps[i] < |CodeGen.CurCode(Snapshot())|
      modifies this
      ensures Snapshot() == CodeGen.PatchEndJmps(old(Snapshot()), endJmps, 0, endPoint)
    {
      ghost var e0 := Snapshot();
      var c := |endJmps|;
      while c > 0
        invariant 0 <= c <= |endJmps|
        invariant Snapshot() == CodeGen.PatchEndJmps(e0, endJmps, c, endPoint)
      {
        c := c - 1;
        var _ := SetOp(endJmps[c], Jmp, endPoint - endJmps[c]);
      }
    }

    /** One pass of the if-chain loop: branch `k`, adding its end jump to `endJmps` when it has a condition. */
    method GenBranch(chain: Ast, k: nat, endJmps: seq<int>) returns (r: CodeGen.Result<seq<int>>)
      requires chain.AstIf? && k < |chain.Branches| && Ready()
      modifies this
      ensures Mirrors(r, CodeGen.GenBranch(chain, k, old(Snapshot()), endJmps), Snapshot())
      decreases chain, 3, 0
    {
      if chain.Branches[k].Expr.Some? {
        var blockJmpPoint :- GenCondBranch(chain, k);
        r := CodeGen.Ok(endJmps + [blockJmpPoint]);
      } else {
        assert chain.Branches[k].Block == chain.Branches[k].Block;
        var _ :- GenBlockContents(chain, chain.Branches[k].Block);
        r := CodeGen.Ok(endJmps);
      }
    }

    /** A branch with a condition; returns the position of its end jump. */
    method GenCondBranch(chain: Ast, k: nat) returns (r: CodeGen.Result<int>)
      requires chain.AstIf? && k < |chain.Branches| && chain.Branches[k].Expr.Some? && Ready()
      modifies this
      ensures Mirrors(r, CodeGen.GenCondBranch(chain, k, old(Snapshot())), Snapshot())
      decreases chain, 2
    {
      var branch := chain.Branches[k];
      assert branch < chain;
      assert branch.Expr.value < chain;
      assert chain.Branches[k].Block == branch.Block;
      var _ :- GenAst(branch.Expr.value, true);
      var exprJmpPoint := AddOp(Czjmp, -1);
      var _ :- GenBlockContents(chain, branch.Block);
      var blockJmpPoint := AddOp(Jmp, -1);
      var ip := CurrentIP();
      var _ := SetOp(exprJmpPoint, Czjmp, ip - exprJmpPoint);
      r := CodeGen.Ok(blockJmpPoint);
    }
  }
}
