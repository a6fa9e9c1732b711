/**
 * What the code generator promises about the code it lays out: how the
 * constant pool is shared, where `Const2` takes over, what a backpatch
 * touches, the shape of `and` / `or`, where the jumps of an if-chain land,
 * and which nodes are refused.
 */
module CodeGenFacts {
  import opened Values
  import opened Syntax
  import opened CodeGen

  // ---------------------------------------------------------------------------
  // Emission
  // ---------------------------------------------------------------------------

  /** `AddOp` appends exactly one instruction to the open block and leaves the rest of it alone. */
  lemma AddOpAppends(e: Emitter, op: OpCode, a1: int, a2: int, a3: int)
    requires HasCurrent(e)
    ensures Cur(AddOp(e, op, a1, a2, a3).0) == Cur(e)
    ensures CurCode(AddOp(e, op, a1, a2, a3).0) == CurCode(e) + [MakeInstr(Emitted(e, op), a1, a2, a3)]
  {
  }

  /**
   * `Const` is emitted as `Const2` once the pool holds 255 entries, and
   * every operand is cut to its low eight bits: a pool index from 256 on does
   * not survive in the instruction.
   */
  lemma ConstOperand(e: Emitter, index: nat)
    requires HasCurrent(e)
    ensures var ins := CurCode(AddOp(e, Const, index).0)[|CurCode(e)|];
      && (ins.Op == Const2 <==> |e.Consts| >= 255)
      && (ins.Op == Const <==> |e.Consts| < 255)
      && ins.Arg0 == index % 256 && ins.Arg1 == 0 && ins.Arg2 == 0
      && (ins.Arg0 == index <==> index < 256)
  {
  }

  /** `SetOp` rewrites one instruction of the open block and nothing else. */
  lemma SetOpOnlyAt(e: Emitter, ip: int, op: OpCode, a1: int)
    requires HasCurrent(e) && 0 <= ip < |CurCode(e)|
    ensures Cur(SetOp(e, ip, op, a1)) == Cur(e)
    ensures CurCode(SetOp(e, ip, op, a1)) == CurCode(e)[ip := MakeInstr(Emitted(e, op), a1, 0, 0)]
    ensures forall b :: 0 <= b < |e.Blocks| && b != Cur(e) ==> SetOp(e, ip, op, a1).Blocks[b] == e.Blocks[b]
    ensures SetOp(e, ip, op, a1).Consts == e.Consts
  {
  }

  // ---------------------------------------------------------------------------
  // The constant pool
  // ---------------------------------------------------------------------------

  /** Asking for the same literal again gives the same index and leaves the pool as it was. */
  lemma FetchConstStable(e: Emitter, lit: Literal)
    ensures var a := FetchConst(e, lit); FetchConst(a.0, lit) == (a.0, a.1)
  {
    var a := FetchConst(e, lit);
    FetchConstFinds(e, lit);
    FetchConstFinds(a.0, lit);
    assert Matches(a.0.Consts[a.1], lit);
    assert forall j :: 0 <= j < |e.Consts| ==> a.0.Consts[j] == e.Consts[j];
  }

  /**
   * A string and a number never share a pool entry, even when they read the
   * same (`"3"` and `3`): the entries are told apart by their tags.
   */
  lemma StringsAndNumbersApart(e: Emitter, s: string, n: int)
    ensures var a := FetchConst(e, Str(s));
            var b := FetchConst(a.0, Num(n));
      && a.1 < |b.0.Consts| && b.1 < |b.0.Consts| && a.1 != b.1
      && b.0.Consts[a.1].Type == String && b.0.Consts[a.1].StrValue == s
      && b.0.Consts[b.1].Type == Number && b.0.Consts[b.1].NumValue == n
  {
    var a := FetchConst(e, Str(s));
    FetchConstFinds(e, Str(s));
    FetchConstFinds(a.0, Num(n));
    var b := FetchConst(a.0, Num(n));
    assert b.0.Consts[a.1] == a.0.Consts[a.1];
  }

  // ---------------------------------------------------------------------------
  // Literals, names and refused nodes
  // ---------------------------------------------------------------------------

  /**
   * A number below 255 (negative ones included) becomes one `PushNumber`
   * with the number's low eight bits; from 255 on it is a pool constant.
   */
  lemma NumberLayout(n: int, e: Emitter)
    requires HasCurrent(e)
    ensures n < 255 ==> CurCode(GenNumber(n, e)) == CurCode(e) + [Instr(PushNumber, ToByte(n), 0, 0)]
    ensures n >= 255 ==> var c := FetchConst(e, Num(n));
              && CurCode(GenNumber(n, e)) == CurCode(e) + [MakeInstr(Emitted(c.0, Const), c.1, 0, 0)]
              && c.0.Consts[c.1] == GenNumber(n, e).Consts[c.1]
              && GenNumber(n, e).Consts[c.1].Type == Number && GenNumber(n, e).Consts[c.1].NumValue == n
  {
    if n < 255 {
      AddOpAppends(e, PushNumber, n, 0, 0);
    } else {
      var c := FetchConst(e, Num(n));
      FetchConstFinds(e, Num(n));
      FetchConstExtends(e, Num(n));
      AddOpAppends(c.0, Const, c.1, 0, 0);
    }
  }

  /** Whether `code` from `from` on alternates a pooled name and a `Fetch`. */
  ghost predicate NameFetchNameLayout(code: seq<Instr>, from: nat) {
    && (forall m: nat :: from + 2 * m < |code| ==> code[from + 2 * m].Op == Const || code[from + 2 * m].Op == Const2)
    && (forall m: nat :: from + 2 * m + 1 < |code| ==> code[from + 2 * m + 1].Op == Fetch)
  }

  /**
   * `GenIdentifier` (the `this.x.y` and `global` layout): a pooled name per
   * segment with a `Fetch`, never a `FetchField`, between two of them.
   */
  lemma {:induction false} IdentifierLayout(id: Identifier, e: Emitter)
    requires HasCurrent(e)
    ensures var r := GenIdentifier(id, e).0;
      HasCurrent(r) && NameFetchNameLayout(CurCode(r), |CurCode(e)|)
    decreases id
  {
    var n := |CurCode(e)|;
    IdentifierUnfold(id, e);
    match id.SubField
    case None =>
    case Some(sub) =>
      var e2 := AddOp(EmitName(e, id.Name), Fetch).0;
      IdentifierLayout(sub, e2);
      var r := GenIdentifier(sub, e2).0;
      ExtendsGrows(e2, r);
      assert CurCode(r)[n] == CurCode(e2)[n] && CurCode(r)[n + 1] == CurCode(e2)[n + 1];
      LayoutShift(CurCode(r), n);
  }

  /** A name and a `Fetch` in front of the alternating layout extend it. */
  lemma LayoutShift(code: seq<Instr>, n: nat)
    requires n + 2 <= |code| && (code[n].Op == Const || code[n].Op == Const2) && code[n + 1].Op == Fetch
    requires NameFetchNameLayout(code, n + 2)
    ensures NameFetchNameLayout(code, n)
  {
    forall m: nat | n + 2 * m < |code|
      ensures code[n + 2 * m].Op == Const || code[n + 2 * m].Op == Const2
    {
      if m > 0 {
        assert n + 2 * m == (n + 2) + 2 * (m - 1);
      }
    }
    forall m: nat | n + 2 * m + 1 < |code|
      ensures code[n + 2 * m + 1].Op == Fetch
    {
      if m > 0 {
        assert n + 2 * m + 1 == (n + 2) + 2 * (m - 1) + 1;
      }
    }
  }

  /** One segment of `GenIdentifier`: the name, then for a dotted name a `Fetch` and the rest. */
  lemma IdentifierUnfold(id: Identifier, e: Emitter)
    requires HasCurrent(e)
    ensures var e1 := EmitName(e, id.Name);
      && HasCurrent(e1) && Cur(e1) == Cur(e)
      && |CurCode(e1)| == |CurCode(e)| + 1 && CurCode(e1)[..|CurCode(e)|] == CurCode(e)
      && (CurCode(e1)[|CurCode(e)|].Op == Const || CurCode(e1)[|CurCode(e)|].Op == Const2)
      && (id.SubField.None? ==> GenIdentifier(id, e).0 == e1)
      && (id.SubField.Some? ==>
            var e2 := AddOp(e1, Fetch).0;
            && HasCurrent(e2) && Cur(e2) == Cur(e)
            && CurCode(e2) == CurCode(e1) + [MakeInstr(Fetch, 0, 0, 0)]
            && GenIdentifier(id, e).0 == GenIdentifier(id.SubField.value, e2).0)
  {
    var c := FetchConst(e, Str(id.Name));
    FetchConstExtends(e, Str(id.Name));
    AddOpAppends(c.0, Const, c.1, 0, 0);
    var e1 := EmitName(e, id.Name);
    AddOpAppends(e1, Fetch, 0, 0, 0);
  }

  /** The binary operator `not` is refused, and so is a null node, before anything is emitted. */
  lemma RefusedNodes(lhs: Ast, rhs: Ast, isExpr: bool, e: Emitter)
    requires HasCurrent(e)
    ensures GenAst(AstExpr(lhs, rhs, Not), isExpr, e) == Err(UnexpectedOpcode)
    ensures GenAst(AstNull, isExpr, e) == Err(UnhandledNode)
  {
  }

  /** A null statement among a block's statements, from position `j` on, makes them fail. */
  lemma {:induction false} RefusalPropagates(root: Ast, j: nat, k: nat, e: Emitter)
    requires root.AstBlock? && j <= k < |root.Children| && HasCurrent(e)
    requires root.Children[k] == AstNull
    ensures GenStatements(root, root.Children, j, false, e).Err?
    decreases k - j
  {
    if j < k {
      var c := GenAst(root.Children[j], false, e);
      if c.Ok? {
        ExtendsGrows(e, c.value.0);
        RefusalPropagates(root, j + 1, k, c.value.0);
      }
    }
  }

  /** A program with a null statement in its root block does not compile. */
  lemma RefusedProgram(root: Ast, k: nat)
    requires root.AstBlock? && k < |root.Children| && root.Children[k] == AstNull
    ensures Compile(root).Err?
  {
    var n := NewBlock(Empty);
    RefusalPropagates(root, 0, k, n.0);
    assert GenBlock(root, Empty).Err?;
    assert GenNode(root, false, Empty) == GenBlockNode(root, false, Empty);
  }

  // ---------------------------------------------------------------------------
  // Blocks
  // ---------------------------------------------------------------------------

  /**
   * The root is compiled as a block of its own: it is block 0 of the unit,
   * where the machine starts, and it ends with `Ret`.
   */
  lemma RootIsBlockZero(root: Ast)
    requires root.AstBlock?
    ensures Compile(root).Ok? <==> GenBlock(root, Empty).Ok?
    ensures Compile(root).Ok? ==>
              && GenBlock(root, Empty).value.1 == 0
              && Compile(root).value == GenBlock(root, Empty).value.0
              && EndsWithRet(Compile(root).value.Blocks[0])
  {
    assert CanGen(Empty, root, false);
    assert GenNode(root, false, Empty) == GenBlockNode(root, false, Empty);
  }

  // ---------------------------------------------------------------------------
  // and / or
  // ---------------------------------------------------------------------------

  lemma UpdateAfterPrefix<T>(s: seq<T>, p: seq<T>, x: T)
    requires |p| < |s| && s[..|p|] == p
    ensures s[|p| := x] == p + [x] + s[|p| + 1..]
  {
  }

  /**
   * The closing of `and` / `or` over the placeholder just past `e0`'s code:
   * the jump patched in place, then `Jmp 1`, the constant and the operator
   * appended.
   */
  lemma CloseShortCircuitLayout(e0: Emitter, e: Emitter, rhsamount: int, opcode: OpCode)
    requires Extends(e0, e) && HasCurrent(e0) && |CurCode(e0)| < |CurCode(e)|
    requires opcode == OpCode.Band || opcode == OpCode.Bor
    ensures HasCurrent(e) && HasCurrent(CloseShortCircuit(e0, e, |CurCode(e0)|, rhsamount, opcode))
    ensures CurCode(CloseShortCircuit(e0, e, |CurCode(e0)|, rhsamount, opcode)) ==
              CurCode(e0) + [MakeInstr(ShortCircuitJump(opcode), rhsamount + 1, 0, 0)] + CurCode(e)[|CurCode(e0)| + 1..]
              + [MakeInstr(Jmp, 1, 0, 0),
                 MakeInstr(if opcode == OpCode.Band then PushFalse else PushTrue, 0, 0, 0),
                 MakeInstr(opcode, 0, 0, 0)]
  {
    ExtendsGrows(e0, e);
    var n := |CurCode(e0)|;
    var jump := ShortCircuitJump(opcode);
    var lit := if opcode == OpCode.Band then PushFalse else PushTrue;
    var e2 := SetOp(e, n, jump, rhsamount + 1);
    SetOpOnlyAt(e, n, jump, rhsamount + 1);
    UpdateAfterPrefix(CurCode(e), CurCode(e0), MakeInstr(jump, rhsamount + 1, 0, 0));
    ClosingTriple(e2, opcode);
  }

  /** The three instructions that close `and` / `or`. */
  lemma ClosingTriple(e: Emitter, opcode: OpCode)
    requires HasCurrent(e) && (opcode == OpCode.Band || opcode == OpCode.Bor)
    ensures var lit := if opcode == OpCode.Band then PushFalse else PushTrue;
      var r := AddOp(AddOp(AddOp(e, Jmp, 1).0, lit).0, opcode).0;
      && Cur(r) == Cur(e)
      && CurCode(r) == CurCode(e) + [MakeInstr(Jmp, 1, 0, 0), MakeInstr(lit, 0, 0, 0), MakeInstr(opcode, 0, 0, 0)]
  {
    var lit := if opcode == OpCode.Band then PushFalse else PushTrue;
    var e3 := AddOp(e, Jmp, 1).0;
    AddOpAppends(e, Jmp, 1, 0, 0);
    var e4 := AddOp(e3, lit).0;
    AddOpAppends(e3, lit, 0, 0, 0);
    AddOpAppends(e4, opcode, 0, 0, 0);
  }

  /** `GenShortCircuit` is `CloseShortCircuit` after the right operand. */
  lemma ShortCircuitUnfold(expr: Ast, opcode: OpCode, e: Emitter)
    requires expr.AstExpr? && (opcode == OpCode.Band || opcode == OpCode.Bor) && HasCurrent(e)
    ensures var j := AddOp(e, ShortCircuitJump(opcode));
            var rhs := GenAst(expr.Rhs, true, j.0);
      && (rhs.Err? ==> GenShortCircuit(expr, opcode, e) == Err(rhs.error))
      && (rhs.Ok? ==> |CurCode(e)| <= j.1 < |CurCode(rhs.value.0)| && Extends(e, rhs.value.0)
                      && GenShortCircuit(expr, opcode, e) == Ok(CloseShortCircuit(e, rhs.value.0, j.1, rhs.value.1, opcode)))
  {
    var j := AddOp(e, ShortCircuitJump(opcode));
    AddOpExtends(e, ShortCircuitJump(opcode), 0, 0, 0);
    var rhs := GenAst(expr.Rhs, true, j.0);
    if rhs.Ok? {
      ExtendsGrows(j.0, rhs.value.0);
      ExtendsTrans(e, j.0, rhs.value.0);
    }
  }

  /**
   * The layout after the left operand of `and` (`or`): a `Czjmp` (`Cjmp`)
   * whose offset is the right operand's length plus one, the right
   * operand's code, `Jmp 1`, `PushFalse` (`PushTrue`) and the operator.  The
   * conditional jump thus lands on the pushed constant and the `Jmp 1`
   * skips it.
   */
  lemma ShortCircuitLayout(expr: Ast, opcode: OpCode, e: Emitter)
    requires expr.AstExpr? && (opcode == OpCode.Band || opcode == OpCode.Bor) && HasCurrent(e)
    ensures var j := AddOp(e, ShortCircuitJump(opcode)).0;
            var rhs := GenAst(expr.Rhs, true, j);
      && (GenShortCircuit(expr, opcode, e).Ok? <==> rhs.Ok?)
      && (rhs.Ok? ==> HasCurrent(rhs.value.0) && |CurCode(rhs.value.0)| == |CurCode(e)| + 1 + rhs.value.1
                      && CurCode(GenShortCircuit(expr, opcode, e).value) ==
                           CurCode(e) + [MakeInstr(ShortCircuitJump(opcode), rhs.value.1 + 1, 0, 0)]
                           + CurCode(rhs.value.0)[|CurCode(e)| + 1..]
                           + [MakeInstr(Jmp, 1, 0, 0),
                              MakeInstr(if opcode == OpCode.Band then PushFalse else PushTrue, 0, 0, 0),
                              MakeInstr(opcode, 0, 0, 0)])
  {
    var n := |CurCode(e)|;
    var jump := ShortCircuitJump(opcode);
    ShortCircuitUnfold(expr, opcode, e);
    var j := AddOp(e, jump);
    AddOpAppends(e, jump, 0, 0, 0);
    AddOpExtends(e, jump, 0, 0, 0);
    var rhs := GenAst(expr.Rhs, true, j.0);
    if rhs.Ok? {
      var e1 := rhs.value.0;
      ExtendsGrows(j.0, e1);
      ExtendsTrans(e, j.0, e1);
      var k := rhs.value.1;
      assert |CurCode(e1)| == n + 1 + k;
      CloseShortCircuitLayout(e, e1, k, opcode);
    }
  }

  // ---------------------------------------------------------------------------
  // if / else if / else
  // ---------------------------------------------------------------------------

  predicate Increasing(s: seq<int>) {
    forall i, j :: 0 <= i < j < |s| ==> s[i] < s[j]
  }

  /**
   * A conditional branch: the condition's code, then at the next index a
   * `Czjmp` that lands just past the branch's end `Jmp`, then the body, and
   * last the end `Jmp`, still the placeholder `Jmp -1` (operand 255).
   */
  lemma CondBranchLayout(chain: Ast, k: nat, e: Emitter)
    requires chain.AstIf? && k < |chain.Branches| && chain.Branches[k].Expr.Some? && HasCurrent(e)
    ensures var r := GenCondBranch(chain, k, e);
            var cond := GenAst(chain.Branches[k].Expr.value, true, e);
      r.Ok? ==> && cond.Ok? && HasCurrent(cond.value.0)
                && |CurCode(e)| <= |CurCode(cond.value.0)| < r.value.1 == |CurCode(r.value.0)| - 1
                && CurCode(r.value.0)[|CurCode(cond.value.0)|]
                     == MakeInstr(Czjmp, r.value.1 - |CurCode(cond.value.0)|, 0, 0)
                && CurCode(r.value.0)[r.value.1] == Instr(Jmp, 255, 0, 0)
  {
    var r := GenCondBranch(chain, k, e);
    if r.Ok? {
      var branch := chain.Branches[k];
      var cond := GenAst(branch.Expr.value, true, e).value;
      var cz := AddOp(cond.0, Czjmp, -1);
      var body := GenBlockContents(chain, branch.Block, cz.0).value;
      CzjmpPatched(cond.0, body.0);
    }
  }

  /**
   * After the condition's code `c` and the body's, the end `Jmp` goes last and
   * the `Czjmp` placeholder right after `c` is patched to land past it.
   */
  lemma CzjmpPatched(c: Emitter, b: Emitter)
    requires HasCurrent(c) && Extends(AddOp(c, Czjmp, -1).0, b)
    ensures var cz := |CurCode(c)|;
            var jmp := AddOp(b, Jmp, -1);
            var r := SetOp(jmp.0, cz, Czjmp, CurrentIP(jmp.0) - cz);
      && HasCurrent(r) && cz < jmp.1 == |CurCode(r)| - 1
      && CurCode(r)[cz] == MakeInstr(Czjmp, jmp.1 - cz, 0, 0)
      && CurCode(r)[jmp.1] == Instr(Jmp, 255, 0, 0)
  {
    var cz := AddOp(c, Czjmp, -1);
    AddOpAppends(c, Czjmp, -1, 0, 0);
    ExtendsGrows(cz.0, b);
    var jmp := AddOp(b, Jmp, -1);
    AddOpAppends(b, Jmp, -1, 0, 0);
    SetOpOnlyAt(jmp.0, cz.1, Czjmp, CurrentIP(jmp.0) - cz.1);
    var r := SetOp(jmp.0, cz.1, Czjmp, CurrentIP(jmp.0) - cz.1);
    assert CurCode(r)[jmp.1] == CurCode(jmp.0)[jmp.1];
  }

  /** A branch without a condition is its block's code emitted inline, recording no end jump. */
  lemma InlineBranch(chain: Ast, k: nat, e: Emitter, endJmps: seq<int>)
    requires chain.AstIf? && k < |chain.Branches| && chain.Branches[k].Expr.None? && HasCurrent(e)
    ensures var r := GenBranch(chain, k, e, endJmps);
            var body := GenBlockContents(chain, chain.Branches[k].Block, e);
      && (r.Ok? <==> body.Ok?)
      && (r.Ok? ==> r.value == (body.value.0, endJmps))
      && (r.Err? ==> r.error == body.error)
  {
  }

  /** One branch keeps the recorded end jumps increasing and inside the open block. */
  lemma BranchIncreasing(chain: Ast, k: nat, e: Emitter, endJmps: seq<int>)
    requires chain.AstIf? && k < |chain.Branches| && HasCurrent(e)
    requires Increasing(endJmps) && forall i :: 0 <= i < |endJmps| ==> endJmps[i] < |CurCode(e)|
    ensures var step := GenBranch(chain, k, e, endJmps);
      step.Ok? ==> && HasCurrent(step.value.0) && Increasing(step.value.1)
                   && forall i :: 0 <= i < |step.value.1| ==> step.value.1[i] < |CurCode(step.value.0)|
  {
    var step := GenBranch(chain, k, e, endJmps);
    if step.Ok? {
      ExtendsGrows(e, step.value.0);
    }
  }

  /** The end jumps of an if-chain are recorded in the order they were emitted. */
  lemma {:induction false} IfChainIncreasing(chain: Ast, k: nat, e: Emitter, endJmps: seq<int>)
    requires chain.AstIf? && k <= |chain.Branches| && HasCurrent(e)
    requires Increasing(endJmps) && forall i :: 0 <= i < |endJmps| ==> endJmps[i] < |CurCode(e)|
    ensures var r := GenIfChain(chain, k, e, endJmps); r.Ok? ==> Increasing(r.value.1)
    decreases |chain.Branches| - k
  {
    if k < |chain.Branches| {
      var step := GenBranch(chain, k, e, endJmps);
      BranchIncreasing(chain, k, e, endJmps);
      if step.Ok? {
        IfChainIncreasing(chain, k + 1, step.value.0, step.value.1);
      }
    }
  }

  /**
   * The backward patch loop from index `c` on: every recorded end jump
   * becomes `Jmp` with the distance to `endPoint`, and nothing else changes.
   */
  lemma {:induction false} PatchEndJmpsSets(e: Emitter, endJmps: seq<int>, c: nat, endPoint: int)
    requires HasCurrent(e) && c <= |endJmps| && Increasing(endJmps)
    requires forall i :: 0 <= i < |endJmps| ==> 0 <= endJmps[i] < |CurCode(e)|
    ensures var r := PatchEndJmps(e, endJmps, c, endPoint);
      && Cur(r) == Cur(e)
      && (forall i :: c <= i < |endJmps| ==> CurCode(r)[endJmps[i]] == MakeInstr(Jmp, endPoint - endJmps[i], 0, 0))
      && (forall j :: 0 <= j < |CurCode(e)| && j !in endJmps[c..] ==> CurCode(r)[j] == CurCode(e)[j])
    decreases |endJmps| - c
  {
    if c < |endJmps| {
      PatchEndJmpsSets(e, endJmps, c + 1, endPoint);
      var p := PatchEndJmps(e, endJmps, c + 1, endPoint);
      SetOpOnlyAt(p, endJmps[c], Jmp, endPoint - endJmps[c]);
      forall j | 0 <= j < |CurCode(e)| && j !in endJmps[c..]
        ensures CurCode(PatchEndJmps(e, endJmps, c, endPoint))[j] == CurCode(e)[j]
      {
        assert j != endJmps[c];
        assert forall i :: c + 1 <= i < |endJmps| ==> endJmps[i] == endJmps[c..][i - c];
        assert j !in endJmps[c + 1..];
      }
    }
  }

  /**
   * Every end jump of a generated if-chain is patched to land one past the
   * chain's last instruction: at `p` the machine has advanced to `p + 1` and
   * adds the operand `last - p`.
   */
  lemma IfEndJumps(chain: Ast, e: Emitter)
    requires chain.AstIf? && HasCurrent(e)
    ensures var c := GenIfChain(chain, 0, e, []);
      && (GenIf(chain, e).Ok? <==> c.Ok?)
      && (c.Ok? ==> var code := CurCode(GenIf(chain, e).value);
                    && |code| == |CurCode(c.value.0)|
                    && forall i :: 0 <= i < |c.value.1| ==>
                         code[c.value.1[i]] == MakeInstr(Jmp, |code| - 1 - c.value.1[i], 0, 0))
  {
    var c := GenIfChain(chain, 0, e, []);
    if c.Ok? {
      IfChainIncreasing(chain, 0, e, []);
      ExtendsGrows(e, c.value.0);
      var endPoint := CurrentIP(c.value.0);
      PatchEndJmpsSets(c.value.0, c.value.1, 0, endPoint);
    }
  }
}
