/**
 * The code generator of Compiler.cs as functions over the compiler's state.
 * `Emitter` is everything the source's `Compiler` object mutates: the
 * constant pool and block list of the unit under construction, the stack of
 * open blocks, and the unit's diagnostic name lists.  Each function here
 * computes the state the corresponding method of Compiler.cs leaves behind;
 * the `Compiler` class (compiler.dfy) is proved to do exactly that.
 */
module CodeGen {
  import opened Values
  import opened Syntax

  datatype CompileError = UnexpectedOpcode | UnhandledNode

  datatype Result<T> = Ok(value: T) | Err(error: CompileError) {
    predicate IsFailure() { Err? }
    function PropagateFailure<U>(): Result<U> requires Err? { Err(error) }
    function Extract(): T requires Ok? { value }
  }

  /** `_opsToOpcodes`: the binary operators the compiler accepts. */
  const OpsToOpcodes: map<TokenType, OpCode> := map[
    TokenType.Eq := OpCode.Eq, TokenType.Neq := OpCode.Neq,
    TokenType.Gt := OpCode.Gt, TokenType.Lt := OpCode.Lt,
    TokenType.Gte := OpCode.Gte, TokenType.Lte := OpCode.Lte,
    TokenType.Plus := OpCode.Plus, TokenType.Minus := OpCode.Minus,
    TokenType.Div := OpCode.Div, TokenType.Mul := OpCode.Mul,
    TokenType.Band := OpCode.Band, TokenType.Bor := OpCode.Bor,
    TokenType.Is := OpCode.Eq]

  datatype Emitter = Emitter(
    Consts: seq<Value>,
    Blocks: seq<CodeBlock>,
    BlockStack: seq<nat>,
    VariablesUsed: seq<string>,
    VariablesAssigned: seq<string>,
    GlobalVariables: seq<string>,
    AddedEventsToObjectNamed: seq<string>)

  const Empty: Emitter := Emitter([], [], [], [], [], [], [])

  // ---------------------------------------------------------------------------
  // The constant pool
  // ---------------------------------------------------------------------------

  /** A literal the pool can hold (the two `FetchConst` overloads). */
  datatype Literal = Str(s: string) | Num(n: int)

  /** Pool entry `c` holds `lit`: same tag and same payload. */
  predicate Matches(c: Value, lit: Literal) {
    match lit
    case Str(s) => c.Type == String && c.StrValue == s
    case Num(n) => c.Type == Number && c.NumValue == n
  }

  function LiteralValue(lit: Literal): Value {
    match lit
    case Str(s) => OfString(s)
    case Num(n) => OfNumber(n)
  }

  /** Two pool entries that the same literal would match. */
  predicate SameLiteral(a: Value, b: Value) {
    || (a.Type == String && b.Type == String && a.StrValue == b.StrValue)
    || (a.Type == Number && b.Type == Number && a.NumValue == b.NumValue)
  }

  /** No literal is held twice: every entry differs from all the entries before it. */
  predicate Deduplicated(pool: seq<Value>)
    decreases |pool|
  {
    || |pool| == 0
    || (&& Deduplicated(pool[..|pool| - 1])
        && forall i :: 0 <= i < |pool| - 1 ==> !SameLiteral(pool[i], pool[|pool| - 1]))
  }

  /** `Deduplicated` says that no two entries hold the same literal. */
  lemma {:induction false} DeduplicatedMeans(pool: seq<Value>)
    ensures Deduplicated(pool) <==> forall i, j :: 0 <= i < j < |pool| ==> !SameLiteral(pool[i], pool[j])
    decreases |pool|
  {
    if |pool| > 0 {
      var init := pool[..|pool| - 1];
      DeduplicatedMeans(init);
      assert forall i :: 0 <= i < |init| ==> init[i] == pool[i];
    }
  }

  /** The first pool index holding `lit`, searching from index `from`. */
  function FirstMatch(pool: seq<Value>, lit: Literal, from: nat): (r: Option<nat>)
    requires from <= |pool|
    ensures r.Some? ==> from <= r.value < |pool|
    decreases |pool| - from
  {
    if from == |pool| then None
    else if Matches(pool[from], lit) then Some(from)
    else FirstMatch(pool, lit, from + 1)
  }

  /** The search finds the first matching index at or after `from`, and fails only when none matches. */
  lemma {:induction false} FirstMatchIsFirst(pool: seq<Value>, lit: Literal, from: nat)
    requires from <= |pool|
    ensures var r := FirstMatch(pool, lit, from);
      && (r.Some? ==> Matches(pool[r.value], lit) && forall j :: from <= j < r.value ==> !Matches(pool[j], lit))
      && (r.None? <==> forall j :: from <= j < |pool| ==> !Matches(pool[j], lit))
    decreases |pool| - from
  {
    if from < |pool| && !Matches(pool[from], lit) {
      FirstMatchIsFirst(pool, lit, from + 1);
    }
  }

  /**
   * `FetchConst`: the index of the entry already holding `lit`, or else the
   * index of a new entry appended for it.  Only the pool changes, it only
   * grows, and it never comes to hold a literal twice.
   */
  function FetchConst(e: Emitter, lit: Literal): (r: (Emitter, nat))
    ensures r.0 == e.(Consts := r.0.Consts) && IsPrefix(e.Consts, r.0.Consts)
    ensures Deduplicated(e.Consts) ==> Deduplicated(r.0.Consts)
  {
    FirstMatchIsFirst(e.Consts, lit, 0);
    match FirstMatch(e.Consts, lit, 0)
    case Some(i) => (e, i)
    case None =>
      var pool := e.Consts + [LiteralValue(lit)];
      assert pool[..|pool| - 1] == e.Consts;
      (e.(Consts := pool), |e.Consts|)
  }

  /**
   * The entry `FetchConst` returns holds the literal; when the pool already
   * held it, the pool is unchanged and the index is the first such entry;
   * otherwise the literal is appended and its index is the old pool size.
   */
  lemma FetchConstFinds(e: Emitter, lit: Literal)
    ensures var r := FetchConst(e, lit);
      && r.1 < |r.0.Consts| && Matches(r.0.Consts[r.1], lit)
      && ((exists j :: 0 <= j < |e.Consts| && Matches(e.Consts[j], lit)) ==>
            r.0.Consts == e.Consts && forall j :: 0 <= j < r.1 ==> !Matches(e.Consts[j], lit))
      && ((forall j :: 0 <= j < |e.Consts| ==> !Matches(e.Consts[j], lit)) ==>
            r.0.Consts == e.Consts + [LiteralValue(lit)] && r.1 == |e.Consts|)
  {
    FirstMatchIsFirst(e.Consts, lit, 0);
  }

  // ---------------------------------------------------------------------------
  // Blocks and instruction emission
  // ---------------------------------------------------------------------------

  /** Every open block exists and the pool holds no literal twice. */
  predicate Wf(e: Emitter) {
    && (forall i :: 0 <= i < |e.BlockStack| ==> e.BlockStack[i] < |e.Blocks|)
    && Deduplicated(e.Consts)
  }

  /** There is a block to emit into (the source's `CurrentBlock()` does not throw). */
  predicate HasCurrent(e: Emitter) {
    Wf(e) && |e.BlockStack| > 0
  }

  function Cur(e: Emitter): nat
    requires HasCurrent(e)
  {
    e.BlockStack[|e.BlockStack| - 1]
  }

  function CurCode(e: Emitter): seq<Instr>
    requires HasCurrent(e)
  {
    e.Blocks[Cur(e)].Instructions
  }

  /** `CurrentIP()`: the index of the last instruction of the open block (0 when none is open). */
  function CurrentIP(e: Emitter): int
    requires Wf(e)
  {
    if |e.BlockStack| == 0 then 0 else |CurCode(e)| - 1
  }

  /** The opcode `AddOp` really emits: `Const` turns into `Const2` once the pool holds 255 entries. */
  function Emitted(e: Emitter, op: OpCode): OpCode {
    if op == Const && |e.Consts| >= 255 then Const2 else op
  }

  function MakeInstr(op: OpCode, a1: int, a2: int, a3: int): Instr {
    Instr(op, ToByte(a1), ToByte(a2), ToByte(a3))
  }

  /** `AddOp`: appends one instruction to the open block and returns its index. */
  function AddOp(e: Emitter, op: OpCode, a1: int := 0, a2: int := 0, a3: int := 0): (r: (Emitter, int))
    requires HasCurrent(e)
    ensures HasCurrent(r.0) && r.0 == e.(Blocks := r.0.Blocks) && |r.0.Blocks| == |e.Blocks|
    ensures |CurCode(r.0)| == |CurCode(e)| + 1
    ensures r.1 == |CurCode(e)| == CurrentIP(r.0)
    ensures CurCode(r.0)[r.1] == MakeInstr(Emitted(e, op), a1, a2, a3)
  {
    var code := CurCode(e) + [MakeInstr(Emitted(e, op), a1, a2, a3)];
    var e' := e.(Blocks := e.Blocks[Cur(e) := CodeBlock(code)]);
    (e', |code| - 1)
  }

  /** Every block but block `c` is the same in `bs` and in `bs'`, and blocks were only added. */
  predicate SameExcept(bs: seq<CodeBlock>, bs': seq<CodeBlock>, c: nat) {
    c < |bs| <= |bs'| && bs'[..c] == bs[..c] && bs'[c + 1..|bs|] == bs[c + 1..]
  }

  /** `SetOp`: overwrites the instruction at `ip` of the open block. */
  function SetOp(e: Emitter, ip: int, op: OpCode, a1: int := 0, a2: int := 0, a3: int := 0): (r: Emitter)
    requires HasCurrent(e) && 0 <= ip < |CurCode(e)|
    ensures HasCurrent(r) && r == e.(Blocks := r.Blocks) && |r.Blocks| == |e.Blocks|
    ensures |CurCode(r)| == |CurCode(e)| && CurCode(r)[ip] == MakeInstr(Emitted(e, op), a1, a2, a3)
  {
    var code := CurCode(e)[ip := MakeInstr(Emitted(e, op), a1, a2, a3)];
    e.(Blocks := e.Blocks[Cur(e) := CodeBlock(code)])
  }

  /** `NewBlock`: appends an empty block, opens it, and returns its id. */
  function NewBlock(e: Emitter): (r: (Emitter, nat))
    requires Wf(e)
    ensures HasCurrent(r.0) && r.1 == |e.Blocks| && Cur(r.0) == r.1 && CurCode(r.0) == []
    ensures r.0 == e.(Blocks := e.Blocks + [CodeBlock([])], BlockStack := e.BlockStack + [r.1])
  {
    (e.(Blocks := e.Blocks + [CodeBlock([])], BlockStack := e.BlockStack + [|e.Blocks|]), |e.Blocks|)
  }

  /** `PopBlock`: closes the open block. */
  function PopBlock(e: Emitter): (r: Emitter)
    requires HasCurrent(e)
    ensures Wf(r) && r == e.(BlockStack := e.BlockStack[..|e.BlockStack| - 1])
  {
    e.(BlockStack := e.BlockStack[..|e.BlockStack| - 1])
  }

  /** Adds a name to one of the unit's diagnostic lists unless it is already there. */
  function AddName(names: seq<string>, name: string): seq<string> {
    if name in names then names else names + [name]
  }

  predicate EndsWithRet(b: CodeBlock) {
    |b.Instructions| > 0 && b.Instructions[|b.Instructions| - 1].Op == Ret
  }

  predicate IsPrefix<T(==)>(a: seq<T>, b: seq<T>) {
    |a| <= |b| && b[..|a|] == a
  }

  predicate AllEndWithRet(bs: seq<CodeBlock>) {
    forall b :: 0 <= b < |bs| ==> EndsWithRet(bs[b])
  }

  /**
   * What code generation may do to the state: keep the open-block stack,
   * only append to the pool, leave every existing block untouched except the
   * open one, and only append to that one.
   */
  predicate Extends(e: Emitter, e': Emitter) {
    && Wf(e) && Wf(e')
    && e'.BlockStack == e.BlockStack
    && |e.Blocks| <= |e'.Blocks|
    && IsPrefix(e.Consts, e'.Consts)
    && (if |e.BlockStack| == 0 then e'.Blocks[..|e.Blocks|] == e.Blocks
        else SameExcept(e.Blocks, e'.Blocks, Cur(e)) && IsPrefix(CurCode(e), CurCode(e')))
  }

  /** How many instructions the open block gained. */
  function Appended(e: Emitter, e': Emitter): int
    requires Wf(e) && Wf(e') && e'.BlockStack == e.BlockStack && |e.Blocks| <= |e'.Blocks|
  {
    if |e.BlockStack| == 0 then 0 else |CurCode(e')| - |CurCode(e)|
  }

  lemma ExtendsRefl(e: Emitter)
    requires Wf(e)
    ensures Extends(e, e)
  {
    if |e.BlockStack| > 0 {
      assert e.Blocks[Cur(e) + 1..|e.Blocks|] == e.Blocks[Cur(e) + 1..];
    }
  }

  lemma PrefixTrans<T>(a: seq<T>, b: seq<T>, c: seq<T>)
    requires IsPrefix(a, b) && IsPrefix(b, c)
    ensures IsPrefix(a, c)
  {
    assert c[..|a|] == c[..|b|][..|a|];
  }

  lemma SameExceptTrans(a: seq<CodeBlock>, b: seq<CodeBlock>, c: seq<CodeBlock>, k: nat)
    requires SameExcept(a, b, k) && SameExcept(b, c, k)
    ensures SameExcept(a, c, k)
  {
    assert c[..k] == c[..|b|][..k];
    assert b[k + 1..|a|] == b[k + 1..|b|][..|a| - k - 1];
    assert c[k + 1..|a|] == c[k + 1..|b|][..|a| - k - 1];
  }

  lemma ExtendsTrans(e1: Emitter, e2: Emitter, e3: Emitter)
    requires Extends(e1, e2) && Extends(e2, e3)
    ensures Extends(e1, e3)
    ensures Appended(e1, e3) == Appended(e1, e2) + Appended(e2, e3)
  {
    PrefixTrans(e1.Consts, e2.Consts, e3.Consts);
    var n1, n2 := |e1.Blocks|, |e2.Blocks|;
    if |e1.BlockStack| == 0 {
      assert e3.Blocks[..n1] == e3.Blocks[..n2][..n1];
    } else {
      PrefixTrans(CurCode(e1), CurCode(e2), CurCode(e3));
      SameExceptTrans(e1.Blocks, e2.Blocks, e3.Blocks, Cur(e1));
    }
  }

  lemma AddOpExtends(e: Emitter, op: OpCode, a1: int, a2: int, a3: int)
    requires HasCurrent(e)
    ensures Extends(e, AddOp(e, op, a1, a2, a3).0)
    ensures Appended(e, AddOp(e, op, a1, a2, a3).0) == 1
  {
  }

  lemma FetchConstExtends(e: Emitter, lit: Literal)
    requires Wf(e)
    ensures Extends(e, FetchConst(e, lit).0)
    ensures Appended(e, FetchConst(e, lit).0) == 0
  {
  }

  /** Patching an instruction that was itself emitted after `e0` keeps the extension. */
  lemma SetOpExtends(e0: Emitter, e: Emitter, ip: int, op: OpCode, a1: int)
    requires Extends(e0, e) && HasCurrent(e0) && |CurCode(e0)| <= ip < |CurCode(e)|
    ensures Extends(e0, SetOp(e, ip, op, a1))
    ensures Appended(e0, SetOp(e, ip, op, a1)) == Appended(e0, e)
  {
    var r := SetOp(e, ip, op, a1);
    var n := |CurCode(e0)|;
    assert CurCode(r)[..n] == CurCode(r)[..ip][..n];
    assert CurCode(e)[..n] == CurCode(e)[..ip][..n];
  }

  // ---------------------------------------------------------------------------
  // Identifiers
  // ---------------------------------------------------------------------------

  /** Emits `Const name` for one segment. */
  function EmitName(e: Emitter, name: string): (r: Emitter)
    requires HasCurrent(e)
    ensures Extends(e, r) && Appended(e, r) == 1
  {
    var c := FetchConst(e, Str(name));
    FetchConstExtends(e, Str(name));
    AddOpExtends(c.0, Const, c.1, 0, 0);
    ExtendsTrans(e, c.0, AddOp(c.0, Const, c.1).0);
    AddOp(c.0, Const, c.1).0
  }

  /**
   * `GenIdentifier`: `Const` for every segment with a `Fetch` between two of
   * them (never `FetchField`); returns the number of segments.
   */
  function GenIdentifier(id: Identifier, e: Emitter): (r: (Emitter, int))
    requires HasCurrent(e)
    ensures Extends(e, r.0) && r.1 == Segments(id)
    ensures Appended(e, r.0) == 2 * Segments(id) - 1
    decreases id
  {
    var e1 := EmitName(e, id.Name);
    match id.SubField
    case None => (e1, 1)
    case Some(sub) =>
      var e2 := AddOp(e1, Fetch).0;
      AddOpExtends(e1, Fetch, 0, 0, 0);
      ExtendsTrans(e, e1, e2);
      var r := GenIdentifier(sub, e2);
      ExtendsTrans(e, e2, r.0);
      (r.0, 1 + r.1)
  }

  function Segments(id: Identifier): nat
    decreases id
  {
    match id.SubField
    case None => 1
    case Some(sub) => 1 + Segments(sub)
  }

  /** `GenFetchIdentifier`: `Const`, then `Fetch` for the head or `FetchField` for a subfield, per segment. */
  function GenFetchIdentifier(id: Identifier, isSubField: bool, e: Emitter): (r: Emitter)
    requires HasCurrent(e)
    ensures Extends(e, r) && Appended(e, r) == 2 * Segments(id)
    decreases id
  {
    var e1 := EmitName(e, id.Name);
    var e2 := AddOp(e1, if isSubField then FetchField else Fetch).0;
    AddOpExtends(e1, if isSubField then FetchField else Fetch, 0, 0, 0);
    ExtendsTrans(e, e1, e2);
    match id.SubField
    case None => e2
    case Some(sub) =>
      var r := GenFetchIdentifier(sub, true, e2);
      ExtendsTrans(e, e2, r);
      r
  }

  /**
   * The handle of `on a.b.c run …`: `Const` per segment, `Fetch` after the
   * first, `FetchField` after every later one except the last.  The head name
   * is recorded among the objects that get events.
   */
  function GenHandle(handle: Identifier, first: bool, e: Emitter): (r: Emitter)
    requires HasCurrent(e)
    ensures Extends(e, r)
    decreases handle
  {
    var e1 := HandleSegment(handle, first, e);
    match handle.SubField
    case None => e1
    case Some(sub) =>
      var r := GenHandle(sub, false, e1);
      ExtendsTrans(e, e1, r);
      r
  }

  /** One pass of the handle loop: the segment's `Const`, the head's name, and the fetch that follows. */
  function HandleSegment(handle: Identifier, first: bool, e: Emitter): (r: Emitter)
    requires HasCurrent(e)
    ensures Extends(e, r)
  {
    var e1 := EmitName(e, handle.Name);
    var e2 := if first then e1.(AddedEventsToObjectNamed := AddName(e1.AddedEventsToObjectNamed, handle.Name)) else e1;
    var e3 := if first then AddOp(e2, Fetch).0 else if handle.SubField.Some? then AddOp(e2, FetchField).0 else e2;
    assert Extends(e, e3) by {
      assert Extends(e, e2);
      if first { AddOpExtends(e2, Fetch, 0, 0, 0); ExtendsTrans(e, e2, e3); }
      else if handle.SubField.Some? { AddOpExtends(e2, FetchField, 0, 0, 0); ExtendsTrans(e, e2, e3); }
    }
    e3
  }

  /** `GenAnnotations`: one `Annotation` instruction for each of the first `k` annotation names, in order. */
  function GenAnnotations(names: seq<string>, k: nat, e: Emitter): (r: Emitter)
    requires HasCurrent(e) && k <= |names|
    ensures Extends(e, r) && Appended(e, r) == k
  {
    if k == 0 then
      ExtendsRefl(e);
      e
    else
      var e1 := GenAnnotations(names, k - 1, e);
      var r := EmitAnnotation(e1, names[k - 1]);
      ExtendsTrans(e, e1, r);
      r
  }

  /** One pass of the annotation loop: `Annotation` naming the pooled string. */
  function EmitAnnotation(e: Emitter, name: string): (r: Emitter)
    requires HasCurrent(e)
    ensures Extends(e, r) && Appended(e, r) == 1
  {
    var c := FetchConst(e, Str(name));
    FetchConstExtends(e, Str(name));
    AddOpExtends(c.0, Annotation, c.1, 0, 0);
    ExtendsTrans(e, c.0, AddOp(c.0, Annotation, c.1).0);
    AddOp(c.0, Annotation, c.1).0
  }


  // ---------------------------------------------------------------------------
  // GenAst and the functions it calls
  // ---------------------------------------------------------------------------

  /** What `GenAst` needs to emit: an open block, except for a root block statement. */
  predicate CanGen(e: Emitter, ast: Ast, isExpr: bool) {
    Wf(e) && (|e.BlockStack| > 0 || (ast.AstBlock? && !isExpr))
  }

  /** The result of generating code: the new state and the count `GenAst` returns. */
  predicate GenOk(e: Emitter, r: Result<(Emitter, int)>) {
    r.Ok? ==> Extends(e, r.value.0) && r.value.1 == Appended(e, r.value.0)
  }

  /**
   * `GenAst`: emits the code of one node into the open block and returns
   * `CurrentIP()` after minus `CurrentIP()` before: the number of
   * instructions it appended there.
   */
  function GenAst(ast: Ast, isExpr: bool, e: Emitter): (r: Result<(Emitter, int)>)
    requires CanGen(e, ast, isExpr)
    ensures GenOk(e, r)
    decreases ast, 6
  {
    Measured(e, GenNode(ast, isExpr, e))
  }

  /** `GenAst` is the switch, measured. */
  lemma MeasuredNode(ast: Ast, isExpr: bool, e: Emitter, g: Result<Emitter>)
    requires CanGen(e, ast, isExpr) && g == GenNode(ast, isExpr, e)
    ensures GenAst(ast, isExpr, e) == Measured(e, g)
  {
  }

  /** The result of the switch, with the number of instructions it added (the difference of the two `CurrentIP()` readings). */
  function Measured(e: Emitter, r: Result<Emitter>): (m: Result<(Emitter, int)>)
    requires Wf(e) && (r.Ok? ==> Extends(e, r.value))
    ensures GenOk(e, m)
  {
    match r
    case Err(err) => Err(err)
    case Ok(e') => Ok((e', CurrentIP(e') - CurrentIP(e)))
  }

  /** The `switch` of `GenAst`. */
  function GenNode(ast: Ast, isExpr: bool, e: Emitter): (r: Result<Emitter>)
    requires CanGen(e, ast, isExpr)
    ensures r.Ok? ==> Extends(e, r.value)
    ensures r.Ok? && ast.AstBlock? ==> |e.Blocks| < |r.value.Blocks|
    decreases ast, 5
  {
    match ast
    case AstBlock(children) => GenBlockNode(ast, isExpr, e)
    case AstOn(handle, run) => GenOn(ast, e)
    case AstAssign(target, expr, op) => GenAssign(ast, e)
    case AstExpr(lhs, rhs, op) => GenExpr(ast, e)
    case AstIdentifier(id) => Ok(GenIdentifierNode(id, e))
    case AstNumber(n) => Ok(GenNumber(n, e))
    case AstString(s) => Ok(EmitConst(e, Str(s)))
    case AstCall(name, args) => GenCall(ast, isExpr, e)
    case AstRun(body) => GenRun(ast, isExpr, e)
    case AstIf(branches) => GenIf(ast, e)
    case AstBool(b) => Ok(GenBool(b, e))
    case AstGlobal(ids) => Ok(GenGlobal(ids, e))
    case AstObject(fields, annotations) => GenObject(ast, e)
    case AstNull => Err(UnhandledNode)
  }

  /** A block: generated as a block of its own; as an expression, its id is pushed with `PushBlock`. */
  function GenBlockNode(block: Ast, isExpr: bool, e: Emitter): (r: Result<Emitter>)
    requires block.AstBlock? && CanGen(e, block, isExpr)
    ensures r.Ok? ==> Extends(e, r.value) && |e.Blocks| < |r.value.Blocks|
    decreases block, 4
  {
    var b :- GenBlock(block, e);
    if isExpr then
      AddOpExtends(b.0, PushBlock, b.1, 0, 0);
      ExtendsTrans(e, b.0, AddOp(b.0, PushBlock, b.1).0);
      Ok(AddOp(b.0, PushBlock, b.1).0)
    else Ok(b.0)
  }

  /**
   * An identifier read: recorded as used; `this.x…` takes the
   * `GenIdentifier` layout, every other name the `GenFetchIdentifier` one.
   */
  function GenIdentifierNode(id: Identifier, e: Emitter): (r: Emitter)
    requires HasCurrent(e)
    ensures Extends(e, r)
  {
    var e1 := e.(VariablesUsed := AddName(e.VariablesUsed, id.Name));
    if id.Name == "this" && id.SubField.Some? then GenIdentifier(id, e1).0
    else GenFetchIdentifier(id, false, e1)
  }

  function GenBool(b: bool, e: Emitter): (r: Emitter)
    requires HasCurrent(e)
    ensures Extends(e, r) && Appended(e, r) == 1
  {
    AddOpExtends(e, if b then PushTrue else PushFalse, 0, 0, 0);
    AddOp(e, if b then PushTrue else PushFalse).0
  }

  /** `global a, b`: every name declared in turn, then `Global` with their count. */
  function GenGlobal(ids: seq<Identifier>, e: Emitter): (r: Emitter)
    requires HasCurrent(e)
    ensures Extends(e, r)
  {
    var e1 := DeclareGlobals(ids, |ids|, e);
    AddOpExtends(e1, OpCode.Global, |ids|, 0, 0);
    ExtendsTrans(e, e1, AddOp(e1, OpCode.Global, |ids|).0);
    AddOp(e1, OpCode.Global, |ids|).0
  }

  /** The first `k` names of a `global` statement, declared in order. */
  function DeclareGlobals(ids: seq<Identifier>, k: nat, e: Emitter): (r: Emitter)
    requires HasCurrent(e) && k <= |ids|
    ensures Extends(e, r)
  {
    if k == 0 then
      ExtendsRefl(e);
      e
    else
      var e1 := DeclareGlobals(ids, k - 1, e);
      var r := DeclareGlobal(ids[k - 1], e1);
      ExtendsTrans(e, e1, r);
      r
  }

  /** One name of a `global` statement: its `GenIdentifier` code, and the name recorded. */
  function DeclareGlobal(id: Identifier, e: Emitter): (r: Emitter)
    requires HasCurrent(e)
    ensures Extends(e, r)
  {
    var g := GenIdentifier(id, e);
    var e1 := g.0.(GlobalVariables := AddName(g.0.GlobalVariables, id.Name));
    assert Extends(e, e1);
    e1
  }

  /** `run body`: the body alone, in the same expression context. */
  function GenRun(run: Ast, isExpr: bool, e: Emitter): (r: Result<Emitter>)
    requires run.AstRun? && HasCurrent(e)
    ensures r.Ok? ==> Extends(e, r.value)
    decreases run, 4
  {
    var b :- GenAst(run.Body, isExpr, e);
    Ok(b.0)
  }

  /** `Const` of a pooled literal. */
  function EmitConst(e: Emitter, lit: Literal): (r: Emitter)
    requires HasCurrent(e)
    ensures Extends(e, r) && Appended(e, r) == 1
  {
    var c := FetchConst(e, lit);
    FetchConstExtends(e, lit);
    AddOpExtends(c.0, Const, c.1, 0, 0);
    ExtendsTrans(e, c.0, AddOp(c.0, Const, c.1).0);
    AddOp(c.0, Const, c.1).0
  }

  /** A number literal: an immediate `PushNumber` below 255, a pooled constant from 255 on. */
  function GenNumber(n: int, e: Emitter): (r: Emitter)
    requires HasCurrent(e)
    ensures Extends(e, r) && Appended(e, r) == 1
  {
    if n < 255 then
      AddOpExtends(e, PushNumber, n, 0, 0);
      AddOp(e, PushNumber, n).0
    else EmitConst(e, Num(n))
  }

  /** `on handle run body`: the handle's code, the body as a block value, then `On`. */
  function GenOn(on: Ast, e: Emitter): (r: Result<Emitter>)
    requires on.AstOn? && HasCurrent(e)
    ensures r.Ok? ==> Extends(e, r.value)
    decreases on, 4
  {
    var e1 := GenHandle(on.Handle, true, e);
    var e2 :- GenAst(on.Run, true, e1);
    AddOpExtends(e2.0, On, 0, 0, 0);
    ExtendsTrans(e, e1, e2.0);
    ExtendsTrans(e, e2.0, AddOp(e2.0, On).0);
    Ok(AddOp(e2.0, On).0)
  }

  /** The opcode each compound assignment token applies to the fetched target. */
  const CompoundOps: map<TokenType, OpCode> := map[
    TokenType.AssignPlus := OpCode.Plus, TokenType.AssignMinus := OpCode.Minus,
    TokenType.AssignMul := OpCode.Mul, TokenType.AssignDiv := OpCode.Div]

  /**
   * An assignment: the target's `GenIdentifier` code; then for `=` the value,
   * for `+=`, `-=`, `*=`, `/=` the target's fetch code, the value and the
   * operator, and for any other token nothing; then `AssignField` for a
   * dotted target or `Assign` for a plain one.
   */
  function GenAssign(assign: Ast, e: Emitter): (r: Result<Emitter>)
    requires assign.AstAssign? && HasCurrent(e)
    ensures r.Ok? ==> Extends(e, r.value)
    decreases assign, 4
  {
    var g := GenIdentifier(assign.Target, e);
    var e1 := g.0.(VariablesAssigned := AddName(g.0.VariablesAssigned, assign.Target.Name));
    var e2 :- GenAssignValue(assign, e1);
    ExtendsTrans(e, e1, e2);
    var e3 := AddOp(e2, if g.1 > 1 then AssignField else OpCode.Assign).0;
    AddOpExtends(e2, if g.1 > 1 then AssignField else OpCode.Assign, 0, 0, 0);
    ExtendsTrans(e, e2, e3);
    Ok(e3)
  }

  /** `GenAssign` as the target code, the recorded name, the value code and the store. */
  lemma GenAssignUnfold(assign: Ast, e: Emitter)
    requires assign.AstAssign? && HasCurrent(e)
    ensures var g := GenIdentifier(assign.Target, e);
      var e1 := g.0.(VariablesAssigned := AddName(g.0.VariablesAssigned, assign.Target.Name));
      GenAssign(assign, e) == match GenAssignValue(assign, e1)
        case Err(err) => Err(err)
        case Ok(e2) => Ok(AddOp(e2, if g.1 > 1 then AssignField else OpCode.Assign).0)
  {
  }

  /** The `switch (astAssign.Op)` of an assignment. */
  function GenAssignValue(assign: Ast, e: Emitter): (r: Result<Emitter>)
    requires assign.AstAssign? && HasCurrent(e)
    ensures r.Ok? ==> Extends(e, r.value)
    decreases assign, 1
  {
    if assign.Op == TokenType.Assign then
      var v :- GenAst(assign.Expr, true, e);
      Ok(v.0)
    else if assign.Op in CompoundOps then
      var e1 := GenFetchIdentifier(assign.Target, false, e);
      var v :- GenAst(assign.Expr, true, e1);
      ExtendsTrans(e, e1, v.0);
      AddOpExtends(v.0, CompoundOps[assign.Op], 0, 0, 0);
      ExtendsTrans(e, v.0, AddOp(v.0, CompoundOps[assign.Op]).0);
      Ok(AddOp(v.0, CompoundOps[assign.Op]).0)
    else Ok(e)
  }

  /**
   * A binary expression: an operator outside `OpsToOpcodes` is refused before
   * anything is emitted; otherwise the left operand, then either the
   * short-circuit layout (`and`, `or`) or the right operand and the opcode.
   */
  function GenExpr(expr: Ast, e: Emitter): (r: Result<Emitter>)
    requires expr.AstExpr? && HasCurrent(e)
    ensures r.Ok? ==> Extends(e, r.value)
    ensures expr.Op !in OpsToOpcodes ==> r == Err(UnexpectedOpcode)
    decreases expr, 4
  {
    if expr.Op !in OpsToOpcodes then Err(UnexpectedOpcode)
    else
      var l :- GenAst(expr.Lhs, true, e);
      var opcode := OpsToOpcodes[expr.Op];
      if opcode == OpCode.Band || opcode == OpCode.Bor then
        var r :- GenShortCircuit(expr, opcode, l.0);
        ExtendsTrans(e, l.0, r);
        Ok(r)
      else
        var rr :- GenAst(expr.Rhs, true, l.0);
        ExtendsTrans(e, l.0, rr.0);
        AddOpExtends(rr.0, opcode, 0, 0, 0);
        ExtendsTrans(e, rr.0, AddOp(rr.0, opcode).0);
        Ok(AddOp(rr.0, opcode).0)
  }

  /** An if-chain, then the patch of every branch's end jump to the chain's end. */
  function GenIf(chain: Ast, e: Emitter): (r: Result<Emitter>)
    requires chain.AstIf? && HasCurrent(e)
    ensures r.Ok? ==> Extends(e, r.value)
    decreases chain, 4
  {
    var c :- GenIfChain(chain, 0, e, []);
    var endPoint := CurrentIP(c.0);
    PatchEndJmpsExtends(e, c.0, c.1, 0, endPoint);
    Ok(PatchEndJmps(c.0, c.1, 0, endPoint))
  }

  /** An object literal: its annotations, `PushNewObject`, then its fields. */
  function GenObject(obj: Ast, e: Emitter): (r: Result<Emitter>)
    requires obj.AstObject? && HasCurrent(e)
    ensures r.Ok? ==> Extends(e, r.value)
    decreases obj, 4
  {
    var e1 := GenAnnotations(obj.Annotations, |obj.Annotations|, e);
    var e2 := AddOp(e1, PushNewObject).0;
    AddOpExtends(e1, PushNewObject, 0, 0, 0);
    ExtendsTrans(e, e1, e2);
    var e3 :- GenFields(obj, 0, e2);
    ExtendsTrans(e, e2, e3);
    Ok(e3)
  }

  /** `GenBlock`: a new block holding the children followed by `Ret`; returns its id. */
  function GenBlock(block: Ast, e: Emitter): (r: Result<(Emitter, nat)>)
    requires block.AstBlock? && Wf(e)
    ensures r.Ok? ==> Extends(e, r.value.0) && r.value.1 == |e.Blocks| < |r.value.0.Blocks|
    ensures r.Ok? ==> EndsWithRet(r.value.0.Blocks[r.value.1])
    decreases block, 1
  {
    var n := NewBlock(e);
    var c :- GenStatements(block, block.Children, 0, false, n.0);
    var e2 := AddOp(c, Ret).0;
    AddOpExtends(c, Ret, 0, 0, 0);
    ExtendsTrans(n.0, c, e2);
    var e3 := PopBlock(e2);
    NewBlockKeeps(e, e2);
    Ok((e3, n.1))
  }

  /** Whatever is generated into a block opened on top of `e` leaves the blocks of `e` alone. */
  lemma NewBlockKeeps(e: Emitter, e2: Emitter)
    requires Wf(e) && Extends(NewBlock(e).0, e2)
    ensures Extends(e, PopBlock(e2))
  {
    var n := |e.Blocks|;
    assert e2.Blocks[..n] == NewBlock(e).0.Blocks[..n] == e.Blocks;
    if |e.BlockStack| > 0 {
      var c := Cur(e);
      assert e2.Blocks[..c] == e2.Blocks[..n][..c];
      assert e2.Blocks[c + 1..n] == e2.Blocks[..n][c + 1..];
      assert e2.Blocks[c] == e2.Blocks[..n][c];
    }
  }

  /** `GenBlockContents`: the children straight into the open block; returns how many instructions they took. */
  function GenBlockContents(owner: Ast, children: seq<Ast>, e: Emitter): (r: Result<(Emitter, int)>)
    requires HasCurrent(e)
    requires owner.AstIf? && exists i :: 0 <= i < |owner.Branches| && owner.Branches[i].Block == children
    ensures GenOk(e, r)
    decreases owner, 1
  {
    var startip := CurrentIP(e);
    var c :- GenStatements(owner, children, 0, false, e);
    Ok((c, CurrentIP(c) - startip))
  }

  /** Whether `items` is a list of sub-nodes of `owner` (its children, call arguments or an if-branch body). */
  predicate ChildList(owner: Ast, items: seq<Ast>) {
    || (owner.AstBlock? && items == owner.Children)
    || (owner.AstCall? && items == owner.Args)
    || (owner.AstIf? && exists i :: 0 <= i < |owner.Branches| && owner.Branches[i].Block == items)
  }

  lemma ChildListSmaller(owner: Ast, items: seq<Ast>, k: nat)
    requires ChildList(owner, items) && k < |items|
    ensures items[k] < owner
  {
    if owner.AstIf? {
      var i :| 0 <= i < |owner.Branches| && owner.Branches[i].Block == items;
      assert owner.Branches[i] < owner;
      assert items[k] < owner.Branches[i];
    }
  }

  /** The `foreach` over children (`GenAst(child, false)`) or arguments (`GenAst(arg, true)`). */
  function GenStatements(owner: Ast, items: seq<Ast>, k: nat, isExpr: bool, e: Emitter): (r: Result<Emitter>)
    requires ChildList(owner, items) && k <= |items| && HasCurrent(e)
    ensures r.Ok? ==> Extends(e, r.value)
    decreases owner, 0, |items| - k
  {
    if k == |items| then Ok(e)
    else
      ChildListSmaller(owner, items, k);
      var c :- GenAst(items[k], isExpr, e);
      var r :- GenStatements(owner, items, k + 1, isExpr, c.0);
      ExtendsTrans(e, c.0, r);
      Ok(r)
  }

  /** `GenCall`: the callee's fetch code, the arguments, then `Call argc, expected`. */
  function GenCall(call: Ast, expectedToReturn: bool, e: Emitter): (r: Result<Emitter>)
    requires call.AstCall? && HasCurrent(e)
    ensures r.Ok? ==> Extends(e, r.value)
    decreases call, 1
  {
    var e1 := GenFetchIdentifier(call.Name, false, e);
    var e2 :- GenStatements(call, call.Args, 0, true, e1);
    ExtendsTrans(e, e1, e2);
    var e3 := AddOp(e2, Call, |call.Args|, if expectedToReturn then 1 else 0).0;
    AddOpExtends(e2, Call, |call.Args|, if expectedToReturn then 1 else 0, 0);
    ExtendsTrans(e, e2, e3);
    Ok(e3)
  }

  /**
   * After the left operand of `and` / `or`: a conditional jump over the right
   * operand (patched once its length is known), the right operand, `Jmp 1`
   * over a pushed literal, the literal, and the boolean opcode.
   */
  function GenShortCircuit(expr: Ast, opcode: OpCode, e: Emitter): (r: Result<Emitter>)
    requires expr.AstExpr? && (opcode == OpCode.Band || opcode == OpCode.Bor) && HasCurrent(e)
    ensures r.Ok? ==> Extends(e, r.value)
    decreases expr, 1
  {
    var j := AddOp(e, ShortCircuitJump(opcode));
    AddOpExtends(e, ShortCircuitJump(opcode), 0, 0, 0);
    var rhs :- GenAst(expr.Rhs, true, j.0);
    ExtendsTrans(e, j.0, rhs.0);
    var r := CloseShortCircuit(e, rhs.0, j.1, rhs.1, opcode);
    Ok(r)
  }

  /** The conditional jump over the right operand: taken on false for `and`, on true for `or`. */
  function ShortCircuitJump(opcode: OpCode): OpCode {
    if opcode == OpCode.Band then Czjmp else Cjmp
  }

  /**
   * After the right operand: the jump at `jmppos` is patched to land past it
   * and past the `Jmp 1` that follows, then the constant the skipped branch
   * leaves (`false` for `and`, `true` for `or`), then the operator itself.
   */
  function CloseShortCircuit(e0: Emitter, e: Emitter, jmppos: int, rhsamount: int, opcode: OpCode): (r: Emitter)
    requires Extends(e0, e) && HasCurrent(e0) && |CurCode(e0)| <= jmppos < |CurCode(e)|
    ensures Extends(e0, r)
  {
    var e2 := SetOp(e, jmppos, ShortCircuitJump(opcode), rhsamount + 1);
    SetOpExtends(e0, e, jmppos, ShortCircuitJump(opcode), rhsamount + 1);
    var e3 := AddOp(e2, Jmp, 1).0;
    AddOpExtends(e2, Jmp, 1, 0, 0);
    ExtendsTrans(e0, e2, e3);
    var e4 := AddOp(e3, if opcode == OpCode.Band then PushFalse else PushTrue).0;
    AddOpExtends(e3, if opcode == OpCode.Band then PushFalse else PushTrue, 0, 0, 0);
    ExtendsTrans(e0, e3, e4);
    var e5 := AddOp(e4, opcode).0;
    AddOpExtends(e4, opcode, 0, 0, 0);
    ExtendsTrans(e0, e4, e5);
    e5
  }


  /** The fields of an object literal from field `k` on. */
  function GenFields(obj: Ast, k: nat, e: Emitter): (r: Result<Emitter>)
    requires obj.AstObject? && k <= |obj.Fields| && HasCurrent(e)
    ensures r.Ok? ==> Extends(e, r.value)
    decreases obj, 2, |obj.Fields| - k, 1
  {
    if k == |obj.Fields| then Ok(e)
    else
      var e1 :- GenField(obj, k, e);
      var r :- GenFields(obj, k + 1, e1);
      ExtendsTrans(e, e1, r);
      Ok(r)
  }

  /** Unrolls one pass of the field loop. */
  lemma GenFieldsStep(obj: Ast, k: nat, e: Emitter)
    requires obj.AstObject? && k < |obj.Fields| && HasCurrent(e)
    ensures GenFields(obj, k, e) == match GenField(obj, k, e)
      case Err(err) => Err(err)
      case Ok(e1) => GenFields(obj, k + 1, e1)
  {
  }

  /** Field `k`: `Const key`, the value, `AssignField 1` (which leaves the object on the stack). */
  function GenField(obj: Ast, k: nat, e: Emitter): (r: Result<Emitter>)
    requires obj.AstObject? && k < |obj.Fields| && HasCurrent(e)
    ensures r.Ok? ==> Extends(e, r.value)
    decreases obj, 2, 0
  {
    var e1 := EmitName(e, obj.Fields[k].0);
    assert obj.Fields[k].1 < obj.Fields[k] < obj;
    var v :- GenAst(obj.Fields[k].1, true, e1);
    ExtendsTrans(e, e1, v.0);
    var e2 := AddOp(v.0, AssignField, 1).0;
    AddOpExtends(v.0, AssignField, 1, 0, 0);
    ExtendsTrans(e, v.0, e2);
    Ok(e2)
  }

  /**
   * One branch with a condition: the condition, a `Czjmp` placeholder, the
   * body, a `Jmp` placeholder, then the `Czjmp` patched to skip the body and
   * the `Jmp`.  Returns the state and the position of the `Jmp`.
   */
  function GenCondBranch(chain: Ast, k: nat, e: Emitter): (r: Result<(Emitter, int)>)
    requires chain.AstIf? && k < |chain.Branches| && chain.Branches[k].Expr.Some? && HasCurrent(e)
    ensures r.Ok? ==> Extends(e, r.value.0) && |CurCode(e)| <= r.value.1 < |CurCode(r.value.0)|
    decreases chain, 2
  {
    var branch := chain.Branches[k];
    assert branch < chain;
    assert branch.Expr.value < chain;
    var cond :- GenAst(branch.Expr.value, true, e);
    var cz := AddOp(cond.0, Czjmp, -1);
    AddOpExtends(cond.0, Czjmp, -1, 0, 0);
    ExtendsTrans(e, cond.0, cz.0);
    assert chain.Branches[k].Block == branch.Block;
    var body :- GenBlockContents(chain, branch.Block, cz.0);
    ExtendsGrows(e, cond.0);
    ExtendsGrows(cz.0, body.0);
    ExtendsTrans(e, cz.0, body.0);
    var jmp := AddOp(body.0, Jmp, -1);
    AddOpExtends(body.0, Jmp, -1, 0, 0);
    ExtendsTrans(e, body.0, jmp.0);
    assert |CurCode(e)| <= cz.1 < jmp.1 < |CurCode(jmp.0)|;
    var e5 := SetOp(jmp.0, cz.1, Czjmp, CurrentIP(jmp.0) - cz.1);
    SetOpExtends(e, jmp.0, cz.1, Czjmp, CurrentIP(jmp.0) - cz.1);
    Ok((e5, jmp.1))
  }

  /**
   * The `while (astIf != null)` loop from branch `k` on: a conditional branch
   * emits its condition, a `Czjmp` placeholder, its body and a `Jmp`
   * placeholder, then patches the `Czjmp` to land just past that `Jmp`; a
   * branch without a condition emits its body inline.  Returns the state and
   * the positions of the `Jmp` placeholders.
   */
  function GenIfChain(chain: Ast, k: nat, e: Emitter, endJmps: seq<int>): (r: Result<(Emitter, seq<int>)>)
    requires chain.AstIf? && k <= |chain.Branches| && HasCurrent(e)
    ensures r.Ok? ==> Extends(e, r.value.0) && |endJmps| <= |r.value.1| && r.value.1[..|endJmps|] == endJmps
    ensures r.Ok? ==> forall c :: |endJmps| <= c < |r.value.1| ==> |CurCode(e)| <= r.value.1[c] < |CurCode(r.value.0)|
    decreases chain, 3, |chain.Branches| - k, 1
  {
    if k == |chain.Branches| then Ok((e, endJmps))
    else
      var step :- GenBranch(chain, k, e, endJmps);
      var rest :- GenIfChain(chain, k + 1, step.0, step.1);
      ExtendsTrans(e, step.0, rest.0);
      ExtendsGrows(e, step.0);
      ExtendsGrows(step.0, rest.0);
      assert rest.1[..|endJmps|] == step.1[..|step.1|][..|endJmps|];
      Ok(rest)
  }

  /** One iteration of the if-chain loop: branch `k`, recording its end jump when it has a condition. */
  function GenBranch(chain: Ast, k: nat, e: Emitter, endJmps: seq<int>): (r: Result<(Emitter, seq<int>)>)
    requires chain.AstIf? && k < |chain.Branches| && HasCurrent(e)
    ensures r.Ok? ==> Extends(e, r.value.0) && |r.value.1| == |endJmps| + (if chain.Branches[k].Expr.Some? then 1 else 0)
    ensures r.Ok? ==> r.value.1[..|endJmps|] == endJmps
    ensures r.Ok? ==> forall c :: |endJmps| <= c < |r.value.1| ==> |CurCode(e)| <= r.value.1[c] < |CurCode(r.value.0)|
    decreases chain, 3, 0
  {
    if chain.Branches[k].Expr.Some? then
      var c :- GenCondBranch(chain, k, e);
      Ok((c.0, endJmps + [c.1]))
    else
      var body :- GenBlockContents(chain, chain.Branches[k].Block, e);
      Ok((body.0, endJmps))
  }

  lemma ExtendsGrows(e: Emitter, e': Emitter)
    requires Extends(e, e') && HasCurrent(e)
    ensures HasCurrent(e') && Cur(e') == Cur(e) && |CurCode(e)| <= |CurCode(e')|
  {
  }

  /**
   * The backward `for` loop patching the end jumps: the state once the jumps
   * from the last one down to index `c` are set to land one past `endPoint`.
   */
  function PatchEndJmps(e: Emitter, endJmps: seq<int>, c: nat, endPoint: int): (r: Emitter)
    requires HasCurrent(e) && c <= |endJmps|
    requires forall i :: 0 <= i < |endJmps| ==> 0 <= endJmps[i] < |CurCode(e)|
    ensures HasCurrent(r) && |CurCode(r)| == |CurCode(e)|
    decreases |endJmps| - c
  {
    if c == |endJmps| then e
    else SetOp(PatchEndJmps(e, endJmps, c + 1, endPoint), endJmps[c], Jmp, endPoint - endJmps[c])
  }

  lemma PatchEndJmpsExtends(e0: Emitter, e: Emitter, endJmps: seq<int>, c: nat, endPoint: int)
    requires Extends(e0, e) && HasCurrent(e0) && c <= |endJmps|
    requires forall i :: 0 <= i < |endJmps| ==> |CurCode(e0)| <= endJmps[i] < |CurCode(e)|
    ensures Extends(e0, PatchEndJmps(e, endJmps, c, endPoint))
    ensures Appended(e0, PatchEndJmps(e, endJmps, c, endPoint)) == Appended(e0, e)
    decreases |endJmps| - c
  {
    if c < |endJmps| {
      PatchEndJmpsExtends(e0, e, endJmps, c + 1, endPoint);
      SetOpExtends(e0, PatchEndJmps(e, endJmps, c + 1, endPoint), endJmps[c], Jmp, endPoint - endJmps[c]);
    }
  }

  /** `Compile`: the root block becomes a block of its own, and the result is the assembled state. */
  function Compile(root: Ast): (r: Result<Emitter>)
    requires root.AstBlock?
    ensures r.Ok? ==> Wf(r.value) && r.value.BlockStack == [] && |r.value.Blocks| > 0
  {
    var g :- GenAst(root, false, Empty);
    Ok(g.0)
  }
}
