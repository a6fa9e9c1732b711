/**
 * The runtime data model shared by the compiler and the virtual machine:
 * the tagged `Value` record (Value.cs), the instruction set (OpCode.cs) and
 * the compiled unit (CompUnit.cs).  They live in one module because a value
 * can reference a code block, a code block belongs to a compiled unit, and a
 * compiled unit holds a pool of values.
 */
module Values {

  datatype Option<+T> = None | Some(value: T)

  /** An unsigned byte, the width of every instruction operand. */
  type byte = x: int | 0 <= x < 256

  /** C#'s unchecked `(byte) n`: keeps the low eight bits of the two's complement. */
  function ToByte(n: int): (b: byte)
    ensures 0 <= n < 256 ==> b == n
    ensures (b - n) % 256 == 0
  {
    n % 256
  }

  // ---------------------------------------------------------------------------
  // Instructions (OpCode.cs)
  // ---------------------------------------------------------------------------

  datatype OpCode =
    | Global | On | Ret | Const | Const2 | Fetch | FetchField | Assign | AssignField
    | Call | Run | PushNumber | PushBlock | PushTrue | PushFalse | PushNewObject
    | PushNull | Annotation | Jmp | Cjmp | Czjmp
    | Plus | Minus | Div | Mul | Eq | Neq | Gt | Lt | Lte | Gte | Band | Bor
    | Debug

  /** An opcode and its three byte operands (`Args[0..2]` in the source). */
  datatype Instr = Instr(Op: OpCode, Arg0: byte, Arg1: byte, Arg2: byte)

  /** A block's instruction list; the source's `Block` class holds only this. */
  datatype CodeBlock = CodeBlock(Instructions: seq<Instr>)

  /**
   * A compiled unit.  Once the compiler has assembled it, it never changes, so
   * its fields are constants; its identity (a reference) is what makes two
   * blocks of equal code distinct.
   */
  class CompUnit {
    const Name: string
    const Filename: string
    const Consts: seq<Value>
    const Blocks: seq<CodeBlock>
    const VariablesUsed: seq<string>
    const VariablesAssigned: seq<string>
    const GlobalVariables: seq<string>
    const AddedEventsToObjectNamed: seq<string>

    constructor (name: string, filename: string, consts: seq<Value>, blocks: seq<CodeBlock>,
                 used: seq<string>, written: seq<string>, globals: seq<string>, withEvents: seq<string>)
      ensures Name == name && Filename == filename && Consts == consts && Blocks == blocks
      ensures VariablesUsed == used && VariablesAssigned == written
      ensures GlobalVariables == globals && AddedEventsToObjectNamed == withEvents
    {
      Name, Filename, Consts, Blocks := name, filename, consts, blocks;
      VariablesUsed, VariablesAssigned := used, written;
      GlobalVariables, AddedEventsToObjectNamed := globals, withEvents;
    }
  }

  /** The identity of a `Block` object: the unit that owns it and its position there. */
  datatype BlockRef = BlockRef(Unit: CompUnit, Index: nat)

  /** The instructions a block reference stands for (none for an index outside its unit). */
  function Code(b: BlockRef): seq<Instr> {
    if b.Index < |b.Unit.Blocks| then b.Unit.Blocks[b.Index].Instructions else []
  }

  // ---------------------------------------------------------------------------
  // Values (Value.cs)
  // ---------------------------------------------------------------------------

  datatype ValueType = String | Number | Boolean | Block | Object | NullVal | NativeFunc

  datatype ValueAnnotation = ValueAnnotation(Name: string)

  /** Index of a script object in the virtual machine's object table. */
  type ObjectId = nat

  /** Host handle of a registered native function (the delegate itself is foreign code). */
  type NativeId = nat

  /**
   * The `Value` struct with every one of its fields.  Only the payload that
   * matches `Type` is meaningful; the others keep the defaults the
   * constructors give them, and the interpreter reads them anyway (a non-string
   * name has `StrValue == ""`, a non-boolean condition has `BoolValue == false`).
   * Numbers are integers here.
   */
  datatype Value = Value(
    Type: ValueType,
    IsConst: bool,
    IsGlobal: bool,
    StrValue: string,
    NumValue: int,
    BoolValue: bool,
    BlockValue: Option<BlockRef>,
    ObjectValue: Option<ObjectId>,
    FuncValue: Option<NativeId>,
    Annotations: seq<ValueAnnotation>)

  /** `new Value(type)`: the tag, no flags, default payloads, no annotations. */
  function OfType(t: ValueType): Value {
    Value(t, false, false, "", 0, false, None, None, None, [])
  }

  function OfString(s: string): Value { OfType(String).(StrValue := s) }

  function OfNumber(n: int): Value { OfType(Number).(NumValue := n) }

  function OfBool(b: bool): Value { OfType(Boolean).(BoolValue := b) }

  function OfBlock(b: BlockRef): Value { OfType(Block).(BlockValue := Some(b)) }

  function OfObject(o: ObjectId): Value { OfType(Object).(ObjectValue := Some(o)) }

  function OfFunc(f: NativeId): Value { OfType(NativeFunc).(FuncValue := Some(f)) }

  /** A value as a constructor leaves it: no flags and no annotations yet. */
  predicate Plain(v: Value) {
    !v.IsConst && !v.IsGlobal && v.Annotations == []
  }

  /**
   * Every constructor tags the value with its own type, starts it plain, and
   * sets exactly the payload of that type.
   */
  lemma ConstructorsSetOnlyTheirPayload(t: ValueType, s: string, n: int, b: bool, blk: BlockRef,
                                        o: ObjectId, f: NativeId)
    ensures Plain(OfType(t)) && OfType(t).Type == t
    ensures Plain(OfString(s)) && OfString(s) == OfType(String).(StrValue := s)
    ensures Plain(OfNumber(n)) && OfNumber(n) == OfType(Number).(NumValue := n)
    ensures Plain(OfBool(b)) && OfBool(b) == OfType(Boolean).(BoolValue := b)
    ensures Plain(OfBlock(blk)) && OfBlock(blk) == OfType(Block).(BlockValue := Some(blk))
    ensures Plain(OfObject(o)) && OfObject(o) == OfType(Object).(ObjectValue := Some(o))
    ensures Plain(OfFunc(f)) && OfFunc(f) == OfType(NativeFunc).(FuncValue := Some(f))
    ensures OfType(t).StrValue == "" && OfType(t).NumValue == 0 && !OfType(t).BoolValue
    ensures OfType(t).BlockValue == None && OfType(t).ObjectValue == None && OfType(t).FuncValue == None
  {
  }

  predicate Is(v: Value, t: ValueType) {
    v.Type == t
  }

  /** The value carries an annotation called `name`. */
  function HasAnnotation(v: Value, name: string): (r: bool)
    ensures r <==> exists i :: 0 <= i < |v.Annotations| && v.Annotations[i].Name == name
  {
    AnyNamed(v.Annotations, name)
  }

  /** The linear search of `HasAnnotation`, front to back. */
  function AnyNamed(annotations: seq<ValueAnnotation>, name: string): (r: bool)
    ensures r <==> exists i :: 0 <= i < |annotations| && annotations[i].Name == name
  {
    if annotations == [] then false
    else if annotations[0].Name == name then true
    else
      var r := AnyNamed(annotations[1..], name);
      assert forall i :: 1 <= i < |annotations| ==> annotations[i] == annotations[1..][i - 1];
      r
  }

  /**
   * The canonical rendering behind `+` on strings and behind `==`/`!=`.
   * An object falls through the switch and renders as the empty string.
   */
  function ForceToString(v: Value): string {
    match v.Type
    case Block => "[block]"
    case NativeFunc => "[nativefunc]"
    case Boolean => if v.BoolValue then "true" else "false"
    case NullVal => "null"
    case Number => IntToString(v.NumValue)
    case String => v.StrValue
    case Object => ""
  }

  // ---------------------------------------------------------------------------
  // Decimal rendering of integral numbers, with its inverse
  // ---------------------------------------------------------------------------

  const Digits: string := "0123456789"

  function DigitChar(d: int): char
    requires 0 <= d < 10
  {
    Digits[d]
  }

  function NatToString(n: nat): (s: string)
    ensures |s| > 0
    ensures forall i :: 0 <= i < |s| ==> s[i] in Digits
    decreases n
  {
    if n < 10 then [DigitChar(n)] else NatToString(n / 10) + [DigitChar(n % 10)]
  }

  /**
   * `"" + (int) n`: an optional minus sign followed by the decimal digits.
   * The source takes this rendering only for numbers inside the 32-bit range.
   */
  function IntToString(n: int): string {
    if n < 0 then "-" + NatToString(-n) else NatToString(n)
  }

  function DigitValue(c: char): int {
    if '0' <= c <= '9' then c as int - '0' as int else 0
  }

  /** Reads a string of decimal digits back as a number. */
  function DigitsValue(s: string): int
    decreases |s|
  {
    if s == [] then 0 else DigitsValue(s[..|s| - 1]) * 10 + DigitValue(s[|s| - 1])
  }

  /** Reads back what `IntToString` writes. */
  function ParseInt(s: string): int {
    if |s| > 0 && s[0] == '-' then -DigitsValue(s[1..]) else DigitsValue(s)
  }

  lemma {:induction false} DigitsValueOfNat(n: nat)
    ensures DigitsValue(NatToString(n)) == n
    decreases n
  {
    if n >= 10 {
      DigitsValueOfNat(n / 10);
      var s := NatToString(n);
      assert s[..|s| - 1] == NatToString(n / 10);
      assert DigitValue(DigitChar(n % 10)) == n % 10 by {
        assert Digits[n % 10] as int - '0' as int == n % 10;
      }
    } else {
      assert DigitValue(DigitChar(n)) == n by {
        assert Digits[n] as int - '0' as int == n;
      }
    }
  }

  lemma NatToStringHasNoSign(n: nat)
    ensures NatToString(n)[0] != '-'
  {
    var s := NatToString(n);
    assert s[0] in Digits;
    assert forall i :: 0 <= i < |Digits| ==> Digits[i] != '-';
  }

  /** Rendering then reading gives the number back. */
  lemma ParseIntToString(n: int)
    ensures ParseInt(IntToString(n)) == n
  {
    if n < 0 {
      DigitsValueOfNat(-n);
      var s := IntToString(n);
      assert s[0] == '-' && s[1..] == NatToString(-n);
    } else {
      DigitsValueOfNat(n);
      NatToStringHasNoSign(n);
    }
  }

  /** Distinct integers render differently, so `Eq` on two numbers is numeric equality. */
  lemma IntToStringInjective(a: int, b: int)
    ensures IntToString(a) == IntToString(b) <==> a == b
  {
    if IntToString(a) == IntToString(b) {
      ParseIntToString(a);
      ParseIntToString(b);
    }
  }
}
