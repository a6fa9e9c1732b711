/**
 * The binding container of DataHolder.cs and the read-only lookups that
 * ScriptObject.cs adds, as functions on a value.  A `Holder` is what one
 * `DataHolder` (the virtual machine's own scope, or a script object) holds:
 * a name-to-value map and an event registry with one handler list per event
 * name.  The `DataHolder` class (binding.dfy) is proved to do what these
 * functions say; the virtual machine applies them to the script objects it
 * keeps in its object table.
 */
module Holders {
  import opened Values

  datatype Holder = Holder(Variables: map<string, Value>, Events: map<string, seq<BlockRef>>)

  /** A freshly constructed holder: no bindings and no events. */
  const EmptyHolder: Holder := Holder(map[], map[])

  /** The handlers registered under `name`, none when the name is unregistered. */
  function Handlers(h: Holder, name: string): seq<BlockRef> {
    if name in h.Events then h.Events[name] else []
  }

  /** No block occurs twice in the list. */
  predicate Distinct(blocks: seq<BlockRef>) {
    forall i, j :: 0 <= i < j < |blocks| ==> blocks[i] != blocks[j]
  }

  /** Every handler list of the registry is free of duplicates. */
  predicate RegistryDistinct(h: Holder) {
    forall name :: name in h.Events ==> Distinct(h.Events[name])
  }

  // ---------------------------------------------------------------------------
  // DataHolder.cs
  // ---------------------------------------------------------------------------

  /** Registers `name` with an empty handler list unless it is registered already. */
  function EnableEvent(h: Holder, name: string): (r: Holder)
    ensures r.Variables == h.Variables
    ensures r.Events.Keys == h.Events.Keys + {name}
    ensures forall n :: n in h.Events ==> r.Events[n] == h.Events[n]
    ensures Handlers(r, name) == Handlers(h, name)
  {
    if name in h.Events then h else h.(Events := h.Events[name := []])
  }

  /**
   * Registers `block` as a handler of `name`, after every handler already
   * there, unless the very same block (same unit, same position) is there.
   */
  function AddEvent(h: Holder, name: string, block: BlockRef): (r: Holder)
    ensures r.Variables == h.Variables
    ensures r.Events.Keys == h.Events.Keys + {name}
    ensures forall n :: n in h.Events && n != name ==> r.Events[n] == h.Events[n]
    ensures block in Handlers(r, name)
    ensures Handlers(h, name) <= Handlers(r, name)
    ensures |Handlers(r, name)| == |Handlers(h, name)| + (if block in Handlers(h, name) then 0 else 1)
  {
    var e := EnableEvent(h, name);
    if block in e.Events[name] then e else e.(Events := e.Events[name := e.Events[name] + [block]])
  }

  /** The bound value, or a fresh null when the name is unbound. */
  function GetVariable(h: Holder, name: string): (v: Value)
    ensures name in h.Variables ==> v == h.Variables[name]
    ensures name !in h.Variables ==> v == OfType(NullVal) && Plain(v)
  {
    if name in h.Variables then h.Variables[name] else OfType(NullVal)
  }

  /** Binds `name` to `value` whatever was bound before; always reports success. */
  function SetVariable(h: Holder, name: string, value: Value): (r: (Holder, bool))
    ensures r.1
    ensures r.0.Events == h.Events
    ensures r.0.Variables.Keys == h.Variables.Keys + {name}
    ensures r.0.Variables[name] == value
    ensures forall n :: n in h.Variables && n != name ==> r.0.Variables[n] == h.Variables[n]
  {
    (h.(Variables := h.Variables[name := value]), true)
  }

  /** The value `SetFunction` binds: a native function marked constant and global. */
  function FunctionValue(func: NativeId): (v: Value)
    ensures v.Type == NativeFunc && v.FuncValue == Some(func)
    ensures v.IsConst && v.IsGlobal && v.Annotations == []
  {
    OfFunc(func).(IsConst := true, IsGlobal := true)
  }

  /**
   * Binds a native function.  The `isGlobal` argument is accepted and
   * ignored: the binding is global and constant either way.
   */
  function SetFunction(h: Holder, name: string, func: NativeId, isGlobal: bool): (r: (Holder, bool))
    ensures r.1 && r.0.Events == h.Events
    ensures r.0.Variables == h.Variables[name := FunctionValue(func)]
  {
    SetVariable(h, name, FunctionValue(func))
  }

  predicate HasVar(h: Holder, name: string) {
    name in h.Variables
  }

  predicate HasEvent(h: Holder, name: string) {
    name in h.Events
  }

  // ---------------------------------------------------------------------------
  // ScriptObject.cs
  // ---------------------------------------------------------------------------

  /** The handlers of `name` in registration order, or none if it is unregistered. */
  function GetEvents(h: Holder, name: string): (r: seq<BlockRef>)
    ensures HasEvent(h, name) ==> r == h.Events[name]
    ensures !HasEvent(h, name) ==> r == []
  {
    if !HasEvent(h, name) then [] else h.Events[name]
  }

  /** The object a binding refers to can be looked up in `objects`. */
  predicate ResolvesIn(v: Value, objects: seq<Holder>) {
    v.ObjectValue.Some? && v.ObjectValue.value < |objects|
  }

  /**
   * The handlers of `name` on the object bound to `varName`; none when `varName` is
   * unbound, is not an object, or the object has no such event.  Objects
   * are looked up in `objects` by their identity.
   */
  function GetVarEvents(h: Holder, objects: seq<Holder>, varName: string, name: string): (r: seq<BlockRef>)
    requires HasVar(h, varName) && h.Variables[varName].Type == Object ==> ResolvesIn(h.Variables[varName], objects)
    ensures !HasVar(h, varName) ==> r == []
    ensures HasVar(h, varName) && h.Variables[varName].Type != Object ==> r == []
    ensures HasVar(h, varName) && h.Variables[varName].Type == Object ==>
              r == GetEvents(objects[h.Variables[varName].ObjectValue.value], name)
  {
    if !HasVar(h, varName) then []
    else if h.Variables[varName].Type != Object then []
    else
      var obj := objects[h.Variables[varName].ObjectValue.value];
      if !HasEvent(obj, name) then [] else obj.Events[name]
  }

  // ---------------------------------------------------------------------------
  // Properties
  // ---------------------------------------------------------------------------

  /** Enabling an event twice is enabling it once. */
  lemma EnableEventIdempotent(h: Holder, name: string)
    ensures EnableEvent(EnableEvent(h, name), name) == EnableEvent(h, name)
    ensures HasEvent(h, name) ==> EnableEvent(h, name) == h
  {
  }

  /** Adding a block that is already registered changes nothing; adding one twice is adding it once. */
  lemma AddEventIdempotent(h: Holder, name: string, block: BlockRef)
    ensures block in Handlers(h, name) ==> AddEvent(h, name, block) == EnableEvent(h, name)
    ensures AddEvent(AddEvent(h, name, block), name, block) == AddEvent(h, name, block)
  {
  }

  /** A new block goes to the end of its list, after everything registered before it. */
  lemma AddEventAppends(h: Holder, name: string, block: BlockRef)
    ensures block !in Handlers(h, name) ==> Handlers(AddEvent(h, name, block), name) == Handlers(h, name) + [block]
  {
  }

  /** Handler lists never hold the same block twice. */
  lemma AddEventKeepsDistinct(h: Holder, name: string, block: BlockRef)
    requires RegistryDistinct(h)
    ensures RegistryDistinct(AddEvent(h, name, block))
  {
    var r := AddEvent(h, name, block);
    forall n | n in r.Events
      ensures Distinct(r.Events[n])
    {
      if n == name && block !in Handlers(h, name) {
        var before := Handlers(h, name);
        assert r.Events[n] == before + [block];
        forall i, j | 0 <= i < j < |r.Events[n]|
          ensures r.Events[n][i] != r.Events[n][j]
        {
          if j == |before| {
            assert r.Events[n][i] == before[i];
          }
        }
      }
    }
  }

  /**
   * Registering handlers one after the other yields them in registration
   * order, each once: the registry lists the distinct blocks in the order
   * their first registration came.
   */
  function Registered(h: Holder, name: string, blocks: seq<BlockRef>): (r: Holder)
    decreases |blocks|
  {
    if blocks == [] then EnableEvent(h, name)
    else AddEvent(Registered(h, name, blocks[..|blocks| - 1]), name, blocks[|blocks| - 1])
  }

  /** The distinct elements of a list, each at its first occurrence. */
  function FirstOccurrences(blocks: seq<BlockRef>): seq<BlockRef>
    decreases |blocks|
  {
    if blocks == [] then []
    else
      var pre := FirstOccurrences(blocks[..|blocks| - 1]);
      if blocks[|blocks| - 1] in pre then pre else pre + [blocks[|blocks| - 1]]
  }

  lemma {:induction false} FirstOccurrencesSameElements(blocks: seq<BlockRef>, b: BlockRef)
    ensures b in FirstOccurrences(blocks) <==> b in blocks
    decreases |blocks|
  {
    if blocks != [] {
      FirstOccurrencesSameElements(blocks[..|blocks| - 1], b);
      assert blocks == blocks[..|blocks| - 1] + [blocks[|blocks| - 1]];
    }
  }

  lemma {:induction false} RegisteredInOrder(h: Holder, name: string, blocks: seq<BlockRef>)
    requires !HasEvent(h, name)
    ensures Handlers(Registered(h, name, blocks), name) == FirstOccurrences(blocks)
    decreases |blocks|
  {
    if blocks != [] {
      RegisteredInOrder(h, name, blocks[..|blocks| - 1]);
    }
  }

  /** Reading never creates a binding, and a write is seen by the next read of the same name only. */
  lemma SetThenGet(h: Holder, name: string, other: string, value: Value)
    ensures GetVariable(SetVariable(h, name, value).0, name) == value
    ensures other != name ==> GetVariable(SetVariable(h, name, value).0, other) == GetVariable(h, other)
    ensures HasVar(SetVariable(h, name, value).0, other) <==> other == name || HasVar(h, other)
  {
  }

  /** `SetFunction` ignores its `isGlobal` argument. */
  lemma SetFunctionIgnoresIsGlobal(h: Holder, name: string, func: NativeId)
    ensures SetFunction(h, name, func, false) == SetFunction(h, name, func, true)
    ensures GetVariable(SetFunction(h, name, func, false).0, name).IsGlobal
  {
  }
}
