/**
 * The `DataHolder` class of DataHolder.cs: two dictionaries updated in place.
 * Each method is proved to leave the state the corresponding function of
 * module `Holders` computes.  The read and write hooks are host callbacks
 * whose results the source ignores; they are not part of the model.
 */
module Binding {
  import opened Values
  import Holders

  class DataHolder {
    var Variables: map<string, Value>
    var Events: map<string, seq<BlockRef>>

    /** The holder's contents as a value. */
    function Snapshot(): Holders.Holder
      reads this
    {
      Holders.Holder(Variables, Events)
    }

    constructor ()
      ensures Snapshot() == Holders.EmptyHolder
    {
      Variables, Events := map[], map[];
    }

    method EnableEvent(eventName: string)
      modifies this
      ensures Snapshot() == Holders.EnableEvent(old(Snapshot()), eventName)
    {
      if eventName !in Events {
        Events := Events[eventName := []];
      }
    }

    method AddEvent(eventName: string, block: BlockRef)
      modifies this
      ensures Snapshot() == Holders.AddEvent(old(Snapshot()), eventName, block)
    {
      EnableEvent(eventName);
      if block in Events[eventName] {
        return;
      }
      Events := Events[eventName := Events[eventName] + [block]];
    }

    method GetVariable(name: string) returns (v: Value)
      ensures v == Holders.GetVariable(Snapshot(), name)
    {
      if name !in Variables {
        v := OfType(NullVal);
        return;
      }
      v := Variables[name];
    }

    method SetVariable(name: string, value: Value) returns (ok: bool)
      modifies this
      ensures (Snapshot(), ok) == Holders.SetVariable(old(Snapshot()), name, value)
    {
      Variables := Variables[name := value];
      ok := true;
    }

    method SetFunction(name: string, func: NativeId, isGlobal: bool := false) returns (ok: bool)
      modifies this
      ensures (Snapshot(), ok) == Holders.SetFunction(old(Snapshot()), name, func, isGlobal)
    {
      var val := OfFunc(func);
      val := val.(IsConst := true);
      val := val.(IsGlobal := true);
      ok := SetVariable(name, val);
    }

    method HasVar(name: string) returns (b: bool)
      ensures b == Holders.HasVar(Snapshot(), name)
    {
      b := name in Variables;
    }

    method HasEvent(eventName: string) returns (b: bool)
      ensures b == Holders.HasEvent(Snapshot(), eventName)
    {
      b := eventName in Events;
    }
  }
}
