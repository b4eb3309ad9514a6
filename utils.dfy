/** The helper constructors for internal messages and their module-wide id counter. */
module Utils {
  import opened JsValues
  import opened Messages

  function MakeMessage(kind: MessageType, name: string, payload: Value, id: Value): (m: Message)
    ensures m.kind == kind && m.name == name && m.payload == payload && m.id == id
  {
    Message(kind, id, name, payload)
  }

  function MakeInternalMessage(name: string, payload: Value, id: Value): (m: Message)
    ensures m.kind == Internal && m.name == name && m.payload == payload && m.id == id
  {
    MakeMessage(Internal, name, payload, id)
  }

  /** A signal never carries an id, so no reply can be correlated to it. */
  function MakeSignalMessage(signal: string, payload: Value): (m: Message)
    ensures m.kind == Signal && m.id.Undefined? && m.name == signal && m.payload == payload
  {
    MakeMessage(Signal, signal, payload, Undefined)
  }

  /** The module-global `_nextId` counter and the constructor that draws from it. */
  class IdSource {
    var next: nat

    constructor ()
      ensures next == 0
    {
      next := 0;
    }

    /** `nextId()`: returns the counter and advances it, so successive ids strictly increase. */
    method NextId() returns (id: nat)
      modifies this
      ensures id == old(next) && next == id + 1
    {
      id := next;
      next := next + 1;
    }

    /** An explicit id, 0 included, is kept and leaves the counter alone; a missing one is drawn from it. */
    method MakeRequestMessage(methodName: string, params: Value, id: Value) returns (m: Message)
      modifies this
      ensures m.kind == Rpc && m.name == methodName && m.payload == params
      ensures !id.Undefined? ==> m.id == id && next == old(next)
      ensures id.Undefined? ==> m.id == Num(old(next)) && next == old(next) + 1
    {
      var useId := id;
      if id.Undefined? {
        var drawn := NextId();
        useId := Num(drawn);
      }
      m := MakeMessage(Rpc, methodName, params, useId);
    }
  }

  /** Two id-less requests made one after the other get distinct ids. */
  method TwoRequestsGetDistinctIds(ids: IdSource, methodName: string, params: Value) returns (a: Message, b: Message)
    modifies ids
    ensures a.id != b.id && a.id.Num? && b.id.Num? && a.id.n < b.id.n
  {
    a := ids.MakeRequestMessage(methodName, params, Undefined);
    b := ids.MakeRequestMessage(methodName, params, Undefined);
  }
}
