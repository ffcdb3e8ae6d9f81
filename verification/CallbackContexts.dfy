/**
 One registry of transaction callbacks as an object: its counter, its map from ids to
 closures, the two callbacks that C makes with an id, and a whole blocking call.
 */
module CallbackContexts {
  import opened Wrappers
  import opened Rendezvous

  /** The channel of a blocking call, with room for one result. */
  class Slot {
    var content: Option<GoResult>

    constructor ()
      ensures content == None
    {
      content := None;
    }
  }

  class Contexts {
    const kind: Kind
    var next: nat
    var entries: map<nat, Slot>     // an id's closure sends to this channel

    ghost predicate Valid()
      reads this
    {
      forall id <- entries :: 0 < id <= next
    }

    constructor (kind: Kind)
      ensures Valid() && this.kind == kind && entries == map[]
    {
      this.kind := kind;
      next, entries := 0, map[];
    }

    /** RegisterTransaction*Callback */
    method Register(slot: Slot) returns (id: nat)
      requires Valid()
      modifies this
      ensures Valid() && id !in old(entries) && id != 0
      ensures entries == old(entries)[id := slot] && next == old(next) + 1 == id
    {
      next := next + 1;
      id := next;
      entries := entries[id := slot];
    }

    /** UnregisterTransaction*Callback, and all that goTransaction*Free does */
    method Unregister(id: nat)
      requires Valid()
      modifies this`entries
      ensures Valid() && entries == old(entries) - {id}
    {
      entries := entries - {id};
    }

    /** goTransaction*Callback: an unknown id is ignored; a known one gets the result into its channel. */
    method Callback(id: nat, result: CResult)
      requires Valid()
      requires id in entries ==> entries[id].content.None?
      modifies if id in entries then {entries[id]} else {}
      ensures id in entries ==> entries[id].content == Some(Delivered(kind, result))
    {
      if id == 0 {
        return;
      }
      if id !in entries {
        return;
      }
      entries[id].content := Some(Closure(kind, ClosureArguments(kind, result)));
    }

    /**
     A whole call of one of the three blocking functions, with C's answer. C may free the id
     before or after the function has dropped it; either way nothing is left behind.
     */
    method BlockingCall(answer: CResult, freedFirst: bool) returns (g: GoResult)
      requires Valid()
      modifies this
      ensures Valid() && g == Delivered(kind, answer)
      ensures entries == old(entries) && next == old(next) + 1
    {
      var slot := new Slot();
      var id := Register(slot);
      Callback(id, answer);
      if freedFirst {
        Unregister(id);
      }
      g := slot.content.value;
      slot.content := None;
      Unregister(id);
      if !freedFirst {
        Unregister(id);
      }
      assert old(entries)[id := slot] - {id} == old(entries);
    }
  }
}
