/**
 The registry of store observer contexts and the callback that C makes, as objects used one
 call at a time. The registry's functions do to the objects what the atomic steps of
 ObserverContexts do when nobody comes in between.
 */
module ObserverRegistry {
  import opened Wrappers
  import opened Runs
  import opened ObserverContexts

  function AfterRegister(s: State): State {
    var id := s.lastId + 1;
    s.(lastId := id, registry := s.registry + {id}, contexts := s.contexts[id := NEW_CONTEXT])
  }

  function AfterUnregister(s: State, id: nat): State {
    if id !in s.registry then s
    else s.(registry := s.registry - {id}, contexts := s.contexts[id := Context(false, 1, false)])
  }

  lemma {:induction false} RegisterAlone(s: State, t: nat) returns (events: seq<Event>)
    requires t !in s.threads
    ensures Run(s, Next, events) == Some(Start(AfterRegister(s), t, Stored(s.lastId + 1)))
  {
    events := [] + [StartRegister(t)] + [Step(t)];
    var s1 := Next(s, StartRegister(t)).value;
    Extend(s, Next, [], s, StartRegister(t));
    Extend(s, Next, [] + [StartRegister(t)], s1, Step(t));
    assert Next(s1, Step(t)).value.threads == s.threads[t := Stored(s.lastId + 1)];
  }

  /** An unregistration that nobody interrupts. */
  lemma {:induction false} UnregisterAlone(s: State, t: nat, id: nat) returns (events: seq<Event>)
    requires t !in s.threads && id in s.contexts && (id in s.registry ==> s.contexts[id] == NEW_CONTEXT)
    ensures Run(s, Next, events) == Some(Start(AfterUnregister(s, id), t, Dropped(id)))
  {
    var s1 := Start(s, t, Dropping(id));
    Extend(s, Next, [], s, StartUnregister(t, id));
    Extend(s, Next, [] + [StartUnregister(t, id)], s1, Step(t));
    events := [] + [StartUnregister(t, id)] + [Step(t)];
    DropAlone(s, t, id);
    if id in s.registry {
      var out := s.(registry := s.registry - {id});
      var s2 := Start(out, t, CleaningUp(id));
      CleanupAlone(out, t, id);
      var s3 := Next(s2, Step(t)).value;
      Extend(s, Next, events, s2, Step(t));
      Extend(s, Next, events + [Step(t)], s3, Step(t));
      events := events + [Step(t)] + [Step(t)];
    }
  }

  lemma {:induction false} DropAlone(s: State, t: nat, id: nat)
    ensures Next(Start(s, t, Dropping(id)), Step(t)) ==
            Some(if id in s.registry then Start(s.(registry := s.registry - {id}), t, CleaningUp(id)) else Start(s, t, Dropped(id)))
  {
    var next := Next(Start(s, t, Dropping(id)), Step(t)).value;
    assert next.threads == if id in s.registry then s.threads[t := CleaningUp(id)] else s.threads[t := Dropped(id)];
  }

  lemma {:induction false} CleanupAlone(s: State, t: nat, id: nat)
    requires id in s.contexts && s.contexts[id] == NEW_CONTEXT
    ensures var s2 := Start(s, t, CleaningUp(id));
            && Next(s2, Step(t)).Some?
            && Next(Next(s2, Step(t)).value, Step(t))
            == Some(Start(s.(contexts := s.contexts[id := Context(false, 1, false)]), t, Dropped(id)))
  {
    var s3 := Next(Start(s, t, CleaningUp(id)), Step(t)).value;
    assert s3.contexts[id] == Context(false, 0, true);
    var s4 := Next(s3, Step(t)).value;
    assert s4.threads == s.threads[t := Dropped(id)];
    assert s4.contexts == s.contexts[id := Context(false, 1, false)];
  }

  /** A lookup that nobody interrupts answers whether the id is stored, and changes nothing. */
  lemma {:induction false} LookupAlone(s: State, t: nat, id: nat) returns (events: seq<Event>)
    requires Inv(s) && t !in s.threads
    ensures Run(s, Next, events) == Some(Start(s, t, Answered(id, id in s.registry)))
  {
    var s1 := Start(s, t, LookingUp(id));
    Extend(s, Next, [], s, StartLookup(t, id));
    Extend(s, Next, [] + [StartLookup(t, id)], s1, Step(t));
    events := [] + [StartLookup(t, id)] + [Step(t)];
    var s2 := Next(s1, Step(t)).value;
    if id in s.registry {
      assert Staged(s, id);
      assert s2.threads == s.threads[t := Loaded(id)];
      Extend(s, Next, events, s2, Step(t));
      events := events + [Step(t)];
      assert Next(s2, Step(t)).value.threads == s.threads[t := Answered(id, true)];
    } else {
      assert s2.threads == s.threads[t := Answered(id, false)];
    }
  }

  lemma {:induction false} NotYetStored(s: State)
    requires Inv(s)
    ensures s.lastId + 1 !in s.registry && s.registry + {s.lastId + 1} - {s.lastId + 1} == s.registry
  {}

  // ---------------------------------------------------------------- the objects

  /** What the user's handler does: how often it calls the signal function it may have been given, and how it ends. */
  datatype Handling = Handling(signals: nat, panics: bool)

  /** storeObserverContexts and nextStoreObserverID, with every context there ever was; a callback is named by its id. */
  class Contexts {
    var lastId: nat
    var stored: set<nat>
    var contexts: map<nat, Context>
    var autoSignal: map<nat, bool>

    function View(): State
      reads this
    {
      State(lastId, stored, contexts, map[])
    }

    ghost predicate Valid()
      reads this
    {
      Inv(View()) && autoSignal.Keys == contexts.Keys && 0 !in contexts
    }

    constructor ()
      ensures Valid() && View() == EMPTY
    {
      lastId, stored, contexts, autoSignal := 0, {}, map[], map[];
    }

    /** RegisterStoreObserverCallback, with or without the signal function */
    method Register(auto: bool) returns (id: nat)
      requires Valid()
      modifies this
      ensures Valid() && View() == AfterRegister(old(View()))
      ensures id == lastId && id != 0 && id !in old(contexts) && id in stored
      ensures autoSignal == old(autoSignal)[id := auto] && stored == old(stored) + {id}
      ensures contexts == old(contexts)[id := Context(true, 0, true)]
    {
      lastId := lastId + 1;
      id := lastId;
      contexts := contexts[id := NEW_CONTEXT];
      autoSignal := autoSignal[id := auto];
      stored := stored + {id};
      forall j <- contexts ensures Staged(View(), j) { assert j != id ==> Staged(old(View()), j); }
    }

    /** cleanup, and finalize */
    method Cleanup(id: nat)
      requires id in contexts
      modifies this`contexts
      ensures contexts == if old(contexts)[id].active then old(contexts)[id := Context(false, old(contexts)[id].unpins + 1, false)]
                          else old(contexts)
    {
      var c := contexts[id];
      if c.active {
        c := c.(active := false);
        c := c.(unpins := c.unpins + 1);
        c := c.(finalizer := false);
        contexts := contexts[id := c];
      }
    }

    /** UnregisterStoreObserverCallback, and all that goStoreObserverFree does */
    method Unregister(id: nat)
      requires Valid()
      modifies this`stored, this`contexts
      ensures Valid() && View() == AfterUnregister(old(View()), id) && stored == old(stored) - {id}
      ensures contexts == if id in old(stored) then old(contexts)[id := Context(false, 1, false)] else old(contexts)
    {
      if id in stored {
        assert Staged(View(), id);
        stored := stored - {id};
        Cleanup(id);
        forall j <- contexts ensures Staged(View(), j) { assert Staged(old(View()), j); }
      }
    }

    /** GetStoreObserverContext: a stored context is always active. */
    method Get(id: nat) returns (found: bool)
      requires Valid()
      ensures found <==> id in stored
    {
      if id in stored {
        assert Staged(View(), id);
        return contexts[id].active;
      }
      return false;
    }

    /**
     goStoreObserverCallback: how often C is signalled before the callback returns, if it has passed
     a signal function. The deferred recovery signals after a panic, so a plain handler signals once
     however it ends.
     */
    method Callback(id: nat, handling: Handling, canSignal: bool) returns (signals: nat)
      requires Valid()
      ensures id !in stored || !canSignal ==> signals == 0
      ensures id in stored && canSignal ==> signals == if autoSignal[id] then 1 else handling.signals + if handling.panics then 1 else 0
    {
      signals := 0;
      if id == 0 {
        return;
      }
      var found := Get(id);
      if !found {
        return;
      }
      if !autoSignal[id] {
        signals := if canSignal then handling.signals else 0;
        if handling.panics && canSignal {
          signals := signals + 1;
        }
      } else {
        if handling.panics {
          signals := if canSignal then 1 else 0;
          return;
        }
        if canSignal {
          signals := signals + 1;
        }
      }
    }

    /** StoreRegisterObserverThrows; `fails` is C's answer */
    method RegisterWithC(auto: bool, fails: bool) returns (id: Option<nat>)
      requires Valid()
      modifies this
      ensures Valid() && (id.None? <==> fails)
      ensures fails ==> View() == AfterUnregister(AfterRegister(old(View())), old(lastId) + 1) && stored == old(stored)
      ensures !fails ==> View() == AfterRegister(old(View())) && id == Some(lastId)
    {
      NotYetStored(View());
      var drawn := Register(auto);
      if fails {
        Unregister(drawn);
        return None;
      }
      return Some(drawn);
    }
  }
}
