/**
 The registry of store observer contexts: contexts are stored under fresh ids, looked up by
 C's callbacks, and dropped by the error path of a registration or by C's free, in any
 interleaving and any number of times. The garbage collector may finalize a context that
 nothing refers to any more.
 */
module ObserverContexts {
  import opened Wrappers
  import opened Runs

  /** A context, named by its id: its atomic flag, how often its pinner has unpinned it, and whether it has a finalizer. */
  datatype Context = Context(active: bool, unpins: nat, finalizer: bool)

  const NEW_CONTEXT := Context(true, 0, true)

  /** A goroutine, or a thread of C, inside one of the registry's functions. */
  datatype Thread =
    | Storing(id: nat)                      // Register: the id is drawn, the context not stored yet
    | Stored(id: nat)
    | LookingUp(id: nat)                    // Get: before the load
    | Loaded(id: nat)                       // Get: holds the context, before the check of its flag
    | Answered(id: nat, found: bool)
    | Dropping(id: nat)                     // Unregister: before the load-and-delete
    | CleaningUp(id: nat)                   // cleanup: before the compare-and-swap
    | Unpinning(id: nat)                    // cleanup: the swap succeeded
    | Dropped(id: nat)

  datatype State = State(lastId: nat, registry: set<nat>, contexts: map<nat, Context>, threads: map<nat, Thread>)

  const EMPTY := State(0, {}, map[], map[])

  datatype Event =
    | StartRegister(thread: nat)
    | StartLookup(thread: nat, id: nat)
    | StartUnregister(thread: nat, id: nat)
    | StartFinalize(thread: nat, id: nat)
    | Step(thread: nat)

  /** The context has a finalizer, and no map entry and no running function refers to it. */
  predicate Collectable(s: State, id: nat) {
    && id in s.contexts && id !in s.registry && s.contexts[id].finalizer
    && forall t <- s.threads :: s.threads[t] != Loaded(id) && s.threads[t] != Answered(id, true)
                             && s.threads[t] != CleaningUp(id) && s.threads[t] != Unpinning(id)
  }

  function Start(s: State, t: nat, as_: Thread): State { s.(threads := s.threads[t := as_]) }

  function Next(s: State, e: Event): Option<State> {
    match e
    case StartRegister(t) =>
      if t in s.threads then None else Some(Start(s.(lastId := s.lastId + 1), t, Storing(s.lastId + 1)))
    case StartLookup(t, id) => if t in s.threads then None else Some(Start(s, t, LookingUp(id)))
    case StartUnregister(t, id) =>   // its callers know the ids that Register has returned
      if t in s.threads || id !in s.contexts then None else Some(Start(s, t, Dropping(id)))
    case StartFinalize(t, id) =>
      if t in s.threads || !Collectable(s, id) then None else Some(Start(s, t, CleaningUp(id)))
    case Step(t) => if t !in s.threads then None else Advance(s, t, s.threads[t])
  }

  /** The next atomic operation of a thread. */
  function Advance(s: State, t: nat, at: Thread): Option<State> {
    match at
    case Storing(id) =>
      Some(Start(s.(registry := s.registry + {id}, contexts := s.contexts[id := NEW_CONTEXT]), t, Stored(id)))
    case LookingUp(id) =>
      Some(Start(s, t, if id in s.registry then Loaded(id) else Answered(id, false)))
    case Loaded(id) =>
      if id !in s.contexts then None else Some(Start(s, t, Answered(id, s.contexts[id].active)))
    case Dropping(id) =>
      if id in s.registry then Some(Start(s.(registry := s.registry - {id}), t, CleaningUp(id)))
      else Some(Start(s, t, Dropped(id)))
    case CleaningUp(id) =>
      if id !in s.contexts then None
      else if s.contexts[id].active then
        Some(Start(s.(contexts := s.contexts[id := s.contexts[id].(active := false)]), t, Unpinning(id)))
      else Some(Start(s, t, Dropped(id)))
    case Unpinning(id) =>
      if id !in s.contexts then None
      else
        var c := s.contexts[id];
        Some(Start(s.(contexts := s.contexts[id := c.(unpins := c.unpins + 1, finalizer := false)]), t, Dropped(id)))
    case _ => None
  }

  // ---------------------------------------------------------------- the invariant

  ghost predicate Owner(s: State, t: nat, id: nat) {
    t in s.threads && (s.threads[t] == CleaningUp(id) || s.threads[t] == Unpinning(id))
  }

  /** Ids are drawn once, and each stored context comes from one draw. */
  ghost predicate IdsFresh(s: State) {
    && (forall id <- s.contexts :: id <= s.lastId)
    && (forall id <- s.registry :: id in s.contexts)
    && (forall t <- s.threads | s.threads[t].Storing? :: s.threads[t].id <= s.lastId && s.threads[t].id !in s.contexts)
    && (forall t <- s.threads, u <- s.threads | t != u && s.threads[t].Storing? && s.threads[u].Storing? ::
          s.threads[t].id != s.threads[u].id)
    && (forall t <- s.threads | s.threads[t].Loaded? || s.threads[t].Dropping? :: s.threads[t].id in s.contexts)
    && (forall t <- s.threads | s.threads[t].Dropped? :: s.threads[t].id in s.contexts && s.threads[t].id !in s.registry)
  }

  /**
   A context is in one of four stages: stored and untouched; taken out by one function that has yet to
   swap its flag; swapped by that function, which has yet to unpin it; or unpinned once and for all.
   */
  ghost predicate Staged(s: State, id: nat)
    requires id in s.contexts
  {
    && (id in s.registry ==> s.contexts[id] == NEW_CONTEXT && forall t :: !Owner(s, t, id))
    && (forall t | Owner(s, t, id) ::
          s.contexts[id] == (if s.threads[t].CleaningUp? then NEW_CONTEXT else Context(false, 0, true))
          && forall u | Owner(s, u, id) :: u == t)
    && (id !in s.registry && (forall t :: !Owner(s, t, id)) ==> s.contexts[id] == Context(false, 1, false))
  }

  ghost predicate Inv(s: State) {
    && IdsFresh(s)
    && (forall id <- s.contexts :: Staged(s, id))
    && (forall t, id | Owner(s, t, id) :: id in s.contexts)
  }

  /** The finalizer never runs: whoever takes a context out of the registry cleans it up. */
  lemma {:induction false} NothingToFinalize(s: State, id: nat)
    requires Inv(s)
    ensures !Collectable(s, id)
  {}

  lemma {:induction false} FreshAfterAdvance(s: State, t: nat)
    requires IdsFresh(s) && t in s.threads && Advance(s, t, s.threads[t]).Some?
    requires s.threads[t].CleaningUp? || s.threads[t].Unpinning? ==> s.threads[t].id in s.contexts && s.threads[t].id !in s.registry
    ensures IdsFresh(Advance(s, t, s.threads[t]).value)
  {}

  lemma {:induction false} FreshKept(s: State, e: Event)
    requires Inv(s) && Next(s, e).Some?
    ensures IdsFresh(Next(s, e).value)
  {
    if e.StartFinalize? { NothingToFinalize(s, e.id); }
    if e.Step? {
      var at := s.threads[e.thread];
      if at.CleaningUp? || at.Unpinning? { assert Owner(s, e.thread, at.id); }
      FreshAfterAdvance(s, e.thread);
    }
  }

  /** Who may clean up a context is who already could, or who has just taken it out of the registry. */
  lemma {:induction false} OwnersKept(s: State, e: Event, t: nat, id: nat)
    requires Inv(s) && Next(s, e).Some? && Owner(Next(s, e).value, t, id)
    ensures id in Next(s, e).value.contexts
    ensures Owner(s, t, id) || (e == Step(t) && s.threads[t] == Dropping(id) && id in s.registry)
  {
    if e.StartFinalize? { NothingToFinalize(s, e.id); }
    if Owner(s, t, id) { assert id in s.contexts; } else { assert s.threads[t] == Dropping(id); }
  }

  /** A step that is not about this context. */
  lemma {:induction false} StagedElsewhere(s: State, e: Event, id: nat)
    requires Inv(s) && Next(s, e).Some? && id in s.contexts
    requires !e.StartFinalize? && (e.Step? ==> s.threads[e.thread].id != id)
    ensures Staged(Next(s, e).value, id)
  {
    assert Staged(s, id);
    forall t ensures Owner(Next(s, e).value, t, id) <==> Owner(s, t, id) {}
  }

  lemma {:induction false} StagedAfterCleanup(s: State, t: nat, id: nat)
    requires IdsFresh(s) && id in s.contexts && Staged(s, id) && Owner(s, t, id) && Advance(s, t, s.threads[t]).Some?
    ensures Staged(Advance(s, t, s.threads[t]).value, id)
  {
    var s' := Advance(s, t, s.threads[t]).value;
    assert s.contexts[id] == if s.threads[t].CleaningUp? then NEW_CONTEXT else Context(false, 0, true);
    forall u | u != t ensures !Owner(s', u, id) { assert !Owner(s, u, id); }
    if s.threads[t].CleaningUp? { assert Owner(s', t, id); }
  }

  lemma {:induction false} StagedAfterDrop(s: State, t: nat, id: nat)
    requires id in s.contexts && Staged(s, id) && t in s.threads && s.threads[t] == Dropping(id)
    ensures Staged(Advance(s, t, Dropping(id)).value, id)
  {
    var s' := Advance(s, t, Dropping(id)).value;
    forall u | u != t ensures Owner(s', u, id) <==> Owner(s, u, id) {}
    assert !Owner(s, t, id);
    if id in s.registry { assert Owner(s', t, id); }
  }

  lemma {:induction false} StagedAfterLookup(s: State, t: nat, id: nat)
    requires id in s.contexts && Staged(s, id) && t in s.threads && Advance(s, t, s.threads[t]).Some?
    requires s.threads[t] == LookingUp(id) || s.threads[t] == Loaded(id)
    ensures Staged(Advance(s, t, s.threads[t]).value, id)
  {
    forall u ensures Owner(Advance(s, t, s.threads[t]).value, u, id) <==> Owner(s, u, id) {}
  }

  lemma {:induction false} StagedWhenStored(s: State, t: nat, id: nat)
    requires Inv(s) && t in s.threads && s.threads[t] == Storing(id)
    ensures Staged(Advance(s, t, Storing(id)).value, id)
  {
    forall u ensures !Owner(Advance(s, t, Storing(id)).value, u, id) { assert !Owner(s, u, id); }
  }

  lemma {:induction false} StagedKept(s: State, e: Event, id: nat)
    requires Inv(s) && Next(s, e).Some? && id in Next(s, e).value.contexts
    ensures Staged(Next(s, e).value, id)
  {
    match e
    case StartFinalize(_, j) => NothingToFinalize(s, j);
    case Step(t) =>
      if s.threads[t].id != id {
        StagedElsewhere(s, e, id);
      } else {
        match s.threads[t]
        case Storing(_) => StagedWhenStored(s, t, id);
        case Dropping(_) => StagedAfterDrop(s, t, id);
        case CleaningUp(_) => assert Owner(s, t, id); StagedAfterCleanup(s, t, id);
        case Unpinning(_) => assert Owner(s, t, id); StagedAfterCleanup(s, t, id);
        case _ => StagedAfterLookup(s, t, id);
      }
    case _ => StagedElsewhere(s, e, id);
  }

  lemma {:induction false} StepKeepsInv(s: State, e: Event)
    requires Inv(s) && Next(s, e).Some?
    ensures Inv(Next(s, e).value)
  {
    FreshKept(s, e);
    forall id <- Next(s, e).value.contexts ensures Staged(Next(s, e).value, id) { StagedKept(s, e, id); }
    forall t, id | Owner(Next(s, e).value, t, id) ensures id in Next(s, e).value.contexts { OwnersKept(s, e, t, id); }
  }

  lemma {:induction false} InvHolds(events: seq<Event>)
    requires Run(EMPTY, Next, events).Some?
    ensures Inv(Run(EMPTY, Next, events).value)
  {
    forall s, e | Inv(s) && Next(s, e).Some? ensures Inv(Next(s, e).value) { StepKeepsInv(s, e); }
    Invariance(EMPTY, Next, Inv, events);
  }

  // ---------------------------------------------------------------- what callers can rely on

  /** No two registrations draw the same id, and an id is stored at most once. */
  lemma {:induction false} IdsNeverRepeat(events: seq<Event>, e: Event)
    requires Run(EMPTY, Next, events).Some? && Next(Run(EMPTY, Next, events).value, e).Some?
    ensures var s := Run(EMPTY, Next, events).value;
            && (e.StartRegister? ==> Next(s, e).value.threads[e.thread].id !in s.contexts)
            && (e.StartRegister? ==> forall t <- s.threads | s.threads[t].Storing? ::
                  s.threads[t].id != Next(s, e).value.threads[e.thread].id)
            && (e.Step? && s.threads[e.thread].Storing? ==> s.threads[e.thread].id !in s.contexts)
  {
    InvHolds(events);
  }

  /**
   A context is unpinned at most once; and exactly once when it has left the registry and no
   Unregister of it is still at its cleanup. The garbage collector never finds one to finalize.
   */
  lemma {:induction false} UnpinnedOnce(events: seq<Event>, id: nat)
    requires Run(EMPTY, Next, events).Some? && id in Run(EMPTY, Next, events).value.contexts
    ensures var s := Run(EMPTY, Next, events).value;
            && s.contexts[id].unpins <= 1
            && (s.contexts[id].unpins == 1 <==> id !in s.registry && forall t :: !Owner(s, t, id))
            && (id in s.registry ==> s.contexts[id].active)
            && !Collectable(s, id)
  {
    InvHolds(events);
    var s := Run(EMPTY, Next, events).value;
    assert Staged(s, id);
    NothingToFinalize(s, id);
    if t :| Owner(s, t, id) {
      assert s.contexts[id].unpins == 0;
    }
  }

  /** What stays true of an id once an Unregister of it has completed, for lookups that start later. */
  ghost predicate Gone(s: State, id: nat, earlier: set<nat>) {
    && id in s.contexts && id !in s.registry
    && forall t <- s.threads | t !in earlier :: s.threads[t] != Loaded(id) && s.threads[t] != Answered(id, true)
  }

  lemma {:induction false} GoneAfterAdvance(s: State, t: nat, id: nat, earlier: set<nat>)
    requires IdsFresh(s) && Gone(s, id, earlier) && t in s.threads && Advance(s, t, s.threads[t]).Some?
    ensures Gone(Advance(s, t, s.threads[t]).value, id, earlier)
  {}

  lemma {:induction false} GoneKept(s: State, e: Event, id: nat, earlier: set<nat>)
    requires Inv(s) && Gone(s, id, earlier) && Next(s, e).Some?
    ensures Gone(Next(s, e).value, id, earlier)
  {
    if e.Step? { GoneAfterAdvance(s, e.thread, id, earlier); }
  }

  ghost predicate InvAndGone(s: State, id: nat, earlier: set<nat>) { Inv(s) && Gone(s, id, earlier) }

  /** A lookup that starts after an Unregister of its id has completed finds nothing. */
  lemma {:induction false} NotFoundAfterUnregister(before: seq<Event>, after: seq<Event>, id: nat, done: nat, lookup: nat)
    requires Run(EMPTY, Next, before).Some? && Run(EMPTY, Next, before + after).Some?
    requires var s := Run(EMPTY, Next, before).value;
             done in s.threads && s.threads[done] == Dropped(id) && lookup !in s.threads
    ensures var t := Run(EMPTY, Next, before + after).value;
            lookup in t.threads ==> t.threads[lookup] != Answered(id, true)
  {
    var s := Run(EMPTY, Next, before).value;
    InvHolds(before);
    forall u, e | InvAndGone(u, id, s.threads.Keys) && Next(u, e).Some?
      ensures InvAndGone(Next(u, e).value, id, s.threads.Keys)
    {
      StepKeepsInv(u, e);
      GoneKept(u, e, id, s.threads.Keys);
    }
    Split(EMPTY, Next, before, after);
    Invariance(s, Next, u => InvAndGone(u, id, s.threads.Keys), after);
  }
}
