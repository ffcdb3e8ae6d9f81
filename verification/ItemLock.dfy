/**
 A query result item under concurrent use: its methods hold the item's mutex while C works on
 the pointer, Close frees the pointer under the same mutex, and both the item and its handle
 have finalizers. Any number of goroutines may use and close the item at any time.
 */
module ItemLock {
  import opened Wrappers
  import opened Runs

  datatype Thread =
    | WantUse        // a reading method, before the lock
    | Checking       // holds the lock, before it looks at `closed` and the handle
    | Using          // C works on the pointer
    | WantClose
    | Closing        // holds the lock, before it looks at `closed`
    | Freeing        // in the handle's Free, before its compare-and-swap
    | Won            // before C frees the pointer
    | Cleared        // after it, before the pointer is set to nil
    | Marking        // before handle = nil; closed = true and the unlock
    | Collecting     // the handle's finalizer, before its compare-and-swap
    | CollectorWon   // the handle's finalizer has won the swap
    | Done

  /** The fields of the item and of its handle, and how often C was asked to free the pointer. */
  datatype Item = Item(
    closed: bool,
    hasHandle: bool,           // item.handle != nil
    pointerSet: bool,          // handle.ptr != nil
    flag: bool,                // handle.finalized
    frees: nat)
  {
    predicate HandleValid() { hasHandle && pointerSet && !flag }
  }

  datatype State = State(
    holder: Option<nat>,       // of the item's mutex
    item: Item,
    reachable: bool,           // a caller still has the item
    itemFinalizer: bool,
    handleFinalizer: bool,
    threads: map<nat, Thread>)

  const NEW := State(None, Item(false, true, true, false, 0), true, true, true, map[])

  // ---------------------------------------------------------------- the methods, one atomic step at a time

  /** What a step of thread t leaves behind. */
  datatype Moved = Moved(holder: Option<nat>, item: Item, at: Thread)

  /** A reading method: Value, CBORData, JSONData, UnmarshalTo. */
  function Read(holder: Option<nat>, i: Item, t: nat, at: Thread): Option<Moved> {
    match at
    case WantUse => if holder.Some? then None else Some(Moved(Some(t), i, Checking))
    case Checking => if i.closed || !i.HandleValid() then Some(Moved(None, i, Done)) else Some(Moved(holder, i, Using))
    case Using => Some(Moved(None, i, Done))
    case _ => None
  }

  /** QueryResultItem.Close, with the handle's Free inside it. */
  function Close(holder: Option<nat>, i: Item, t: nat, at: Thread): Option<Moved> {
    match at
    case WantClose => if holder.Some? then None else Some(Moved(Some(t), i, Closing))
    case Closing =>
      if i.closed then Some(Moved(None, i, Done))
      else if i.HandleValid() then Some(Moved(holder, i, Freeing))
      else Some(Moved(None, i.(closed := true), Done))
    case Freeing => if i.flag then Some(Moved(holder, i, Marking)) else Some(Moved(holder, i.(flag := true), Won))
    case Won => if i.pointerSet then Some(Moved(holder, i.(frees := i.frees + 1), Cleared)) else Some(Moved(holder, i, Marking))
    case Cleared => Some(Moved(holder, i.(pointerSet := false), Marking))
    case Marking => Some(Moved(None, i.(hasHandle := false, closed := true), Done))
    case _ => None
  }

  /** Free, called as the handle's finalizer. */
  function Collect(holder: Option<nat>, i: Item, at: Thread): Option<Moved> {
    match at
    case Collecting => if i.flag then Some(Moved(holder, i, Done)) else Some(Moved(holder, i.(flag := true), CollectorWon))
    case CollectorWon => Some(Moved(holder, i.(frees := i.frees + if i.pointerSet then 1 else 0, pointerSet := false), Done))
    case _ => None
  }

  function Move(holder: Option<nat>, i: Item, t: nat, at: Thread): Option<Moved> {
    if at.WantUse? || at.Checking? || at.Using? then Read(holder, i, t, at)
    else if at.Collecting? || at.CollectorWon? then Collect(holder, i, at)
    else Close(holder, i, t, at)
  }

  datatype Event =
    | StartUse(t: nat)
    | StartClose(t: nat)
    | Drop                     // the last caller drops the item
    | FinalizeItem(t: nat)
    | FinalizeHandle(t: nat)
    | Step(t: nat)

  predicate AllDone(s: State) { forall t <- s.threads :: s.threads[t].Done? }

  /** The handle is collectable once the item has let go of it, or has itself been finalized. */
  predicate HandleUnreachable(s: State) {
    AllDone(s) && (!s.item.hasHandle || (!s.reachable && !s.itemFinalizer))
  }

  function To(s: State, t: nat, p: Thread): State { s.(threads := s.threads[t := p]) }

  function After(s: State, t: nat, m: Moved): State { s.(holder := m.holder, item := m.item, threads := s.threads[t := m.at]) }

  function Next(s: State, e: Event): Option<State> {
    match e
    case StartUse(t) => if !s.reachable || t in s.threads then None else Some(To(s, t, WantUse))
    case StartClose(t) => if !s.reachable || t in s.threads then None else Some(To(s, t, WantClose))
    case Drop => Some(s.(reachable := false))
    case FinalizeItem(t) =>
      if s.reachable || !s.itemFinalizer || !AllDone(s) || t in s.threads then None
      else Some(To(s.(itemFinalizer := false), t, WantClose))
    case FinalizeHandle(t) =>
      if !s.handleFinalizer || !HandleUnreachable(s) || t in s.threads then None
      else Some(To(s.(handleFinalizer := false), t, Collecting))
    case Step(t) =>
      if t !in s.threads then None
      else
        match Move(s.holder, s.item, t, s.threads[t])
        case None => None
        case Some(m) => Some(After(s, t, m))
  }

  // ---------------------------------------------------------------- the invariant

  /** The threads that hold the item's mutex. */
  predicate Inside(p: Thread) {
    p.Checking? || p.Using? || p.Closing? || p.Freeing? || p.Won? || p.Cleared? || p.Marking?
  }

  ghost predicate LockAgrees(s: State) {
    && (forall t <- s.threads | Inside(s.threads[t]) :: s.holder == Some(t))
    && (s.holder.Some? ==> s.holder.value in s.threads && Inside(s.threads[s.holder.value]))
  }

  ghost predicate Untouched(i: Item) { i == Item(false, true, true, false, 0) }

  ghost predicate Released(i: Item) { i == Item(true, false, false, true, 1) }

  /** The item, by what the holder of the lock is doing. */
  ghost predicate ItemAgrees(i: Item, p: Thread) {
    match p
    case Won => i == Item(false, true, true, true, 0)
    case Cleared => i == Item(false, true, true, true, 1)
    case Marking => i == Item(false, true, false, true, 1)
    case Using => Untouched(i)
    case Freeing => Untouched(i)
    case _ => Untouched(i) || Released(i)
  }

  /** What the holder of the mutex is doing, if there is one. */
  function HolderAt(s: State): Thread {
    if s.holder.Some? && s.holder.value in s.threads then s.threads[s.holder.value] else Done
  }

  predicate Closes(p: Thread) { p.WantClose? || p.Closing? || p.Freeing? || p.Won? || p.Cleared? || p.Marking? }

  /** Once the item's finalizer has started, a Close is under way or over. */
  ghost predicate Finalized(s: State) {
    !s.itemFinalizer ==> s.item.closed || exists t :: t in s.threads && Closes(s.threads[t])
  }

  /** The handle's finalizer comes too late to win. */
  ghost predicate CollectorLoses(s: State) {
    forall t <- s.threads :: (s.threads[t].Collecting? ==> Released(s.item)) && !s.threads[t].CollectorWon?
  }

  ghost predicate Inv(s: State) { LockAgrees(s) && ItemAgrees(s.item, HolderAt(s)) && Finalized(s) && CollectorLoses(s) }

  /** One step, seen without the other threads. */
  lemma {:induction false} MoveShape(holder: Option<nat>, i: Item, t: nat, at: Thread)
    requires Move(holder, i, t, at).Some?
    requires if Inside(at) then holder == Some(t) && ItemAgrees(i, at) else holder != Some(t)
    requires (at.WantUse? || at.WantClose?) && holder.None? ==> ItemAgrees(i, Done)
    requires (at.Collecting? ==> Released(i)) && !at.CollectorWon?
    ensures var m := Move(holder, i, t, at).value;
      && (if Inside(m.at) then m.holder == Some(t) && (holder.None? || Inside(at))
          else m.holder == if Inside(at) then None else holder)
      && (Inside(m.at) || Inside(at) ==> ItemAgrees(m.item, m.at))
      && (!Inside(m.at) && !Inside(at) ==> m.item == i)
      && !m.at.Collecting? && !m.at.CollectorWon?
      && (Released(i) ==> m.item == i)
      && (Closes(at) ==> Closes(m.at) || m.item.closed)
  {}

  lemma {:induction false} StepShape(s: State, t: nat)
    requires Inv(s) && t in s.threads && Move(s.holder, s.item, t, s.threads[t]).Some?
    ensures var at, m := s.threads[t], Move(s.holder, s.item, t, s.threads[t]).value;
      && (if Inside(m.at) then m.holder == Some(t) && (s.holder.None? || Inside(at))
          else m.holder == if Inside(at) then None else s.holder)
      && (Inside(m.at) || Inside(at) ==> ItemAgrees(m.item, m.at))
      && (!Inside(m.at) && !Inside(at) ==> m.item == s.item)
      && !m.at.Collecting? && !m.at.CollectorWon?
      && (Released(s.item) ==> m.item == s.item)
      && (Closes(at) ==> Closes(m.at) || m.item.closed)
  {
    assert Inside(s.threads[t]) ==> s.holder == Some(t) && HolderAt(s) == s.threads[t];
    MoveShape(s.holder, s.item, t, s.threads[t]);
  }

  lemma {:induction false} StepKeepsAgreement(s: State, t: nat)
    requires Inv(s) && t in s.threads && Move(s.holder, s.item, t, s.threads[t]).Some?
    ensures var s' := After(s, t, Move(s.holder, s.item, t, s.threads[t]).value);
            LockAgrees(s') && ItemAgrees(s'.item, HolderAt(s')) && CollectorLoses(s')
  {
    StepShape(s, t);
  }

  lemma {:induction false} StepKeepsFinalized(s: State, t: nat)
    requires Inv(s) && t in s.threads && Move(s.holder, s.item, t, s.threads[t]).Some?
    ensures Finalized(After(s, t, Move(s.holder, s.item, t, s.threads[t]).value))
  {
    var s' := After(s, t, Move(s.holder, s.item, t, s.threads[t]).value);
    StepShape(s, t);
    if !s'.itemFinalizer && !s.item.closed {
      var u :| u in s.threads && Closes(s.threads[u]);
      assert u in s'.threads && (Closes(s'.threads[u]) || s'.item.closed);
    }
  }

  /** A new thread changes nothing for the others. */
  lemma {:induction false} StartKeepsInv(s: State, t: nat, at: Thread)
    requires Inv(s) && t !in s.threads
    requires at.WantUse? || at.WantClose? || (at.Collecting? && Released(s.item))
    ensures Inv(To(s, t, at))
  {
    var s' := To(s, t, at);
    if u :| u in s.threads && Closes(s.threads[u]) { assert Closes(s'.threads[u]); }
    assert HolderAt(s') == HolderAt(s);
  }

  /** When the handle can be collected, the item has been closed. */
  lemma {:induction false} CollectableIsReleased(s: State)
    requires Inv(s) && HandleUnreachable(s)
    ensures Released(s.item)
  {
    assert s.holder.Some? ==> Inside(s.threads[s.holder.value]);
  }

  lemma {:induction false} StepKeepsInv(s: State, e: Event)
    requires Inv(s) && Next(s, e).Some?
    ensures Inv(Next(s, e).value)
  {
    match e
    case StartUse(t) => StartKeepsInv(s, t, WantUse);
    case StartClose(t) => StartKeepsInv(s, t, WantClose);
    case Drop => assert Finalized(s.(reachable := false));
    case FinalizeItem(t) =>
      StartKeepsInv(s, t, WantClose);
      assert Closes(Next(s, e).value.threads[t]);
    case FinalizeHandle(t) =>
      CollectableIsReleased(s);
      StartKeepsInv(s, t, Collecting);
    case Step(t) =>
      StepKeepsAgreement(s, t);
      StepKeepsFinalized(s, t);
  }

  lemma {:induction false} InvHolds(events: seq<Event>)
    requires Run(NEW, Next, events).Some?
    ensures Inv(Run(NEW, Next, events).value)
  {
    forall s, e | Inv(s) && Next(s, e).Some? ensures Inv(Next(s, e).value) { StepKeepsInv(s, e); }
    Invariance(NEW, Next, Inv, events);
  }

  // ---------------------------------------------------------------- what callers can rely on

  /** C never works on a freed pointer, and no step can free it meanwhile. */
  lemma {:induction false} NoUseAfterFree(events: seq<Event>, t: nat, e: Event)
    requires Run(NEW, Next, events).Some?
    requires var s := Run(NEW, Next, events).value; t in s.threads && s.threads[t].Using?
    ensures var s := Run(NEW, Next, events).value;
            && s.item.frees == 0 && s.item.pointerSet
            && (Next(s, e).Some? ==> Next(s, e).value.item == s.item)
  {
    InvHolds(events);
    var s := Run(NEW, Next, events).value;
    assert s.holder == Some(t);
    assert forall u | u in s.threads && u != t :: !Inside(s.threads[u]);
    if e.Step? && Next(s, e).Some? { StepShape(s, e.t); }
  }

  /**
   The pointer is freed at most once, and exactly once when the item is closed; the item is
   closed exactly when it has no handle; and the handle's own finalizer never frees anything.
   */
  lemma {:induction false} ItemFreedOnce(events: seq<Event>)
    requires Run(NEW, Next, events).Some?
    ensures var s := Run(NEW, Next, events).value;
            && s.item.frees <= 1
            && (s.item.closed ==> s.item.frees == 1)
            && (s.item.closed <==> !s.item.hasHandle)
            && (forall t <- s.threads :: !s.threads[t].CollectorWon?)
  {
    InvHolds(events);
  }

  /** An item whose finalizer has run to its end has been freed, even if nobody ever closed it. */
  lemma {:induction false} CollectedItemIsFreed(events: seq<Event>)
    requires Run(NEW, Next, events).Some?
    requires var s := Run(NEW, Next, events).value; !s.itemFinalizer && AllDone(s)
    ensures var s := Run(NEW, Next, events).value; s.item.closed && s.item.frees == 1
  {
    InvHolds(events);
  }

  /** The first n steps of thread t. */
  function Steps(t: nat, n: nat): seq<Event> { if n == 0 then [] else [Step(t)] + Steps(t, n - 1) }

  /** An uninterrupted reading method has C work on the pointer if and only if the item is open. */
  lemma {:induction false} ReadAlone(events: seq<Event>, s: State, t: nat)
    requires Run(NEW, Next, events) == Some(s) && s.reachable && s.holder.None? && t !in s.threads
    ensures var after := Run(s, Next, [StartUse(t)] + Steps(t, 2));
            && after.Some? && after.value.item == s.item
            && after.value.threads == s.threads[t := if s.item.closed then Done else Using]
  {
    InvHolds(events);
    var u := To(s, t, WantUse);
    StartKeepsInv(s, t, WantUse);
    FirstThenRest(s, Next, StartUse(t), u, Steps(t, 2));
    LocksAndLooks(u, t);
    assert Run(u, Next, Steps(t, 2)).value.threads == s.threads[t := if s.item.closed then Done else Using];
  }

  lemma {:induction false} LocksAndLooks(s: State, t: nat)
    requires Inv(s) && s.holder.None? && t in s.threads && s.threads[t].WantUse?
    ensures var after := Run(s, Next, Steps(t, 2));
            && after.Some? && after.value.item == s.item
            && after.value.threads == s.threads[t := if s.item.closed then Done else Using]
  {
    var u := After(s, t, Moved(Some(t), s.item, Checking));
    FirstThenRest(s, Next, Step(t), u, Steps(t, 1));
    Looks(u, t);
    assert s.threads[t := Checking][t := if s.item.closed then Done else Using]
        == s.threads[t := if s.item.closed then Done else Using];
  }

  lemma {:induction false} Looks(s: State, t: nat)
    requires t in s.threads && s.threads[t].Checking? && (Untouched(s.item) || Released(s.item))
    ensures var after := Run(s, Next, Steps(t, 1));
            && after.Some? && after.value.item == s.item
            && after.value.threads == s.threads[t := if s.item.closed then Done else Using]
  {
    var v := Next(s, Step(t)).value;
    FirstThenRest(s, Next, Step(t), v, Steps(t, 0));
  }

  /** The item after an uninterrupted Close, however far it was: freed once and without a handle. */
  lemma {:induction false} CloseAlone(events: seq<Event>, s: State, t: nat) returns (n: nat)
    requires Run(NEW, Next, events) == Some(s) && s.reachable && s.holder.None? && t !in s.threads
    ensures var after := Run(s, Next, [StartClose(t)] + Steps(t, n));
            && after.Some? && after.value.threads == s.threads[t := Done]
            && after.value.item == Item(true, false, false, true, 1)
  {
    InvHolds(events);
    var u := To(s, t, WantClose);
    StartKeepsInv(s, t, WantClose);
    n := ClosesFrom(u, t);
    FirstThenRest(s, Next, StartClose(t), u, Steps(t, n));
    assert Run(u, Next, Steps(t, n)).value.threads == s.threads[t := Done];
  }

  function LeftToClose(p: Thread): nat {
    match p
    case WantClose => 6 case Closing => 5 case Freeing => 4 case Won => 3 case Cleared => 2 case Marking => 1
    case _ => 0
  }

  lemma {:induction false} ClosesFrom(s: State, t: nat) returns (n: nat)
    requires Inv(s) && t in s.threads && Closes(s.threads[t]) && (s.threads[t].WantClose? ==> s.holder.None?)
    ensures Run(s, Next, Steps(t, n)).Some?
    ensures var after := Run(s, Next, Steps(t, n)).value;
            after.threads == s.threads[t := Done] && after.item == Item(true, false, false, true, 1)
    decreases LeftToClose(s.threads[t])
  {
    assert Inside(s.threads[t]) ==> s.holder == Some(t) && HolderAt(s) == s.threads[t];
    var u := Next(s, Step(t)).value;
    StepKeepsInv(s, Step(t));
    var m := 0;
    if !u.threads[t].Done? {
      m := ClosesFrom(u, t);
    } else {
      assert Run(u, Next, Steps(t, 0)) == Some(u);
    }
    n := m + 1;
    FirstThenRest(s, Next, Step(t), u, Steps(t, m));
    assert Steps(t, n) == [Step(t)] + Steps(t, m);
    assert u.threads[t := Done] == s.threads[t := Done];
  }
}
