/**
 Exactly-once release of a C pointer behind a Go handle, under any number of concurrent and
 repeated Close calls and the garbage collector's finalizer, which runs only when nothing
 refers to the handle any more. Handles that their constructors make have a finalizer; the
 query results of Transaction.Execute and of store observers are made without one.

 DittoHandle takes the pointer out with an atomic swap; QueryResultHandle flips an atomic flag
 and then frees and clears the pointer.
 */
module HandleRelease {
  import opened Wrappers
  import opened Runs

  datatype Style = Swap | CompareAndSwap

  /** A goroutine inside Close. */
  datatype Closer =
    | Entered       // before the atomic operation
    | Owns          // the atomic operation has made it the one to free
    | HasFreed      // before the handle is cleaned up
    | Closed

  datatype State = State(
    style: Style,
    pointerSet: bool,
    flag: bool,                 // QueryResultHandle.finalized
    frees: nat,
    reachable: bool,            // some caller still has the handle
    finalizer: bool,
    closers: map<nat, Closer>)

  function New(style: Style, finalizer: bool): State { State(style, true, false, 0, true, finalizer, map[]) }

  datatype Event = StartClose(c: nat) | Drop | Finalize(c: nat) | Step(c: nat)

  function At(s: State, c: nat, p: Closer): State { s.(closers := s.closers[c := p]) }

  predicate AllClosed(s: State) { forall c <- s.closers :: s.closers[c].Closed? }

  function Next(s: State, e: Event): Option<State> {
    match e
    case StartClose(c) => if !s.reachable || c in s.closers then None else Some(At(s, c, Entered))
    case Drop => Some(s.(reachable := false))
    case Finalize(c) =>
      if s.reachable || !s.finalizer || c in s.closers || !AllClosed(s) then None
      else Some(At(s.(finalizer := false), c, Entered))
    case Step(c) =>
      if c !in s.closers then None
      else
        match s.closers[c]
        case Entered =>
          if s.style.Swap? then
            if s.pointerSet then Some(At(s.(pointerSet := false), c, Owns)) else Some(At(s, c, Closed))
          else
            if !s.flag then Some(At(s.(flag := true), c, Owns)) else Some(At(s, c, Closed))
        case Owns =>
          if s.style.CompareAndSwap? && !s.pointerSet then Some(At(s, c, HasFreed))
          else Some(At(s.(frees := s.frees + 1), c, HasFreed))
        case HasFreed =>
          Some(At(s.(pointerSet := if s.style.CompareAndSwap? then false else s.pointerSet, finalizer := false), c, Closed))
        case Closed => None
  }

  /** Whether somebody has won the atomic operation. */
  predicate Taken(s: State) { if s.style.Swap? then !s.pointerSet else s.flag }

  ghost predicate Owner(s: State, c: nat) { c in s.closers && (s.closers[c].Owns? || s.closers[c].HasFreed?) }

  ghost predicate Inv(s: State) {
    && (forall c, d | Owner(s, c) && Owner(s, d) :: c == d)
    && (forall c | Owner(s, c) :: Taken(s) && s.frees == if s.closers[c].Owns? then 0 else 1)
    && (!Taken(s) ==> s.frees == 0 && s.pointerSet && forall c <- s.closers :: s.closers[c].Entered?)
    && (Taken(s) && (forall c :: !Owner(s, c)) ==> s.frees == 1)
    && (s.style.CompareAndSwap? ==> forall c | Owner(s, c) && s.closers[c].Owns? :: s.pointerSet)
    && (Taken(s) ==> s.closers.Keys != {})
  }

  /** Where a goroutine in Close stands is nobody else's business. */
  lemma {:induction false} OthersStay(s: State, e: Event, d: nat)
    requires Next(s, e).Some? && (e.Step? ==> e.c != d)
    ensures Owner(Next(s, e).value, d) <==> Owner(s, d)
  {}

  lemma {:induction false} FirstStepKeepsInv(s: State, c: nat)
    requires Inv(s) && c in s.closers && s.closers[c].Entered?
    ensures Inv(Next(s, Step(c)).value)
  {
    var t := Next(s, Step(c)).value;
    forall d | d != c ensures Owner(t, d) <==> Owner(s, d) { OthersStay(s, Step(c), d); }
    if !Taken(s) {
      forall d ensures !Owner(s, d) {}
      assert Owner(t, c);
    }
  }

  lemma {:induction false} OwnersStepKeepsInv(s: State, c: nat)
    requires Inv(s) && Owner(s, c)
    ensures Inv(Next(s, Step(c)).value)
  {
    var t := Next(s, Step(c)).value;
    forall d | d != c ensures !Owner(t, d) { OthersStay(s, Step(c), d); }
    if s.closers[c].Owns? { assert Owner(t, c); }
  }

  lemma {:induction false} StepKeepsInv(s: State, e: Event)
    requires Inv(s) && Next(s, e).Some?
    ensures Inv(Next(s, e).value)
  {
    if !e.Step? {
      forall c ensures Owner(Next(s, e).value, c) <==> Owner(s, c) { OthersStay(s, e, c); }
    } else if s.closers[e.c].Entered? {
      FirstStepKeepsInv(s, e.c);
    } else {
      OwnersStepKeepsInv(s, e.c);
    }
  }

  /** Until somebody closes it, a handle keeps the finalizer it was made with, or its lack of one. */
  ghost predicate AsMade(s: State, finalizer: bool) { s.closers.Keys == {} ==> s.finalizer == finalizer }

  lemma {:induction false} InvHolds(style: Style, finalizer: bool, events: seq<Event>)
    requires Run(New(style, finalizer), Next, events).Some?
    ensures Inv(Run(New(style, finalizer), Next, events).value)
    ensures AsMade(Run(New(style, finalizer), Next, events).value, finalizer)
  {
    var inv := (s: State) => Inv(s) && AsMade(s, finalizer);
    forall s, e | inv(s) && Next(s, e).Some? ensures inv(Next(s, e).value) {
      StepKeepsInv(s, e);
      ClosersGrow(s, e);
    }
    Invariance(New(style, finalizer), Next, inv, events);
  }

  lemma {:induction false} ClosersGrow(s: State, e: Event)
    requires Next(s, e).Some?
    ensures s.closers.Keys <= Next(s, e).value.closers.Keys
    ensures Next(s, e).value.closers.Keys == {} ==> Next(s, e).value.finalizer == s.finalizer
  {
    if !e.Drop? { assert e.c in Next(s, e).value.closers; }
  }

  /**
   With a finalizer or without, the pointer is freed at most once; and it has been freed once as
   soon as some Close has returned and none is under way.
   */
  lemma {:induction false} FreedExactlyOnce(style: Style, finalizer: bool, events: seq<Event>)
    requires Run(New(style, finalizer), Next, events).Some?
    ensures var s := Run(New(style, finalizer), Next, events).value;
            && s.frees <= 1
            && (s.closers.Keys != {} && AllClosed(s) ==> s.frees == 1)
            && (s.closers.Keys == {} ==> s.frees == 0)
  {
    InvHolds(style, finalizer, events);
    var s := Run(New(style, finalizer), Next, events).value;
    if c :| Owner(s, c) {
    } else {
      assert s.frees <= 1;
    }
    if s.closers.Keys != {} {
      var c :| c in s.closers;
      if s.closers[c].Closed? { assert Taken(s); }
    }
  }

  /** Nobody has the handle, nobody is closing it, and nothing will. */
  predicate Lost(s: State) { !s.reachable && s.closers.Keys == {} && !s.finalizer && s.frees == 0 }

  /** Whether the pointer can still be freed. */
  ghost predicate CanBeFreed(s: State) {
    exists events :: Run(s, Next, events).Some? && Run(s, Next, events).value.frees > 0
  }

  lemma {:induction false} FinalizerFrees(s: State) returns (events: seq<Event>)
    requires Inv(s) && !s.reachable && s.closers.Keys == {} && s.finalizer
    ensures Run(s, Next, events).Some? && Run(s, Next, events).value.frees == 1
  {
    events := [] + [Finalize(0)] + [Step(0)] + [Step(0)];
    assert !Taken(s);
    var s1 := Next(s, Finalize(0)).value;
    Extend(s, Next, [], s, Finalize(0));
    Extend(s, Next, [] + [Finalize(0)], s1, Step(0));
    Extend(s, Next, [] + [Finalize(0)] + [Step(0)], Next(s1, Step(0)).value, Step(0));
  }

  /** A handle that was dropped without a Close is freed some day if and only if it was made with a finalizer. */
  lemma {:induction false} DroppedHandleIsFinalized(style: Style, finalizer: bool, events: seq<Event>, c: nat)
    requires Run(New(style, finalizer), Next, events).Some?
    requires var s := Run(New(style, finalizer), Next, events).value; !s.reachable && s.closers.Keys == {}
    ensures var s := Run(New(style, finalizer), Next, events).value;
            && (Next(s, Finalize(c)).Some? <==> finalizer)
            && (CanBeFreed(s) <==> finalizer)
  {
    var s := Run(New(style, finalizer), Next, events).value;
    InvHolds(style, finalizer, events);
    FreedExactlyOnce(style, finalizer, events);
    if finalizer {
      var freeing := FinalizerFrees(s);
    } else {
      forall more | Run(s, Next, more).Some? ensures Run(s, Next, more).value.frees == 0 {
        Invariance(s, Next, Lost, more);
      }
    }
  }

  // ---------------------------------------------------------------- the two Close methods, one call at a time

  function AfterClose(s: State): State {
    if Taken(s) then s
    else s.(pointerSet := false, flag := s.style.CompareAndSwap?, frees := s.frees + 1, finalizer := false)
  }

  /** A Close that nobody interrupts. */
  lemma {:induction false} CloseAlone(s: State, c: nat) returns (events: seq<Event>)
    requires Inv(s) && s.reachable && c !in s.closers && (s.style.Swap? ==> !s.flag)
    requires s.style.CompareAndSwap? ==> s.pointerSet == !s.flag
    ensures Run(s, Next, events) == Some(At(AfterClose(s), c, Closed))
  {
    events := [] + [StartClose(c)] + [Step(c)];
    var s1 := At(s, c, Entered);
    Extend(s, Next, [], s, StartClose(c));
    Extend(s, Next, [] + [StartClose(c)], s1, Step(c));
    var s2 := Next(s1, Step(c)).value;
    if Taken(s) {
      assert s2.closers == At(s, c, Closed).closers;
    } else {
      Extend(s, Next, events, s2, Step(c));
      var s3 := Next(s2, Step(c)).value;
      Extend(s, Next, events + [Step(c)], s3, Step(c));
      events := events + [Step(c)] + [Step(c)];
      assert Next(s3, Step(c)).value.closers == At(s, c, Closed).closers;
    }
  }

  /** A DittoHandle, whose pointer is swapped out, or a QueryResultHandle, whose flag is flipped first. */
  class Handle {
    const style: Style
    var ptr: bool
    var finalized: bool
    var cFrees: nat
    var finalizerSet: bool

    constructor (style: Style, finalizer: bool)
      ensures View() == New(style, finalizer) && Valid()
    {
      this.style := style;
      ptr, finalized, cFrees, finalizerSet := true, false, 0, finalizer;
    }

    function View(): State
      reads this
    {
      State(style, ptr, finalized, cFrees, true, finalizerSet, map[])
    }

    ghost predicate Valid()
      reads this
    {
      && (style.Swap? ==> !finalized)
      && (style.CompareAndSwap? ==> ptr == !finalized)
      && cFrees == (if ptr then 0 else 1)
      && (finalizerSet ==> ptr)
    }

    predicate IsValid()
      reads this
    {
      ptr && !finalized
    }

    method Close()
      requires Valid()
      modifies this
      ensures Valid() && !IsValid() && cFrees == 1
      ensures View() == AfterClose(old(View()))
    {
      match style {
        case Swap =>
          var freeMe := ptr;
          ptr := false;
          if freeMe {
            cFrees := cFrees + 1;
            finalizerSet := false;
          }
        case CompareAndSwap =>
          if !finalized {
            finalized := true;
            if ptr {
              cFrees := cFrees + 1;
              ptr := false;
            }
            finalizerSet := false;
          }
      }
    }
  }
}
