/**
 The instance itself: in every reachable state a closed instance has its handle freed exactly
 once and its sync stopped, and the handle of any instance is freed at most once.
 */
module Shutdown {
  import opened Runs
  import opened Lifecycle
  import opened LockDiscipline
  import opened RegistryAgreement

  /** A Close that has stopped sync, or freed the handle, and has yet to set `closed`. */
  ghost predicate Halfway(s: Shared, code: seq<Instr>) {
    SetClosed in code ==> (StopSync in code || !s.syncActive) && (FreeHandle in code || s.handleFreed)
  }

  /** A Start that has looked at `closed` and has yet to start sync. */
  ghost predicate Starting(code: seq<Instr>) { StartSync in code && ReturnIfClosed(DittoMu) !in code }

  ghost predicate ShutDown(s: Shared) {
    && s.dittoFrees == (if s.handleFreed then 1 else 0)
    && (s.closed ==> s.handleFreed && !s.syncActive)
  }

  ghost predicate Guarded(s: State) {
    && Inv(s) && ShutDown(s.shared)
    && (forall g <- s.goroutines :: Halfway(s.shared, s.goroutines[g].code))
    && (forall g <- s.goroutines | Starting(s.goroutines[g].code) :: !s.shared.closed)
  }

  /** A Close past its StopSync, and a Start past its check, hold Ditto.mu. */
  lemma {:induction false} HoldsDitto(held: seq<Hold>, code: seq<Instr>)
    requires Climbs(held, code) && Ordered(code)
    requires (SetClosed in code && StopSync !in code) || Starting(code)
    ensures Hold(DittoMu, true) in held
    decreases |code|
  {
    var rest := code[1..];
    match code[0]
    case SetClosed =>
    case StartSync =>
    case Lock(m) => HoldsDitto(held + [Hold(m, true)], rest);
    case Acquire(m) => HoldsDitto(held + [Hold(m, true)], rest);
    case RLock(m) => HoldsDitto(held + [Hold(m, false)], rest);
    case Unlock(m) => HoldsDitto(held[..|held| - 1], rest);
    case _ => HoldsDitto(held, rest);
  }

  /** Whoever changes `closed` or `syncActive` keeps everybody else out of these stretches. */
  lemma {:induction false} NobodyElse(s: State, g: nat, h: nat)
    requires Inv(s) && g in s.goroutines && h in s.goroutines && g != h
    requires Hold(DittoMu, true) in s.goroutines[g].held
    ensures SetClosed in s.goroutines[h].code ==> StopSync in s.goroutines[h].code
    ensures !Starting(s.goroutines[h].code)
  {
    var other := s.goroutines[h];
    assert Holds(s.goroutines[g], DittoMu, true) && !Holds(other, DittoMu, true);
    if SetClosed in other.code && StopSync !in other.code { HoldsDitto(other.held, other.code); }
    if Starting(other.code) { HoldsDitto(other.held, other.code); }
  }

  /** Of the instructions that matter here, a step takes away only the one it executes, unless the call returns early. */
  lemma {:induction false} Left(s: Shared, code: seq<Instr>, i: Instr)
    requires code != [] && (i == SetClosed || i == StartSync || i == StopSync || i == FreeHandle || i.ReturnIfClosed?)
    ensures i in Continue(s, code[0], code[1..]) ==> i in code[1..]
    ensures i in code[1..] && !s.closed && !code[0].ReturnIfHandleFreed? ==> i in Continue(s, code[0], code[1..])
    ensures i in code[1..] && !code[0].ReturnIfClosed? && !code[0].ReturnIfHandleFreed? ==> i in Continue(s, code[0], code[1..])
  {
    if i in Continue(s, code[0], code[1..]) { CodeAfterMove(s, code, i); }
  }

  lemma {:induction false} OwnShutDown(s: Shared, code: seq<Instr>, fails: bool)
    requires code != [] && Ordered(code) && ShutDown(s) && Halfway(s, code) && (Starting(code) ==> !s.closed)
    ensures ShutDown(Effect(s, code[0], fails))
  {
    assert code[0] == StartSync ==> Starting(code);
  }

  lemma {:induction false} OwnHalfway(s: Shared, code: seq<Instr>, fails: bool)
    requires code != [] && Ordered(code) && Halfway(s, code)
    ensures Halfway(Effect(s, code[0], fails), Continue(s, code[0], code[1..]))
  {
    Left(s, code, SetClosed);
    Left(s, code, StopSync);
    Left(s, code, FreeHandle);
    if SetClosed in Continue(s, code[0], code[1..]) {
      assert SetClosed in code[1..] && code[0] != StartSync && !code[0].ReturnIfHandleFreed?;
      assert code[0].ReturnIfClosed? ==> !s.closed;
    }
  }

  lemma {:induction false} OwnStarting(s: Shared, code: seq<Instr>, fails: bool)
    requires code != [] && Ordered(code) && (Starting(code) ==> !s.closed)
    requires Starting(Continue(s, code[0], code[1..]))
    ensures !Effect(s, code[0], fails).closed
  {
    Left(s, code, StartSync);
    Left(s, code, ReturnIfClosed(DittoMu));
    assert code[0] != SetClosed;
  }

  lemma {:induction false} MoveKeepsGuarded(s: State, g: nat, fails: bool)
    requires Guarded(s) && CanMove(s, g)
    ensures Guarded(Moved(s, g, fails))
  {
    var me, t := s.goroutines[g], Moved(s, g, fails);
    MoveKeepsInv(s, g, fails);
    OwnShutDown(s.shared, me.code, fails);
    OwnHalfway(s.shared, me.code, fails);
    if Starting(t.goroutines[g].code) { OwnStarting(s.shared, me.code, fails); }
    forall h <- t.goroutines
      ensures Halfway(t.shared, t.goroutines[h].code) && (Starting(t.goroutines[h].code) ==> !t.shared.closed)
    {
      if h != g {
        assert Halfway(s.shared, s.goroutines[h].code);
        if me.code[0] == StartSync || me.code[0] == SetClosed { NobodyElse(s, g, h); }
      }
    }
  }

  lemma {:induction false} CallsGuarded(s: Shared, call: Call)
    ensures Halfway(s, Code(call)) && !Starting(Code(call))
  {
    match call
    case CloseCall =>
      CloseCode();
      assert CloseEnd()[0] == StopSync && CloseEnd()[1] == FreeHandle;
      assert forall i <- CloseEnd() :: i in CancelAll(Subscriptions) + CloseEnd();
      assert forall i <- CloseEnd() :: i in CloseBody();
      CloseEndContents();
      CancelAllContents(Observers);
      CancelAllContents(Subscriptions);
    case StartCall => assert Code(call)[1] == ReturnIfClosed(DittoMu);
    case _ =>
  }

  lemma {:induction false} StepKeepsGuarded(s: State, e: Event)
    requires Guarded(s) && Next(s, e).Some?
    ensures Guarded(Next(s, e).value)
  {
    match e
    case Spawn(g, call) =>
      SpawnKeepsInv(s, g, call);
      CallsGuarded(s.shared, call);
    case Move(g, fails) => MoveKeepsGuarded(s, g, fails);
  }

  /** In every reachable state: closed means freed and stopped, and freed means freed once. */
  lemma {:induction false} ClosedMeansShutDown(events: seq<Event>)
    requires Run(OPENED, Next, events).Some?
    ensures var s := Run(OPENED, Next, events).value.shared;
            && (s.closed ==> s.handleFreed && !s.syncActive && s.dittoFrees == 1)
            && s.dittoFrees == (if s.handleFreed then 1 else 0)
  {
    forall s, e | Guarded(s) && Next(s, e).Some? ensures Guarded(Next(s, e).value) { StepKeepsGuarded(s, e); }
    Invariance(OPENED, Next, Guarded, events);
  }
}
