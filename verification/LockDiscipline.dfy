/**
 The lock discipline of the calls and what follows from it alone: mutual exclusion and
 freedom from deadlock, for any number of goroutines, subscriptions and observers.
 */
module LockDiscipline {
  import opened Runs
  import opened Lifecycle

  ghost predicate Below(held: seq<Hold>, rank: nat) {
    forall h <- held :: h.mutex.Rank() < rank
  }

  /** The locks that an instruction other than a lock operation needs. */
  ghost predicate Permitted(held: seq<Hold>, i: Instr) {
    match i
    case New(k) => Hold(ListMu(k), true) in held
    case Cancel(k, x) => Hold(EntryMu(k, x), true) in held
    case Remove(x) => Hold(ListMu(Subscriptions), true) in held
    case CancelEach(k) => Hold(ListMu(k), true) in held && Below(held, 2) && held[0].mutex == DittoMu
    case Clear(k) => Hold(ListMu(k), true) in held
    case Read => held != []
    case _ => Hold(DittoMu, true) in held
  }

  /** A lock may be taken above all locks held, and under another lock only if the outermost one is Ditto.mu. */
  ghost predicate MayTake(held: seq<Hold>, m: Mutex) {
    Below(held, m.Rank()) && (held != [] ==> held[0].mutex == DittoMu)
  }

  /**
   The checks that return early stand directly inside a call's one lock. `closed` is read under
   Ditto.mu, which guards it, and by RegisterSubscription under Sync.mu, which does not; the
   handle, which is read atomically, by RegisterObserver under Store.mu.
   */
  ghost predicate ChecksUnder(held: seq<Hold>, i: Instr)
    requires i.ReturnIfClosed? || i.ReturnIfHandleFreed?
  {
    && |held| == 1 && held[0] == Hold(i.mutex, true)
    && if i.ReturnIfClosed? then i.mutex == DittoMu || i.mutex == ListMu(Subscriptions) else i.mutex == ListMu(Observers)
  }

  /**
   A goroutine holding `held` that goes on with `code` takes every further lock above all
   the locks it holds at that time, gives them back in the opposite order, ends with none,
   and touches shared state only under the locks that guard it, but for the early checks.
   */
  ghost predicate Climbs(held: seq<Hold>, code: seq<Instr>)
    decreases |code|
  {
    if code == [] then held == []
    else
      var rest := code[1..];
      match code[0]
      case Lock(m) => MayTake(held, m) && Climbs(held + [Hold(m, true)], rest)
      case Acquire(m) => MayTake(held, m) && Climbs(held + [Hold(m, true)], rest)
      case RLock(m) => MayTake(held, m) && Climbs(held + [Hold(m, false)], rest)
      case Unlock(m) => held != [] && held[|held| - 1].mutex == m && Climbs(held[..|held| - 1], rest)
      case ReturnIfClosed(_) => ChecksUnder(held, code[0]) && Climbs(held, rest)
      case ReturnIfHandleFreed(_) => ChecksUnder(held, code[0]) && Climbs(held, rest)
      case _ => Permitted(held, code[0]) && Climbs(held, rest)
  }

  ghost predicate AllClimb(s: State) {
    forall g <- s.goroutines :: Climbs(s.goroutines[g].held, s.goroutines[g].code)
  }

  /** A lock held for writing is held by nobody else. */
  ghost predicate Exclusive(s: State) {
    forall g <- s.goroutines, h <- s.goroutines, m |
      g != h && Holds(s.goroutines[g], m, true) :: !Holds(s.goroutines[h], m, true) && !Holds(s.goroutines[h], m, false)
  }

  // ---------------------------------------------------------------- the calls climb

  /** An instruction that takes no lock itself and may stand in a section holding `held`. */
  ghost predicate Plain(held: seq<Hold>, i: Instr) {
    match i
    case Lock(_) => false
    case Acquire(_) => false
    case RLock(_) => false
    case Unlock(_) => false
    case ReturnIfClosed(_) => ChecksUnder(held, i)
    case ReturnIfHandleFreed(_) => ChecksUnder(held, i)
    case _ => Permitted(held, i)
  }

  lemma {:induction false} BodyClimbs(held: seq<Hold>, body: seq<Instr>, rest: seq<Instr>)
    requires forall i <- body :: Plain(held, i)
    requires Climbs(held, rest)
    ensures Climbs(held, body + rest)
  {
    if body == [] {
      assert body + rest == rest;
    } else {
      BodyClimbs(held, body[1..], rest);
      assert Plain(held, body[0]);
      assert (body + rest)[1..] == body[1..] + rest;
    }
  }

  lemma {:induction false} TakenClimbs(held: seq<Hold>, take: Instr, rest: seq<Instr>)
    requires (take.Lock? || take.RLock?) && MayTake(held, take.mutex)
    requires Climbs(held + [Hold(take.mutex, take.Lock?)], rest)
    ensures Climbs(held, [take] + rest)
  {
    assert ([take] + rest)[1..] == rest;
  }

  lemma {:induction false} GivenBackClimbs(held: seq<Hold>, h: Hold, rest: seq<Instr>)
    requires Climbs(held, rest)
    ensures Climbs(held + [h], [Unlock(h.mutex)] + rest)
  {
    assert ([Unlock(h.mutex)] + rest)[1..] == rest;
    assert (held + [h])[..|held|] == held;
  }

  /** A deferred-unlock section climbs when its lock lies above those held and its body is plain. */
  lemma {:induction false} SectionClimbs(held: seq<Hold>, take: Instr, body: seq<Instr>, rest: seq<Instr>)
    requires (take.Lock? || take.RLock?) && MayTake(held, take.mutex)
    requires forall i <- body :: Plain(held + [Hold(take.mutex, take.Lock?)], i)
    requires Climbs(held, rest)
    ensures Climbs(held, [take] + body + [Unlock(take.mutex)] + rest)
  {
    var h := Hold(take.mutex, take.Lock?);
    GivenBackClimbs(held, h, rest);
    BodyClimbs(held + [h], body, [Unlock(take.mutex)] + rest);
    TakenClimbs(held, take, body + ([Unlock(take.mutex)] + rest));
    assert [take] + body + [Unlock(take.mutex)] + rest == [take] + (body + ([Unlock(take.mutex)] + rest));
  }

  /** The end of Close, after both cancel-alls. */
  function CloseEnd(): seq<Instr> { [StopSync, FreeHandle, SetClosed, Unlock(DittoMu)] }

  function CloseBody(): seq<Instr> { CancelAll(Observers) + (CancelAll(Subscriptions) + CloseEnd()) }

  lemma {:induction false} CloseCode()
    ensures Code(CloseCall) == [Lock(DittoMu)] + ([ReturnIfClosed(DittoMu)] + CloseBody())
  {}

  lemma {:induction false} LoopCode(k: Kind, list: seq<nat>, rest: seq<Instr>)
    requires list != []
    ensures CancelLoop(k, list) + rest == Locked(EntryMu(k, list[0]), [Cancel(k, list[0])]) + (CancelLoop(k, list[1..]) + rest)
  {}

  lemma {:induction false} CloseEndClimbs(d: seq<Hold>)
    requires d == [Hold(DittoMu, true)]
    ensures Climbs(d, CloseEnd())
  {
    assert CloseEnd() == [StopSync, FreeHandle, SetClosed] + [Unlock(DittoMu)];
    assert d == [] + d && [Unlock(DittoMu)] == [Unlock(DittoMu)] + [];
    GivenBackClimbs([], d[0], []);
    BodyClimbs(d, [StopSync, FreeHandle, SetClosed], [Unlock(DittoMu)]);
  }

  lemma {:induction false} CloseClimbs()
    ensures Climbs([], Code(CloseCall))
  {
    var d := [Hold(DittoMu, true)];
    CloseEndClimbs(d);
    CancelAllClimbs(d, Subscriptions, CloseEnd());
    CancelAllClimbs(d, Observers, CancelAll(Subscriptions) + CloseEnd());
    CloseStartClimbs(CloseBody());
    CloseCode();
  }

  lemma {:induction false} CloseStartClimbs(rest: seq<Instr>)
    requires Climbs([Hold(DittoMu, true)], rest)
    ensures Climbs([], [Lock(DittoMu)] + ([ReturnIfClosed(DittoMu)] + rest))
  {
    assert [] + [Hold(DittoMu, true)] == [Hold(DittoMu, true)];
    BodyClimbs([Hold(DittoMu, true)], [ReturnIfClosed(DittoMu)], rest);
    TakenClimbs([], Lock(DittoMu), [ReturnIfClosed(DittoMu)] + rest);
  }

  lemma {:induction false} CancelAllClimbs(held: seq<Hold>, k: Kind, rest: seq<Instr>)
    requires held != [] && held[0].mutex == DittoMu && Below(held, 1) && Climbs(held, rest)
    ensures Climbs(held, CancelAll(k) + rest)
  {
    var h := Hold(ListMu(k), true);
    assert h in held + [h] && Below(held + [h], 2);
    SectionClimbs(held, Lock(ListMu(k)), [CancelEach(k), Clear(k)], rest);
  }

  lemma {:induction false} OuterSectionClimbs(take: Instr, body: seq<Instr>, rest: seq<Instr>)
    requires take.Lock? || take.RLock?
    requires forall i <- body :: Plain([Hold(take.mutex, take.Lock?)], i)
    requires Climbs([], rest)
    ensures Climbs([], [take] + body + [Unlock(take.mutex)] + rest)
  {
    var h := Hold(take.mutex, take.Lock?);
    assert [] + [h] == [h];
    SectionClimbs([], take, body, rest);
  }

  lemma {:induction false} CallsClimb(call: Call)
    ensures Climbs([], Code(call))
  {
    match call
    case CloseCall => CloseClimbs();
    case CancelCall(Subscriptions, x) =>
      OuterSectionClimbs(Lock(ListMu(Subscriptions)), [Remove(x)], []);
      assert Locked(ListMu(Subscriptions), [Remove(x)]) + [] == Locked(ListMu(Subscriptions), [Remove(x)]);
      OuterSectionClimbs(Lock(EntryMu(Subscriptions, x)), [Cancel(Subscriptions, x)], Locked(ListMu(Subscriptions), [Remove(x)]));
    case CancelCall(Observers, o) => SimpleLockedClimbs(EntryMu(Observers, o), [Cancel(Observers, o)]);
    case IsCanceledCall(k, x) => SimpleLockedClimbs(EntryMu(k, x), [Read]);
    case IsClosedCall => SimpleRLockedClimbs(DittoMu);
    case ListCall => SimpleRLockedClimbs(ListMu(Subscriptions));
    case StartCall => SimpleLockedClimbs(DittoMu, [ReturnIfClosed(DittoMu), StartSync]);
    case StopCall => SimpleLockedClimbs(DittoMu, [ReturnIfClosed(DittoMu), StopSync]);
    case RegisterCall(Subscriptions) =>
      SimpleLockedClimbs(ListMu(Subscriptions), [ReturnIfClosed(ListMu(Subscriptions)), New(Subscriptions)]);
    case RegisterCall(Observers) =>
      SimpleLockedClimbs(ListMu(Observers), [ReturnIfHandleFreed(ListMu(Observers)), New(Observers)]);
  }

  lemma {:induction false} SimpleLockedClimbs(m: Mutex, body: seq<Instr>)
    requires forall i <- body :: Plain([Hold(m, true)], i)
    ensures Climbs([], Locked(m, body))
  {
    OuterSectionClimbs(Lock(m), body, []);
    assert Locked(m, body) + [] == Locked(m, body);
  }

  lemma {:induction false} SimpleRLockedClimbs(m: Mutex)
    ensures Climbs([], RLocked(m, [Read]))
  {
    OuterSectionClimbs(RLock(m), [Read], []);
    assert RLocked(m, [Read]) + [] == RLocked(m, [Read]);
  }

  lemma {:induction false} LoopClimbs(held: seq<Hold>, k: Kind, list: seq<nat>, rest: seq<Instr>)
    requires held != [] && held[0].mutex == DittoMu && Below(held, 2) && Climbs(held, rest)
    ensures Climbs(held, CancelLoop(k, list) + rest)
  {
    if list == [] {
      assert CancelLoop(k, list) + rest == rest;
    } else {
      var tail := CancelLoop(k, list[1..]) + rest;
      LoopClimbs(held, k, list[1..], rest);
      var m := EntryMu(k, list[0]);
      assert Hold(m, true) in held + [Hold(m, true)];
      SectionClimbs(held, Lock(m), [Cancel(k, list[0])], tail);
      LoopCode(k, list, rest);
    }
  }

  // ---------------------------------------------------------------- every step keeps the discipline

  lemma {:induction false} MoveClimbs(s: Shared, me: Goroutine)
    requires me.code != [] && Climbs(me.held, me.code)
    ensures Climbs(HeldAfter(me.held, me.code[0]), Continue(s, me.code[0], me.code[1..]))
  {
    var rest := me.code[1..];
    match me.code[0]
    case Lock(m) => assert ([Acquire(m)] + rest)[1..] == rest;
    case ReturnIfClosed(m) => assert Climbs(me.held, [Unlock(m)]);
    case ReturnIfHandleFreed(m) => assert Climbs(me.held, [Unlock(m)]);
    case CancelEach(k) => LoopClimbs(me.held, k, s.Of(k).list, rest);
    case _ =>
  }

  lemma {:induction false} ClimbsKept(s: State, e: Event)
    requires AllClimb(s) && Next(s, e).Some?
    ensures AllClimb(Next(s, e).value)
  {
    match e
    case Spawn(g, call) => CallsClimb(call);
    case Move(g, fails) => MoveClimbs(s.shared, s.goroutines[g]);
  }

  /** Only inside Ditto.mu does a goroutine hold more than one lock. */
  ghost predicate Nested(held: seq<Hold>) { |held| > 1 ==> held[0].mutex == DittoMu }

  ghost predicate AllNested(s: State) {
    forall g <- s.goroutines :: Nested(s.goroutines[g].held)
  }

  lemma {:induction false} NestedKept(s: State, e: Event)
    requires AllClimb(s) && AllNested(s) && Next(s, e).Some?
    ensures AllNested(Next(s, e).value)
  {
    if e.Move? {
      var me := s.goroutines[e.goroutine];
      assert Nested(me.held) && Climbs(me.held, me.code);
      assert Nested(HeldAfter(me.held, me.code[0]));
    }
  }

  /** Only the two ways of taking a lock add a hold. */
  lemma {:induction false} HoldsAfterMove(me: Goroutine, instr: Instr, h: Hold)
    requires h in HeldAfter(me.held, instr)
    ensures h in me.held || (instr == Acquire(h.mutex) && h.write) || (instr == RLock(h.mutex) && !h.write)
  {
    if instr.Unlock? { ReleaseIsPart(me.held, instr.mutex, h); }
  }

  lemma {:induction false} ReleaseIsPart(held: seq<Hold>, m: Mutex, h: Hold)
    requires h in Release(held, m)
    ensures h in held
  {
    if held != [] && held[|held| - 1].mutex != m && h in Release(held[..|held| - 1], m) {
      ReleaseIsPart(held[..|held| - 1], m, h);
    }
  }

  lemma {:induction false} ExclusionKept(s: State, e: Event)
    requires Exclusive(s) && Next(s, e).Some?
    ensures Exclusive(Next(s, e).value)
  {
    if e.Move? {
      var t := Next(s, e).value;
      var me := s.goroutines[e.goroutine];
      forall g <- t.goroutines, h <- t.goroutines, m | g != h && Holds(t.goroutines[g], m, true)
        ensures !Holds(t.goroutines[h], m, true) && !Holds(t.goroutines[h], m, false)
      {
        if g == e.goroutine {
          HoldsAfterMove(me, me.code[0], Hold(m, true));
        }
        if h == e.goroutine && (Holds(t.goroutines[h], m, true) || Holds(t.goroutines[h], m, false)) {
          var w := Holds(t.goroutines[h], m, true);
          HoldsAfterMove(me, me.code[0], Hold(m, w));
        }
      }
    }
  }

  // ---------------------------------------------------------------- deadlock freedom

  /** The lock goroutine g is about to take, if it is about to take one. */
  ghost predicate Wants(g: Goroutine, m: Mutex) {
    g.code != [] && (g.code[0] == Acquire(m) || g.code[0] == RLock(m))
  }

  ghost predicate Blocked(s: State, g: nat) {
    g in s.goroutines && s.goroutines[g].code != [] && !CanMove(s, g)
  }

  ghost function WantedRank(g: Goroutine): nat {
    if g.code != [] && (g.code[0].Acquire? || g.code[0].RLock?) then g.code[0].mutex.Rank() else 0
  }

  /** Of any goroutines, one wants a lock of the highest rank. */
  lemma {:induction false} HighestWanted(s: State, among: set<nat>) returns (top: nat)
    requires among != {} && among <= s.goroutines.Keys
    ensures top in among
    ensures forall g <- among :: WantedRank(s.goroutines[g]) <= WantedRank(s.goroutines[top])
  {
    var g :| g in among;
    if among == {g} {
      top := g;
    } else {
      var other := HighestWanted(s, among - {g});
      top := if WantedRank(s.goroutines[g]) > WantedRank(s.goroutines[other]) then g else other;
    }
  }

  /** A goroutine that holds a lock and is itself blocked wants a lock of higher rank. */
  lemma {:induction false} BlockedHolderWantsHigher(s: State, h: nat, m: Mutex, write: bool)
    requires AllClimb(s) && Blocked(s, h) && Holds(s.goroutines[h], m, write)
    ensures m.Rank() < WantedRank(s.goroutines[h])
  {
    assert Below(s.goroutines[h].held, WantedRank(s.goroutines[h]));
    assert Hold(m, write).mutex == m;
  }

  lemma {:induction false} SomebodyMoves(s: State)
    requires AllClimb(s)
    requires exists g :: g in s.goroutines && s.goroutines[g].code != []
    ensures exists g :: CanMove(s, g)
  {
    if forall g :: !CanMove(s, g) {
      var stuck := set g | g in s.goroutines && s.goroutines[g].code != [];
      forall g <- stuck
        ensures Blocked(s, g) && exists m :: Wants(s.goroutines[g], m)
      {
        assert !CanMove(s, g);
        assert Wants(s.goroutines[g], s.goroutines[g].code[0].mutex);
      }
      var top := HighestWanted(s, stuck);
      var m := s.goroutines[top].code[0].mutex;
      forall h <- s.goroutines, w: bool
        ensures !Holds(s.goroutines[h], m, w)
      {
        if Holds(s.goroutines[h], m, w) {
          assert s.goroutines[h].held != [];
          assert h in stuck;
          BlockedHolderWantsHigher(s, h, m, w);
        }
      }
      assert NobodyHolds(s, m);
      assert s.goroutines[top].code[0] == RLock(m);
      var writer :| writer in s.goroutines && Waits(s.goroutines[writer], m);
      assert CanMove(s, writer);
    }
  }

  /** In every reachable state in which some call is unfinished, some goroutine can take its next step. */
  lemma {:induction false} DeadlockFreedom(events: seq<Event>)
    requires Run(OPENED, Next, events).Some?
    requires exists g :: g in Run(OPENED, Next, events).value.goroutines && Run(OPENED, Next, events).value.goroutines[g].code != []
    ensures exists g :: CanMove(Run(OPENED, Next, events).value, g)
  {
    forall s, e | AllClimb(s) && Next(s, e).Some? ensures AllClimb(Next(s, e).value) { ClimbsKept(s, e); }
    Invariance(OPENED, Next, AllClimb, events);
    SomebodyMoves(Run(OPENED, Next, events).value);
  }

  /** In every reachable state a lock held for writing has that one holder. */
  lemma {:induction false} MutualExclusion(events: seq<Event>)
    requires Run(OPENED, Next, events).Some?
    ensures Exclusive(Run(OPENED, Next, events).value)
  {
    forall s, e | Exclusive(s) && Next(s, e).Some? ensures Exclusive(Next(s, e).value) { ExclusionKept(s, e); }
    Invariance(OPENED, Next, Exclusive, events);
  }
}
