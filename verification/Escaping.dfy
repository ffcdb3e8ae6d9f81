/**
 Which registrations a Close cancels, exactly. A live registration is cancelled whenever the
 instance gets closed if and only if no Close that has yet to set `closed` is past its
 cancel-all. The other direction is a schedule: a Close that is past it can always be brought
 to its end, if need be by first moving whoever holds the lock it waits for, and none of these
 steps cancels the registration.
 */
module Escaping {
  import opened Wrappers
  import opened Runs
  import opened Lifecycle
  import opened LockDiscipline
  import opened RegistryAgreement
  import opened Closing
  import opened Draining
  import opened Solo
  import opened Calls

  ghost predicate Live(s: Shared, k: Kind, x: nat) {
    x in s.Of(k).entries && !s.Of(k).entries[x].canceled
  }

  /** A Close past its cancel-all of kind k that has yet to set `closed`. */
  ghost predicate Late(code: seq<Instr>, k: Kind) { SetClosed in code && Clear(k) !in code }

  ghost predicate Escapes(s: State, g: nat, k: Kind, x: nat) {
    && Inv(s) && AllNested(s) && !s.shared.closed && Live(s.shared, k, x)
    && g in s.goroutines && Late(s.goroutines[g].code, k)
  }

  /** A late Close holds Ditto.mu. */
  lemma {:induction false} LateHolds(held: seq<Hold>, code: seq<Instr>, k: Kind)
    requires Climbs(held, code) && Ordered(code) && Late(code, k)
    ensures Hold(DittoMu, true) in held
    decreases |code|
  {
    var rest := code[1..];
    assert code[0] != SetClosed ==> Late(rest, k);
    match code[0]
    case SetClosed =>
    case Lock(m) => LateHolds(held + [Hold(m, true)], rest, k);
    case Acquire(m) => LateHolds(held + [Hold(m, true)], rest, k);
    case RLock(_) =>
    case ReturnIfHandleFreed(_) =>
    case Unlock(m) => LateHolds(held[..|held| - 1], rest, k);
    case _ => LateHolds(held, rest, k);
  }

  /** Nothing but its own Cancel instruction ends a registration. */
  lemma {:induction false} StaysLive(s: Shared, i: Instr, fails: bool, k: Kind, x: nat)
    requires Sound(s.Of(k)) && Live(s, k, x) && i != Cancel(k, x)
    ensures Live(Effect(s, i, fails), k, x)
  {
  }

  /** A late Close moves on without cancelling anything of kind k. */
  lemma {:induction false} LateMoves(s: State, g: nat, k: Kind, x: nat)
    requires Escapes(s, g, k, x) && CanMove(s, g)
    ensures var t := Moved(s, g, false);
            Live(t.shared, k, x) && (t.shared.closed || Escapes(t, g, k, x))
  {
    var code := s.goroutines[g].code;
    var t := Moved(s, g, false);
    MoveKeepsInv(s, g, false);
    NestedKept(s, Move(g, false));
    assert code[0] != SetClosed ==> Late(code[1..], k);
    StaysLive(s.shared, code[0], false, k, x);
    if code[0] != SetClosed {
      LateStays(s.shared, code, k);
    }
  }

  lemma {:induction false} LateStays(s: Shared, code: seq<Instr>, k: Kind)
    requires !s.closed && code != [] && Ordered(code) && Late(code, k) && code[0] != SetClosed
    ensures Late(Continue(s, code[0], code[1..]), k)
  {
    assert SetClosed in code[1..];
    if Clear(k) in Continue(s, code[0], code[1..]) { CodeAfterMove(s, code, Clear(k)); }
  }

  /** A late Close can only be kept waiting by the holder of a lock that no registration of kind k needs. */
  lemma {:induction false} WaitsForHolder(s: State, g: nat, k: Kind, x: nat) returns (h: nat)
    requires Escapes(s, g, k, x) && !CanMove(s, g)
    ensures var m := s.goroutines[g].code[0];
            && h != g && h in s.goroutines && m.Acquire? && m.mutex != EntryMu(k, x) && m.mutex != DittoMu
            && (s.goroutines[h].held == [Hold(m.mutex, true)] || s.goroutines[h].held == [Hold(m.mutex, false)])
  {
    var me := s.goroutines[g];
    var m := me.code[0].mutex;
    assert Late(me.code[1..], k);
    LateHolds(me.held, me.code, k);
    h :| h in s.goroutines && (Holds(s.goroutines[h], m, true) || Holds(s.goroutines[h], m, false));
    assert Below(me.held, m.Rank());
    assert Holds(me, DittoMu, true);
    assert !Holds(s.goroutines[h], DittoMu, true) && !Holds(s.goroutines[h], DittoMu, false);
    HoldsNothingElse(s.goroutines[h].held, m);
  }

  lemma {:induction false} HoldsNothingElse(held: seq<Hold>, m: Mutex)
    requires Nested(held) && (Hold(m, true) in held || Hold(m, false) in held)
    requires Hold(DittoMu, true) !in held && Hold(DittoMu, false) !in held
    ensures held == [Hold(m, true)] || held == [Hold(m, false)]
  {
    var first := held[0];
    assert first in held && first == Hold(first.mutex, first.write);
  }

  /** The holder of that one lock is not kept waiting, and cancels nothing of kind k. */
  lemma {:induction false} HolderMoves(s: State, g: nat, k: Kind, x: nat, h: nat, m: Mutex)
    requires Escapes(s, g, k, x) && h != g && h in s.goroutines && m != EntryMu(k, x) && m != DittoMu
    requires s.goroutines[h].held == [Hold(m, true)] || s.goroutines[h].held == [Hold(m, false)]
    ensures CanMove(s, h) && Escapes(Moved(s, h, false), g, k, x)
  {
    var code := s.goroutines[h].code;
    assert s.goroutines[h].held[0].mutex == m;
    MoveKeepsInv(s, h, false);
    NestedKept(s, Move(h, false));
    StaysLive(s.shared, code[0], false, k, x);
  }

  /** From where a Close is late, the instance can be closed with the registration still live. */
  lemma {:induction false} EscapeRoute(s: State, g: nat, k: Kind, x: nat) returns (moves: seq<Event>)
    requires Escapes(s, g, k, x)
    ensures Run(s, Next, moves).Some?
    ensures var t := Run(s, Next, moves).value; t.shared.closed && Live(t.shared, k, x)
    decreases Sum(LoopsLeft(s)), Sum(WorkLeft(s))
  {
    var h := g;
    if CanMove(s, g) {
      LateMoves(s, g, k, x);
    } else {
      h := WaitsForHolder(s, g, k, x);
      HolderMoves(s, g, k, x, h, s.goroutines[g].code[0].mutex);
    }
    var t := Moved(s, h, false);
    StateShrinks(s, h, false);
    var rest := [];
    if !t.shared.closed {
      rest := EscapeRoute(t, g, k, x);
    }
    moves := [Move(h, false)] + rest;
    FirstThenRest(s, Next, Move(h, false), t, rest);
  }

  lemma {:induction false} AlwaysNested(events: seq<Event>)
    requires Run(OPENED, Next, events).Some?
    ensures Inv(Run(OPENED, Next, events).value) && AllNested(Run(OPENED, Next, events).value)
  {
    var inv := (s: State) => Inv(s) && AllNested(s);
    forall s, e | inv(s) && Next(s, e).Some? ensures inv(Next(s, e).value) {
      StepKeepsInv(s, e);
      NestedKept(s, e);
    }
    Invariance(OPENED, Next, inv, events);
  }

  /**
   In a reachable state in which the instance is open, a live registration is cancelled in every
   later state in which the instance is closed, if and only if every Close that has yet to set
   `closed` still has its cancel-all ahead of it.
   */
  lemma {:induction false} CancelledByCloseExactly(before: seq<Event>, k: Kind, x: nat)
    requires Run(OPENED, Next, before).Some?
    requires var s := Run(OPENED, Next, before).value; !s.shared.closed && Live(s.shared, k, x)
    ensures CancelAllAhead(Run(OPENED, Next, before).value, k) <==>
            forall after | Run(OPENED, Next, before + after).Some? && Run(OPENED, Next, before + after).value.shared.closed ::
              IsCanceled(Run(OPENED, Next, before + after).value.shared.Of(k), x)
  {
    var s := Run(OPENED, Next, before).value;
    if CancelAllAhead(s, k) {
      forall after | Run(OPENED, Next, before + after).Some? && Run(OPENED, Next, before + after).value.shared.closed
        ensures IsCanceled(Run(OPENED, Next, before + after).value.shared.Of(k), x)
      {
        CloseCancelsEverything(before, after, k, x);
      }
    } else {
      AlwaysNested(before);
      var g :| g in s.goroutines && Late(s.goroutines[g].code, k);
      var moves := EscapeRoute(s, g, k, x);
      Split(OPENED, Next, before, moves);
      assert !IsCanceled(Run(OPENED, Next, before + moves).value.shared.Of(k), x);
    }
  }

  // ---------------------------------------------------------------- a registration that escapes Close

  lemma {:induction false} CancelAllCode(k: Kind, rest: seq<Instr>)
    ensures CancelAll(k) + rest == [Lock(ListMu(k))] + ([CancelEach(k)] + ([Clear(k)] + ([Unlock(ListMu(k))] + rest)))
  {}

  lemma {:induction false} NothingToCancel(s: Shared, k: Kind, rest: seq<Instr>, fails: bool)
    requires s.Of(k).list == []
    ensures Continue(s, CancelEach(k), rest) == rest && Effect(s, Clear(k), fails) == s
  {}

  /** The cancel-all of an empty list. */
  lemma {:induction false} EmptyCancelAll(s: State, c: Caller, n: nat, held: seq<Hold>, k: Kind, rest: seq<Instr>)
    requires Reaches(s, c, n, s.shared, held, CancelAll(k) + rest) && Below(held, 1)
    requires s.shared.Of(k).list == [] && NobodyHolds(s, ListMu(k))
    ensures Reaches(s, c, n + 5, s.shared, held, rest)
  {
    hide Reaches;
    var loop := [CancelEach(k)] + ([Clear(k)] + ([Unlock(ListMu(k))] + rest));
    CancelAllCode(k, rest);
    Locks(s, c, n, s.shared, held, ListMu(k), loop);
    EmptySection(s, c, n + 2, held, k, rest);
  }

  lemma {:induction false} EmptySection(s: State, c: Caller, n: nat, held: seq<Hold>, k: Kind, rest: seq<Instr>)
    requires Reaches(s, c, n, s.shared, held + [Hold(ListMu(k), true)],
                     [CancelEach(k)] + ([Clear(k)] + ([Unlock(ListMu(k))] + rest)))
    requires s.shared.Of(k).list == []
    ensures Reaches(s, c, n + 3, s.shared, held, rest)
  {
    hide Reaches;
    EmptyLoop(s, c, n, held + [Hold(ListMu(k), true)], k, [Unlock(ListMu(k))] + rest);
    Unlocks(s, c, n + 2, s.shared, held, ListMu(k), rest);
  }

  lemma {:induction false} EmptyLoop(s: State, c: Caller, n: nat, held: seq<Hold>, k: Kind, rest: seq<Instr>)
    requires Reaches(s, c, n, s.shared, held, [CancelEach(k)] + ([Clear(k)] + rest)) && s.shared.Of(k).list == []
    ensures Reaches(s, c, n + 2, s.shared, held, rest)
  {
    hide Reaches;
    NothingToCancel(s.shared, k, [Clear(k)] + rest, c.fails);
    GoesOn(s, c, n, s.shared, held, CancelEach(k), [Clear(k)] + rest);
    GoesOn(s, c, n + 1, s.shared, held, Clear(k), rest);
  }

  lemma {:induction false} ClosePasses(s: State, c: Caller, n: nat)
    requires Reaches(s, c, n, s.shared, [], Code(CloseCall)) && !s.shared.closed && NobodyHolds(s, DittoMu)
    ensures Reaches(s, c, n + 3, s.shared, [] + [Hold(DittoMu, true)], CloseBody())
  {
    hide Reaches;
    CloseCode();
    Locks(s, c, n, s.shared, [], DittoMu, [ReturnIfClosed(DittoMu)] + CloseBody());
    GoesOn(s, c, n + 2, s.shared, [] + [Hold(DittoMu, true)], ReturnIfClosed(DittoMu), CloseBody());
  }

  /** Close with nothing to cancel, up to the end of its cancel-alls. */
  lemma {:induction false} CloseUpToEnd(s: State, c: Caller, n: nat)
    requires Reaches(s, c, n, s.shared, [], Code(CloseCall)) && !s.shared.closed
    requires forall k :: s.shared.Of(k).list == [] && NobodyHolds(s, ListMu(k))
    requires NobodyHolds(s, DittoMu)
    ensures Reaches(s, c, n + 13, s.shared, [] + [Hold(DittoMu, true)], CloseEnd())
  {
    hide Reaches;
    var d := [] + [Hold(DittoMu, true)];
    ClosePasses(s, c, n);
    EmptyCancelAll(s, c, n + 3, d, Observers, CancelAll(Subscriptions) + CloseEnd());
    EmptyCancelAll(s, c, n + 8, d, Subscriptions, CloseEnd());
  }

  /** Beside a Close that has come this far, a subscription can be registered. */
  lemma {:induction false} RegistersBeside(first: seq<Event>, g: Goroutine) returns (x: nat, t: Shared)
    requires Run(OPENED, Next, first) == Some(State(OPENED.shared, map[0 := g])) && forall h <- g.held :: h.mutex == DittoMu
    ensures var second := Uninterrupted(Caller(1, RegisterCall(Subscriptions), false), 5);
            Run(OPENED, Next, first + second) == Some(State(t, map[0 := g, 1 := Goroutine([], [])]))
    ensures !t.closed && Live(t, Subscriptions, x)
  {
    var s := State(OPENED.shared, map[0 := g]);
    x, t := RegisterAlone(first, s, 1, Subscriptions, false);
    Split(OPENED, Next, first, Uninterrupted(Caller(1, RegisterCall(Subscriptions), false), 5));
    assert s.goroutines[1 := Goroutine([], [])] == map[0 := g, 1 := Goroutine([], [])];
  }

  /** A Close of a fresh instance is past its cancel-alls when a subscription is registered. */
  lemma {:induction false} RegistersTooLate() returns (events: seq<Event>, x: nat)
    ensures Run(OPENED, Next, events).Some? && Escapes(Run(OPENED, Next, events).value, 0, Subscriptions, x)
  {
    hide Reaches;
    var closer, g := Caller(0, CloseCall, false), Goroutine([] + [Hold(DittoMu, true)], CloseEnd());
    Begins(OPENED, closer);
    CloseUpToEnd(OPENED, closer, 0);
    FirstOfAll(closer, 13, g);
    var t;
    x, t := RegistersBeside(Uninterrupted(closer, 13), g);
    events := Uninterrupted(closer, 13) + Uninterrupted(Caller(1, RegisterCall(Subscriptions), false), 5);
    LateAtTheEnd(events, t, x, g, Goroutine([], []));
  }

  lemma {:induction false} FirstOfAll(c: Caller, n: nat, g: Goroutine)
    requires c.g == 0 && Reaches(OPENED, c, n, OPENED.shared, g.held, g.code)
    ensures Run(OPENED, Next, Uninterrupted(c, n)) == Some(State(OPENED.shared, map[0 := g]))
  {
    assert OPENED.goroutines[0 := g] == map[0 := g];
  }

  lemma {:induction false} LateAtTheEnd(events: seq<Event>, t: Shared, x: nat, g: Goroutine, other: Goroutine)
    requires Run(OPENED, Next, events) == Some(State(t, map[0 := g, 1 := other])) && g.code == CloseEnd()
    requires !t.closed && Live(t, Subscriptions, x)
    ensures Escapes(State(t, map[0 := g, 1 := other]), 0, Subscriptions, x)
  {
    AlwaysNested(events);
    LateEnd();
  }

  lemma {:induction false} LateEnd()
    ensures Late(CloseEnd(), Subscriptions)
  {
    assert CloseEnd()[2] == SetClosed;
  }

  /** A run after which the instance is closed and a registered subscription is still live. */
  lemma {:induction false} RegistrationCanEscapeClose() returns (events: seq<Event>, x: nat)
    ensures Run(OPENED, Next, events).Some?
    ensures var s := Run(OPENED, Next, events).value.shared; s.closed && Live(s, Subscriptions, x)
  {
    var late;
    late, x := RegistersTooLate();
    var t := Run(OPENED, Next, late).value;
    var rest := EscapeRoute(t, 0, Subscriptions, x);
    Split(OPENED, Next, late, rest);
    events := late + rest;
  }
}
