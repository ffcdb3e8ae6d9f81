/**
 What each call achieves when nobody comes in between: from every reachable state in which the
 locks it needs are free, with any number of other calls standing still anywhere else.
 */
module Calls {
  import opened Wrappers
  import opened Runs
  import opened Registrations
  import opened Lifecycle
  import opened LockDiscipline
  import opened RegistryAgreement
  import opened Draining
  import opened Shutdown
  import opened Solo

  /** Nothing but the registrations of kind k differs. */
  ghost predicate SameBut(s: Shared, t: Shared, k: Kind) {
    && t.closed == s.closed && t.syncActive == s.syncActive && t.handleFreed == s.handleFreed && t.dittoFrees == s.dittoFrees
    && (k.Subscriptions? ==> t.observers == s.observers) && (k.Observers? ==> t.subscriptions == s.subscriptions)
  }

  /** One new registration, live and last in its list. */
  ghost predicate AddsOne(s: Shared, t: Shared, k: Kind, x: nat) {
    && SameBut(s, t, k) && x !in s.Of(k).entries
    && t.Of(k).entries == s.Of(k).entries[x := Registration(true, false, 0, 0)]
    && t.Of(k).list == s.Of(k).list + [x]
  }

  /**
   RegisterSubscription registers if and only if the instance is not closed and C accepts;
   RegisterObserver if and only if its handle is not freed and C accepts. If not, nothing changes.
   */
  lemma {:induction false} RegisterAlone(before: seq<Event>, s: State, g: nat, k: Kind, fails: bool) returns (x: nat, t: Shared)
    requires Run(OPENED, Next, before) == Some(s) && g !in s.goroutines && NobodyHolds(s, ListMu(k))
    ensures var refused := if k.Subscriptions? then s.shared.closed else s.shared.handleFreed;
            && Achieves(s, Caller(g, RegisterCall(k), fails), if refused then 4 else 5, t)
            && (refused || fails ==> t == s.shared)
            && (!refused && !fails ==> AddsOne(s.shared, t, k, x))
  {
    hide Reaches;
    InvHolds(before);
    assert Sound(s.shared.Of(k)) && LiveListed(s.shared.Of(k));
    x := |s.shared.Of(k).entries|;
    var c, m := Caller(g, RegisterCall(k), fails), ListMu(k);
    var guard := if k.Subscriptions? then ReturnIfClosed(m) else ReturnIfHandleFreed(m);
    RegisterCode(k);
    if Refused(s.shared, guard) {
      ReturnsEarly(s, c, m, guard, New(k));
      t := s.shared;
    } else {
      PassesCheck(s, c, m, guard, New(k));
      t := Effect(s.shared, New(k), fails);
      NewAddsOne(s.shared, k);
    }
  }

  lemma {:induction false} RegisterCode(k: Kind)
    ensures Code(RegisterCall(k)) ==
            Locked(ListMu(k), [if k.Subscriptions? then ReturnIfClosed(ListMu(k)) else ReturnIfHandleFreed(ListMu(k)), New(k)])
  {}

  lemma {:induction false} NewAddsOne(s: Shared, k: Kind)
    requires Sound(s.Of(k)) && LiveListed(s.Of(k))
    ensures AddsOne(s, Effect(s, New(k), false), k, |s.Of(k).entries|) && Effect(s, New(k), true) == s
  {
    RegisteredSound(s.Of(k));
  }

  /** Start makes sync active if the instance is not closed and C agrees, and otherwise changes nothing. */
  lemma {:induction false} StartAlone(s: State, g: nat, fails: bool)
    requires g !in s.goroutines && NobodyHolds(s, DittoMu)
    ensures Achieves(s, Caller(g, StartCall, fails), if s.shared.closed then 4 else 5,
                     s.shared.(syncActive := s.shared.syncActive || (!s.shared.closed && !fails)))
  {
    hide Reaches;
    var c := Caller(g, StartCall, fails);
    if s.shared.closed {
      ReturnsEarly(s, c, DittoMu, ReturnIfClosed(DittoMu), StartSync);
    } else {
      PassesCheck(s, c, DittoMu, ReturnIfClosed(DittoMu), StartSync);
    }
  }

  /** After Stop sync is inactive, and nothing else has changed. */
  lemma {:induction false} StopAlone(before: seq<Event>, s: State, g: nat, fails: bool)
    requires Run(OPENED, Next, before) == Some(s) && g !in s.goroutines && NobodyHolds(s, DittoMu)
    ensures Achieves(s, Caller(g, StopCall, fails), if s.shared.closed then 4 else 5, s.shared.(syncActive := false))
  {
    hide Reaches;
    var c := Caller(g, StopCall, fails);
    if s.shared.closed {
      ClosedMeansShutDown(before);
      ReturnsEarly(s, c, DittoMu, ReturnIfClosed(DittoMu), StopSync);
    } else {
      PassesCheck(s, c, DittoMu, ReturnIfClosed(DittoMu), StopSync);
    }
  }

  const CANCELLED := Registration(false, true, 1, 1)

  lemma {:induction false} CancelObserver(s: State, c: Caller)
    requires c.call.CancelCall? && c.call.kind.Observers? && Callable(s.shared, c.call)
    requires c.g !in s.goroutines && NobodyHolds(s, EntryMu(Observers, c.call.id))
    ensures Achieves(s, c, 4, Effect(s.shared, Cancel(Observers, c.call.id), c.fails))
  {
    hide Reaches;
    var m, i := EntryMu(Observers, c.call.id), Cancel(Observers, c.call.id);
    Begins(s, c);
    assert Code(c.call) == Locked(m, [i]) + [];
    Section(s, c, 0, s.shared, [], m, i, []);
  }

  lemma {:induction false} CancelSubscription(s: State, c: Caller)
    requires c.call.CancelCall? && c.call.kind.Subscriptions? && Callable(s.shared, c.call)
    requires c.g !in s.goroutines && NobodyHolds(s, EntryMu(Subscriptions, c.call.id)) && NobodyHolds(s, ListMu(Subscriptions))
    ensures Achieves(s, c, 8, Effect(Effect(s.shared, Cancel(Subscriptions, c.call.id), c.fails), Remove(c.call.id), c.fails))
  {
    hide Reaches;
    Begins(s, c);
    CancelSections(s, c, 0, c.call.id);
  }

  lemma {:induction false} CancelSections(s: State, c: Caller, n: nat, x: nat)
    requires Reaches(s, c, n, s.shared, [], Code(CancelCall(Subscriptions, x)))
    requires NobodyHolds(s, EntryMu(Subscriptions, x)) && NobodyHolds(s, ListMu(Subscriptions))
    ensures Reaches(s, c, n + 8, Effect(Effect(s.shared, Cancel(Subscriptions, x), c.fails), Remove(x), c.fails), [], [])
  {
    hide Reaches;
    var second := Locked(ListMu(Subscriptions), [Remove(x)]);
    Section(s, c, n, s.shared, [], EntryMu(Subscriptions, x), Cancel(Subscriptions, x), second);
    assert second == second + [];
    Section(s, c, n + 4, Effect(s.shared, Cancel(Subscriptions, x), c.fails), [], ListMu(Subscriptions), Remove(x), []);
  }

  /** Cancel leaves the registration cancelled by C once and freed once; a subscription also leaves its list. */
  lemma {:induction false} CancelAlone(before: seq<Event>, s: State, g: nat, k: Kind, x: nat, fails: bool) returns (t: Shared)
    requires Run(OPENED, Next, before) == Some(s) && g !in s.goroutines && x in s.shared.Of(k).entries
    requires NobodyHolds(s, EntryMu(k, x)) && (k.Subscriptions? ==> NobodyHolds(s, ListMu(k)))
    ensures Achieves(s, Caller(g, CancelCall(k, x), fails), if k.Subscriptions? then 8 else 4, t) && SameBut(s.shared, t, k)
    ensures t.Of(k).entries == s.shared.Of(k).entries[x := CANCELLED]
    ensures t.Of(k).list == if k.Subscriptions? then Without(s.shared.Of(k).list, x) else s.shared.Of(k).list
  {
    hide Reaches;
    InvHolds(before);
    assert Sound(s.shared.Of(k));
    var c := Caller(g, CancelCall(k, x), fails);
    CancelsInC(s.shared, k, x, fails);
    if k.Subscriptions? {
      CancelSubscription(s, c);
      t := Effect(Effect(s.shared, Cancel(k, x), fails), Remove(x), fails);
    } else {
      CancelObserver(s, c);
      t := Effect(s.shared, Cancel(k, x), fails);
    }
  }

  lemma {:induction false} CancelsInC(s: Shared, k: Kind, x: nat, fails: bool)
    requires Sound(s.Of(k)) && x in s.Of(k).entries
    ensures var t := Effect(s, Cancel(k, x), fails);
            SameBut(s, t, k) && t.Of(k).entries == s.Of(k).entries[x := CANCELLED] && t.Of(k).list == s.Of(k).list
  {
    assert Settled(s.Of(k).entries[x]);
  }

  // ---------------------------------------------------------------- Close

  /** An uninterrupted Close registers nothing, and never waits behind a reader's turn. */
  ghost predicate Harmless(code: seq<Instr>) { forall i <- code :: !i.RLock? && !i.New? }

  /** It sets `closed` at the end, after both lists have been cleared. */
  ghost predicate ClosesLast(now: Shared, code: seq<Instr>) {
    (now.closed <==> SetClosed !in code) && forall k :: Clear(k) in code ==> !now.closed
  }

  ghost predicate Clears(now: Shared, code: seq<Instr>) {
    forall k :: Clear(k) !in code ==> now.Of(k).list == []
  }

  ghost predicate SameKeys(first: Shared, now: Shared) {
    forall k :: now.Of(k).entries.Keys == first.Of(k).entries.Keys
  }

  ghost predicate ClosesOn(first: Shared, now: Shared, code: seq<Instr>) {
    Harmless(code) && ClosesLast(now, code) && Clears(now, code) && SameKeys(first, now)
  }

  /** Which of these instructions are left after a step: all but the one executed, unless the call returns early. */
  lemma {:induction false} LeftAfterStep(now: Shared, code: seq<Instr>, i: Instr)
    requires code != [] && ClosesLast(now, code) && Ordered(code) && (i.Clear? || i == SetClosed)
    ensures i in Continue(now, code[0], code[1..]) <==> i in code[1..]
  {
    if i in Continue(now, code[0], code[1..]) { CodeAfterMove(now, code, i); }
  }

  lemma {:induction false} StaysHarmless(now: Shared, code: seq<Instr>)
    requires code != [] && Harmless(code)
    ensures Harmless(Continue(now, code[0], code[1..]))
  {
    forall i <- Continue(now, code[0], code[1..]) ensures !i.RLock? && !i.New? { CodeAfterMove(now, code, i); }
  }

  lemma {:induction false} StaysLast(now: Shared, code: seq<Instr>, fails: bool)
    requires code != [] && Ordered(code) && ClosesLast(now, code)
    ensures ClosesLast(Effect(now, code[0], fails), Continue(now, code[0], code[1..]))
  {
    LeftAfterStep(now, code, SetClosed);
    forall k ensures Clear(k) in Continue(now, code[0], code[1..]) <==> Clear(k) in code[1..] { LeftAfterStep(now, code, Clear(k)); }
    assert code[0] == SetClosed <==> SetClosed in code && SetClosed !in code[1..];
  }

  lemma {:induction false} StaysClear(now: Shared, code: seq<Instr>, fails: bool)
    requires code != [] && Ordered(code) && ClosesLast(now, code) && Harmless(code) && Clears(now, code)
    ensures Clears(Effect(now, code[0], fails), Continue(now, code[0], code[1..]))
  {
    forall k | Clear(k) !in Continue(now, code[0], code[1..]) ensures Effect(now, code[0], fails).Of(k).list == [] {
      LeftAfterStep(now, code, Clear(k));
      if code[0] != Clear(k) { ListStaysEmpty(now, code[0], fails, k); }
    }
  }

  lemma {:induction false} ListStaysEmpty(now: Shared, i: Instr, fails: bool, k: Kind)
    requires !i.New? && now.Of(k).list == []
    ensures Effect(now, i, fails).Of(k).list == []
  {}

  lemma {:induction false} KeepsKeys(now: Shared, i: Instr, fails: bool, k: Kind)
    requires !i.New?
    ensures Effect(now, i, fails).Of(k).entries.Keys == now.Of(k).entries.Keys
  {
    if i.Cancel? && i.id in now.Of(k).entries { assert now.Of(k).entries.Keys + {i.id} == now.Of(k).entries.Keys; }
  }

  lemma {:induction false} CloseStep(first: Shared, now: Shared, code: seq<Instr>, fails: bool)
    requires ClosesOn(first, now, code) && code != [] && Ordered(code)
    ensures ClosesOn(first, Effect(now, code[0], fails), Continue(now, code[0], code[1..]))
  {
    StaysHarmless(now, code);
    StaysLast(now, code, fails);
    StaysClear(now, code, fails);
    assert code[0] in code;
    forall k ensures Effect(now, code[0], fails).Of(k).entries.Keys == now.Of(k).entries.Keys { KeepsKeys(now, code[0], fails, k); }
  }

  /** The states of an uninterrupted Close. */
  ghost predicate Midway(s: State, c: Caller, n: nat, t: State) {
    && c.g !in s.goroutines && (forall h <- s.goroutines :: s.goroutines[h].held == [])
    && Run(s, Next, Uninterrupted(c, n)) == Some(t) && c.g in t.goroutines && t.goroutines == s.goroutines[c.g := t.goroutines[c.g]]
    && Inv(t) && ClosesOn(s.shared, t.shared, t.goroutines[c.g].code)
  }

  lemma {:induction false} MidwayMoves(s: State, c: Caller, n: nat, t: State)
    requires Midway(s, c, n, t) && t.goroutines[c.g].code != []
    ensures CanMove(t, c.g) && Midway(s, c, n + 1, Moved(t, c.g, c.fails))
  {
    var me := t.goroutines[c.g];
    assert me.code[0] in me.code && Climbs(me.held, me.code);
    MoveKeepsInv(t, c.g, c.fails);
    CloseStep(s.shared, t.shared, me.code, c.fails);
    Extend(s, Next, Uninterrupted(c, n), t, Move(c.g, c.fails));
  }

  lemma {:induction false} ClosesFrom(s: State, c: Caller, n: nat, t: State) returns (m: nat, u: State)
    requires Midway(s, c, n, t)
    ensures Midway(s, c, m, u) && u.goroutines[c.g] == Goroutine([], [])
    decreases Sum(LoopsLeft(t)), Sum(WorkLeft(t))
  {
    if t.goroutines[c.g].code == [] {
      assert Climbs(t.goroutines[c.g].held, []);
      m, u := n, t;
    } else {
      MidwayMoves(s, c, n, t);
      StateShrinks(t, c.g, c.fails);
      m, u := ClosesFrom(s, c, n + 1, Moved(t, c.g, c.fails));
    }
  }

  /**
   The first Close cancels every subscription and observer, empties both lists, stops sync,
   frees the handle once and closes the instance; a later Close changes nothing.
   */
  lemma {:induction false} CloseAlone(before: seq<Event>, s: State, g: nat, fails: bool) returns (n: nat, t: Shared)
    requires Run(OPENED, Next, before) == Some(s) && g !in s.goroutines && forall h <- s.goroutines :: s.goroutines[h].held == []
    ensures Achieves(s, Caller(g, CloseCall, fails), n, t)
    ensures s.shared.closed ==> n == 4 && t == s.shared
    ensures !s.shared.closed ==> t.closed && t.handleFreed && t.dittoFrees == 1 && !t.syncActive
    ensures !s.shared.closed ==> forall k :: t.Of(k).list == [] && t.Of(k).entries.Keys == s.shared.Of(k).entries.Keys
    ensures !s.shared.closed ==> forall k, x | x in t.Of(k).entries :: t.Of(k).entries[x] == CANCELLED
  {
    var c := Caller(g, CloseCall, fails);
    Begins(s, c);
    if s.shared.closed {
      ClosedClose(s, c);
      n, t := 4, s.shared;
    } else {
      n, t := OpenClose(before, s, c);
    }
  }

  lemma {:induction false} OpenClose(before: seq<Event>, s: State, c: Caller) returns (n: nat, t: Shared)
    requires Run(OPENED, Next, before) == Some(s) && c.g !in s.goroutines && forall h <- s.goroutines :: s.goroutines[h].held == []
    requires c.call == CloseCall && !s.shared.closed
    ensures Achieves(s, c, n, t)
    ensures t.closed && t.handleFreed && t.dittoFrees == 1 && !t.syncActive
    ensures forall k :: t.Of(k).list == [] && t.Of(k).entries.Keys == s.shared.Of(k).entries.Keys
    ensures forall k, x | x in t.Of(k).entries :: t.Of(k).entries[x] == CANCELLED
  {
    var u := State(s.shared, s.goroutines[c.g := Goroutine([], Code(CloseCall))]);
    StartsMidway(before, s, c, u);
    var end;
    n, end := ClosesFrom(s, c, 0, u);
    t := end.shared;
    Split(OPENED, Next, before, Uninterrupted(c, n));
    ClosedMeansShutDown(before + Uninterrupted(c, n));
    AllCancelled(end);
  }

  lemma {:induction false} StartsMidway(before: seq<Event>, s: State, c: Caller, u: State)
    requires Run(OPENED, Next, before) == Some(s) && c.g !in s.goroutines && forall h <- s.goroutines :: s.goroutines[h].held == []
    requires c.call == CloseCall && !s.shared.closed && u == State(s.shared, s.goroutines[c.g := Goroutine([], Code(CloseCall))])
    ensures Midway(s, c, 0, u)
  {
    Begins(s, c);
    InvHolds(before);
    SpawnKeepsInv(s, c.g, CloseCall);
    CloseClosesOn(s.shared);
  }

  lemma {:induction false} AllCancelled(s: State)
    requires Inv(s) && forall k :: s.shared.Of(k).list == []
    ensures forall k, x | x in s.shared.Of(k).entries :: s.shared.Of(k).entries[x] == CANCELLED
  {
    forall k, x | x in s.shared.Of(k).entries ensures s.shared.Of(k).entries[x] == CANCELLED {
      assert LiveListed(s.shared.Of(k)) && Sound(s.shared.Of(k));
    }
  }

  lemma {:induction false} ClosedClose(s: State, c: Caller)
    requires Reaches(s, c, 0, s.shared, [], Code(CloseCall)) && s.shared.closed && NobodyHolds(s, DittoMu)
    ensures Achieves(s, c, 4, s.shared)
  {
    hide Reaches;
    CloseCode();
    Locks(s, c, 0, s.shared, [], DittoMu, [ReturnIfClosed(DittoMu)] + CloseBody());
    GoesOn(s, c, 2, s.shared, [] + [Hold(DittoMu, true)], ReturnIfClosed(DittoMu), CloseBody());
    assert [Unlock(DittoMu)] == [Unlock(DittoMu)] + [];
    Unlocks(s, c, 3, s.shared, [], DittoMu, []);
  }

  lemma {:induction false} CloseClosesOn(s: Shared)
    requires !s.closed
    ensures ClosesOn(s, s, Code(CloseCall))
  {
    CloseCode();
    CloseBodyClears();
    CloseBodyHarmless();
  }

  lemma {:induction false} CloseBodyHarmless()
    ensures Harmless(CloseBody()) && SetClosed in CloseBody()
  {
    CancelAllContents(Observers);
    CancelAllContents(Subscriptions);
    assert CloseEnd()[2] == SetClosed;
    assert SetClosed in CancelAll(Subscriptions) + CloseEnd();
  }
}
