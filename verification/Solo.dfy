/** Runs in which one call executes from start to end while every other goroutine stands still. */
module Solo {
  import opened Wrappers
  import opened Runs
  import opened Lifecycle

  /** The goroutine that makes the call, and C's answer to it. */
  datatype Caller = Caller(g: nat, call: Call, fails: bool)

  /** The call, and the first n steps of its goroutine. */
  function Uninterrupted(c: Caller, n: nat): seq<Event> {
    if n == 0 then [Spawn(c.g, c.call)] else Uninterrupted(c, n - 1) + [Move(c.g, c.fails)]
  }

  /** After n steps of the call, begun in s. */
  ghost predicate Reaches(s: State, c: Caller, n: nat, shared: Shared, held: seq<Hold>, code: seq<Instr>) {
    && c.g !in s.goroutines
    && Run(s, Next, Uninterrupted(c, n)) == Some(State(shared, s.goroutines[c.g := Goroutine(held, code)]))
  }

  /** The call has returned after n steps, and only `shared` tells that it was made. */
  ghost predicate Achieves(s: State, c: Caller, n: nat, shared: Shared) { Reaches(s, c, n, shared, [], []) }

  lemma {:induction false} Begins(s: State, c: Caller)
    requires c.g !in s.goroutines && Callable(s.shared, c.call)
    ensures Reaches(s, c, 0, s.shared, [], Code(c.call))
  {
    Extend(s, Next, [], s, Spawn(c.g, c.call));
    assert [] + [Spawn(c.g, c.call)] == Uninterrupted(c, 0);
  }

  lemma {:induction false} GoesOn(s: State, c: Caller, n: nat, shared: Shared, held: seq<Hold>, i: Instr, rest: seq<Instr>)
    requires Reaches(s, c, n, shared, held, [i] + rest) && !i.RLock?
    requires i.Acquire? ==> NobodyHolds(s, i.mutex) && forall h <- held :: h.mutex != i.mutex
    ensures Reaches(s, c, n + 1, Effect(shared, i, c.fails), HeldAfter(held, i), Continue(shared, i, rest))
  {
    var t := State(shared, s.goroutines[c.g := Goroutine(held, [i] + rest)]);
    assert ([i] + rest)[1..] == rest;
    assert CanMove(t, c.g);
    Extend(s, Next, Uninterrupted(c, n), t, Move(c.g, c.fails));
    assert Moved(t, c.g, c.fails).goroutines == s.goroutines[c.g := Goroutine(HeldAfter(held, i), Continue(shared, i, rest))];
  }

  lemma {:induction false} Locks(s: State, c: Caller, n: nat, shared: Shared, held: seq<Hold>, m: Mutex, rest: seq<Instr>)
    requires Reaches(s, c, n, shared, held, [Lock(m)] + rest)
    requires NobodyHolds(s, m) && forall h <- held :: h.mutex != m
    ensures Reaches(s, c, n + 2, shared, held + [Hold(m, true)], rest)
  {
    hide Reaches;
    GoesOn(s, c, n, shared, held, Lock(m), rest);
    GoesOn(s, c, n + 1, shared, held, Acquire(m), rest);
  }

  lemma {:induction false} Unlocks(s: State, c: Caller, n: nat, shared: Shared, held: seq<Hold>, m: Mutex, rest: seq<Instr>)
    requires Reaches(s, c, n, shared, held + [Hold(m, true)], [Unlock(m)] + rest)
    ensures Reaches(s, c, n + 1, shared, held, rest)
  {
    hide Reaches;
    GoesOn(s, c, n, shared, held + [Hold(m, true)], Unlock(m), rest);
    assert Release(held + [Hold(m, true)], m) == held by { assert (held + [Hold(m, true)])[..|held|] == held; }
  }

  /** One statement under one lock. */
  lemma {:induction false} Section(s: State, c: Caller, n: nat, shared: Shared, held: seq<Hold>, m: Mutex, i: Instr, rest: seq<Instr>)
    requires Reaches(s, c, n, shared, held, Locked(m, [i]) + rest)
    requires NobodyHolds(s, m) && forall h <- held :: h.mutex != m
    requires i.New? || i.Cancel? || i.Remove? || i.StartSync? || i.StopSync?
    ensures Reaches(s, c, n + 4, Effect(shared, i, c.fails), held, rest)
  {
    hide Reaches;
    assert Locked(m, [i]) + rest == [Lock(m)] + ([i] + ([Unlock(m)] + rest));
    Locks(s, c, n, shared, held, m, [i] + ([Unlock(m)] + rest));
    GoesOn(s, c, n + 2, shared, held + [Hold(m, true)], i, [Unlock(m)] + rest);
    Unlocks(s, c, n + 3, Effect(shared, i, c.fails), held, m, rest);
  }

  /** What an early check looks for. */
  predicate Refused(s: Shared, guard: Instr) {
    (guard.ReturnIfClosed? && s.closed) || (guard.ReturnIfHandleFreed? && s.handleFreed)
  }

  /** A call that checks something under its lock, and then returns at once or goes on to one statement. */
  ghost predicate Checks(s: State, c: Caller, m: Mutex, guard: Instr, i: Instr) {
    && c.g !in s.goroutines && Callable(s.shared, c.call) && Code(c.call) == Locked(m, [guard, i]) && NobodyHolds(s, m)
    && (guard == ReturnIfClosed(m) || guard == ReturnIfHandleFreed(m))
    && (i.New? || i.StartSync? || i.StopSync?)
  }

  lemma {:induction false} ReachesCheck(s: State, c: Caller, m: Mutex, guard: Instr, i: Instr)
    requires Checks(s, c, m, guard, i)
    ensures Reaches(s, c, 2, s.shared, [] + [Hold(m, true)], [guard] + ([i] + ([Unlock(m)] + [])))
  {
    hide Reaches;
    var rest := [i] + ([Unlock(m)] + []);
    assert Code(c.call) == [Lock(m)] + ([guard] + rest);
    Begins(s, c);
    Locks(s, c, 0, s.shared, [], m, [guard] + rest);
  }

  lemma {:induction false} ReturnsEarly(s: State, c: Caller, m: Mutex, guard: Instr, i: Instr)
    requires Checks(s, c, m, guard, i) && Refused(s.shared, guard)
    ensures Achieves(s, c, 4, s.shared)
  {
    hide Reaches;
    ReachesCheck(s, c, m, guard, i);
    GoesOn(s, c, 2, s.shared, [] + [Hold(m, true)], guard, [i] + ([Unlock(m)] + []));
    assert [Unlock(m)] == [Unlock(m)] + [];
    Unlocks(s, c, 3, s.shared, [], m, []);
  }

  lemma {:induction false} PassesCheck(s: State, c: Caller, m: Mutex, guard: Instr, i: Instr)
    requires Checks(s, c, m, guard, i) && !Refused(s.shared, guard)
    ensures Achieves(s, c, 5, Effect(s.shared, i, c.fails))
  {
    hide Reaches;
    ReachesCheck(s, c, m, guard, i);
    GoesOn(s, c, 2, s.shared, [] + [Hold(m, true)], guard, [i] + ([Unlock(m)] + []));
    GoesOn(s, c, 3, s.shared, [] + [Hold(m, true)], i, [Unlock(m)] + []);
    Unlocks(s, c, 4, Effect(s.shared, i, c.fails), [], m, []);
  }
}
