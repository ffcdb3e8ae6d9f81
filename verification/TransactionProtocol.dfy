/**
 Store.Transaction around an arbitrary user function: the function may call Execute any number
 of times, from any number of goroutines, some of which may outlive it; and it may return an
 action, return an error, or panic.

 Execute, complete and cleanup hold the transaction's mutex for as long as C takes to answer.
 Each Execute call is a goroutine of its own here, which includes the calls that the user
 function makes itself.
 */
module TransactionProtocol {
  import opened Wrappers
  import opened Runs

  type Action = int

  const COMMIT: Action := 0
  const ROLLBACK: Action := 1

  /** What C is asked to do with the transaction, in order. */
  datatype CCall = CExecute | CComplete(action: Action) | CFree

  /** How the user function ends. */
  datatype FnResult = FnReturn(action: Action, err: bool) | FnPanic

  /** What Store.Transaction does to its caller. */
  datatype Outcome = Returned(action: Action, err: bool) | Panicked

  /** The goroutine inside Store.Transaction, after a successful begin. */
  datatype Driver =
    | InFn
    | WantComplete(fn: FnResult)                    // about to lock, in complete
    | InComplete(fn: FnResult)                      // holds the mutex
    | AskedComplete(fn: FnResult)                   // waits for C with the mutex held
    | WantCleanup(fn: FnResult, outcome: Outcome)   // about to lock, in the deferred cleanup
    | InCleanup(fn: FnResult, outcome: Outcome)
    | AskedCleanup(fn: FnResult, outcome: Outcome)
    | Finished(fn: FnResult, outcome: Outcome)

  /** A goroutine inside Transaction.Execute. */
  datatype Executor = WantExecute | InExecute | AskedExecute | Executed

  datatype Holder = Nobody | TheDriver | AnExecutor(id: nat)

  datatype State = State(
    handleIsNull: bool,              // whether the begin handed over a null pointer with its success
    holder: Holder,                  // of the transaction's mutex
    closed: bool,
    driver: Driver,
    executors: map<nat, Executor>,
    calls: seq<CCall>,
    reported: Option<Action>)        // the action C reported, if it reported one without an error

  function Begun(handleIsNull: bool): State { State(handleIsNull, Nobody, false, InFn, map[], [], None) }

  datatype Event =
    | Spawn(executor: nat)
    | Execute(executor: nat, encodes: bool)          // the executor's next step; `encodes` says whether its arguments do
    | FnEnds(fn: FnResult)
    | Drive(answer: Option<Action>)                  // the driver's next step; `answer` is C's report or None for an error

  /** The action that complete is called with. */
  function Requested(fn: FnResult): Action {
    match fn
    case FnReturn(a, err) => if err then ROLLBACK else a
    case FnPanic => ROLLBACK
  }

  /** What Store.Transaction returns after complete has returned an answer or an error. */
  function OutcomeOf(fn: FnResult, answer: Option<Action>): Outcome {
    match fn
    case FnReturn(_, err) =>
      if err then Returned(ROLLBACK, true)
      else if answer.None? then Returned(ROLLBACK, true)
      else Returned(answer.value, false)
    case FnPanic => Panicked
  }

  function Next(s: State, e: Event): Option<State> {
    match e
    case Spawn(x) => if x in s.executors then None else Some(s.(executors := s.executors[x := WantExecute]))
    case Execute(x, encodes) => if x !in s.executors then None else ExecuteStep(s, x, encodes)
    case FnEnds(fn) =>
      if !s.driver.InFn? then None
      else if fn.FnPanic? then Some(s.(driver := WantCleanup(fn, Panicked)))
      else Some(s.(driver := WantComplete(fn)))
    case Drive(answer) => DriveStep(s, answer)
  }

  /** Transaction.Execute */
  function ExecuteStep(s: State, x: nat, encodes: bool): Option<State>
    requires x in s.executors
  {
    match s.executors[x]
    case WantExecute =>
      if !s.holder.Nobody? then None else Some(s.(holder := AnExecutor(x), executors := s.executors[x := InExecute]))
    case InExecute =>
      if s.closed || s.handleIsNull || !encodes then Some(s.(holder := Nobody, executors := s.executors[x := Executed]))
      else Some(s.(calls := s.calls + [CExecute], executors := s.executors[x := AskedExecute]))
    case AskedExecute => Some(s.(holder := Nobody, executors := s.executors[x := Executed]))
    case Executed => None
  }

  /** Transaction.complete, Transaction.cleanup, and the lines of Store.Transaction around them */
  function DriveStep(s: State, answer: Option<Action>): Option<State> {
    match s.driver
    case InFn => None
    case WantComplete(fn) =>
      if !s.holder.Nobody? then None else Some(s.(holder := TheDriver, driver := InComplete(fn)))
    case InComplete(fn) =>
      if s.closed then Some(s.(holder := Nobody, driver := WantCleanup(fn, OutcomeOf(fn, None))))
      else if s.handleIsNull then Some(s.(holder := Nobody, closed := true, driver := WantCleanup(fn, OutcomeOf(fn, None))))
      else Some(s.(calls := s.calls + [CComplete(Requested(fn))], driver := AskedComplete(fn)))
    case AskedComplete(fn) =>
      Some(s.(holder := Nobody, closed := true, reported := answer, driver := WantCleanup(fn, OutcomeOf(fn, answer))))
    case WantCleanup(fn, outcome) =>
      if !s.holder.Nobody? then None else Some(s.(holder := TheDriver, driver := InCleanup(fn, outcome)))
    case InCleanup(fn, outcome) =>
      if s.closed then Some(s.(holder := Nobody, driver := Finished(fn, outcome)))
      else if s.handleIsNull then Some(s.(holder := Nobody, closed := true, driver := Finished(fn, outcome)))
      else Some(s.(calls := s.calls + [CComplete(ROLLBACK)], driver := AskedCleanup(fn, outcome)))
    case AskedCleanup(fn, outcome) =>
      Some(s.(holder := Nobody, closed := true, reported := answer, calls := s.calls + [CFree], driver := Finished(fn, outcome)))
    case Finished(_, _) => None
  }

  // ---------------------------------------------------------------- the invariant

  ghost predicate OnlyExecutes(calls: seq<CCall>) { forall c <- calls :: c == CExecute }

  /** Executes, then one complete with the given action, then whatever `end` says. */
  ghost predicate CompletedWith(calls: seq<CCall>, action: Action, end: seq<CCall>) {
    exists n: nat :: n <= |calls| && OnlyExecutes(calls[..n]) && calls[n..] == [CComplete(action)] + end
  }

  /** What C has been asked once complete, or a cleanup instead of it, is over. */
  ghost predicate Settled(s: State, fn: FnResult, end: seq<CCall>) {
    s.closed && if s.handleIsNull then s.calls == [] else CompletedWith(s.calls, Requested(fn), end)
  }

  ghost predicate Open(s: State) { !s.closed && OnlyExecutes(s.calls) && (s.handleIsNull ==> s.calls == []) }

  ghost predicate DriverAgrees(s: State) {
    match s.driver
    case InFn => Open(s)
    case WantComplete(fn) => Open(s) && fn.FnReturn?
    case InComplete(fn) => Open(s) && fn.FnReturn? && s.holder.TheDriver?
    case AskedComplete(fn) =>
      fn.FnReturn? && s.holder.TheDriver? && !s.closed && !s.handleIsNull && CompletedWith(s.calls, Requested(fn), [])
    case WantCleanup(fn, outcome) => CleanupAgrees(s, fn, outcome)
    case InCleanup(fn, outcome) => CleanupAgrees(s, fn, outcome) && s.holder.TheDriver?
    case AskedCleanup(fn, outcome) =>
      && fn.FnPanic? && outcome.Panicked? && s.holder.TheDriver?
      && !s.closed && !s.handleIsNull && CompletedWith(s.calls, ROLLBACK, [])
    case Finished(fn, outcome) =>
      Settled(s, fn, if fn.FnPanic? then [CFree] else []) && OutcomeAgrees(s, fn, outcome)
  }

  ghost predicate CleanupAgrees(s: State, fn: FnResult, outcome: Outcome) {
    OutcomeAgrees(s, fn, outcome) && if fn.FnPanic? then Open(s) else Settled(s, fn, [])
  }

  ghost predicate OutcomeAgrees(s: State, fn: FnResult, outcome: Outcome) {
    if fn.FnPanic? then outcome.Panicked?
    else outcome == OutcomeOf(fn, s.reported) && (s.handleIsNull ==> s.reported.None?)
  }

  ghost predicate OneHolder(s: State) {
    && (s.holder.TheDriver? ==> s.driver.InComplete? || s.driver.AskedComplete? || s.driver.InCleanup? || s.driver.AskedCleanup?)
    && (forall x <- s.executors | s.executors[x].InExecute? || s.executors[x].AskedExecute? :: s.holder == AnExecutor(x))
    && (s.holder.AnExecutor? ==>
          s.holder.id in s.executors && (s.executors[s.holder.id].InExecute? || s.executors[s.holder.id].AskedExecute?))
  }

  ghost predicate NothingReportedYet(s: State) {
    s.driver.InFn? || s.driver.WantComplete? || s.driver.InComplete? ==> s.reported.None?
  }

  ghost predicate Inv(s: State) { DriverAgrees(s) && OneHolder(s) && NothingReportedYet(s) }

  lemma {:induction false} CompletesAfter(calls: seq<CCall>, action: Action)
    requires OnlyExecutes(calls)
    ensures CompletedWith(calls + [CComplete(action)], action, [])
  {
    var n := |calls|;
    assert (calls + [CComplete(action)])[..n] == calls;
    assert (calls + [CComplete(action)])[n..] == [CComplete(action)] + [];
  }

  lemma {:induction false} FreesAfter(calls: seq<CCall>, action: Action)
    requires CompletedWith(calls, action, [])
    ensures CompletedWith(calls + [CFree], action, [CFree])
  {
    var n: nat :| n <= |calls| && OnlyExecutes(calls[..n]) && calls[n..] == [CComplete(action)] + [];
    assert (calls + [CFree])[..n] == calls[..n];
    assert (calls + [CFree])[n..] == calls[n..] + [CFree] == [CComplete(action)] + [CFree];
  }

  lemma {:induction false} DriveKeepsInv(s: State, answer: Option<Action>)
    requires Inv(s) && DriveStep(s, answer).Some?
    ensures Inv(DriveStep(s, answer).value)
  {
    match s.driver
    case InComplete(fn) => if !s.handleIsNull { CompletesAfter(s.calls, Requested(fn)); }
    case InCleanup(fn, _) => if !s.closed { CompletesAfter(s.calls, ROLLBACK); }
    case AskedCleanup(_, _) => FreesAfter(s.calls, ROLLBACK);
    case _ =>
  }

  lemma {:induction false} ExecuteKeepsInv(s: State, x: nat, encodes: bool)
    requires Inv(s) && x in s.executors && ExecuteStep(s, x, encodes).Some?
    ensures Inv(ExecuteStep(s, x, encodes).value)
  {}

  lemma {:induction false} StepKeepsInv(s: State, e: Event)
    requires Inv(s) && Next(s, e).Some?
    ensures Inv(Next(s, e).value)
  {
    match e
    case Drive(answer) => DriveKeepsInv(s, answer);
    case Execute(x, encodes) => ExecuteKeepsInv(s, x, encodes);
    case _ =>
  }

  lemma {:induction false} InvHolds(handleIsNull: bool, events: seq<Event>)
    requires Run(Begun(handleIsNull), Next, events).Some?
    ensures Inv(Run(Begun(handleIsNull), Next, events).value)
    ensures Run(Begun(handleIsNull), Next, events).value.handleIsNull == handleIsNull
  {
    var inv := (s: State) => Inv(s) && s.handleIsNull == handleIsNull;
    forall s, e | inv(s) && Next(s, e).Some? ensures inv(Next(s, e).value) { StepKeepsInv(s, e); }
    Invariance(Begun(handleIsNull), Next, inv, events);
  }

  // ---------------------------------------------------------------- what C and the caller see

  /** At most one complete, only a free after it, and a free only right after it. */
  ghost predicate WellOrdered(calls: seq<CCall>) {
    && (forall i, j | 0 <= i < j < |calls| && calls[i].CComplete? :: calls[j].CFree?)
    && (forall j | 0 <= j < |calls| && calls[j].CFree? :: j == |calls| - 1 && 0 < j && calls[j - 1].CComplete?)
  }

  lemma {:induction false} CompletedIsWellOrdered(calls: seq<CCall>, action: Action, end: seq<CCall>)
    requires CompletedWith(calls, action, end) && (end == [] || end == [CFree])
    ensures WellOrdered(calls)
  {
    var n: nat :| n <= |calls| && OnlyExecutes(calls[..n]) && calls[n..] == [CComplete(action)] + end;
    forall i | 0 <= i < n ensures calls[i] == CExecute { assert calls[..n][i] in calls[..n]; }
    forall i | n <= i < |calls| ensures calls[i] == ([CComplete(action)] + end)[i - n] { assert calls[n..][i - n] == calls[i]; }
  }

  /** In every reachable state, whatever the user function and its goroutines do, C has seen a well-ordered list of calls. */
  lemma {:induction false} CallsAreWellOrdered(handleIsNull: bool, events: seq<Event>)
    requires Run(Begun(handleIsNull), Next, events).Some?
    ensures WellOrdered(Run(Begun(handleIsNull), Next, events).value.calls)
  {
    InvHolds(handleIsNull, events);
    var s := Run(Begun(handleIsNull), Next, events).value;
    if OnlyExecutes(s.calls) {
      forall i | 0 <= i < |s.calls| ensures s.calls[i] == CExecute { assert s.calls[i] in s.calls; }
    } else {
      match s.driver
      case AskedComplete(fn) => CompletedIsWellOrdered(s.calls, Requested(fn), []);
      case WantCleanup(fn, _) => CompletedIsWellOrdered(s.calls, Requested(fn), []);
      case InCleanup(fn, _) => CompletedIsWellOrdered(s.calls, Requested(fn), []);
      case AskedCleanup(fn, _) => CompletedIsWellOrdered(s.calls, ROLLBACK, []);
      case Finished(fn, _) => CompletedIsWellOrdered(s.calls, Requested(fn), if fn.FnPanic? then [CFree] else []);
    }
  }

  lemma {:induction false} FreeOnlyAtTheEnd(calls: seq<CCall>, action: Action, end: seq<CCall>)
    requires CompletedWith(calls, action, end)
    ensures CFree in calls <==> CFree in end
  {
    var n: nat :| n <= |calls| && OnlyExecutes(calls[..n]) && calls[n..] == [CComplete(action)] + end;
    assert calls == calls[..n] + ([CComplete(action)] + end);
    assert CFree !in calls[..n];
  }

  /**
   When Store.Transaction is over, C has been asked once to complete: with the action that the
   user function returned without an error, and with a rollback if it failed or panicked. The
   handle has been freed if and only if the function panicked.
   */
  lemma {:induction false} FinishedCalls(events: seq<Event>)
    requires Run(Begun(false), Next, events).Some?
    requires Run(Begun(false), Next, events).value.driver.Finished?
    ensures var s := Run(Begun(false), Next, events).value;
            var fn := s.driver.fn;
            && CompletedWith(s.calls, if fn.FnReturn? && !fn.err then fn.action else ROLLBACK, if fn.FnPanic? then [CFree] else [])
            && (CFree in s.calls <==> fn.FnPanic?)
  {
    InvHolds(false, events);
    var s := Run(Begun(false), Next, events).value;
    var fn := s.driver.fn;
    FreeOnlyAtTheEnd(s.calls, Requested(fn), if fn.FnPanic? then [CFree] else []);
  }

  /**
   What the caller gets: a panic if and only if the user function panicked; an error, always
   with a rollback, if the function failed or C could not complete; otherwise no error, and
   the very action that C reported.
   */
  lemma {:induction false} FinishedOutcome(events: seq<Event>)
    requires Run(Begun(false), Next, events).Some?
    requires Run(Begun(false), Next, events).value.driver.Finished?
    ensures var s := Run(Begun(false), Next, events).value;
            var fn, outcome := s.driver.fn, s.driver.outcome;
            && (outcome.Panicked? <==> fn.FnPanic?)
            && (outcome.Returned? ==> (outcome.err <==> fn.err || s.reported.None?))
            && (outcome.Returned? ==> if outcome.err then outcome.action == ROLLBACK else s.reported == Some(outcome.action))
  {
    InvHolds(false, events);
  }

  /** After a begin that succeeded with a null pointer, C hears nothing more and no error-free outcome is possible. */
  lemma {:induction false} NullHandleIsNeverUsed(events: seq<Event>)
    requires Run(Begun(true), Next, events).Some?
    ensures var s := Run(Begun(true), Next, events).value;
            s.calls == [] && (s.driver.Finished? && s.driver.outcome.Returned? ==> s.driver.outcome.err)
  {
    InvHolds(true, events);
  }

  /** While C works on a complete, or once the transaction is closed, no Execute reaches C. */
  lemma {:induction false} NoExecuteOnceCompleting(handleIsNull: bool, events: seq<Event>, e: Event)
    requires Run(Begun(handleIsNull), Next, events).Some?
    requires var s := Run(Begun(handleIsNull), Next, events).value;
             Next(s, e).Some? && (s.closed || exists a :: CComplete(a) in s.calls)
    ensures var s := Run(Begun(handleIsNull), Next, events).value; e.Execute? ==> Next(s, e).value.calls == s.calls
  {
    InvHolds(handleIsNull, events);
    Extend(Begun(handleIsNull), Next, events, Run(Begun(handleIsNull), Next, events).value, e);
  }

  /** Once the user function has ended, nobody is needed but C's answers: some step is always possible until it is over. */
  lemma {:induction false} NeverStuck(handleIsNull: bool, events: seq<Event>, answer: Option<Action>) returns (e: Event)
    requires Run(Begun(handleIsNull), Next, events).Some?
    requires var s := Run(Begun(handleIsNull), Next, events).value; !s.driver.InFn? && !s.driver.Finished?
    ensures Next(Run(Begun(handleIsNull), Next, events).value, e).Some?
    ensures e == Drive(answer) || (e.Execute? && Run(Begun(handleIsNull), Next, events).value.holder == AnExecutor(e.executor))
  {
    InvHolds(handleIsNull, events);
    var s := Run(Begun(handleIsNull), Next, events).value;
    e := if s.holder.AnExecutor? then Execute(s.holder.id, true) else Drive(answer);
  }

  /** An uninterrupted Execute reaches C if and only if the transaction is open, has a handle, and the arguments encode. */
  lemma {:induction false} ExecuteAlone(s: State, x: nat, encodes: bool) returns (events: seq<Event>)
    requires x !in s.executors && s.holder.Nobody?
    ensures Run(s, Next, events) ==
            Some(s.(executors := s.executors[x := Executed],
                    calls := if !s.closed && !s.handleIsNull && encodes then s.calls + [CExecute] else s.calls))
  {
    var e := Event.Execute(x, encodes);
    var s1 := s.(executors := s.executors[x := WantExecute]);
    var s2 := s.(holder := AnExecutor(x), executors := s.executors[x := InExecute]);
    assert Next(s1, e) == Some(s2) by { assert s1.executors[x := InExecute] == s2.executors; }
    Extend(s, Next, [], s, Spawn(x));
    Extend(s, Next, [] + [Spawn(x)], s1, e);
    Extend(s, Next, [] + [Spawn(x)] + [e], s2, e);
    events := [] + [Spawn(x)] + [e] + [e];
    var s3 := Next(s2, e).value;
    if !s.closed && !s.handleIsNull && encodes {
      Extend(s, Next, events, s3, e);
      events := events + [e];
      assert Next(s3, e).value.executors == s.executors[x := Executed];
    } else {
      assert s3.executors == s.executors[x := Executed];
    }
  }
}
